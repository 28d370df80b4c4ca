/** src/variables.js: the variable declarations the adapter registers with the host (a
    fixed server-wide block plus one block per listed service) and the values it sets
    alongside them (counts, server values, per-service values). */
module Registry {
  import opened Wrappers
  import opened Text
  import opened JsValues
  import opened Telemetry
  import opened VarIds
  import opened Formatter
  import opened IdParse
  import opened Projection
  import ServiceProps
  import ServerProps

  /** One declaration: display name and variable id. */
  datatype VarDef = VarDef(name: string, variableId: string)

  function SystemDef(f: SystemField): VarDef {
    VarDef(SystemLabel(f), SystemKey(f))
  }

  /** `{ name: `${serviceName} <caption>`, variableId: `service_${safeName}_<suffix>` }`. */
  function ServiceDef(s: Service, f: ServiceField): VarDef {
    VarDef(s.serviceName + " " + ServiceCaption(f), ServiceKey(Sanitize(s.serviceName), f))
  }

  function SystemDefs(fs: seq<SystemField>): (ds: seq<VarDef>)
    ensures |ds| == |fs| && forall i :: 0 <= i < |fs| ==> ds[i] == SystemDef(fs[i])
  {
    seq(|fs|, i requires 0 <= i < |fs| => SystemDef(fs[i]))
  }

  function ServiceDefs(s: Service, fs: seq<ServiceField>): (ds: seq<VarDef>)
    ensures |ds| == |fs| && forall i :: 0 <= i < |fs| ==> ds[i] == ServiceDef(s, fs[i])
  {
    seq(|fs|, i requires 0 <= i < |fs| => ServiceDef(s, fs[i]))
  }

  /** The per-service blocks, one after the other in list order. */
  function AllServiceDefs(services: seq<Service>): seq<VarDef>
    decreases |services|
  {
    if services == [] then []
    else AllServiceDefs(services[..|services| - 1]) + ServiceDefs(services[|services| - 1], ServiceFieldOrder())
  }

  /** Everything handed to setVariableDefinitions. */
  function Definitions(services: seq<Service>): seq<VarDef> {
    SystemDefs(FixedFields()) + AllServiceDefs(services)
  }

  lemma SystemDefsConcat(a: seq<SystemField>, b: seq<SystemField>)
    ensures SystemDefs(a + b) == SystemDefs(a) + SystemDefs(b)
  {
  }

  lemma ServiceDefsConcat(s: Service, a: seq<ServiceField>, b: seq<ServiceField>)
    ensures ServiceDefs(s, a + b) == ServiceDefs(s, a) + ServiceDefs(s, b)
  {
  }

  lemma Assoc<T>(a: seq<T>, b: seq<T>, c: seq<T>)
    ensures a + (b + c) == a + b + c
  {
  }

  /** The source blocks for source indexes 0 to k - 1 (`sourceIdx === 0 ? 'primary' : 'secondary'`). */
  function SourceBlocks(k: nat): seq<ServiceField> {
    if k == 0 then [] else SourceBlocks(k - 1) + SourceBlock(SlotOf(k - 1))
  }

  /** Pushing the blocks in the order of the source gives the per-service block. */
  lemma ServiceFieldOrderAssembled()
    ensures BasicBlock() + InputBlock() + SourceBlocks(2) + DecodeBlock() + VideoBlock()
            + AudioBlocks(AudioSlots) + OutputBlock() == ServiceFieldOrder()
  {
    var p, q := SourceBlock(Primary), SourceBlock(Secondary);
    assert SourceBlocks(1) == p by { assert [] + p == p; }
    var head := BasicBlock() + InputBlock();
    Assoc(head, p, q);
  }

  /** Pushing the blocks in the order of the source gives the fixed block. */
  lemma FixedFieldsAssembled()
    ensures ServerBlock() + CountBlock() + SdiBlocks(SdiPorts) + PcieBlocks(PcieSlots) == FixedFields()
  {
  }

  // ------------------------------------------------------------ registering the declarations

  /** The declarations of one service, pushed block by block as the source does. */
  method ServiceBlock(s: Service) returns (ds: seq<VarDef>)
    ensures ds == ServiceDefs(s, ServiceFieldOrder())
  {
    ghost var fields := BasicBlock() + InputBlock();
    ds := ServiceDefs(s, BasicBlock()) + ServiceDefs(s, InputBlock());
    ServiceDefsConcat(s, BasicBlock(), InputBlock());
    ghost var head := fields;
    for idx := 0 to 2
      invariant fields == head + SourceBlocks(idx)
      invariant ds == ServiceDefs(s, fields)
    {
      var block := SourceBlock(SlotOf(idx));
      ServiceDefsConcat(s, fields, block);
      Assoc(head, SourceBlocks(idx), block);
      ds := ds + ServiceDefs(s, block);
      fields := fields + block;
    }
    ServiceDefsConcat(s, fields, DecodeBlock());
    ds := ds + ServiceDefs(s, DecodeBlock());
    fields := fields + DecodeBlock();
    ServiceDefsConcat(s, fields, VideoBlock());
    ds := ds + ServiceDefs(s, VideoBlock());
    fields := fields + VideoBlock();
    ghost var mid := fields;
    for a := 1 to 9
      invariant fields == mid + AudioBlocks(a - 1)
      invariant ds == ServiceDefs(s, fields)
    {
      var block := AudioBlock(a);
      ServiceDefsConcat(s, fields, block);
      Assoc(mid, AudioBlocks(a - 1), block);
      ds := ds + ServiceDefs(s, block);
      fields := fields + block;
    }
    ServiceDefsConcat(s, fields, OutputBlock());
    ds := ds + ServiceDefs(s, OutputBlock());
    fields := fields + OutputBlock();
    ServiceFieldOrderAssembled();
  }

  /** The fixed declarations: server block, counts, SDI ports 0..4, PCIe slots 0..3. */
  method FixedDefinitions() returns (defs: seq<VarDef>)
    ensures defs == SystemDefs(FixedFields())
  {
    ghost var fields := ServerBlock() + CountBlock();
    defs := SystemDefs(ServerBlock()) + SystemDefs(CountBlock());
    SystemDefsConcat(ServerBlock(), CountBlock());
    ghost var head := fields;
    for i := 0 to 5
      invariant fields == head + SdiBlocks(i)
      invariant defs == SystemDefs(fields)
    {
      var block := SdiBlock(i);
      SystemDefsConcat(fields, block);
      Assoc(head, SdiBlocks(i), block);
      defs := defs + SystemDefs(block);
      fields := fields + block;
    }
    ghost var mid := fields;
    for i := 0 to 4
      invariant fields == mid + PcieBlocks(i)
      invariant defs == SystemDefs(fields)
    {
      var block := [Pcie(i, Desc), Pcie(i, Part)];
      SystemDefsConcat(fields, block);
      Assoc(mid, PcieBlocks(i), block);
      defs := defs + SystemDefs(block);
      fields := fields + block;
    }
    FixedFieldsAssembled();
  }

  /** The declaration list: the fixed declarations, then one block per listed service. */
  method RegisterDefinitions(services: seq<Service>) returns (defs: seq<VarDef>)
    ensures defs == Definitions(services)
  {
    defs := FixedDefinitions();
    for k := 0 to |services|
      invariant defs == SystemDefs(FixedFields()) + AllServiceDefs(services[..k])
    {
      var block := ServiceBlock(services[k]);
      AllServiceDefsSnoc(services, k);
      Assoc(SystemDefs(FixedFields()), AllServiceDefs(services[..k]), block);
      defs := defs + block;
    }
    assert services[..|services|] == services;
  }

  lemma AllServiceDefsSnoc(services: seq<Service>, k: nat)
    requires k < |services|
    ensures AllServiceDefs(services[..k + 1]) == AllServiceDefs(services[..k]) + ServiceDefs(services[k], ServiceFieldOrder())
  {
    assert services[..k + 1][..k] == services[..k];
  }

  // ------------------------------------------------------------ what is declared

  /** 47 fixed declarations and 118 per service. */
  lemma {:induction false} DefinitionsLength(services: seq<Service>)
    ensures |Definitions(services)| == 47 + 118 * |services|
  {
    FixedFieldsLength();
    AllServiceDefsLength(services);
  }

  lemma {:induction false} AllServiceDefsLength(services: seq<Service>)
    ensures |AllServiceDefs(services)| == 118 * |services|
    decreases |services|
  {
    ServiceFieldOrderLength();
    if services != [] {
      AllServiceDefsLength(services[..|services| - 1]);
    }
  }

  lemma ServiceDefsMember(s: Service, fs: seq<ServiceField>, d: VarDef)
    ensures d in ServiceDefs(s, fs) <==> exists f :: f in fs && d == ServiceDef(s, f)
  {
    if exists f :: f in fs && d == ServiceDef(s, f) {
      var f :| f in fs && d == ServiceDef(s, f);
      var i :| 0 <= i < |fs| && fs[i] == f;
      assert ServiceDefs(s, fs)[i] == d;
    }
  }

  lemma ServiceDefIn(s: Service, fs: seq<ServiceField>, f: ServiceField)
    requires f in fs
    ensures ServiceDef(s, f) in ServiceDefs(s, fs)
  {
    var i :| 0 <= i < |fs| && fs[i] == f;
    assert ServiceDefs(s, fs)[i] == ServiceDef(s, f);
  }

  /** The per-service blocks hold exactly the declared fields of the listed services. */
  lemma AllServiceDefsMember(services: seq<Service>, d: VarDef)
    ensures d in AllServiceDefs(services)
            <==> exists k, f :: 0 <= k < |services| && ServiceDeclared(f) && d == ServiceDef(services[k], f)
  {
    if d in AllServiceDefs(services) {
      AllServiceDefsSound(services, d);
    }
    if exists k, f :: 0 <= k < |services| && ServiceDeclared(f) && d == ServiceDef(services[k], f) {
      var k, f :| 0 <= k < |services| && ServiceDeclared(f) && d == ServiceDef(services[k], f);
      AllServiceDefsComplete(services, k, f);
    }
  }

  lemma {:induction false} AllServiceDefsSound(services: seq<Service>, d: VarDef)
    requires d in AllServiceDefs(services)
    ensures exists k, f :: 0 <= k < |services| && ServiceDeclared(f) && d == ServiceDef(services[k], f)
    decreases |services|
  {
    var init := services[..|services| - 1];
    var last := services[|services| - 1];
    var fs := ServiceFieldOrder();
    assert AllServiceDefs(services) == AllServiceDefs(init) + ServiceDefs(last, fs);
    if d in AllServiceDefs(init) {
      AllServiceDefsSound(init, d);
      var k, f :| 0 <= k < |init| && ServiceDeclared(f) && d == ServiceDef(init[k], f);
      assert services[k] == init[k];
    } else {
      var i :| 0 <= i < |fs| && ServiceDefs(last, fs)[i] == d;
      ServiceFieldOrderMember(fs[i]);
      assert 0 <= |services| - 1 < |services| && ServiceDeclared(fs[i]) && d == ServiceDef(services[|services| - 1], fs[i]);
    }
  }

  lemma {:induction false} AllServiceDefsComplete(services: seq<Service>, k: nat, f: ServiceField)
    requires k < |services| && ServiceDeclared(f)
    ensures ServiceDef(services[k], f) in AllServiceDefs(services)
    decreases |services|
  {
    var init := services[..|services| - 1];
    var last := services[|services| - 1];
    var fs := ServiceFieldOrder();
    assert AllServiceDefs(services) == AllServiceDefs(init) + ServiceDefs(last, fs);
    if k < |init| {
      AllServiceDefsComplete(init, k, f);
      assert init[k] == services[k];
    } else {
      assert services[k] == last;
      ServiceFieldOrderMember(f);
      ServiceDefIn(last, fs, f);
    }
  }

  /** A declaration is a declared server-wide field, or a declared field of a listed
      service (audio 1..8, SDI ports 0..4, PCIe slots 0..3), and each of these is declared. */
  lemma DefinitionsMember(services: seq<Service>, d: VarDef)
    ensures d in Definitions(services)
            <==> (exists f :: SystemDeclared(f) && d == SystemDef(f))
                 || (exists k, f :: 0 <= k < |services| && ServiceDeclared(f) && d == ServiceDef(services[k], f))
  {
    AllServiceDefsMember(services, d);
    SystemDefsMember(d);
  }

  /** The server-wide definitions are those of the declared server-wide ids. */
  lemma SystemDefsMember(d: VarDef)
    ensures d in SystemDefs(FixedFields()) <==> exists f :: SystemDeclared(f) && d == SystemDef(f)
  {
    var fixed := SystemDefs(FixedFields());
    if d in fixed {
      var i :| 0 <= i < |fixed| && fixed[i] == d;
      FixedFieldsMember(FixedFields()[i]);
    }
    if exists f :: SystemDeclared(f) && d == SystemDef(f) {
      var f :| SystemDeclared(f) && d == SystemDef(f);
      FixedFieldsMember(f);
      var i :| 0 <= i < |FixedFields()| && FixedFields()[i] == f;
      assert fixed[i] == d;
    }
  }

  /** The ids the host knows about. */
  predicate Declared(services: seq<Service>, key: string) {
    exists d :: d in Definitions(services) && d.variableId == key
  }

  /** A service variable id never reads like a server-wide one: the former start with
      "servi", none of the latter do. */
  lemma ServiceKeyNotSystem(safe: string, f: ServiceField, g: SystemField)
    ensures ServiceKey(safe, f) != SystemKey(g)
  {
    var a := ServiceKey(safe, f);
    assert a[0] == 's' && a[1] == 'e' && a[4] == 'i';
    var b := SystemKey(g);
    assert |b| >= 5 && (b[0] != 's' || b[1] != 'e' || b[4] != 'i');
  }

  /** Every id updateServiceVariables writes for a listed service is declared, provided the
      status reports at most eight audio streams. */
  lemma ServiceVarsDeclared(services: seq<Service>, k: nat, st: ServiceStatus, key: string)
    requires k < |services| && AudioCount(st) <= 8
    requires key in ServiceVars(Sanitize(services[k].serviceName), st)
    ensures Declared(services, key)
  {
    var safe := Sanitize(services[k].serviceName);
    var ws := ServiceWrites(st);
    PutKeys(map[], SvcKey(safe), ws, key);
    var i :| 0 <= i < |ws| && SvcKey(safe)(ws[i].0) == key;
    ServiceProps.ServiceWritesDeclared(st);
    var f := ws[i].0;
    assert ServiceDeclared(f);
    DefinitionsMember(services, ServiceDef(services[k], f));
  }

  /** The server-wide ids getServerStatus writes are all declared exactly when the receiver
      reports at most five SDI ports and at most four PCIe slots. */
  lemma ServerVarsDeclared(services: seq<Service>, ss: ServerStatus)
    ensures (forall key :: key in ServerVars(ss, services) ==> Declared(services, key))
            <==> ServerProps.SdiCount(ss) <= 5 && ServerProps.SlotCount(ss) <= 4
  {
    var ws := ServerWrites(ss, services);
    ServerProps.ServerWritesDeclared(ss, services);
    if ServerProps.SdiCount(ss) <= 5 && ServerProps.SlotCount(ss) <= 4 {
      forall key | key in ServerVars(ss, services)
        ensures Declared(services, key)
      {
        PutKeys(map[], SystemKey, ws, key);
        var i :| 0 <= i < |ws| && SystemKey(ws[i].0) == key;
        DefinitionsMember(services, SystemDef(ws[i].0));
      }
    } else {
      var i :| 0 <= i < |ws| && !SystemDeclared(ws[i].0);
      PutKeys(map[], SystemKey, ws, SystemKey(ws[i].0));
      SystemKeyUndeclared(services, ws[i].0);
    }
  }

  /** The id of an undeclared server-wide field is not declared under any name. */
  lemma SystemKeyUndeclared(services: seq<Service>, g: SystemField)
    requires !SystemDeclared(g)
    ensures !Declared(services, SystemKey(g))
  {
    if Declared(services, SystemKey(g)) {
      var d :| d in Definitions(services) && d.variableId == SystemKey(g);
      DefinitionsMember(services, d);
      if exists f :: SystemDeclared(f) && d == SystemDef(f) {
        var f :| SystemDeclared(f) && d == SystemDef(f);
        SystemKeyInjective(f, g);
      } else {
        var k, f :| 0 <= k < |services| && ServiceDeclared(f) && d == ServiceDef(services[k], f);
        ServiceKeyNotSystem(Sanitize(services[k].serviceName), f, g);
      }
    }
  }

  // ------------------------------------------------------------ the values set with them

  /** What src/variables.js sets for one listed service: its list entry's fields, then,
      when a status is stored under its name, the same writes updateServiceVariables makes. */
  function ServiceValueWrites(s: Service, statuses: map<string, ServiceStatus>): seq<SvcWrite> {
    InfoWrites(s) + (if s.serviceName in statuses then ServiceWrites(statuses[s.serviceName]) else [])
  }

  /** The per-service values, service after service, into one dictionary. */
  function ServiceValues(m: map<string, Value>, services: seq<Service>, statuses: map<string, ServiceStatus>): map<string, Value>
    decreases |services|
  {
    if services == [] then m
    else
      var s := services[|services| - 1];
      PutSvc(ServiceValues(m, services[..|services| - 1], statuses), Sanitize(s.serviceName), ServiceValueWrites(s, statuses))
  }

  /** The dictionary src/variables.js hands to setVariableValues: counts, server values,
      then per-service values. */
  function RegistryValues(services: seq<Service>, statuses: map<string, ServiceStatus>, ss: ServerStatus): map<string, Value> {
    ServiceValues(PutSys(map[], CountWrites(services) + ServerWrites(ss, services)), services, statuses)
  }

  method ComputeValues(services: seq<Service>, statuses: map<string, ServiceStatus>, ss: ServerStatus)
    returns (values: map<string, Value>)
    ensures values == RegistryValues(services, statuses, ss)
  {
    values := SetCounts(services);
    values := FillServerVars(values, ss, services);
    PutConcat(map[], SystemKey, CountWrites(services), ServerWrites(ss, services));
    values := SetServiceValues(values, services, statuses);
  }

  /** The four counts, set first. */
  method SetCounts(services: seq<Service>) returns (values: map<string, Value>)
    ensures values == PutSys(map[], CountWrites(services))
  {
    values := map[];
    values := values["total_services" := Num(|services|)];
    values := values["running_services" := Num(|Filter(services, (s: Service) => s.state == "started")|)];
    values := values["stopped_services" := Num(|Filter(services, (s: Service) => s.state == "stopped")|)];
    values := values["blocked_services" := Num(0)];
    var cw := CountWrites(services);
    PutSnoc(map[], SystemKey, cw[..3], cw[3]);
    PutSnoc(map[], SystemKey, cw[..2], cw[2]);
    PutSnoc(map[], SystemKey, cw[..1], cw[1]);
    PutSnoc(map[], SystemKey, [], cw[0]);
    assert cw[..3][..2] == cw[..2];
    assert cw[..2][..1] == cw[..1];
    assert [] + [cw[0]] == cw[..1];
    assert cw[..3] + [cw[3]] == cw;
  }

  /** Each listed service's values in list order: its list entry's fields, then its stored
      status's values when there is one. */
  method SetServiceValues(base: map<string, Value>, services: seq<Service>, statuses: map<string, ServiceStatus>)
    returns (values: map<string, Value>)
    ensures values == ServiceValues(base, services, statuses)
  {
    values := base;
    for k := 0 to |services|
      invariant values == ServiceValues(base, services[..k], statuses)
    {
      values := SetServiceEntry(values, services[k], statuses);
      ServiceValuesStep(base, services, statuses, k);
    }
    assert services[..|services|] == services;
  }

  lemma ServiceValuesStep(m: map<string, Value>, services: seq<Service>, statuses: map<string, ServiceStatus>, k: nat)
    requires k < |services|
    ensures ServiceValues(m, services[..k + 1], statuses)
            == PutSvc(ServiceValues(m, services[..k], statuses), Sanitize(services[k].serviceName),
                      ServiceValueWrites(services[k], statuses))
  {
    assert services[..k + 1][..k] == services[..k];
  }

  /** One listed service's values: the four fields of its list entry, then its stored
      status's values when there is one. */
  method SetServiceEntry(values: map<string, Value>, s: Service, statuses: map<string, ServiceStatus>)
    returns (next: map<string, Value>)
    ensures next == PutSvc(values, Sanitize(s.serviceName), ServiceValueWrites(s, statuses))
  {
    var safe := Sanitize(s.serviceName);
    next := values[ServiceKey(safe, State) := Str(s.state)];
    next := next[ServiceKey(safe, SvcType) := Str(s.serviceType)];
    next := next[ServiceKey(safe, Id) := Str(s.serviceId)];
    next := next[ServiceKey(safe, StateModified) := Str(OrStr(s.stateModifiedAt, ""))];
    InfoValues(values, safe, s);
    if s.serviceName in statuses {
      next := FillServiceVars(next, safe, statuses[s.serviceName]);
    }
    PutConcat(values, SvcKey(safe), InfoWrites(s),
              if s.serviceName in statuses then ServiceWrites(statuses[s.serviceName]) else []);
  }

  /** The four assignments of a list entry's fields are the fold of InfoWrites. */
  lemma InfoValues(m: map<string, Value>, safe: string, s: Service)
    ensures PutSvc(m, safe, InfoWrites(s))
            == m[ServiceKey(safe, State) := Str(s.state)][ServiceKey(safe, SvcType) := Str(s.serviceType)]
                [ServiceKey(safe, Id) := Str(s.serviceId)]
                [ServiceKey(safe, StateModified) := Str(OrStr(s.stateModifiedAt, ""))]
  {
    var ws := InfoWrites(s);
    var key := SvcKey(safe);
    PutSnoc(m, key, [], ws[0]);
    PutSnoc(m, key, ws[..1], ws[1]);
    PutSnoc(m, key, ws[..2], ws[2]);
    PutSnoc(m, key, ws[..3], ws[3]);
    assert [] + [ws[0]] == ws[..1];
    assert ws[..1] + [ws[1]] == ws[..2];
    assert ws[..2] + [ws[2]] == ws[..3];
    assert ws[..3] + [ws[3]] == ws;
  }

  // ------------------------------------------------------------ properties of the values

  /** Server-wide ids are never touched by the per-service values. */
  lemma {:induction false} ServiceValuesKeepSystem(m: map<string, Value>, services: seq<Service>,
                                                   statuses: map<string, ServiceStatus>, g: SystemField)
    ensures SystemKey(g) in ServiceValues(m, services, statuses) <==> SystemKey(g) in m
    ensures SystemKey(g) in m ==> ServiceValues(m, services, statuses)[SystemKey(g)] == m[SystemKey(g)]
    decreases |services|
  {
    if services != [] {
      var s := services[|services| - 1];
      var safe := Sanitize(s.serviceName);
      var ws := ServiceValueWrites(s, statuses);
      ServiceValuesKeepSystem(m, services[..|services| - 1], statuses, g);
      forall i | 0 <= i < |ws|
        ensures SvcKey(safe)(ws[i].0) != SystemKey(g)
      {
        ServiceKeyNotSystem(safe, ws[i].0, g);
      }
      PutUntouched(ServiceValues(m, services[..|services| - 1], statuses), SvcKey(safe), ws, SystemKey(g));
    }
  }

  /** The server writes never touch the four counts. */
  lemma ServerAvoidsCounts(ss: ServerStatus, services: seq<Service>, g: SystemField)
    requires g in CountBlock()
    ensures LastWrite(ServerWrites(ss, services), g) == None
  {
    var ws := ServerWrites(ss, services);
    ServerProps.ServerWritesFields(ss, services);
    SdiBlocksMember(ServerProps.SdiCount(ss), g);
    PcieBlocksMember(ServerProps.SlotCount(ss), g);
    forall i | 0 <= i < |ws|
      ensures ws[i].0 != g
    {
      assert SysFields(ws)[i] in ServerBlock() + SdiBlocks(ServerProps.SdiCount(ss)) + PcieBlocks(ServerProps.SlotCount(ss));
    }
    LastWriteSome(ws, g);
  }

  /** The count of one id in the values: the write in CountWrites at position j. */
  lemma CountValue(services: seq<Service>, statuses: map<string, ServiceStatus>, ss: ServerStatus, j: nat)
    requires j < 4
    ensures SystemKey(CountBlock()[j]) in RegistryValues(services, statuses, ss)
    ensures RegistryValues(services, statuses, ss)[SystemKey(CountBlock()[j])] == CountWrites(services)[j].1
  {
    var g := CountBlock()[j];
    var cw := CountWrites(services);
    var sw := ServerWrites(ss, services);
    ServerAvoidsCounts(ss, services, g);
    LastWriteAt(cw, g, j);
    LastWriteConcat(cw, sw, g);
    ServerProps.SysLookup(map[], cw + sw, g);
    ServiceValuesKeepSystem(PutSys(map[], cw + sw), services, statuses, g);
  }

  /** total = list length, running = started services, stopped = stopped services,
      blocked = 0; running + stopped never exceeds total. */
  lemma CountValues(services: seq<Service>, statuses: map<string, ServiceStatus>, ss: ServerStatus)
    ensures CountIs(RegistryValues(services, statuses, ss), TotalServices, |services|)
    ensures CountIs(RegistryValues(services, statuses, ss), RunningServices, CountStarted(services))
    ensures CountIs(RegistryValues(services, statuses, ss), StoppedServices, CountStopped(services))
    ensures CountIs(RegistryValues(services, statuses, ss), BlockedServices, 0)
    ensures CountStarted(services) + CountStopped(services) <= |services|
  {
    CountValue(services, statuses, ss, 0);
    CountValue(services, statuses, ss, 1);
    CountValue(services, statuses, ss, 2);
    CountValue(services, statuses, ss, 3);
    ServerProps.CountsBounded(services);
  }

  /** The dictionary holds `n` under the count `g`'s id. */
  predicate CountIs(values: map<string, Value>, g: SystemField, n: int) {
    SystemKey(g) in values && values[SystemKey(g)] == Num(n)
  }

  /** The fields taken from the list entry rather than from a status. */
  predicate InfoField(f: ServiceField) {
    f.State? || f.SvcType? || f.Id? || f.StateModified?
  }

  /** For a detail field, the writes of one listed service end like updateServiceVariables'
      writes for its stored status, and there are none without a stored status. */
  lemma DetailLastWrite(s: Service, statuses: map<string, ServiceStatus>, f: ServiceField)
    requires !InfoField(f)
    ensures LastWrite(ServiceValueWrites(s, statuses), f)
            == if s.serviceName in statuses then LastWrite(ServiceWrites(statuses[s.serviceName]), f) else None
  {
    var info := InfoWrites(s);
    assert forall i :: 0 <= i < |info| ==> info[i].0 != f;
    LastWriteSome(info, f);
    LastWriteConcat(info, if s.serviceName in statuses then ServiceWrites(statuses[s.serviceName]) else [], f);
  }

  lemma {:induction false} ServiceValuesConcat(m: map<string, Value>, a: seq<Service>, b: seq<Service>,
                                               statuses: map<string, ServiceStatus>)
    ensures ServiceValues(m, a + b, statuses) == ServiceValues(ServiceValues(m, a, statuses), b, statuses)
    decreases |b|
  {
    if b == [] {
      assert a + b == a;
    } else {
      assert (a + b)[..|a + b| - 1] == a + b[..|b| - 1];
      ServiceValuesConcat(m, a, b[..|b| - 1], statuses);
    }
  }

  /** Services none of whose ids is `key` leave `key` as it was. */
  lemma {:induction false} ServiceValuesUntouched(m: map<string, Value>, services: seq<Service>,
                                                  statuses: map<string, ServiceStatus>, key: string)
    requires forall j, g :: 0 <= j < |services| ==> ServiceKey(Sanitize(services[j].serviceName), g) != key
    ensures key in ServiceValues(m, services, statuses) <==> key in m
    ensures key in m ==> ServiceValues(m, services, statuses)[key] == m[key]
    decreases |services|
  {
    if services != [] {
      var s := services[|services| - 1];
      var ws := ServiceValueWrites(s, statuses);
      ServiceValuesUntouched(m, services[..|services| - 1], statuses, key);
      assert forall i :: 0 <= i < |ws| ==> SvcKey(Sanitize(s.serviceName))(ws[i].0) != key;
      PutUntouched(ServiceValues(m, services[..|services| - 1], statuses), SvcKey(Sanitize(s.serviceName)), ws, key);
    }
  }

  /** When only service k can write `key` and the counts and server values do not, the
      values agree at `key` with service k's writes on top of the services before it. */
  lemma OwnWritesDecide(base: map<string, Value>, services: seq<Service>, statuses: map<string, ServiceStatus>,
                        k: nat, key: string)
    requires k < |services| && key !in base
    requires forall j, g :: 0 <= j < |services| && j != k ==> ServiceKey(Sanitize(services[j].serviceName), g) != key
    ensures key !in ServiceValues(base, services[..k], statuses)
    ensures var mid := PutSvc(ServiceValues(base, services[..k], statuses), Sanitize(services[k].serviceName),
                              ServiceValueWrites(services[k], statuses));
            && (key in ServiceValues(base, services, statuses) <==> key in mid)
            && (key in mid ==> ServiceValues(base, services, statuses)[key] == mid[key])
  {
    var s := services[k];
    var before, after := services[..k], services[k + 1..];
    assert services == before + [s] + after;
    ServiceValuesConcat(base, before + [s], after, statuses);
    ServiceValuesConcat(base, before, [s], statuses);
    assert ServiceValues(ServiceValues(base, before, statuses), [s], statuses)
           == PutSvc(ServiceValues(base, before, statuses), Sanitize(s.serviceName), ServiceValueWrites(s, statuses));
    assert forall j, g :: 0 <= j < |before| ==> ServiceKey(Sanitize(before[j].serviceName), g) != key by {
      forall j, g | 0 <= j < |before|
        ensures ServiceKey(Sanitize(before[j].serviceName), g) != key
      {
        assert before[j] == services[j];
      }
    }
    assert forall j, g :: 0 <= j < |after| ==> ServiceKey(Sanitize(after[j].serviceName), g) != key by {
      forall j, g | 0 <= j < |after|
        ensures ServiceKey(Sanitize(after[j].serviceName), g) != key
      {
        assert after[j] == services[k + 1 + j];
      }
    }
    ServiceValuesUntouched(base, before, statuses, key);
    var mid := PutSvc(ServiceValues(base, before, statuses), Sanitize(s.serviceName), ServiceValueWrites(s, statuses));
    ServiceValuesUntouched(mid, after, statuses, key);
  }

  /** No service id is among the counts and server values. */
  lemma ServiceKeyNotInBase(services: seq<Service>, ss: ServerStatus, safe: string, f: ServiceField)
    ensures ServiceKey(safe, f) !in PutSys(map[], CountWrites(services) + ServerWrites(ss, services))
  {
    var ws := CountWrites(services) + ServerWrites(ss, services);
    PutKeys(map[], SystemKey, ws, ServiceKey(safe, f));
    forall i | 0 <= i < |ws|
      ensures SystemKey(ws[i].0) != ServiceKey(safe, f)
    {
      ServiceKeyNotSystem(safe, f, ws[i].0);
    }
  }

  /** A service detail value is set only when a status is stored under the service's name,
      and then it is the value updateServiceVariables sets for that status — provided no
      other listed service has a variable with the same id. */
  lemma DetailValues(services: seq<Service>, statuses: map<string, ServiceStatus>, ss: ServerStatus,
                     k: nat, f: ServiceField)
    requires k < |services| && !InfoField(f)
    requires forall j, g :: 0 <= j < |services| && j != k
               ==> ServiceKey(Sanitize(services[j].serviceName), g) != ServiceKey(Sanitize(services[k].serviceName), f)
    ensures var safe := Sanitize(services[k].serviceName);
            var key := ServiceKey(safe, f);
            var name := services[k].serviceName;
            && (key in RegistryValues(services, statuses, ss)
                <==> name in statuses && key in ServiceVars(safe, statuses[name]))
            && (key in RegistryValues(services, statuses, ss)
                ==> RegistryValues(services, statuses, ss)[key] == ServiceVars(safe, statuses[name])[key])
  {
    var s := services[k];
    var safe := Sanitize(s.serviceName);
    var base := PutSys(map[], CountWrites(services) + ServerWrites(ss, services));
    ServiceKeyNotInBase(services, ss, safe, f);
    OwnWritesDecide(base, services, statuses, k, ServiceKey(safe, f));
    DetailLastWrite(s, statuses, f);
    ServiceProps.SvcLookup(ServiceValues(base, services[..k], statuses), safe, ServiceValueWrites(s, statuses), f);
    if s.serviceName in statuses {
      ServiceProps.SvcLookup(map[], safe, ServiceWrites(statuses[s.serviceName]), f);
    }
  }

  /** Ids of different services can coincide: a service called "x ts" and a service
      called "x" both own `service_x_ts_id`. */
  lemma SharedServiceId()
    ensures ServiceKey(Sanitize("x ts"), Id) == ServiceKey(Sanitize("x"), TsId)
  {
    SanitizeExamples();
    assert "service_" + "x_ts" + "_" + "id" == "service_" + "x" + "_" + "ts_id";
  }

  lemma SanitizeExamples()
    ensures Sanitize("x ts") == "x_ts" && Sanitize("x") == "x"
  {
  }
}
