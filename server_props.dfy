/** What getServerStatus (and the server part of src/variables.js) writes, stated over
    the write lists and over the dictionary they fill. */
module ServerProps {
  import opened Wrappers
  import opened JsValues
  import opened Telemetry
  import opened VarIds
  import opened IdParse
  import opened Projection

  /** The dictionary lookup of a server-wide variable: the last write to its field decides. */
  lemma SysLookup(m: map<string, Value>, ws: seq<SysWrite>, f: SystemField)
    ensures LastWrite(ws, f).Some? ==> SystemKey(f) in PutSys(m, ws)
                                        && PutSys(m, ws)[SystemKey(f)] == LastWrite(ws, f).value
    ensures LastWrite(ws, f).None? ==> (SystemKey(f) in PutSys(m, ws) <==> SystemKey(f) in m)
  {
    forall g: SystemField | SystemKey(g) == SystemKey(f)
      ensures g == f
    {
      SystemKeyInjective(g, f);
    }
    PutLookup(m, SystemKey, ws, f);
  }

  lemma SysFieldsConcat(a: seq<SysWrite>, b: seq<SysWrite>)
    ensures SysFields(a + b) == SysFields(a) + SysFields(b)
  {
  }

  // ------------------------------------------------------------ which ids are written

  /** Every SDI port writes its five ids, whatever its service lookup finds. */
  lemma PortWritesFields(idx: nat, p: SdiPort, services: seq<Service>)
    ensures SysFields(PortWrites(idx, p, services)) == SdiBlock(idx)
  {
  }

  /** The SDI writes for n ports cover exactly the blocks of ports 0 to n - 1, in order. */
  lemma {:induction false} SdiWritesFields(ports: seq<SdiPort>, services: seq<Service>)
    ensures SysFields(SdiWrites(ports, services)) == SdiBlocks(|ports|)
    decreases |ports|
  {
    if ports != [] {
      var init := ports[..|ports| - 1];
      SdiWritesFields(init, services);
      SysFieldsConcat(SdiWrites(init, services), PortWrites(|ports| - 1, ports[|ports| - 1], services));
      PortWritesFields(|ports| - 1, ports[|ports| - 1], services);
    }
  }

  lemma SlotWritesFields(idx: nat, slot: Option<PcieSlot>)
    ensures SysFields(SlotWrites(idx, slot)) == [Pcie(idx, Desc), Pcie(idx, Part)]
  {
  }

  /** The PCIe writes for n slots cover exactly the blocks of slots 0 to n - 1, in order. */
  lemma {:induction false} PcieWritesFields(slots: seq<Option<PcieSlot>>)
    ensures SysFields(PcieWrites(slots)) == PcieBlocks(|slots|)
    decreases |slots|
  {
    if slots != [] {
      var init := slots[..|slots| - 1];
      PcieWritesFields(init);
      SysFieldsConcat(PcieWrites(init), SlotWrites(|slots| - 1, slots[|slots| - 1]));
      SlotWritesFields(|slots| - 1, slots[|slots| - 1]);
    }
  }

  function SdiCount(ss: ServerStatus): nat {
    if ss.sdiPorts.Has? then |ss.sdiPorts.value| else 0
  }

  function SlotCount(ss: ServerStatus): nat {
    if ss.pcieSlots.Has? then |ss.pcieSlots.value| else 0
  }

  lemma ServerBaseFields(ss: ServerStatus)
    ensures SysFields(ServerBaseWrites(ss)) == ServerBlock()
  {
  }

  /** getServerStatus writes the ten server ids, then the SDI blocks, then the PCIe blocks. */
  lemma ServerWritesFields(ss: ServerStatus, services: seq<Service>)
    ensures SysFields(ServerWrites(ss, services))
            == ServerBlock() + SdiBlocks(SdiCount(ss)) + PcieBlocks(SlotCount(ss))
  {
    var base := ServerBaseWrites(ss);
    var sdi := if ss.sdiPorts.Has? then SdiWrites(ss.sdiPorts.value, services) else [];
    var pcie := if ss.pcieSlots.Has? then PcieWrites(ss.pcieSlots.value) else [];
    assert ServerWrites(ss, services) == base + sdi + pcie;
    ServerBaseFields(ss);
    if ss.sdiPorts.Has? {
      SdiWritesFields(ss.sdiPorts.value, services);
    }
    assert SysFields(sdi) == SdiBlocks(SdiCount(ss));
    if ss.pcieSlots.Has? {
      PcieWritesFields(ss.pcieSlots.value);
    }
    assert SysFields(pcie) == PcieBlocks(SlotCount(ss));
    SysFieldsConcat(base, sdi);
    SysFieldsConcat(base + sdi, pcie);
  }

  /** Every id getServerStatus writes has a declaration exactly when the receiver reports at
      most five SDI ports and at most four PCIe slots; a sixth port or a fifth slot gets a
      value the host was never told about. */
  lemma ServerWritesDeclared(ss: ServerStatus, services: seq<Service>)
    ensures (forall i :: 0 <= i < |ServerWrites(ss, services)| ==> SystemDeclared(ServerWrites(ss, services)[i].0))
            <==> SdiCount(ss) <= 5 && SlotCount(ss) <= 4
  {
    if SdiCount(ss) <= 5 && SlotCount(ss) <= 4 {
      BoundedWritesDeclared(ss, services);
    } else if SdiCount(ss) > 5 {
      ExtraWriteUndeclared(ss, services, Sdi(5, PortType));
    } else {
      ExtraWriteUndeclared(ss, services, Pcie(4, Desc));
    }
  }

  lemma BoundedWritesDeclared(ss: ServerStatus, services: seq<Service>)
    requires SdiCount(ss) <= 5 && SlotCount(ss) <= 4
    ensures forall i :: 0 <= i < |ServerWrites(ss, services)| ==> SystemDeclared(ServerWrites(ss, services)[i].0)
  {
    var ws := ServerWrites(ss, services);
    ServerWritesFields(ss, services);
    var fs := SysFields(ws);
    var sb, db, pb := ServerBlock(), SdiBlocks(SdiCount(ss)), PcieBlocks(SlotCount(ss));
    assert fs == sb + db + pb;
    forall i | 0 <= i < |ws|
      ensures SystemDeclared(ws[i].0)
    {
      var f := fs[i];
      assert f in sb + db + pb;
      SdiBlocksMember(SdiCount(ss), f);
      PcieBlocksMember(SlotCount(ss), f);
      if f in sb {
        assert !f.Sdi? && !f.Pcie?;
      }
    }
  }

  /** A sixth SDI port or a fifth PCIe slot is written and not declared. */
  lemma ExtraWriteUndeclared(ss: ServerStatus, services: seq<Service>, f: SystemField)
    requires (f == Sdi(5, PortType) && SdiCount(ss) > 5) || (f == Pcie(4, Desc) && SlotCount(ss) > 4)
    ensures exists i :: 0 <= i < |ServerWrites(ss, services)| && !SystemDeclared(ServerWrites(ss, services)[i].0)
  {
    var ws := ServerWrites(ss, services);
    ServerWritesFields(ss, services);
    var fs := SysFields(ws);
    assert fs == ServerBlock() + SdiBlocks(SdiCount(ss)) + PcieBlocks(SlotCount(ss));
    SdiBlocksMember(SdiCount(ss), f);
    PcieBlocksMember(SlotCount(ss), f);
    assert f in fs;
    var i :| 0 <= i < |fs| && fs[i] == f;
    assert !SystemDeclared(ws[i].0);
  }

  // ------------------------------------------------------------ SDI port values

  /** "Yes" exactly when the port names a service, a service of that name is listed, and
      the first such service is started. */
  predicate PortOutputLive(p: SdiPort, services: seq<Service>) {
    TruthyStr(p.serviceName)
    && FindByName(services, p.serviceName.value).Some?
    && services[FindByName(services, p.serviceName.value).value].state == "started"
  }

  /** Within one port's writes, the output-active id is written last. */
  lemma PortOutputActive(idx: nat, p: SdiPort, services: seq<Service>)
    ensures LastWrite(PortWrites(idx, p, services), Sdi(idx, OutputActive))
            == Some(YesNo(PortOutputLive(p, services)))
  {
    var ws := PortWrites(idx, p, services);
    PortWritesFields(idx, p, services);
    LastWriteAt(ws, Sdi(idx, OutputActive), 4);
  }

  /** A port's writes touch only that port's ids. */
  lemma PortWritesOwn(idx: nat, p: SdiPort, services: seq<Service>, f: SystemField)
    requires !(f.Sdi? && f.port == idx)
    ensures LastWrite(PortWrites(idx, p, services), f) == None
  {
    PortWritesFields(idx, p, services);
    LastWriteSome(PortWrites(idx, p, services), f);
  }

  /** The SDI writes of port idx are the last word on that port's ids. */
  lemma {:induction false} SdiLastWrite(ports: seq<SdiPort>, services: seq<Service>, idx: nat, df: SdiField)
    requires idx < |ports|
    ensures LastWrite(SdiWrites(ports, services), Sdi(idx, df))
            == LastWrite(PortWrites(idx, ports[idx], services), Sdi(idx, df))
    decreases |ports|
  {
    var init := ports[..|ports| - 1];
    var last := PortWrites(|ports| - 1, ports[|ports| - 1], services);
    LastWriteConcat(SdiWrites(init, services), last, Sdi(idx, df));
    if idx < |ports| - 1 {
      PortWritesOwn(|ports| - 1, ports[|ports| - 1], services, Sdi(idx, df));
      SdiLastWrite(init, services, idx, df);
    } else {
      PortWritesFields(idx, ports[idx], services);
      LastWriteSome(last, Sdi(idx, df));
      assert SysFields(last)[0] == Sdi(idx, PortType);
      match df
      case PortType => assert last[0].0 == Sdi(idx, df);
      case PortService => assert last[1].0 == Sdi(idx, df);
      case PortServiceType => assert last[2].0 == Sdi(idx, df);
      case PortServiceState => assert last[3].0 == Sdi(idx, df);
      case OutputActive => assert last[4].0 == Sdi(idx, df);
    }
  }

  /** PCIe writes never touch an SDI id. */
  lemma PcieAvoidsSdi(slots: seq<Option<PcieSlot>>, f: SystemField)
    requires f.Sdi?
    ensures LastWrite(PcieWrites(slots), f) == None
  {
    var ws := PcieWrites(slots);
    PcieWritesFields(slots);
    PcieBlocksMember(|slots|, f);
    forall i | 0 <= i < |ws|
      ensures ws[i].0 != f
    {
      assert SysFields(ws)[i] in PcieBlocks(|slots|);
    }
    LastWriteSome(ws, f);
  }

  /** `sdi_port_<idx>_output_active` is "Yes" exactly when the service the port names is
      listed and (its first listing) is started; it is "No" otherwise. */
  lemma OutputActiveValue(ss: ServerStatus, services: seq<Service>, idx: nat)
    requires ss.sdiPorts.Has? && idx < |ss.sdiPorts.value|
    ensures SystemKey(Sdi(idx, OutputActive)) in ServerVars(ss, services)
    ensures ServerVars(ss, services)[SystemKey(Sdi(idx, OutputActive))]
            == YesNo(PortOutputLive(ss.sdiPorts.value[idx], services))
  {
    var f := Sdi(idx, OutputActive);
    var base := ServerBaseWrites(ss);
    var sdi := SdiWrites(ss.sdiPorts.value, services);
    var pcie := if ss.pcieSlots.Has? then PcieWrites(ss.pcieSlots.value) else [];
    assert ServerWrites(ss, services) == base + sdi + pcie;
    SdiLastWrite(ss.sdiPorts.value, services, idx, OutputActive);
    PortOutputActive(idx, ss.sdiPorts.value[idx], services);
    LastWriteConcat(base, sdi, f);
    if ss.pcieSlots.Has? {
      PcieAvoidsSdi(ss.pcieSlots.value, f);
    }
    LastWriteConcat(base + sdi, pcie, f);
    SysLookup(map[], ServerWrites(ss, services), f);
  }

  // ------------------------------------------------------------ PCIe slot values

  /** A slot's writes touch only that slot's ids. */
  lemma SlotWritesOwn(idx: nat, slot: Option<PcieSlot>, f: SystemField)
    requires !(f.Pcie? && f.slot == idx)
    ensures LastWrite(SlotWrites(idx, slot), f) == None
  {
    var ws := SlotWrites(idx, slot);
    SlotWritesFields(idx, slot);
    assert ws[0].0 != f && ws[1].0 != f;
    LastWriteSome(ws, f);
  }

  /** The PCIe writes of slot idx are the last word on that slot's ids. */
  lemma {:induction false} PcieLastWrite(slots: seq<Option<PcieSlot>>, idx: nat, pf: PcieField)
    requires idx < |slots|
    ensures LastWrite(PcieWrites(slots), Pcie(idx, pf)) == LastWrite(SlotWrites(idx, slots[idx]), Pcie(idx, pf))
    decreases |slots|
  {
    var init := slots[..|slots| - 1];
    var last := SlotWrites(|slots| - 1, slots[|slots| - 1]);
    LastWriteConcat(PcieWrites(init), last, Pcie(idx, pf));
    if idx < |slots| - 1 {
      SlotWritesOwn(|slots| - 1, slots[|slots| - 1], Pcie(idx, pf));
      PcieLastWrite(init, idx, pf);
    }
  }

  /** A slot the receiver reports as null reads "Empty" with part number "N/A". */
  lemma NullSlotValues(ss: ServerStatus, services: seq<Service>, idx: nat)
    requires ss.pcieSlots.Has? && idx < |ss.pcieSlots.value| && ss.pcieSlots.value[idx].None?
    ensures SystemKey(Pcie(idx, Desc)) in ServerVars(ss, services)
    ensures SystemKey(Pcie(idx, Part)) in ServerVars(ss, services)
    ensures ServerVars(ss, services)[SystemKey(Pcie(idx, Desc))] == Str("Empty")
    ensures ServerVars(ss, services)[SystemKey(Pcie(idx, Part))] == Str("N/A")
  {
    var ws := ServerWrites(ss, services);
    var pcie := PcieWrites(ss.pcieSlots.value);
    var front := ServerBaseWrites(ss) + (if ss.sdiPorts.Has? then SdiWrites(ss.sdiPorts.value, services) else []);
    assert ws == front + pcie;
    PcieLastWrite(ss.pcieSlots.value, idx, Desc);
    PcieLastWrite(ss.pcieSlots.value, idx, Part);
    LastWriteAt(SlotWrites(idx, None), Pcie(idx, Desc), 0);
    LastWriteAt(SlotWrites(idx, None), Pcie(idx, Part), 1);
    assert SlotWrites(idx, ss.pcieSlots.value[idx]) == SlotWrites(idx, None);
    assert LastWrite(pcie, Pcie(idx, Desc)) == Some(Str("Empty"));
    assert LastWrite(pcie, Pcie(idx, Part)) == Some(Str("N/A"));
    LastWriteConcat(front, pcie, Pcie(idx, Desc));
    LastWriteConcat(front, pcie, Pcie(idx, Part));
    SysLookup(map[], ws, Pcie(idx, Desc));
    SysLookup(map[], ws, Pcie(idx, Part));
  }

  // ------------------------------------------------------------ counts

  /** Two filters with predicates no element satisfies together select at most the whole
      list between them. */
  lemma {:induction false} FilterDisjoint<T>(xs: seq<T>, p: T -> bool, q: T -> bool)
    requires forall x :: !(p(x) && q(x))
    ensures |Filter(xs, p)| + |Filter(xs, q)| <= |xs|
    decreases |xs|
  {
    if xs != [] {
      FilterDisjoint(xs[1..], p, q);
    }
  }

  /** The running and stopped counts never add up to more than the total. */
  lemma CountsBounded(services: seq<Service>)
    ensures CountStarted(services) + CountStopped(services) <= |services|
  {
    FilterDisjoint(services, (s: Service) => s.state == "started", (s: Service) => s.state == "stopped");
  }
}
