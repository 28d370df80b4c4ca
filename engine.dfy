/** index.js: the module instance. It keeps the device's service list, the statistics it
    has fetched and the id-to-name lookup; it fetches them over the device's REST API and
    pushes variable values and definitions to the host. Every call to the host or to the
    device is recorded as an Effect; what the device answers is an input. */
module Engine {
  import opened Wrappers
  import opened Text
  import opened JsValues
  import opened Telemetry
  import opened VarIds
  import opened Formatter
  import opened UriEncoding
  import opened Projection
  import opened Registry

  datatype ConnStatus = Connecting | Ok | ConnectionFailure | BadConfig

  datatype Verb = GET | POST | PUT | DELETE

  /** A request body: none, or the JSON text sent. */
  datatype Body = NoBody | Json(text: string)

  /** Log levels other than debug (debug messages are not part of the model). */
  datatype Level = Info | Warn | Error

  datatype Effect =
    | Request(verb: Verb, path: string, body: Body)
    | DefineVariables
    | DefineActions
    | StatusChange(status: ConnStatus)
    | CheckFeedbacks
    | Log(level: Level)
    | ScheduleRefresh(ms: nat)
    | Pause(ms: nat)

  /** How the device answers one request: the request fails (no connection, a status
      outside 200-299), or it succeeds with a body, None standing for a JSON null. */
  datatype Reply<T> = Failed | Replied(body: Option<T>)

  const ServicesPath := "/api/services"
  const ServerPath := "/api/statistics/current?serverId=Receiver1&type=content_processing_server&id=0"
  const StatusPrefix := "/api/statistics/current?serverId=Receiver1&type=content_processing&id="

  /** The id used to ask for a service's statistics: its id, or its name when the id is empty. */
  function ActualId(s: Service): string {
    if s.serviceId != "" then s.serviceId else s.serviceName
  }

  function StatusPath(id: string): string {
    StatusPrefix + EncodeComponent(id)
  }

  /** `/api/services/{type}/{id}/{start|stop}` with both components percent-encoded. */
  function ControlPath(serviceType: string, serviceId: string, command: string): string {
    "/api/services" + "/" + EncodeComponent(serviceType) + "/" + EncodeComponent(serviceId) + "/" + command
  }

  // ------------------------------------------------------------ getServices

  /** The id-to-name lookup rebuilt from the list; a later entry wins over an earlier one
      with the same id. */
  function IdToName(services: seq<Service>): map<string, string>
    decreases |services|
  {
    if services == [] then map[]
    else
      var s := services[|services| - 1];
      IdToName(services[..|services| - 1])[s.serviceId := s.serviceName]
  }

  /** The dropdown choices: `type/id` captioned `name (type)`. */
  function Choices(services: seq<Service>): (cs: seq<Choice>)
    ensures |cs| == |services|
    ensures forall k :: 0 <= k < |cs| ==> cs[k].id == services[k].serviceType + "/" + services[k].serviceId
    ensures forall k :: 0 <= k < |cs| ==>
              cs[k].caption == services[k].serviceName + " (" + services[k].serviceType + ")"
  {
    seq(|services|, i requires 0 <= i < |services| =>
      Choice(services[i].serviceType + "/" + services[i].serviceId,
             services[i].serviceName + " (" + services[i].serviceType + ")"))
  }

  /** The four values getServices sets per listed service, one setVariableValues call each. */
  function InfoFold(m: map<string, Value>, services: seq<Service>): map<string, Value>
    decreases |services|
  {
    if services == [] then m
    else
      var s := services[|services| - 1];
      InfoFold(m, services[..|services| - 1]) + PutSvc(map[], Sanitize(s.serviceName), InfoWrites(s))
  }

  /** An id is mapped exactly when some listed service has it, and it is mapped to the
      name of the LAST such service. */
  lemma {:induction false} IdToNameLastWins(services: seq<Service>, id: string)
    ensures id in IdToName(services) <==> exists k :: 0 <= k < |services| && services[k].serviceId == id
    ensures id in IdToName(services) ==>
              exists k :: 0 <= k < |services| && services[k].serviceId == id
                          && IdToName(services)[id] == services[k].serviceName
                          && forall j :: k < j < |services| ==> services[j].serviceId != id
    decreases |services|
  {
    if services != [] {
      var init := services[..|services| - 1];
      IdToNameLastWins(init, id);
      if exists k :: 0 <= k < |init| && init[k].serviceId == id {
        var k :| 0 <= k < |init| && init[k].serviceId == id;
        assert services[k] == init[k];
      }
      if exists k :: 0 <= k < |services| && services[k].serviceId == id {
        var k :| 0 <= k < |services| && services[k].serviceId == id;
        if k < |init| {
          assert services[k] == init[k];
        }
      }
      if services[|services| - 1].serviceId != id && id in IdToName(init) {
        var k :| 0 <= k < |init| && init[k].serviceId == id
                 && IdToName(init)[id] == init[k].serviceName
                 && forall j :: k < j < |init| ==> init[j].serviceId != id;
        assert services[k] == init[k];
        assert forall j :: k < j < |services| ==> services[j].serviceId != id by {
          forall j | k < j < |services|
            ensures services[j].serviceId != id
          {
            if j < |init| {
              assert services[j] == init[j];
            }
          }
        }
      }
    }
  }

  /** A choice's id splits back into the service's type and id, when neither holds a '/'. */
  lemma ChoiceIdSplits(services: seq<Service>, k: nat)
    requires k < |services|
    requires '/' !in services[k].serviceType && '/' !in services[k].serviceId
    ensures Split(Choices(services)[k].id, '/') == [services[k].serviceType, services[k].serviceId]
  {
    var t, i := services[k].serviceType, services[k].serviceId;
    SplitAround(t, '/', i);
    SplitNoSeparator(t, '/');
    SplitNoSeparator(i, '/');
  }

  /** `option.split('/')` into `[type, id]`; any other number of parts is no service. */
  function ServiceOption(option: string): (r: Option<(string, string)>)
    ensures r.Some? <==> Occurrences(option, '/') == 1
  {
    var parts := Split(option, '/');
    if |parts| == 2 then Some((parts[0], parts[1])) else None
  }

  /** A parsed option is the type and the id joined by the one '/' it holds. */
  lemma ServiceOptionJoins(option: string)
    requires ServiceOption(option).Some?
    ensures option == ServiceOption(option).value.0 + "/" + ServiceOption(option).value.1
    ensures '/' !in ServiceOption(option).value.0 && '/' !in ServiceOption(option).value.1
  {
    var parts := Split(option, '/');
    JoinSplit(option, '/');
    assert parts[1..] == [parts[1]];
  }

  /** The dropdown choice of a listed service reads back as that service's type and id. */
  lemma ChoiceOption(services: seq<Service>, k: nat)
    requires k < |services|
    requires '/' !in services[k].serviceType && '/' !in services[k].serviceId
    ensures ServiceOption(Choices(services)[k].id) == Some((services[k].serviceType, services[k].serviceId))
  {
    ChoiceIdSplits(services, k);
  }

  // ------------------------------------------------------------ getServerStatus

  /** The listed service a statistics entry belongs to: the first with the entry's id. */
  function EntryService(services: seq<Service>, e: ServiceStatus): Option<nat> {
    if e.id.Has? then FindById(services, e.id.value) else None
  }

  predicate IsBlocked(e: ServiceStatus) {
    e.runningState.Has? && Includes(e.runningState.value, "blocked")
  }

  /** Each entry belonging to a listed service is stored under that service's name. */
  function StoreEntries(sm: map<string, ServiceStatus>, services: seq<Service>, entries: seq<ServiceStatus>): map<string, ServiceStatus>
    decreases |entries|
  {
    if entries == [] then sm
    else
      var e := entries[|entries| - 1];
      var prev := StoreEntries(sm, services, entries[..|entries| - 1]);
      match EntryService(services, e)
      case Some(k) => prev[services[k].serviceName := e]
      case None => prev
  }

  /** Each entry belonging to a listed service sets that service's variables. */
  function EntryValues(m: map<string, Value>, services: seq<Service>, entries: seq<ServiceStatus>): map<string, Value>
    decreases |entries|
  {
    if entries == [] then m
    else
      var e := entries[|entries| - 1];
      var prev := EntryValues(m, services, entries[..|entries| - 1]);
      match EntryService(services, e)
      case Some(k) => prev + ServiceVars(Sanitize(services[k].serviceName), e)
      case None => prev
  }

  /** `blockedCount`: entries belonging to a listed service whose running state mentions "blocked". */
  function BlockedCount(services: seq<Service>, entries: seq<ServiceStatus>): nat
    decreases |entries|
  {
    if entries == [] then 0
    else
      var e := entries[|entries| - 1];
      BlockedCount(services, entries[..|entries| - 1])
      + (if EntryService(services, e).Some? && IsBlocked(e) then 1 else 0)
  }

  function Entries(ss: ServerStatus): seq<ServiceStatus> {
    if ss.services.Has? then ss.services.value else []
  }

  /** The blocked_services value getServerStatus sets: only when the body has a service array. */
  function BlockedSet(body: Option<ServerStatus>, blocked: nat): map<string, Value> {
    if body.Some? && body.value.services.Has? then map[SystemKey(BlockedServices) := Num(blocked)] else map[]
  }

  /** The single blocked_services value set after the entries, when the body has a service array. */
  function BlockedVar(services: seq<Service>, body: Option<ServerStatus>): map<string, Value> {
    BlockedSet(body, BlockedCount(services, Entries(body.GetOr(EmptyServer))))
  }

  /** Values after the server variables and the per-entry service variables; a null body sets none. */
  function AbsorbValues(m: map<string, Value>, services: seq<Service>, body: Option<ServerStatus>): map<string, Value> {
    match body
    case None => m
    case Some(ss) => EntryValues(m + ServerVars(ss, services), services, Entries(ss))
  }

  /** The statistics stored after the server statistics arrive. */
  function StoredAfter(sm: map<string, ServiceStatus>, services: seq<Service>, body: Option<ServerStatus>): map<string, ServiceStatus> {
    match body
    case None => sm
    case Some(ss) => StoreEntries(sm, services, Entries(ss))
  }

  /** The values getServerStatus leaves, as written: blocked_services is set, and then
      the variable definitions are rebuilt, which sets it back to 0. `sm` are the
      statistics stored before. */
  function ServerRoundAsWritten(m: map<string, Value>, services: seq<Service>,
                                sm: map<string, ServiceStatus>, body: Option<ServerStatus>): map<string, Value> {
    AbsorbValues(m, services, body) + BlockedVar(services, body)
    + RegistryValues(services, StoredAfter(sm, services, body), body.GetOr(EmptyServer))
  }

  /** The values getServerStatus leaves with blocked_services set after the definitions
      are rebuilt. */
  function ServerRound(m: map<string, Value>, services: seq<Service>,
                       sm: map<string, ServiceStatus>, body: Option<ServerStatus>): map<string, Value> {
    AbsorbValues(m, services, body)
    + RegistryValues(services, StoredAfter(sm, services, body), body.GetOr(EmptyServer))
    + BlockedVar(services, body)
  }

  /** The blocked count is the number of entries that belong to a listed service and are
      blocked; in particular it is positive exactly when there is one. */
  lemma {:induction false} BlockedCountMeaning(services: seq<Service>, entries: seq<ServiceStatus>)
    ensures BlockedCount(services, entries) <= |entries|
    ensures BlockedCount(services, entries) > 0
            <==> exists i :: 0 <= i < |entries| && EntryService(services, entries[i]).Some? && IsBlocked(entries[i])
    decreases |entries|
  {
    if entries != [] {
      var init, last := entries[..|entries| - 1], entries[|entries| - 1];
      BlockedCountMeaning(services, init);
      assert forall i :: 0 <= i < |init| ==> entries[i] == init[i];
      if EntryService(services, last).Some? && IsBlocked(last) {
        assert BlockedCount(services, entries) > 0;
        assert EntryService(services, entries[|entries| - 1]).Some? && IsBlocked(entries[|entries| - 1]);
      } else if BlockedCount(services, init) > 0 {
        var i :| 0 <= i < |init| && EntryService(services, init[i]).Some? && IsBlocked(init[i]);
        assert EntryService(services, entries[i]).Some? && IsBlocked(entries[i]);
      } else {
        assert BlockedCount(services, entries) == 0;
      }
    }
  }

  /** A statistics entry is stored under a name exactly when it was stored before or some
      entry belongs to a listed service of that name; entries of unlisted ids are dropped. */
  lemma {:induction false} StoreEntriesKeys(sm: map<string, ServiceStatus>, services: seq<Service>,
                                            entries: seq<ServiceStatus>, name: string)
    ensures name in StoreEntries(sm, services, entries)
            <==> name in sm
                 || exists i :: 0 <= i < |entries| && EntryService(services, entries[i]).Some?
                                && services[EntryService(services, entries[i]).value].serviceName == name
    decreases |entries|
  {
    if entries != [] {
      var init, e := entries[..|entries| - 1], entries[|entries| - 1];
      StoreEntriesKeys(sm, services, init, name);
      assert forall i :: 0 <= i < |init| ==> entries[i] == init[i];
      if EntryService(services, e).Some? && services[EntryService(services, e).value].serviceName == name {
        assert entries[|entries| - 1] == e;
      } else if exists i :: 0 <= i < |init| && EntryService(services, init[i]).Some?
                            && services[EntryService(services, init[i]).value].serviceName == name {
        var i :| 0 <= i < |init| && EntryService(services, init[i]).Some?
                 && services[EntryService(services, init[i]).value].serviceName == name;
        assert entries[i] == init[i];
      }
    }
  }

  /** As written, blocked_services reads 0 after every getServerStatus round, whatever the
      entries say. */
  lemma BlockedResetToZero(m: map<string, Value>, services: seq<Service>,
                           sm: map<string, ServiceStatus>, body: Option<ServerStatus>)
    ensures CountIs(ServerRoundAsWritten(m, services, sm, body), BlockedServices, 0)
  {
    var r := RegistryValues(services, StoredAfter(sm, services, body), body.GetOr(EmptyServer));
    CountValues(services, StoredAfter(sm, services, body), body.GetOr(EmptyServer));
    RegistryOnTop(AbsorbValues(m, services, body) + BlockedVar(services, body), r, map[], 0);
  }

  /** With blocked_services set last, it reports the number of blocked entries, and 0
      when the body has no service array. */
  lemma BlockedReported(m: map<string, Value>, services: seq<Service>,
                        sm: map<string, ServiceStatus>, body: Option<ServerStatus>)
    ensures CountIs(ServerRound(m, services, sm, body), BlockedServices,
                    if body.Some? && body.value.services.Has? then BlockedCount(services, body.value.services.value) else 0)
  {
    var r := RegistryValues(services, StoredAfter(sm, services, body), body.GetOr(EmptyServer));
    if !(body.Some? && body.value.services.Has?) {
      CountValues(services, StoredAfter(sm, services, body), body.GetOr(EmptyServer));
      RegistryOnTop(AbsorbValues(m, services, body), r, BlockedVar(services, body), 0);
    }
  }

  /** A count the rebuilt values hold survives anything set before them and any later
      dictionary without that id. */
  lemma RegistryOnTop(before: map<string, Value>, r: map<string, Value>, after: map<string, Value>, n: int)
    requires CountIs(r, BlockedServices, n) && SystemKey(BlockedServices) !in after
    ensures CountIs(before + r + after, BlockedServices, n)
  {
  }

  /** One listed, blocked service: the count is 1, but as written the variable shows 0. */
  lemma BlockedCountLost()
    ensures var services := [Service("svc-1", "News", "content_processing", "started", Absent)];
            var e := ServiceStatus(Has("svc-1"), Absent, Has("blocked"), Absent, Absent, Absent);
            var body := Some(EmptyServer.(services := Has([e])));
            && BlockedCount(services, [e]) == 1
            && CountIs(ServerRoundAsWritten(map[], services, map[], body), BlockedServices, 0)
            && CountIs(ServerRound(map[], services, map[], body), BlockedServices, 1)
  {
    var services := [Service("svc-1", "News", "content_processing", "started", Absent)];
    var e := ServiceStatus(Has("svc-1"), Absent, Has("blocked"), Absent, Absent, Absent);
    var body := Some(EmptyServer.(services := Has([e])));
    assert EntryService(services, e) == Some(0);
    assert Includes("blocked", "blocked");
    assert [e][..0] == [];
    assert BlockedCount(services, [e]) == 1;
    BlockedResetToZero(map[], services, map[], body);
    BlockedReported(map[], services, map[], body);
  }

  // ------------------------------------------------------------ getServiceStatus and the poll

  /** The statistics stored for a service after its fetch: a null body is stored as `{}`;
      a failed fetch leaves the entry as it was. */
  function StoreFetch(sm: map<string, ServiceStatus>, name: string, reply: Reply<ServiceStatus>): map<string, ServiceStatus> {
    match reply
    case Failed => sm
    case Replied(b) => sm[name := b.GetOr(EmptyStatus)]
  }

  /** The variables set after a fetch: the status's values, or the cleared values when the
      body is null or the fetch failed. */
  function FetchVars(name: string, reply: Reply<ServiceStatus>): map<string, Value> {
    match reply
    case Replied(Some(st)) => ServiceVars(Sanitize(name), st)
    case _ => ClearVars(Sanitize(name))
  }

  function FetchEffects(path: string, reply: Reply<ServiceStatus>): seq<Effect> {
    [Request(GET, path, NoBody)] + (if reply.Replied? then [CheckFeedbacks] else [])
  }

  /** The reply the device gives to the statistics request for a listed service. */
  function FetchOf(device: string -> Reply<ServiceStatus>): Service -> Reply<ServiceStatus> {
    s => device(StatusPath(ActualId(s)))
  }

  function PollStatuses(sm: map<string, ServiceStatus>, services: seq<Service>,
                        fetch: Service -> Reply<ServiceStatus>): map<string, ServiceStatus>
    decreases |services|
  {
    if services == [] then sm
    else
      var s := services[|services| - 1];
      StoreFetch(PollStatuses(sm, services[..|services| - 1], fetch), s.serviceName, fetch(s))
  }

  function PollValues(m: map<string, Value>, services: seq<Service>,
                      fetch: Service -> Reply<ServiceStatus>): map<string, Value>
    decreases |services|
  {
    if services == [] then m
    else
      var s := services[|services| - 1];
      PollValues(m, services[..|services| - 1], fetch) + FetchVars(s.serviceName, fetch(s))
  }

  function PollEffects(services: seq<Service>, fetch: Service -> Reply<ServiceStatus>): seq<Effect>
    decreases |services|
  {
    if services == [] then []
    else
      var s := services[|services| - 1];
      PollEffects(services[..|services| - 1], fetch) + FetchEffects(StatusPath(ActualId(s)), fetch(s))
  }

  function Requests(effs: seq<Effect>): (rs: seq<Effect>)
    ensures |rs| <= |effs|
    decreases |effs|
  {
    if effs == [] then []
    else Requests(effs[..|effs| - 1]) + (if effs[|effs| - 1].Request? then [effs[|effs| - 1]] else [])
  }

  lemma {:induction false} RequestsConcat(a: seq<Effect>, b: seq<Effect>)
    ensures Requests(a + b) == Requests(a) + Requests(b)
    decreases |b|
  {
    if b == [] {
      assert a + b == a;
    } else {
      assert (a + b)[..|a + b| - 1] == a + b[..|b| - 1];
      RequestsConcat(a, b[..|b| - 1]);
    }
  }

  /** Effects without a request contribute none. */
  lemma {:induction false} NoRequests(effs: seq<Effect>)
    requires forall i :: 0 <= i < |effs| ==> !effs[i].Request?
    ensures Requests(effs) == []
    decreases |effs|
  {
    if effs != [] {
      NoRequests(effs[..|effs| - 1]);
    }
  }

  /** A request followed by effects that are not requests contributes that request alone. */
  lemma RequestThenNone(inst: seq<Effect>, r: Effect, rest: seq<Effect>)
    requires r.Request?
    requires forall i :: 0 <= i < |rest| ==> !rest[i].Request?
    ensures Requests(inst + ([r] + rest)) == Requests(inst) + [r]
  {
    RequestsConcat(inst, [r] + rest);
    RequestsConcat([r], rest);
    NoRequests(rest);
    assert [r][..0] == [];
  }

  /** One statistics request per listed service, in list order. */
  function StatusRequests(services: seq<Service>): (rs: seq<Effect>)
    ensures |rs| == |services|
    ensures forall i :: 0 <= i < |services| ==> rs[i] == Request(GET, StatusPath(ActualId(services[i])), NoBody)
    decreases |services|
  {
    if services == [] then []
    else StatusRequests(services[..|services| - 1]) + [Request(GET, StatusPath(ActualId(services[|services| - 1])), NoBody)]
  }

  lemma FetchRequests(path: string, reply: Reply<ServiceStatus>)
    ensures Requests(FetchEffects(path, reply)) == [Request(GET, path, NoBody)]
  {
    var tail := FetchEffects(path, reply);
    if reply.Replied? {
      assert tail[..1] == [Request(GET, path, NoBody)];
      assert tail[..1][..0] == [];
    } else {
      assert tail[..0] == [];
    }
  }

  /** The poll asks for every listed service's statistics exactly once, in list order. */
  lemma {:induction false} PollRequestsInOrder(services: seq<Service>, fetch: Service -> Reply<ServiceStatus>)
    ensures Requests(PollEffects(services, fetch)) == StatusRequests(services)
    decreases |services|
  {
    if services != [] {
      var init := services[..|services| - 1];
      var path := StatusPath(ActualId(services[|services| - 1]));
      PollRequestsInOrder(init, fetch);
      RequestsConcat(PollEffects(init, fetch), FetchEffects(path, fetch(services[|services| - 1])));
      FetchRequests(path, fetch(services[|services| - 1]));
    }
  }

  /** After the poll a name has statistics exactly when it had some before or a listed
      service of that name got a reply; a failed fetch stores nothing. */
  lemma {:induction false} PollStatusesKeys(sm: map<string, ServiceStatus>, services: seq<Service>,
                                            fetch: Service -> Reply<ServiceStatus>, name: string)
    ensures name in PollStatuses(sm, services, fetch)
            <==> name in sm
                 || exists i :: 0 <= i < |services| && services[i].serviceName == name
                                && fetch(services[i]).Replied?
    decreases |services|
  {
    if services != [] {
      var init, s := services[..|services| - 1], services[|services| - 1];
      PollStatusesKeys(sm, init, fetch, name);
      assert forall i :: 0 <= i < |init| ==> services[i] == init[i];
      if s.serviceName == name && fetch(s).Replied? {
        assert services[|services| - 1] == s;
      } else if exists i :: 0 <= i < |init| && init[i].serviceName == name
                            && fetch(init[i]).Replied? {
        var i :| 0 <= i < |init| && init[i].serviceName == name && fetch(init[i]).Replied?;
        assert services[i] == init[i];
      }
    }
  }

  /** A service whose fetch fails, named by no other listed service, keeps the statistics
      it had, and its variables show the cleared values. */
  lemma FailedFetchKeepsStatus(sm: map<string, ServiceStatus>, services: seq<Service>,
                               fetch: Service -> Reply<ServiceStatus>, m: map<string, Value>, k: nat)
    requires k < |services| && fetch(services[k]).Failed?
    requires forall j :: 0 <= j < |services| && j != k ==> services[j].serviceName != services[k].serviceName
    ensures var name := services[k].serviceName;
            (name in PollStatuses(sm, services, fetch) <==> name in sm)
            && (name in sm ==> PollStatuses(sm, services, fetch)[name] == sm[name])
    ensures FetchVars(services[k].serviceName, fetch(services[k]))
            == ClearVars(Sanitize(services[k].serviceName))
  {
    PollStatusesUntouched(sm, services, fetch, services[k].serviceName);
  }

  /** A name no replied fetch stores under keeps its statistics. */
  lemma {:induction false} PollStatusesUntouched(sm: map<string, ServiceStatus>, services: seq<Service>,
                                                 fetch: Service -> Reply<ServiceStatus>, name: string)
    requires forall j :: 0 <= j < |services| && services[j].serviceName == name
               ==> fetch(services[j]).Failed?
    ensures (name in PollStatuses(sm, services, fetch) <==> name in sm)
    ensures name in sm ==> PollStatuses(sm, services, fetch)[name] == sm[name]
    decreases |services|
  {
    if services != [] {
      var init := services[..|services| - 1];
      assert forall j :: 0 <= j < |init| ==> init[j] == services[j];
      PollStatusesUntouched(sm, init, fetch, name);
    }
  }

  /** The object clearServiceVariables hands to the host. */
  method ClearedValues(safe: string) returns (vars: map<string, Value>)
    ensures vars == ClearVars(safe)
  {
    vars := map[ServiceKey(safe, ServiceField.Source(Primary, Bitrate)) := Str("No Data"),
                ServiceKey(safe, ServiceField.Source(Secondary, Bitrate)) := Str("No Data"),
                ServiceKey(safe, VideoBitrate) := Str("No Data"),
                ServiceKey(safe, RunningState) := Str("offline"),
                ServiceKey(safe, ServiceField.Source(Primary, Receiving)) := Str("No"),
                ServiceKey(safe, ServiceField.Source(Secondary, Receiving)) := Str("No")];
    ServiceProps.ClearVarsExact(safe);
  }

  /** The values set after one fetch: the status's values, or the cleared values. */
  method FetchedValues(name: string, reply: Reply<ServiceStatus>) returns (vars: map<string, Value>)
    ensures vars == FetchVars(name, reply)
  {
    match reply
    case Replied(Some(st)) =>
      vars := FillServiceVars(map[], Sanitize(name), st);
    case _ =>
      vars := ClearedValues(Sanitize(name));
  }

  // ------------------------------------------------------------ the computations behind the instance

  /** updateVariableDefinitions: the declarations and the values handed to the host. */
  method RebuildVariables(services: seq<Service>, statuses: map<string, ServiceStatus>, ss: ServerStatus)
    returns (defs: seq<VarDef>, vals: map<string, Value>)
    ensures defs == Definitions(services) && vals == RegistryValues(services, statuses, ss)
  {
    defs := RegisterDefinitions(services);
    vals := ComputeValues(services, statuses, ss);
  }

  /** The id-to-name lookup, one list entry at a time. */
  method BuildIdToName(list: seq<Service>) returns (lookup: map<string, string>)
    ensures lookup == IdToName(list)
  {
    lookup := map[];
    for k := 0 to |list|
      invariant lookup == IdToName(list[..k])
    {
      assert list[..k + 1][..k] == list[..k];
      lookup := lookup[list[k].serviceId := list[k].serviceName];
    }
    assert list[..|list|] == list;
  }

  /** The four list-entry values of each listed service, one setVariableValues call each. */
  method SetInfoValues(m: map<string, Value>, list: seq<Service>) returns (vals: map<string, Value>)
    ensures vals == InfoFold(m, list)
  {
    vals := m;
    for k := 0 to |list|
      invariant vals == InfoFold(m, list[..k])
    {
      var s := list[k];
      var safe := Sanitize(s.serviceName);
      var vars: map<string, Value> := map[];
      vars := vars[ServiceKey(safe, State) := Str(s.state)];
      vars := vars[ServiceKey(safe, SvcType) := Str(s.serviceType)];
      vars := vars[ServiceKey(safe, Id) := Str(s.serviceId)];
      vars := vars[ServiceKey(safe, StateModified) := Str(OrStr(s.stateModifiedAt, ""))];
      Registry.InfoValues(map[], safe, s);
      assert list[..k + 1][..k] == list[..k];
      vals := vals + vars;
    }
    assert list[..|list|] == list;
  }

  /** What getServices leaves after a successful fetch of `list`. */
  method ListRound(m: map<string, Value>, list: seq<Service>, statuses: map<string, ServiceStatus>, ss: ServerStatus)
    returns (vals: map<string, Value>, defs: seq<VarDef>)
    ensures vals == InfoFold(m, list) + RegistryValues(list, statuses, ss)
    ensures defs == Definitions(list)
  {
    var info := SetInfoValues(m, list);
    var reg;
    defs, reg := RebuildVariables(list, statuses, ss);
    vals := info + reg;
  }

  /** The part of getServerStatus that reads a non-null body: server values, then each
      entry of a service array that belongs to a listed service is stored and shown, and
      the blocked ones are counted. */
  method AbsorbEntries(m: map<string, Value>, services: seq<Service>, sm: map<string, ServiceStatus>,
                       body: Option<ServerStatus>)
    returns (vals: map<string, Value>, stored: map<string, ServiceStatus>, blocked: nat)
    ensures vals == AbsorbValues(m, services, body)
    ensures stored == StoredAfter(sm, services, body)
    ensures blocked == BlockedCount(services, Entries(body.GetOr(EmptyServer)))
  {
    if body.None? {
      return m, sm, 0;
    }
    var ss := body.value;
    var sv := FillServerVars(map[], ss, services);
    vals, stored, blocked := m + sv, sm, 0;
    var entries := Entries(ss);
    ghost var m0 := vals;
    for i := 0 to |entries|
      invariant vals == EntryValues(m0, services, entries[..i])
      invariant stored == StoreEntries(sm, services, entries[..i])
      invariant blocked == BlockedCount(services, entries[..i])
    {
      EntryStep(m0, sm, services, entries, i);
      vals, stored, blocked := AbsorbEntry(vals, stored, blocked, services, entries[i]);
    }
    assert entries[..|entries|] == entries;
  }

  /** One entry of the service array: stored and shown when it belongs to a listed
      service, and counted when that service is blocked. */
  method AbsorbEntry(vals: map<string, Value>, stored: map<string, ServiceStatus>, blocked: nat,
                     services: seq<Service>, e: ServiceStatus)
    returns (vals': map<string, Value>, stored': map<string, ServiceStatus>, blocked': nat)
    ensures EntryService(services, e).None? ==> vals' == vals && stored' == stored && blocked' == blocked
    ensures EntryService(services, e).Some? ==>
              var name := services[EntryService(services, e).value].serviceName;
              && vals' == vals + ServiceVars(Sanitize(name), e)
              && stored' == stored[name := e]
              && blocked' == blocked + (if IsBlocked(e) then 1 else 0)
  {
    vals', stored', blocked' := vals, stored, blocked;
    match EntryService(services, e)
    case Some(k) =>
      stored' := stored'[services[k].serviceName := e];
      if IsBlocked(e) {
        blocked' := blocked' + 1;
      }
      var ev := FillServiceVars(map[], Sanitize(services[k].serviceName), e);
      vals' := vals' + ev;
    case None =>
  }

  /** The three folds over the entries, one entry further. */
  lemma EntryStep(m: map<string, Value>, sm: map<string, ServiceStatus>, services: seq<Service>,
                  entries: seq<ServiceStatus>, i: nat)
    requires i < |entries|
    ensures EntryService(services, entries[i]).None? ==>
              && EntryValues(m, services, entries[..i + 1]) == EntryValues(m, services, entries[..i])
              && StoreEntries(sm, services, entries[..i + 1]) == StoreEntries(sm, services, entries[..i])
              && BlockedCount(services, entries[..i + 1]) == BlockedCount(services, entries[..i])
    ensures EntryService(services, entries[i]).Some? ==>
              var name := services[EntryService(services, entries[i]).value].serviceName;
              && EntryValues(m, services, entries[..i + 1])
                 == EntryValues(m, services, entries[..i]) + ServiceVars(Sanitize(name), entries[i])
              && StoreEntries(sm, services, entries[..i + 1]) == StoreEntries(sm, services, entries[..i])[name := entries[i]]
              && BlockedCount(services, entries[..i + 1])
                 == BlockedCount(services, entries[..i]) + (if IsBlocked(entries[i]) then 1 else 0)
  {
    assert entries[..i + 1][..i] == entries[..i];
  }

  /** The instance after getServerStatus as written: a failed request changes nothing but
      the request made; a reply stores the server statistics and the entries for listed
      services, sets blocked_services, and then rebuilds the definitions, whose initial
      values set blocked_services back to 0. */
  function ServedAsWritten(inst: Instance, reply: Reply<ServerStatus>): (next: Instance)
    ensures next.services == inst.services && next.status == inst.status
            && next.serviceIdToName == inst.serviceIdToName && next.serviceChoices == inst.serviceChoices
    ensures next.serverStatus == if reply.Replied? then reply.body.GetOr(EmptyServer) else inst.serverStatus
    ensures reply.Failed? ==> next.values == inst.values && next.serviceStatus == inst.serviceStatus
                              && next.definitions == inst.definitions
  {
    if reply.Failed? then inst.(effects := inst.effects + [Request(GET, ServerPath, NoBody)])
    else
      inst.(serverStatus := reply.body.GetOr(EmptyServer),
            serviceStatus := StoredAfter(inst.serviceStatus, inst.services, reply.body),
            values := ServerRoundAsWritten(inst.values, inst.services, inst.serviceStatus, reply.body),
            definitions := Definitions(inst.services),
            effects := inst.effects + [Request(GET, ServerPath, NoBody), DefineVariables, CheckFeedbacks])
  }

  /** getServerStatus as written: blocked_services is set, then the values of the rebuilt
      definitions are set over it. */
  method ServerRoundValuesAsWritten(m: map<string, Value>, services: seq<Service>,
                                    sm: map<string, ServiceStatus>, body: Option<ServerStatus>)
    returns (vals: map<string, Value>, stored: map<string, ServiceStatus>)
    ensures vals == ServerRoundAsWritten(m, services, sm, body)
    ensures stored == StoredAfter(sm, services, body)
  {
    var absorbed, blocked;
    absorbed, stored, blocked := AbsorbEntries(m, services, sm, body);
    var extra := BlockedSet(body, blocked);
    var reg := ComputeValues(services, stored, body.GetOr(EmptyServer));
    vals := absorbed + extra + reg;
  }

  /** getServerStatus with blocked_services set after the values of the rebuilt definitions. */
  method ServerRoundValues(m: map<string, Value>, services: seq<Service>,
                           sm: map<string, ServiceStatus>, body: Option<ServerStatus>)
    returns (vals: map<string, Value>, stored: map<string, ServiceStatus>)
    ensures vals == ServerRound(m, services, sm, body)
    ensures stored == StoredAfter(sm, services, body)
  {
    var absorbed, blocked;
    absorbed, stored, blocked := AbsorbEntries(m, services, sm, body);
    var reg := ComputeValues(services, stored, body.GetOr(EmptyServer));
    var extra := BlockedSet(body, blocked);
    vals := absorbed + reg + extra;
  }


  /** The fetches of pollAllServiceStatus, one listed service after the other. */
  method PollLoop(m: map<string, Value>, sm: map<string, ServiceStatus>, services: seq<Service>,
                  device: string -> Reply<ServiceStatus>)
    returns (vals: map<string, Value>, stored: map<string, ServiceStatus>, effs: seq<Effect>)
    ensures vals == PollValues(m, services, FetchOf(device))
    ensures stored == PollStatuses(sm, services, FetchOf(device))
    ensures effs == PollEffects(services, FetchOf(device))
  {
    vals, stored, effs := m, sm, [];
    for k := 0 to |services|
      invariant vals == PollValues(m, services[..k], FetchOf(device))
      invariant stored == PollStatuses(sm, services[..k], FetchOf(device))
      invariant effs == PollEffects(services[..k], FetchOf(device))
    {
      var s := services[k];
      PollStep(m, sm, services, FetchOf(device), k);
      var path := StatusPath(ActualId(s));
      var reply := device(path);
      var vars := FetchedValues(s.serviceName, reply);
      vals := vals + vars;
      stored := StoreFetch(stored, s.serviceName, reply);
      effs := effs + FetchEffects(path, reply);
    }
    assert services[..|services|] == services;
  }

  /** The three folds of the poll, one service further. */
  lemma PollStep(m: map<string, Value>, sm: map<string, ServiceStatus>, services: seq<Service>,
                 fetch: Service -> Reply<ServiceStatus>, k: nat)
    requires k < |services|
    ensures PollValues(m, services[..k + 1], fetch)
            == PollValues(m, services[..k], fetch) + FetchVars(services[k].serviceName, fetch(services[k]))
    ensures PollStatuses(sm, services[..k + 1], fetch)
            == StoreFetch(PollStatuses(sm, services[..k], fetch), services[k].serviceName, fetch(services[k]))
    ensures PollEffects(services[..k + 1], fetch)
            == PollEffects(services[..k], fetch) + FetchEffects(StatusPath(ActualId(services[k])), fetch(services[k]))
  {
    assert services[..k + 1][..k] == services[..k];
  }

  /** pollAllServiceStatus for a non-empty list: the fetches, then the rebuilt definitions
      and their values over the statistics just stored. */
  method PollRound(m: map<string, Value>, sm: map<string, ServiceStatus>, services: seq<Service>,
                   ss: ServerStatus, device: string -> Reply<ServiceStatus>)
    returns (vals: map<string, Value>, stored: map<string, ServiceStatus>, effs: seq<Effect>, defs: seq<VarDef>)
    ensures stored == PollStatuses(sm, services, FetchOf(device))
    ensures vals == PollValues(m, services, FetchOf(device))
                    + RegistryValues(services, PollStatuses(sm, services, FetchOf(device)), ss)
    ensures defs == Definitions(services)
    ensures effs == PollEffects(services, FetchOf(device)) + [DefineVariables]
  {
    var polled, fetchEffs;
    polled, stored, fetchEffs := PollLoop(m, sm, services, device);
    var reg;
    defs, reg := RebuildVariables(services, stored, ss);
    vals, effs := polled + reg, fetchEffs + [DefineVariables];
  }

  // ------------------------------------------------------------ the instance

  /** The module instance: the fields the constructor sets up (the service list, the
      statistics per service name, the server statistics, the id-to-name lookup) and the
      dropdown choices, together with what the host holds for it: the variable values, the
      variable definitions, the connection status, and every call made so far. */
  datatype Instance = Instance(
    services: seq<Service>,
    serviceStatus: map<string, ServiceStatus>,
    serverStatus: ServerStatus,
    serviceIdToName: map<string, string>,
    serviceChoices: seq<Choice>,
    values: map<string, Value>,
    definitions: seq<VarDef>,
    status: ConnStatus,
    effects: seq<Effect>)

  /** The constructor: no services, no statistics, nothing registered with the host. The
      status is the Connecting that init sets first. */
  function Initial(): (inst: Instance)
    ensures inst.services == [] && inst.serviceStatus == map[] && inst.serviceIdToName == map[]
    ensures inst.values == map[] && inst.definitions == [] && inst.effects == []
    ensures inst.serverStatus == EmptyServer && inst.serviceChoices == []
    ensures inst.status == Connecting
  {
    Instance([], map[], EmptyServer, map[], [], map[], [], Connecting, [])
  }

  /** updateVariableDefinitions: register the declarations, then set the initial values. */
  method UpdateVariableDefinitions(inst: Instance) returns (next: Instance)
    ensures next == inst.(definitions := Definitions(inst.services),
                          values := inst.values + RegistryValues(inst.services, inst.serviceStatus, inst.serverStatus),
                          effects := inst.effects + [DefineVariables])
  {
    var defs, vals := RebuildVariables(inst.services, inst.serviceStatus, inst.serverStatus);
    next := inst.(definitions := defs, values := inst.values + vals, effects := inst.effects + [DefineVariables]);
  }

  /** updateServiceVariables: the values of one service's statistics. */
  method UpdateServiceVariables(inst: Instance, name: string, st: ServiceStatus) returns (next: Instance)
    ensures next == inst.(values := inst.values + ServiceVars(Sanitize(name), st))
  {
    var vars := FillServiceVars(map[], Sanitize(name), st);
    next := inst.(values := inst.values + vars);
  }

  /** clearServiceVariables: the six values shown when a service's statistics are missing. */
  method ClearServiceVariables(inst: Instance, name: string) returns (next: Instance)
    ensures next == inst.(values := inst.values + ClearVars(Sanitize(name)))
  {
    var vars := ClearedValues(Sanitize(name));
    next := inst.(values := inst.values + vars);
  }

  /** The instance after getServices: on a failed request only the connection status
      changes; otherwise the list from the device (a null body is no services) replaces
      the old one and everything that depends on it is rebuilt. */
  function Listed(inst: Instance, reply: Reply<seq<Service>>): (next: Instance)
    ensures reply.Failed? ==> next.services == inst.services && next.status == ConnectionFailure
    ensures reply.Failed? ==> next.serviceIdToName == inst.serviceIdToName && next.values == inst.values
                              && next.definitions == inst.definitions && next.serviceChoices == inst.serviceChoices
    ensures reply.Replied? ==> next.services == reply.body.GetOr([]) && next.status == Ok
                               && next.serviceChoices == Choices(next.services)
                               && next.serviceIdToName == IdToName(next.services)
                               && next.definitions == Definitions(next.services)
                               && next.values == InfoFold(inst.values, next.services)
                                                 + RegistryValues(next.services, inst.serviceStatus, inst.serverStatus)
    ensures next.serviceStatus == inst.serviceStatus && next.serverStatus == inst.serverStatus
    ensures |next.effects| > |inst.effects| && next.effects[..|inst.effects|] == inst.effects
    ensures next.effects[|inst.effects|] == Request(GET, ServicesPath, NoBody)
  {
    if reply.Failed? then
      inst.(status := ConnectionFailure,
            effects := inst.effects + [Request(GET, ServicesPath, NoBody), StatusChange(ConnectionFailure), Log(Error)])
    else
      var list := reply.body.GetOr([]);
      inst.(services := list, serviceChoices := Choices(list), serviceIdToName := IdToName(list),
            values := InfoFold(inst.values, list) + RegistryValues(list, inst.serviceStatus, inst.serverStatus),
            definitions := Definitions(list), status := Ok,
            effects := inst.effects + [Request(GET, ServicesPath, NoBody), DefineActions, DefineVariables,
                                       StatusChange(Ok), CheckFeedbacks])
  }

  /** getServices, proved against Listed. */
  method GetServices(inst: Instance, reply: Reply<seq<Service>>) returns (next: Instance)
    ensures next == Listed(inst, reply)
  {
    if reply.Failed? {
      return inst.(status := ConnectionFailure,
                   effects := inst.effects + [Request(GET, ServicesPath, NoBody), StatusChange(ConnectionFailure), Log(Error)]);
    }
    var list := reply.body.GetOr([]);
    var vals, defs := ListRound(inst.values, list, inst.serviceStatus, inst.serverStatus);
    var lookup := BuildIdToName(list);
    next := inst.(services := list, serviceChoices := Choices(list), serviceIdToName := lookup,
                  values := vals, definitions := defs, status := Ok,
                  effects := inst.effects + [Request(GET, ServicesPath, NoBody), DefineActions, DefineVariables,
                                             StatusChange(Ok), CheckFeedbacks]);
  }

  /** getServerStatus as written: blocked_services is set before the definitions are
      rebuilt, and the rebuild sets it back to 0. A failed request changes nothing but the
      request made. */
  method GetServerStatusAsWritten(inst: Instance, reply: Reply<ServerStatus>) returns (next: Instance)
    ensures next == ServedAsWritten(inst, reply)
  {
    if reply.Failed? {
      return inst.(effects := inst.effects + [Request(GET, ServerPath, NoBody)]);
    }
    var vals, stored := ServerRoundValuesAsWritten(inst.values, inst.services, inst.serviceStatus, reply.body);
    var defs := RegisterDefinitions(inst.services);
    next := inst.(serverStatus := reply.body.GetOr(EmptyServer), serviceStatus := stored, values := vals,
                  definitions := defs,
                  effects := inst.effects + [Request(GET, ServerPath, NoBody), DefineVariables, CheckFeedbacks]);
  }

  /** getServerStatus with blocked_services set after the definitions are rebuilt, so that
      it keeps the count of blocked services. */
  method GetServerStatus(inst: Instance, reply: Reply<ServerStatus>) returns (next: Instance)
    ensures reply.Failed? ==> next == inst.(effects := inst.effects + [Request(GET, ServerPath, NoBody)])
    ensures reply.Replied? ==>
              next == inst.(serverStatus := reply.body.GetOr(EmptyServer),
                            serviceStatus := StoredAfter(inst.serviceStatus, inst.services, reply.body),
                            values := ServerRound(inst.values, inst.services, inst.serviceStatus, reply.body),
                            definitions := Definitions(inst.services),
                            effects := inst.effects + [Request(GET, ServerPath, NoBody), DefineVariables, CheckFeedbacks])
  {
    if reply.Failed? {
      return inst.(effects := inst.effects + [Request(GET, ServerPath, NoBody)]);
    }
    var vals, stored := ServerRoundValues(inst.values, inst.services, inst.serviceStatus, reply.body);
    var defs := RegisterDefinitions(inst.services);
    next := inst.(serverStatus := reply.body.GetOr(EmptyServer), serviceStatus := stored, values := vals,
                  definitions := defs,
                  effects := inst.effects + [Request(GET, ServerPath, NoBody), DefineVariables, CheckFeedbacks]);
  }

  /** getServiceStatus: fetch one service's statistics by id (by name when the id is empty),
      store them under its name and show them; clear its variables when the body is null or
      the fetch fails. Answers the body, or None after a failure. */
  method GetServiceStatus(inst: Instance, name: string, id: string, device: string -> Reply<ServiceStatus>)
    returns (next: Instance, r: Option<ServiceStatus>)
    ensures var path := StatusPath(if id != "" then id else name);
            next == inst.(serviceStatus := StoreFetch(inst.serviceStatus, name, device(path)),
                          values := inst.values + FetchVars(name, device(path)),
                          effects := inst.effects + FetchEffects(path, device(path)))
    ensures var reply := device(StatusPath(if id != "" then id else name));
            r == if reply.Replied? then reply.body else None
  {
    var path := StatusPath(if id != "" then id else name);
    var reply := device(path);
    var vars := FetchedValues(name, reply);
    next := inst.(serviceStatus := StoreFetch(inst.serviceStatus, name, reply), values := inst.values + vars,
                  effects := inst.effects + FetchEffects(path, reply));
    r := if reply.Replied? then reply.body else None;
  }

  /** The instance after pollAllServiceStatus: unchanged for an empty list; otherwise the
      statistics of each listed service in list order, stored or cleared, and then the
      definitions rebuilt over them. */
  function Polled(inst: Instance, device: string -> Reply<ServiceStatus>): (next: Instance)
    ensures next.services == inst.services && next.status == inst.status && next.serverStatus == inst.serverStatus
            && next.serviceIdToName == inst.serviceIdToName && next.serviceChoices == inst.serviceChoices
    ensures inst.services == [] ==> next == inst
  {
    if inst.services == [] then inst
    else
      var stored := PollStatuses(inst.serviceStatus, inst.services, FetchOf(device));
      inst.(serviceStatus := stored,
            values := PollValues(inst.values, inst.services, FetchOf(device))
                      + RegistryValues(inst.services, stored, inst.serverStatus),
            definitions := Definitions(inst.services),
            effects := inst.effects + (PollEffects(inst.services, FetchOf(device)) + [DefineVariables]))
  }

  /** pollAllServiceStatus: nothing for an empty list; otherwise each listed service's
      statistics in list order, then the definitions are rebuilt. */
  method PollAllServiceStatus(inst: Instance, device: string -> Reply<ServiceStatus>) returns (next: Instance)
    ensures next == Polled(inst, device)
  {
    if inst.services == [] {
      return inst;
    }
    var vals, stored, effs, defs := PollRound(inst.values, inst.serviceStatus, inst.services, inst.serverStatus, device);
    next := inst.(serviceStatus := stored, values := vals, definitions := defs, effects := inst.effects + effs);
  }

  /** getServices asks the device for the list and nothing else. */
  lemma ListedRequests(inst: Instance, reply: Reply<seq<Service>>)
    ensures Requests(Listed(inst, reply).effects) == Requests(inst.effects) + [Request(GET, ServicesPath, NoBody)]
  {
    var r := Request(GET, ServicesPath, NoBody);
    var rest := if reply.Failed? then [StatusChange(ConnectionFailure), Log(Error)]
                else [DefineActions, DefineVariables, StatusChange(Ok), CheckFeedbacks];
    assert Listed(inst, reply).effects == inst.effects + ([r] + rest);
    RequestThenNone(inst.effects, r, rest);
  }

  /** getServerStatus as written makes the one request for the server statistics, and a
      reply leaves blocked_services at 0. */
  lemma ServedRequests(inst: Instance, reply: Reply<ServerStatus>)
    ensures Requests(ServedAsWritten(inst, reply).effects) == Requests(inst.effects) + [Request(GET, ServerPath, NoBody)]
    ensures reply.Replied? ==> CountIs(ServedAsWritten(inst, reply).values, BlockedServices, 0)
  {
    var next := ServedAsWritten(inst, reply);
    var r := Request(GET, ServerPath, NoBody);
    if reply.Replied? {
      assert next.values == ServerRoundAsWritten(inst.values, inst.services, inst.serviceStatus, reply.body);
      BlockedResetToZero(inst.values, inst.services, inst.serviceStatus, reply.body);
      var rest := [DefineVariables, CheckFeedbacks];
      assert next.effects == inst.effects + ([r] + rest);
      RequestThenNone(inst.effects, r, rest);
    } else {
      assert next.effects == inst.effects + ([r] + []);
      RequestThenNone(inst.effects, r, []);
    }
  }

  /** pollAllServiceStatus makes one statistics request per listed service, in list order,
      and no other request. */
  lemma PolledRequests(inst: Instance, device: string -> Reply<ServiceStatus>)
    ensures Requests(Polled(inst, device).effects) == Requests(inst.effects) + StatusRequests(inst.services)
  {
    var next := Polled(inst, device);
    if inst.services != [] {
      var added := PollEffects(inst.services, FetchOf(device)) + [DefineVariables];
      assert next.effects == inst.effects + added;
      PollRequests(inst.effects, inst.services, FetchOf(device));
    } else {
      assert StatusRequests(inst.services) == [];
    }
  }

  /** The effects of a poll add its statistics requests and nothing else. */
  lemma PollRequests(before: seq<Effect>, services: seq<Service>, fetch: Service -> Reply<ServiceStatus>)
    ensures Requests(before + (PollEffects(services, fetch) + [DefineVariables]))
            == Requests(before) + StatusRequests(services)
  {
    var poll := PollEffects(services, fetch);
    RequestsConcat(before, poll + [DefineVariables]);
    RequestsConcat(poll, [DefineVariables]);
    NoRequests([DefineVariables]);
    PollRequestsInOrder(services, fetch);
  }

  /** One refresh: the service list, then the server statistics and every service's
      statistics. The second part runs whether or not the list could be fetched, and the
      poll then goes over the list as it was before. */
  method Refresh(inst: Instance, list: Reply<seq<Service>>, server: Reply<ServerStatus>,
                 device: string -> Reply<ServiceStatus>)
    returns (next: Instance)
    ensures next == Polled(ServedAsWritten(Listed(inst, list), server), device)
    ensures list.Failed? ==> next.services == inst.services && next.status == ConnectionFailure
    ensures list.Replied? ==> next.services == list.body.GetOr([]) && next.status == Ok
    ensures next.serverStatus == if server.Replied? then server.body.GetOr(EmptyServer) else inst.serverStatus
    ensures Requests(next.effects)
            == Requests(inst.effects) + [Request(GET, ServicesPath, NoBody)] + [Request(GET, ServerPath, NoBody)]
               + StatusRequests(next.services)
  {
    var a := GetServices(inst, list);
    ListedRequests(inst, list);
    var b := GetServerStatusAsWritten(a, server);
    ServedRequests(a, server);
    next := PollAllServiceStatus(b, device);
    PolledRequests(b, device);
    assert next.services == b.services == a.services;
  }

  /** What one startService / stopService adds: the POST, then on success a log and a
      list refresh one second later, otherwise an error log. */
  function ControlEffects(serviceType: string, serviceId: string, command: string,
                          accepts: (Verb, string) -> bool): seq<Effect> {
    var path := ControlPath(serviceType, serviceId, command);
    [Request(POST, path, NoBody)] + (if accepts(POST, path) then [Log(Info), ScheduleRefresh(1000)] else [Log(Error)])
  }

  /** startService / stopService: POST the command and answer whether the device took it. */
  method Control(inst: Instance, serviceType: string, serviceId: string, command: string,
                 accepts: (Verb, string) -> bool)
    returns (next: Instance, ok: bool)
    ensures ok == accepts(POST, ControlPath(serviceType, serviceId, command))
    ensures next == inst.(effects := inst.effects + ControlEffects(serviceType, serviceId, command, accepts))
  {
    var path := ControlPath(serviceType, serviceId, command);
    ok := accepts(POST, path);
    next := inst.(effects := inst.effects + [Request(POST, path, NoBody)]
                             + (if ok then [Log(Info), ScheduleRefresh(1000)] else [Log(Error)]));
  }

  method StartService(inst: Instance, serviceType: string, serviceId: string, accepts: (Verb, string) -> bool)
    returns (next: Instance, ok: bool)
    ensures ok == accepts(POST, ControlPath(serviceType, serviceId, "start"))
    ensures next == inst.(effects := inst.effects + ControlEffects(serviceType, serviceId, "start", accepts))
  {
    next, ok := Control(inst, serviceType, serviceId, "start", accepts);
  }

  method StopService(inst: Instance, serviceType: string, serviceId: string, accepts: (Verb, string) -> bool)
    returns (next: Instance, ok: bool)
    ensures ok == accepts(POST, ControlPath(serviceType, serviceId, "stop"))
    ensures next == inst.(effects := inst.effects + ControlEffects(serviceType, serviceId, "stop", accepts))
  {
    next, ok := Control(inst, serviceType, serviceId, "stop", accepts);
  }
}
