/** src/actions.js: the action callbacks. Each takes the instance and what the device
    answers, and gives the instance afterwards; the device's answers are parameters:
    `accepts(verb, path)` says whether a request succeeds, a Reply gives a body. */
module Actions {
  import opened Wrappers
  import opened Text
  import opened JsValues
  import opened Telemetry
  import opened UriEncoding
  import opened VarIds
  import opened Registry
  import opened Engine
  import opened Conditions

  // ------------------------------------------------------------ choosing a service

  /** The listed service a `type/id` option names: the first with that type and id, when
      the option holds exactly one '/'. */
  function Lookup(services: seq<Service>, option: string): Option<Service> {
    match ServiceOption(option)
    case None => None
    case Some((t, id)) =>
      match FindByTypeAndId(services, t, id)
      case None => None
      case Some(k) => Some(services[k])
  }

  /** A looked-up service is a listed one whose type and id the option joins, and the
      lookup is exactly what service_state reads. */
  lemma LookupMeaning(inst: Instance, option: string)
    ensures var r := Lookup(inst.services, option);
            r.Some? ==> r.value in inst.services && option == r.value.serviceType + "/" + r.value.serviceId
    ensures forall state ::
              ServiceState(inst, option, state)
              <==> Lookup(inst.services, option).Some? && Lookup(inst.services, option).value.state == state
  {
    if ServiceOption(option).Some? {
      ServiceOptionJoins(option);
    }
  }

  // ------------------------------------------------------------ start_service, stop_service

  /** start_service / stop_service: the command for the option's type and id, or a warning
      when the option does not split into exactly two parts. */
  method ServiceCommand(inst: Instance, option: string, command: string, accepts: (Verb, string) -> bool)
    returns (next: Instance)
    ensures Occurrences(option, '/') != 1 ==> next == inst.(effects := inst.effects + [Log(Warn)])
    ensures ServiceOption(option).Some? ==>
              next == inst.(effects := inst.effects + ControlEffects(ServiceOption(option).value.0,
                                                                     ServiceOption(option).value.1, command, accepts))
  {
    var parsed := ServiceOption(option);
    if parsed.None? {
      return inst.(effects := inst.effects + [Log(Warn)]);
    }
    var ok;
    next, ok := Control(inst, parsed.value.0, parsed.value.1, command, accepts);
  }

  method StartAction(inst: Instance, option: string, accepts: (Verb, string) -> bool) returns (next: Instance)
    ensures Occurrences(option, '/') != 1 ==> next == inst.(effects := inst.effects + [Log(Warn)])
    ensures ServiceOption(option).Some? ==>
              next == inst.(effects := inst.effects + ControlEffects(ServiceOption(option).value.0,
                                                                     ServiceOption(option).value.1, "start", accepts))
  {
    next := ServiceCommand(inst, option, "start", accepts);
  }

  method StopAction(inst: Instance, option: string, accepts: (Verb, string) -> bool) returns (next: Instance)
    ensures Occurrences(option, '/') != 1 ==> next == inst.(effects := inst.effects + [Log(Warn)])
    ensures ServiceOption(option).Some? ==>
              next == inst.(effects := inst.effects + ControlEffects(ServiceOption(option).value.0,
                                                                     ServiceOption(option).value.1, "stop", accepts))
  {
    next := ServiceCommand(inst, option, "stop", accepts);
  }

  /** Choosing a listed service from the dropdown posts the command to that service. */
  lemma ChoiceCommand(services: seq<Service>, k: nat, command: string, accepts: (Verb, string) -> bool)
    requires k < |services|
    requires '/' !in services[k].serviceType && '/' !in services[k].serviceId
    ensures ServiceOption(Choices(services)[k].id).Some?
    ensures var p := ServiceOption(Choices(services)[k].id).value;
            ControlEffects(p.0, p.1, command, accepts)[0]
            == Request(POST, ControlPath(services[k].serviceType, services[k].serviceId, command), NoBody)
  {
    ChoiceOption(services, k);
  }

  // ------------------------------------------------------------ paths

  /** Splitting off a last '/'-free segment. */
  lemma SplitSnoc(a: string, b: string)
    requires '/' !in b
    ensures Split(a + "/" + b, '/') == Split(a, '/') + [b]
  {
    SplitAround(a, '/', b);
    SplitNoSeparator(b, '/');
  }

  /** A path ending in three '/'-free segments splits into whatever its prefix splits
      into, then those three. */
  lemma TailSegments(prefix: string, x: string, y: string, z: string)
    requires '/' !in x && '/' !in y && '/' !in z
    ensures var parts := Split(prefix + "/" + x + "/" + y + "/" + z, '/');
            |parts| >= 4 && parts[|parts| - 3..] == [x, y, z]
  {
    SplitSnoc(prefix, x);
    SplitSnoc(prefix + "/" + x, y);
    SplitSnoc(prefix + "/" + x + "/" + y, z);
  }

  /** The same with four segments. */
  lemma TailSegments4(prefix: string, w: string, x: string, y: string, z: string)
    requires '/' !in w && '/' !in x && '/' !in y && '/' !in z
    ensures var parts := Split(prefix + "/" + w + "/" + x + "/" + y + "/" + z, '/');
            |parts| >= 5 && parts[|parts| - 4..] == [w, x, y, z]
  {
    TailSegments(prefix, w, x, y);
    SplitSnoc(prefix + "/" + w + "/" + x + "/" + y, z);
  }

  lemma ControlPathSegments(serviceType: string, serviceId: string, command: string)
    requires '/' !in command
    ensures var parts := Split(ControlPath(serviceType, serviceId, command), '/');
            |parts| >= 4 && parts[|parts| - 3..] == [EncodeComponent(serviceType), EncodeComponent(serviceId), command]
  {
    var et, ei := EncodeComponent(serviceType), EncodeComponent(serviceId);
    TailSegments("/api/services", et, ei, command);
  }

  /** The control and configuration paths name the service they were built for: their
      last three segments decode back to the type and the id, and are the command. */
  lemma ControlPathNames(serviceType: string, serviceId: string, command: string)
    requires '/' !in command
    ensures var parts := Split(ControlPath(serviceType, serviceId, command), '/');
            |parts| >= 4 && DecodeComponent(parts[|parts| - 3]) == Some(serviceType)
            && DecodeComponent(parts[|parts| - 2]) == Some(serviceId) && parts[|parts| - 1] == command
  {
    var parts := Split(ControlPath(serviceType, serviceId, command), '/');
    ControlPathSegments(serviceType, serviceId, command);
    assert parts[|parts| - 3] == EncodeComponent(serviceType) && parts[|parts| - 2] == EncodeComponent(serviceId);
    DecodeEncode(serviceType);
    DecodeEncode(serviceId);
  }

  lemma ControlPathDecodes(path: string, serviceType: string, serviceId: string, command: string)
    requires '/' !in command
    requires path == ControlPath(serviceType, serviceId, command)
    ensures var parts := Split(path, '/');
            |parts| >= 4 && DecodeComponent(parts[|parts| - 3]) == Some(serviceType)
            && DecodeComponent(parts[|parts| - 2]) == Some(serviceId) && parts[|parts| - 1] == command
  {
    ControlPathNames(serviceType, serviceId, command);
  }

  /** Two control paths are equal only for the same type, id and command. */
  lemma ControlPathInjective(t1: string, i1: string, c1: string, t2: string, i2: string, c2: string)
    requires '/' !in c1 && '/' !in c2
    requires ControlPath(t1, i1, c1) == ControlPath(t2, i2, c2)
    ensures t1 == t2 && i1 == i2 && c1 == c2
  {
    var path := ControlPath(t1, i1, c1);
    ControlPathDecodes(path, t1, i1, c1);
    ControlPathDecodes(path, t2, i2, c2);
  }

  /** export_service_config: `/api/services/{type}/{id}/config`, both percent-encoded. */
  function ConfigPath(serviceType: string, serviceId: string): string {
    ControlPath(serviceType, serviceId, "config")
  }

  /** assign_server and remove_server: `/api/assign/services/{type}/{id}/servers/{server}`,
      all three percent-encoded. */
  function AssignPath(serviceType: string, serviceId: string, serverId: string): string {
    "/api/assign/services" + "/" + EncodeComponent(serviceType) + "/" + EncodeComponent(serviceId)
    + "/" + "servers" + "/" + EncodeComponent(serverId)
  }

  lemma AssignPathSegments(serviceType: string, serviceId: string, serverId: string)
    ensures var parts := Split(AssignPath(serviceType, serviceId, serverId), '/');
            |parts| >= 5 && parts[|parts| - 4..]
                            == [EncodeComponent(serviceType), EncodeComponent(serviceId), "servers", EncodeComponent(serverId)]
  {
    var et, ei, es := EncodeComponent(serviceType), EncodeComponent(serviceId), EncodeComponent(serverId);
    TailSegments4("/api/assign/services", et, ei, "servers", es);
  }

  /** The assignment path names the service and the server it was built for. */
  lemma AssignPathNames(serviceType: string, serviceId: string, serverId: string)
    ensures var parts := Split(AssignPath(serviceType, serviceId, serverId), '/');
            |parts| >= 5 && DecodeComponent(parts[|parts| - 4]) == Some(serviceType)
            && DecodeComponent(parts[|parts| - 3]) == Some(serviceId)
            && parts[|parts| - 2] == "servers" && DecodeComponent(parts[|parts| - 1]) == Some(serverId)
  {
    var parts := Split(AssignPath(serviceType, serviceId, serverId), '/');
    AssignPathSegments(serviceType, serviceId, serverId);
    assert parts[|parts| - 4] == EncodeComponent(serviceType) && parts[|parts| - 3] == EncodeComponent(serviceId);
    assert parts[|parts| - 1] == EncodeComponent(serverId);
    DecodeEncode(serviceType);
    DecodeEncode(serviceId);
    DecodeEncode(serverId);
  }

  /** What AssignPathNames says, read off any text equal to an assignment path. */
  lemma AssignPathDecodes(path: string, serviceType: string, serviceId: string, serverId: string)
    requires path == AssignPath(serviceType, serviceId, serverId)
    ensures var parts := Split(path, '/');
            |parts| >= 5 && DecodeComponent(parts[|parts| - 4]) == Some(serviceType)
            && DecodeComponent(parts[|parts| - 3]) == Some(serviceId)
            && DecodeComponent(parts[|parts| - 1]) == Some(serverId)
  {
    AssignPathNames(serviceType, serviceId, serverId);
  }

  /** Assigning and removing name the same service and server only for the same inputs. */
  lemma AssignPathInjective(t1: string, i1: string, s1: string, t2: string, i2: string, s2: string)
    requires AssignPath(t1, i1, s1) == AssignPath(t2, i2, s2)
    ensures t1 == t2 && i1 == i2 && s1 == s2
  {
    var path := AssignPath(t1, i1, s1);
    AssignPathDecodes(path, t1, i1, s1);
    AssignPathDecodes(path, t2, i2, s2);
  }

  /** A request and the log line after it: info when the device answers, error otherwise. */
  function Exchange(verb: Verb, path: string, body: Body, accepts: (Verb, string) -> bool): seq<Effect> {
    [Request(verb, path, body), Log(if accepts(verb, path) then Info else Error)]
  }

  // ------------------------------------------------------------ toggle_service

  /** The command toggle_service sends: stop for a started service, start for one in any
      other state, none when the option names no listed service. */
  function ToggleCommand(inst: Instance, option: string): Option<string> {
    match Lookup(inst.services, option)
    case None => None
    case Some(s) => Some(if s.state == "started" then "stop" else "start")
  }

  /** toggle_service stops exactly the services service_state shows as started, starts the
      ones it shows in any other state, and does nothing for an option no listed service has. */
  lemma ToggleMatchesFeedback(inst: Instance, option: string)
    ensures ToggleCommand(inst, option) == Some("stop") <==> ServiceState(inst, option, "started")
    ensures ToggleCommand(inst, option) == Some("start")
            <==> Lookup(inst.services, option).Some? && !ServiceState(inst, option, "started")
    ensures ToggleCommand(inst, option).None? <==> Lookup(inst.services, option).None?
  {
    LookupMeaning(inst, option);
  }

  /** toggle_service: the toggle command for the option's service, or a warning when the
      option is malformed or names no listed service. */
  method ToggleService(inst: Instance, option: string, accepts: (Verb, string) -> bool) returns (next: Instance)
    ensures ToggleCommand(inst, option).None? ==> next == inst.(effects := inst.effects + [Log(Warn)])
    ensures ToggleCommand(inst, option).Some? ==>
              var s := Lookup(inst.services, option).value;
              next == inst.(effects := inst.effects
                                       + ControlEffects(s.serviceType, s.serviceId, ToggleCommand(inst, option).value, accepts))
  {
    var parsed := ServiceOption(option);
    if parsed.None? {
      return inst.(effects := inst.effects + [Log(Warn)]);
    }
    var t, id := parsed.value.0, parsed.value.1;
    var found := FindByTypeAndId(inst.services, t, id);
    if found.None? {
      return inst.(effects := inst.effects + [Log(Warn)]);
    }
    var ok;
    if inst.services[found.value].state == "started" {
      next, ok := StopService(inst, t, id, accepts);
    } else {
      next, ok := StartService(inst, t, id, accepts);
    }
  }

  // ------------------------------------------------------------ refresh_services

  /** refresh_services: the service list, then the server statistics. As written, the
      server round ends with blocked_services at 0 whatever the entries say. */
  method RefreshServices(inst: Instance, list: Reply<seq<Service>>, server: Reply<ServerStatus>)
    returns (next: Instance)
    ensures next == ServedAsWritten(Listed(inst, list), server)
    ensures next.services == Listed(inst, list).services && next.status == Listed(inst, list).status
    ensures next.serverStatus == if server.Replied? then server.body.GetOr(EmptyServer) else inst.serverStatus
    ensures server.Replied? ==> CountIs(next.values, BlockedServices, 0)
    ensures Requests(next.effects)
            == Requests(inst.effects) + [Request(GET, ServicesPath, NoBody)] + [Request(GET, ServerPath, NoBody)]
  {
    var a := GetServices(inst, list);
    ListedRequests(inst, list);
    next := GetServerStatusAsWritten(a, server);
    ServedRequests(a, server);
  }

  // ------------------------------------------------------------ custom_api_get, custom_api_post

  /** custom_api_get: GET the path and log the answer or the failure. */
  method CustomGet(inst: Instance, path: string, accepts: (Verb, string) -> bool) returns (next: Instance)
    ensures next == inst.(effects := inst.effects + Exchange(GET, path, NoBody, accepts))
  {
    var ok := accepts(GET, path);
    next := inst.(effects := inst.effects + [Request(GET, path, NoBody), Log(if ok then Info else Error)]);
  }

  /** What JSON.parse makes of a text: not JSON, or a value, given by whether it is truthy
      and by the text JSON.stringify writes for it. */
  datatype Parsed = Invalid | Valid(truthy: bool, canonical: string)

  /** The body custom_api_post sends, and whether it warns: an empty text sends no body;
      text that is not JSON warns and sends no body; a falsy JSON value (null, 0, false,
      "") is not written either. */
  function PostBody(text: string, parse: string -> Parsed): (r: (Body, bool))
    ensures r.1 <==> text != "" && parse(text).Invalid?
    ensures r.1 ==> r.0 == NoBody
    ensures r.0.Json? ==> text != "" && parse(text) == Valid(true, r.0.text)
  {
    if text == "" then (NoBody, false)
    else
      match parse(text)
      case Invalid => (NoBody, true)
      case Valid(truthy, canonical) => (if truthy then Json(canonical) else NoBody, false)
  }

  /** custom_api_post: a warning for a body that is not JSON, then the POST and its log. */
  method CustomPost(inst: Instance, path: string, text: string, parse: string -> Parsed,
                    accepts: (Verb, string) -> bool)
    returns (next: Instance)
    ensures next == inst.(effects := inst.effects + (if PostBody(text, parse).1 then [Log(Warn)] else [])
                                     + Exchange(POST, path, PostBody(text, parse).0, accepts))
  {
    var body := NoBody;
    var effs: seq<Effect> := [];
    if text != "" {
      match parse(text)
      case Invalid =>
        effs := [Log(Warn)];
      case Valid(truthy, canonical) =>
        if truthy {
          body := Json(canonical);
        }
    }
    var ok := accepts(POST, path);
    next := inst.(effects := inst.effects + effs + [Request(POST, path, body), Log(if ok then Info else Error)]);
  }

  // ------------------------------------------------------------ start_all_services, stop_all_services

  /** The test of the start-all / stop-all loop: `service.state === state`. */
  function InState(state: string): Service -> bool {
    (s: Service) => s.state == state
  }

  /** The listed services in `state`, in list order: the list `filter` gives, built here by
      splitting off the last service, which is how the loop's invariant grows. */
  function WithState(services: seq<Service>, state: string): (r: seq<Service>)
    ensures r == Filter(services, InState(state))
    ensures forall k :: 0 <= k < |r| ==> r[k].state == state && r[k] in services
    ensures forall s :: s in services && s.state == state ==> s in r
    decreases |services|
  {
    if services == [] then []
    else
      var init, last := services[..|services| - 1], services[|services| - 1];
      assert services == init + [last];
      FilterSnoc(init, last, InState(state));
      WithState(init, state) + (if last.state == state then [last] else [])
  }

  /** What start-all / stop-all adds: for each listed service in `state`, in order, the
      command and a half-second pause. */
  function BulkEffects(services: seq<Service>, state: string, command: string,
                       accepts: (Verb, string) -> bool): seq<Effect>
    decreases |services|
  {
    if services == [] then []
    else
      var last := services[|services| - 1];
      BulkEffects(services[..|services| - 1], state, command, accepts)
      + (if last.state == state then ControlEffects(last.serviceType, last.serviceId, command, accepts) + [Pause(500)] else [])
  }

  /** One command POST per service, in order. */
  function CommandRequests(services: seq<Service>, command: string): (rs: seq<Effect>)
    ensures |rs| == |services|
    ensures forall i :: 0 <= i < |services| ==>
              rs[i] == Request(POST, ControlPath(services[i].serviceType, services[i].serviceId, command), NoBody)
    decreases |services|
  {
    if services == [] then []
    else
      var last := services[|services| - 1];
      CommandRequests(services[..|services| - 1], command)
      + [Request(POST, ControlPath(last.serviceType, last.serviceId, command), NoBody)]
  }

  /** The requests of one start or stop: the POST alone. */
  lemma ControlRequestsOnly(serviceType: string, serviceId: string, command: string, accepts: (Verb, string) -> bool)
    ensures Requests(ControlEffects(serviceType, serviceId, command, accepts) + [Pause(500)])
            == [Request(POST, ControlPath(serviceType, serviceId, command), NoBody)]
  {
    var path := ControlPath(serviceType, serviceId, command);
    var head := [Request(POST, path, NoBody)];
    var tail := (if accepts(POST, path) then [Log(Info), ScheduleRefresh(1000)] else [Log(Error)]) + [Pause(500)];
    assert ControlEffects(serviceType, serviceId, command, accepts) + [Pause(500)] == head + tail;
    RequestsConcat(head, tail);
    NoRequests(tail);
    assert head[..0] == [];
  }

  /** Start-all and stop-all send exactly one command per listed service in the state they
      act on, in list order, and nothing to any other service. */
  lemma {:induction false} BulkRequestsInOrder(services: seq<Service>, state: string, command: string,
                                               accepts: (Verb, string) -> bool)
    ensures Requests(BulkEffects(services, state, command, accepts)) == CommandRequests(WithState(services, state), command)
    decreases |services|
  {
    if services != [] {
      var init, last := services[..|services| - 1], services[|services| - 1];
      BulkRequestsInOrder(init, state, command, accepts);
      if last.state == state {
        RequestsConcat(BulkEffects(init, state, command, accepts),
                       ControlEffects(last.serviceType, last.serviceId, command, accepts) + [Pause(500)]);
        ControlRequestsOnly(last.serviceType, last.serviceId, command, accepts);
        var w := WithState(init, state) + [last];
        assert w[..|w| - 1] == WithState(init, state);
      } else {
        assert BulkEffects(services, state, command, accepts) == BulkEffects(init, state, command, accepts);
      }
    }
  }

  /** One turn of the start-all / stop-all loop. */
  method BulkStep(inst: Instance, s: Service, state: string, command: string, accepts: (Verb, string) -> bool)
    returns (next: Instance)
    ensures next == inst.(effects := inst.effects
                                     + (if s.state == state
                                        then ControlEffects(s.serviceType, s.serviceId, command, accepts) + [Pause(500)]
                                        else []))
  {
    next := inst;
    if s.state == state {
      var ok;
      next, ok := Control(inst, s.serviceType, s.serviceId, command, accepts);
      next := next.(effects := next.effects + [Pause(500)]);
    }
  }

  /** Extending the list by one service extends the effects by that service's turn. */
  lemma BulkEffectsStep(services: seq<Service>, i: nat, state: string, command: string,
                        accepts: (Verb, string) -> bool)
    requires i < |services|
    ensures var s := services[i];
            BulkEffects(services[..i + 1], state, command, accepts)
            == BulkEffects(services[..i], state, command, accepts)
               + (if s.state == state then ControlEffects(s.serviceType, s.serviceId, command, accepts) + [Pause(500)] else [])
  {
    assert services[..i + 1][..i] == services[..i];
  }

  /** One turn of the loop, stated against the effects so far. */
  method BulkTurn(inst: Instance, cur: Instance, services: seq<Service>, i: nat, state: string, command: string,
                  accepts: (Verb, string) -> bool)
    returns (next: Instance)
    requires i < |services|
    requires cur == inst.(effects := inst.effects + BulkEffects(services[..i], state, command, accepts))
    ensures next == inst.(effects := inst.effects + BulkEffects(services[..i + 1], state, command, accepts))
  {
    next := BulkStep(cur, services[i], state, command, accepts);
    BulkEffectsStep(services, i, state, command, accepts);
  }

  /** The loop over the list as it was when the action began. */
  method BulkCommand(inst: Instance, state: string, command: string, accepts: (Verb, string) -> bool)
    returns (next: Instance)
    ensures next == inst.(effects := inst.effects + BulkEffects(inst.services, state, command, accepts))
  {
    var services := inst.services;
    next := inst;
    assert services[..0] == [];
    for i := 0 to |services|
      invariant next == inst.(effects := inst.effects + BulkEffects(services[..i], state, command, accepts))
    {
      next := BulkTurn(inst, next, services, i, state, command, accepts);
    }
    assert services[..|services|] == services;
  }

  /** start_all_services: start every listed service that is stopped. */
  method StartAll(inst: Instance, accepts: (Verb, string) -> bool) returns (next: Instance)
    ensures next == inst.(effects := inst.effects + BulkEffects(inst.services, "stopped", "start", accepts))
  {
    next := BulkCommand(inst, "stopped", "start", accepts);
  }

  /** stop_all_services: stop every listed service that is started. */
  method StopAll(inst: Instance, accepts: (Verb, string) -> bool) returns (next: Instance)
    ensures next == inst.(effects := inst.effects + BulkEffects(inst.services, "started", "stop", accepts))
  {
    next := BulkCommand(inst, "started", "stop", accepts);
  }

  // ------------------------------------------------------------ get_service_status

  /** get_service_status: fetch the statistics of the service the option names; nothing
      at all for a malformed option or one no listed service has. */
  method GetServiceStatusAction(inst: Instance, option: string, device: string -> Reply<ServiceStatus>)
    returns (next: Instance)
    ensures Lookup(inst.services, option).None? ==> next == inst
    ensures Lookup(inst.services, option).Some? ==>
              var s := Lookup(inst.services, option).value;
              var path := StatusPath(ActualId(s));
              next == inst.(serviceStatus := StoreFetch(inst.serviceStatus, s.serviceName, device(path)),
                            values := inst.values + FetchVars(s.serviceName, device(path)),
                            effects := inst.effects + FetchEffects(path, device(path)))
  {
    var parsed := ServiceOption(option);
    if parsed.None? {
      return inst;
    }
    var found := FindByTypeAndId(inst.services, parsed.value.0, parsed.value.1);
    if found.None? {
      return inst;
    }
    var s := inst.services[found.value];
    var r;
    next, r := GetServiceStatus(inst, s.serviceName, s.serviceId, device);
  }

  /** The only request get_service_status makes is the statistics request for the
      service the option names, and it makes none when there is no such service. */
  lemma StatusActionRequests(inst: Instance, option: string, device: string -> Reply<ServiceStatus>)
    ensures var r := Lookup(inst.services, option);
            r.Some? ==> Requests(FetchEffects(StatusPath(ActualId(r.value)), device(StatusPath(ActualId(r.value)))))
                        == [Request(GET, StatusPath(ActualId(r.value)), NoBody)]
  {
    var r := Lookup(inst.services, option);
    if r.Some? {
      FetchRequests(StatusPath(ActualId(r.value)), device(StatusPath(ActualId(r.value))));
    }
  }

  // ------------------------------------------------------------ export, assign, remove

  /** export_service_config: GET the service's configuration and log it or the failure;
      nothing for a malformed option. */
  method ExportConfig(inst: Instance, option: string, accepts: (Verb, string) -> bool) returns (next: Instance)
    ensures Occurrences(option, '/') != 1 ==> next == inst
    ensures ServiceOption(option).Some? ==>
              var p := ServiceOption(option).value;
              next == inst.(effects := inst.effects + Exchange(GET, ConfigPath(p.0, p.1), NoBody, accepts))
  {
    var parsed := ServiceOption(option);
    if parsed.None? {
      return inst;
    }
    var path := ControlPath(parsed.value.0, parsed.value.1, "config");
    var ok := accepts(GET, path);
    next := inst.(effects := inst.effects + [Request(GET, path, NoBody), Log(if ok then Info else Error)]);
  }

  /** assign_server (PUT) and remove_server (DELETE) on the assignment path. */
  method Assignment(inst: Instance, option: string, serverId: string, verb: Verb, accepts: (Verb, string) -> bool)
    returns (next: Instance)
    ensures Occurrences(option, '/') != 1 ==> next == inst
    ensures ServiceOption(option).Some? ==>
              var p := ServiceOption(option).value;
              next == inst.(effects := inst.effects + Exchange(verb, AssignPath(p.0, p.1, serverId), NoBody, accepts))
  {
    var parsed := ServiceOption(option);
    if parsed.None? {
      return inst;
    }
    var path := AssignPath(parsed.value.0, parsed.value.1, serverId);
    var ok := accepts(verb, path);
    next := inst.(effects := inst.effects + [Request(verb, path, NoBody), Log(if ok then Info else Error)]);
  }

  method AssignServer(inst: Instance, option: string, serverId: string, accepts: (Verb, string) -> bool)
    returns (next: Instance)
    ensures Occurrences(option, '/') != 1 ==> next == inst
    ensures ServiceOption(option).Some? ==>
              var p := ServiceOption(option).value;
              next == inst.(effects := inst.effects + Exchange(PUT, AssignPath(p.0, p.1, serverId), NoBody, accepts))
  {
    next := Assignment(inst, option, serverId, PUT, accepts);
  }

  method RemoveServer(inst: Instance, option: string, serverId: string, accepts: (Verb, string) -> bool)
    returns (next: Instance)
    ensures Occurrences(option, '/') != 1 ==> next == inst
    ensures ServiceOption(option).Some? ==>
              var p := ServiceOption(option).value;
              next == inst.(effects := inst.effects + Exchange(DELETE, AssignPath(p.0, p.1, serverId), NoBody, accepts))
  {
    next := Assignment(inst, option, serverId, DELETE, accepts);
  }

  // ------------------------------------------------------------ get_service_by_type

  /** `/api/services/{type}`; the type is sent as it is, not percent-encoded. */
  function TypePath(serviceType: string): string {
    "/api/services/" + serviceType
  }

  /** The list after the fetched services are pushed onto it in order, each only when no
      service already on the list (including those pushed before it) has its id. */
  function Merged(existing: seq<Service>, incoming: seq<Service>): seq<Service>
    decreases |incoming|
  {
    if incoming == [] then existing
    else
      var m := Merged(existing, incoming[..|incoming| - 1]);
      var s := incoming[|incoming| - 1];
      if FindById(m, s.serviceId).None? then m + [s] else m
  }

  predicate IdsDistinct(services: seq<Service>) {
    forall i, j :: 0 <= i < j < |services| ==> services[i].serviceId != services[j].serviceId
  }

  /** The merge keeps the list it started from as a prefix and appends only fetched services. */
  lemma {:induction false} MergedExtends(existing: seq<Service>, incoming: seq<Service>)
    ensures var m := Merged(existing, incoming);
            |m| >= |existing| && m[..|existing|] == existing
            && forall k :: |existing| <= k < |m| ==> m[k] in incoming
    decreases |incoming|
  {
    if incoming != [] {
      var init := incoming[..|incoming| - 1];
      MergedExtends(existing, init);
      var m := Merged(existing, incoming);
      var m0 := Merged(existing, init);
      forall k | |existing| <= k < |m|
        ensures m[k] in incoming
      {
        if k < |m0| {
          assert m[k] == m0[k] && m0[k] in init;
        }
      }
    }
  }

  /** Every fetched id is on the merged list, and no appended service shares its id with
      any service before it. */
  lemma {:induction false} MergedIds(existing: seq<Service>, incoming: seq<Service>)
    ensures var m := Merged(existing, incoming);
            forall i :: 0 <= i < |incoming| ==> FindById(m, incoming[i].serviceId).Some?
    ensures var m := Merged(existing, incoming);
            forall i, j :: 0 <= i < j < |m| && |existing| <= j ==> m[i].serviceId != m[j].serviceId
    decreases |incoming|
  {
    if incoming != [] {
      var init, s := incoming[..|incoming| - 1], incoming[|incoming| - 1];
      MergedIds(existing, init);
      MergedExtends(existing, init);
      var m0 := Merged(existing, init);
      var m := Merged(existing, incoming);
      forall i | 0 <= i < |incoming|
        ensures FindById(m, incoming[i].serviceId).Some?
      {
        if i < |init| {
          assert incoming[i] == init[i];
          var k := FindById(m0, init[i].serviceId).value;
          assert m[k] == m0[k];
        } else if FindById(m0, s.serviceId).None? {
          assert m[|m0|] == s;
        }
      }
      forall i, j | 0 <= i < j < |m| && |existing| <= j
        ensures m[i].serviceId != m[j].serviceId
      {
        if j == |m0| {
          assert FindById(m0, s.serviceId).None? && m[j] == s && m[i] == m0[i];
        } else {
          assert m[i] == m0[i] && m[j] == m0[j];
        }
      }
    }
  }

  /** A list without repeated ids keeps that property through the merge. */
  lemma MergedDistinct(existing: seq<Service>, incoming: seq<Service>)
    requires IdsDistinct(existing)
    ensures IdsDistinct(Merged(existing, incoming))
  {
    MergedIds(existing, incoming);
    MergedExtends(existing, incoming);
    var m := Merged(existing, incoming);
    forall i, j | 0 <= i < j < |m|
      ensures m[i].serviceId != m[j].serviceId
    {
      if j < |existing| {
        assert m[i] == existing[i] && m[j] == existing[j];
      }
    }
  }

  /** The pushes of get_service_by_type, one fetched service at a time. */
  method MergeServices(existing: seq<Service>, incoming: seq<Service>) returns (merged: seq<Service>)
    ensures merged == Merged(existing, incoming)
  {
    merged := existing;
    for i := 0 to |incoming|
      invariant merged == Merged(existing, incoming[..i])
    {
      var s := incoming[i];
      if FindById(merged, s.serviceId).None? {
        merged := merged + [s];
      }
      assert incoming[..i + 1][..i] == incoming[..i];
    }
    assert incoming[..|incoming|] == incoming;
  }

  /** get_service_by_type: fetch the services of one type; push the new ones onto the
      list and then fetch the whole list again. A failed request or a null body logs an
      error; an empty array changes nothing beyond the info log. */
  method GetServiceByType(inst: Instance, serviceType: string, typed: Reply<seq<Service>>,
                          list: Reply<seq<Service>>)
    returns (next: Instance)
    ensures typed.Failed? || typed.body.None? ==>
              next == inst.(effects := inst.effects + [Request(GET, TypePath(serviceType), NoBody), Log(Error)])
    ensures typed == Replied(Some([])) ==>
              next == inst.(effects := inst.effects + [Request(GET, TypePath(serviceType), NoBody), Log(Info)])
    ensures typed.Replied? && typed.body.Some? && typed.body.value != [] ==>
              next == Listed(inst.(services := Merged(inst.services, typed.body.value),
                                   effects := inst.effects + [Request(GET, TypePath(serviceType), NoBody), Log(Info)]),
                             list)
  {
    var path := TypePath(serviceType);
    if typed.Failed? || typed.body.None? {
      return inst.(effects := inst.effects + [Request(GET, path, NoBody), Log(Error)]);
    }
    var found := typed.body.value;
    var mid := inst.(effects := inst.effects + [Request(GET, path, NoBody), Log(Info)]);
    if found == [] {
      return mid;
    }
    var merged := MergeServices(inst.services, found);
    next := GetServices(mid.(services := merged), list);
  }

  /** The pushed services outlive get_service_by_type only when the list fetch after the
      pushes fails: otherwise the fetched list replaces them. */
  lemma MergeOverwritten(inst: Instance, found: seq<Service>, list: Reply<seq<Service>>)
    ensures Listed(inst.(services := Merged(inst.services, found)), list).services
            == if list.Failed? then Merged(inst.services, found) else list.body.GetOr([])
  {
  }
}
