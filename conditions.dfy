/** src/feedbacks.js: the boolean feedbacks, each a read-only condition over what the
    instance holds. Where a callback answers a falsy value (undefined, an empty string)
    the condition is false. */
module Conditions {
  import opened Wrappers
  import opened Text
  import opened JsValues
  import opened Telemetry
  import opened VarIds
  import opened Projection
  import opened ServiceProps
  import opened Engine

  // ------------------------------------------------------------ JavaScript `some` and `every`

  /** `xs.some(p)`, element by element. */
  function AnyOf<T>(xs: seq<T>, p: T -> bool): bool
    decreases |xs|
  {
    xs != [] && (p(xs[0]) || AnyOf(xs[1..], p))
  }

  /** `xs.every(p)`, element by element. */
  function AllOf<T>(xs: seq<T>, p: T -> bool): bool
    decreases |xs|
  {
    xs == [] || (p(xs[0]) && AllOf(xs[1..], p))
  }

  lemma {:induction false} AnyOfMeaning<T>(xs: seq<T>, p: T -> bool)
    ensures AnyOf(xs, p) <==> exists i :: 0 <= i < |xs| && p(xs[i])
    decreases |xs|
  {
    if xs != [] {
      AnyOfMeaning(xs[1..], p);
      if exists i :: 0 <= i < |xs| && p(xs[i]) {
        var i :| 0 <= i < |xs| && p(xs[i]);
        if i > 0 {
          assert p(xs[1..][i - 1]);
        }
      }
      if AnyOf(xs[1..], p) {
        var i :| 0 <= i < |xs[1..]| && p(xs[1..][i]);
        assert p(xs[i + 1]);
      }
    }
  }

  lemma {:induction false} AllOfMeaning<T>(xs: seq<T>, p: T -> bool)
    ensures AllOf(xs, p) <==> forall i :: 0 <= i < |xs| ==> p(xs[i])
    decreases |xs|
  {
    if xs != [] {
      AllOfMeaning(xs[1..], p);
      if forall i :: 0 <= i < |xs| ==> p(xs[i]) {
        assert forall i :: 0 <= i < |xs[1..]| ==> p(xs[1..][i]) by {
          forall i | 0 <= i < |xs[1..]|
            ensures p(xs[1..][i])
          {
            assert xs[1..][i] == xs[i + 1];
          }
        }
      }
      if AllOf(xs, p) {
        forall i | 0 <= i < |xs|
          ensures p(xs[i])
        {
          if i > 0 {
            assert xs[i] == xs[1..][i - 1];
          }
        }
      }
    }
  }

  // ------------------------------------------------------------ service_state

  /** service_state: the first listed service with the option's type and id is in `state`. */
  predicate ServiceState(inst: Instance, option: string, state: string) {
    match ServiceOption(option)
    case None => false
    case Some((t, id)) =>
      match FindByTypeAndId(inst.services, t, id)
      case None => false
      case Some(k) => inst.services[k].state == state
  }

  /** service_state holds exactly when the option holds one '/', some listed service has
      the option's type and id and the requested state, and no earlier one has that type
      and id. */
  lemma ServiceStateMeaning(inst: Instance, option: string, state: string)
    ensures ServiceState(inst, option, state)
            <==> Occurrences(option, '/') == 1
                 && exists k :: 0 <= k < |inst.services| && inst.services[k].state == state
                                && option == inst.services[k].serviceType + "/" + inst.services[k].serviceId
                                && forall j :: 0 <= j < k ==>
                                     option != inst.services[j].serviceType + "/" + inst.services[j].serviceId
  {
    if ServiceState(inst, option, state) {
      ServiceStateSound(inst, option, state);
    }
    if Occurrences(option, '/') == 1
       && exists k :: 0 <= k < |inst.services| && inst.services[k].state == state
                      && option == inst.services[k].serviceType + "/" + inst.services[k].serviceId
                      && forall j :: 0 <= j < k ==>
                           option != inst.services[j].serviceType + "/" + inst.services[j].serviceId
    {
      var k :| 0 <= k < |inst.services| && inst.services[k].state == state
               && option == inst.services[k].serviceType + "/" + inst.services[k].serviceId
               && forall j :: 0 <= j < k ==>
                    option != inst.services[j].serviceType + "/" + inst.services[j].serviceId;
      ServiceStateComplete(inst, option, state, k);
    }
  }

  lemma ServiceStateSound(inst: Instance, option: string, state: string)
    requires ServiceState(inst, option, state)
    ensures Occurrences(option, '/') == 1
    ensures var k := FindByTypeAndId(inst.services, ServiceOption(option).value.0, ServiceOption(option).value.1);
            && k.Some? && inst.services[k.value].state == state
            && option == inst.services[k.value].serviceType + "/" + inst.services[k.value].serviceId
            && forall j :: 0 <= j < k.value ==>
                 option != inst.services[j].serviceType + "/" + inst.services[j].serviceId
  {
    var (t, id) := ServiceOption(option).value;
    var k := FindByTypeAndId(inst.services, t, id).value;
    ServiceOptionJoins(option);
    forall j | 0 <= j < k
      ensures option != inst.services[j].serviceType + "/" + inst.services[j].serviceId
    {
      OptionMatches(option, inst.services[j]);
    }
  }

  lemma ServiceStateComplete(inst: Instance, option: string, state: string, k: nat)
    requires Occurrences(option, '/') == 1
    requires k < |inst.services| && inst.services[k].state == state
    requires option == inst.services[k].serviceType + "/" + inst.services[k].serviceId
    requires forall j :: 0 <= j < k ==> option != inst.services[j].serviceType + "/" + inst.services[j].serviceId
    ensures ServiceState(inst, option, state)
  {
    var (t, id) := ServiceOption(option).value;
    OptionMatches(option, inst.services[k]);
    forall j | 0 <= j < k
      ensures !(inst.services[j].serviceType == t && inst.services[j].serviceId == id)
    {
      OptionMatches(option, inst.services[j]);
    }
    var r := FindByTypeAndId(inst.services, t, id);
    assert r == Some(k);
  }

  /** A parsed option names a service exactly when it is that service's type and id
      joined by '/'. */
  lemma OptionMatches(option: string, s: Service)
    requires ServiceOption(option).Some?
    ensures option == s.serviceType + "/" + s.serviceId
            <==> s.serviceType == ServiceOption(option).value.0 && s.serviceId == ServiceOption(option).value.1
  {
    ServiceOptionJoins(option);
    var (t, id) := ServiceOption(option).value;
    if option == s.serviceType + "/" + s.serviceId {
      SplitJoinPair(s.serviceType, s.serviceId, t, id);
    }
  }

  /** Two pairs joined by '/' into the same text, the second free of '/', are the same pair. */
  lemma SplitJoinPair(a: string, b: string, c: string, d: string)
    requires '/' !in c && '/' !in d
    requires a + "/" + b == c + "/" + d
    ensures a == c && b == d
  {
    SplitAround(c, '/', d);
    SplitNoSeparator(c, '/');
    SplitNoSeparator(d, '/');
    SplitAround(a, '/', b);
    var pa, pb := Split(a, '/'), Split(b, '/');
    assert pa + pb == [c, d];
    assert |pa| == 1 && |pb| == 1;
    assert (pa + pb)[0] == pa[0] && (pa + pb)[1] == pb[0];
    JoinSplit(a, '/');
    JoinSplit(b, '/');
    assert pa[0] == c && pb[0] == d;
  }

  /** For a service's own dropdown choice, service_state reads that service's state,
      provided no earlier listed service has the same type and id. */
  lemma ServiceStateOfChoice(inst: Instance, k: nat, state: string)
    requires k < |inst.services|
    requires '/' !in inst.services[k].serviceType && '/' !in inst.services[k].serviceId
    requires forall j :: 0 <= j < k ==> inst.services[j].serviceType != inst.services[k].serviceType
                                         || inst.services[j].serviceId != inst.services[k].serviceId
    ensures ServiceState(inst, Choices(inst.services)[k].id, state) <==> inst.services[k].state == state
  {
    ChoiceOption(inst.services, k);
  }

  // ------------------------------------------------------------ the id-keyed lookup

  /** What the id-keyed feedbacks read: the option's id (its type is not looked at), its
      name through serviceIdToName (an empty name counts as none), and the statistics
      stored under that name. */
  function StatusById(inst: Instance, option: string): Option<ServiceStatus> {
    match ServiceOption(option)
    case None => None
    case Some((_, id)) =>
      if id in inst.serviceIdToName && inst.serviceIdToName[id] != ""
         && inst.serviceIdToName[id] in inst.serviceStatus
      then Some(inst.serviceStatus[inst.serviceIdToName[id]])
      else None
  }

  /** The lookup finds statistics exactly when the option is `type/id`, the id is mapped to
      a non-empty name and statistics are stored under that name; they are those
      statistics. */
  lemma StatusByIdMeaning(inst: Instance, t: string, id: string)
    requires '/' !in t && '/' !in id
    ensures StatusById(inst, t + "/" + id).Some?
            <==> id in inst.serviceIdToName && inst.serviceIdToName[id] != ""
                 && inst.serviceIdToName[id] in inst.serviceStatus
    ensures StatusById(inst, t + "/" + id).Some?
            ==> StatusById(inst, t + "/" + id).value == inst.serviceStatus[inst.serviceIdToName[id]]
  {
    SplitJoinOption(t, id);
  }

  lemma SplitJoinOption(t: string, id: string)
    requires '/' !in t && '/' !in id
    ensures ServiceOption(t + "/" + id) == Some((t, id))
  {
    SplitAround(t, '/', id);
    SplitNoSeparator(t, '/');
    SplitNoSeparator(id, '/');
  }

  /** The id-keyed feedbacks ignore the type part of the option. */
  lemma StatusByIdIgnoresType(inst: Instance, t1: string, t2: string, id: string)
    requires '/' !in t1 && '/' !in t2 && '/' !in id
    ensures StatusById(inst, t1 + "/" + id) == StatusById(inst, t2 + "/" + id)
  {
    SplitJoinOption(t1, id);
    SplitJoinOption(t2, id);
  }

  /** An option without exactly one '/' resolves to nothing. */
  lemma StatusByIdNeedsOneSlash(inst: Instance, option: string)
    requires Occurrences(option, '/') != 1
    ensures StatusById(inst, option) == None
  {
  }

  /** `inputs.sources[inputs.activeSourceIndex || 0]`, when the status has inputs and
      sources and that position exists. */
  function ActiveSourceOf(st: ServiceStatus): Option<Source> {
    if st.inputs.Has? && st.inputs.value.sources.Has? then
      var i := OrInt(st.inputs.value.activeSourceIndex, 0);
      var srcs := st.inputs.value.sources.value;
      if 0 <= i < |srcs| then Some(srcs[i]) else None
    else None
  }

  /** A missing, null or zero activeSourceIndex selects the first source. */
  lemma ActiveSourceDefault(st: ServiceStatus)
    requires st.inputs.Has? && st.inputs.value.sources.Has? && |st.inputs.value.sources.value| > 0
    requires !TruthyInt(st.inputs.value.activeSourceIndex)
    ensures ActiveSourceOf(st) == Some(st.inputs.value.sources.value[0])
  {
  }

  /** The active source of the statistics an option resolves to. */
  function ActiveSourceById(inst: Instance, option: string): Option<Source> {
    match StatusById(inst, option)
    case None => None
    case Some(st) => ActiveSourceOf(st)
  }

  // ------------------------------------------------------------ service_receiving

  /** service_receiving: the active source reports `receiving === true`. */
  predicate ServiceReceiving(inst: Instance, option: string) {
    var src := ActiveSourceById(inst, option);
    src.Some? && src.value.receiving == Has(true)
  }

  /** service_receiving holds exactly when the option resolves to statistics whose active
      source (the first one when the index is missing or 0) says it is receiving; a null,
      missing or false flag is not receiving. */
  lemma ServiceReceivingMeaning(inst: Instance, option: string)
    ensures ServiceReceiving(inst, option)
            <==> exists st, src :: StatusById(inst, option) == Some(st) && ActiveSourceOf(st) == Some(src)
                                   && src.receiving == Has(true)
    ensures ServiceReceiving(inst, option) ==> ActiveSourceById(inst, option).Some?
  {
    if ServiceReceiving(inst, option) {
      var st := StatusById(inst, option).value;
      assert ActiveSourceOf(st) == Some(ActiveSourceById(inst, option).value);
    }
  }

  /** service_receiving agrees with the receiving variable updateServiceVariables sets for
      the same source: "Yes" exactly when the flag is true. */
  lemma ReceivingMatchesVariable(inst: Instance, option: string, slot: SourceSlot)
    requires ActiveSourceById(inst, option).Some?
    ensures ServiceReceiving(inst, option)
            <==> SourceWrites(slot, ActiveSourceById(inst, option).value)[1].1 == Str("Yes")
  {
  }

  // ------------------------------------------------------------ input_alarm

  datatype AlarmKind = CcError | TransportError | TsSyncLoss | PidError | PmtError

  /** The counter an alarm type names. */
  function AlarmCount(src: Source, kind: AlarmKind): Field<int> {
    match kind
    case CcError => src.ccError
    case TransportError => src.transportError
    case TsSyncLoss => src.tsSyncLoss
    case PidError => src.pidError
    case PmtError => src.pmtError
  }

  /** input_alarm: the active source's counter, `|| 0`, is strictly above the threshold. */
  predicate InputAlarm(inst: Instance, option: string, kind: AlarmKind, threshold: int) {
    match ActiveSourceById(inst, option)
    case None => false
    case Some(src) => OrInt(AlarmCount(src, kind), 0) > threshold
  }

  /** With an active source, the alarm is on exactly when the counter exceeds the
      threshold, a missing or null counter reading 0; a counter equal to the threshold
      does not raise it. */
  lemma InputAlarmMeaning(inst: Instance, option: string, kind: AlarmKind, threshold: int)
    ensures ActiveSourceById(inst, option).None? ==> !InputAlarm(inst, option, kind, threshold)
    ensures ActiveSourceById(inst, option).Some? ==>
              var c := AlarmCount(ActiveSourceById(inst, option).value, kind);
              && (c.Has? ==> (InputAlarm(inst, option, kind, threshold) <==> c.value > threshold))
              && (!c.Has? ==> (InputAlarm(inst, option, kind, threshold) <==> 0 > threshold))
  {
  }

  // ------------------------------------------------------------ bitrate_threshold

  /** `bitRate` as a JavaScript number operand (null is 0, undefined compares false). */
  function BitRateField(f: Field<nat>): Field<int> {
    match f
    case Absent => Absent
    case Null => Null
    case Has(b) => Has(b)
  }

  /** bitrate_threshold: the active source has a bitRate (null counts as 0) below the
      limit for "less", and above it for any other comparison. */
  predicate BitrateThreshold(inst: Instance, option: string, comparison: string, limit: int) {
    match ActiveSourceById(inst, option)
    case None => false
    case Some(src) =>
      if src.bitRate.Absent? then false
      else if comparison == "less" then Less(BitRateField(src.bitRate), limit)
      else Greater(BitRateField(src.bitRate), limit)
  }

  /** A missing bitRate never triggers; "less" is strictly below and every other
      comparison strictly above, so a bitrate equal to the limit triggers neither. */
  lemma BitrateThresholdMeaning(inst: Instance, option: string, comparison: string, limit: int)
    requires ActiveSourceById(inst, option).Some?
    ensures var b := ActiveSourceById(inst, option).value.bitRate;
            && (b.Absent? ==> !BitrateThreshold(inst, option, comparison, limit))
            && (b.Has? && comparison == "less" ==> (BitrateThreshold(inst, option, comparison, limit) <==> b.value < limit))
            && (b.Has? && comparison != "less" ==> (BitrateThreshold(inst, option, comparison, limit) <==> b.value > limit))
            && (b.Null? && comparison == "less" ==> (BitrateThreshold(inst, option, comparison, limit) <==> 0 < limit))
            && (b.Null? && comparison != "less" ==> (BitrateThreshold(inst, option, comparison, limit) <==> 0 > limit))
  {
  }

  /** At the limit itself neither comparison holds. */
  lemma BitrateAtLimit(inst: Instance, option: string, limit: int)
    requires ActiveSourceById(inst, option).Some?
    requires ActiveSourceById(inst, option).value.bitRate == Has(limit)
    requires limit >= 0
    ensures !BitrateThreshold(inst, option, "less", limit) && !BitrateThreshold(inst, option, "greater", limit)
  {
    BitrateThresholdMeaning(inst, option, "less", limit);
    BitrateThresholdMeaning(inst, option, "greater", limit);
  }

  // ------------------------------------------------------------ descrambling_state

  /** The decode record of a status, when it has processings with a decode. */
  function DecodeOf(st: ServiceStatus): Option<Decode> {
    if st.processings.Has? && st.processings.value.decode.Has? then Some(st.processings.value.decode.value)
    else None
  }

  /** descrambling_state: the decode's descramblingState is the requested one. */
  predicate DescramblingState(inst: Instance, option: string, state: string) {
    match StatusById(inst, option)
    case None => false
    case Some(st) =>
      match DecodeOf(st)
      case None => false
      case Some(d) => d.descramblingState == Has(state)
  }

  /** At most one state holds at a time, and none without a decode. */
  lemma DescramblingStateUnique(inst: Instance, option: string, a: string, b: string)
    requires DescramblingState(inst, option, a) && DescramblingState(inst, option, b)
    ensures a == b
    ensures StatusById(inst, option).Some? && DecodeOf(StatusById(inst, option).value).Some?
  {
  }

  // ------------------------------------------------------------ source_active

  /** source_active: activeSourceIndex is strictly the requested index; unlike
      service_receiving there is no default. */
  predicate SourceActive(inst: Instance, option: string, source: int) {
    match StatusById(inst, option)
    case None => false
    case Some(st) => st.inputs.Has? && st.inputs.value.activeSourceIndex == Has(source)
  }

  /** With no activeSourceIndex, source_active is false for every source, although
      service_receiving then reads the first source. */
  lemma SourceActiveNoDefault(inst: Instance, option: string, source: int)
    requires StatusById(inst, option).Some?
    requires StatusById(inst, option).value.inputs.Has?
    requires !StatusById(inst, option).value.inputs.value.activeSourceIndex.Has?
    ensures !SourceActive(inst, option, source)
  {
  }

  /** source_active for source 0 agrees with the active_source variable of the same
      statistics reading "Primary". */
  lemma SourceActiveMatchesVariable(inst: Instance, option: string, safe: string)
    requires StatusById(inst, option).Some? && StatusById(inst, option).value.inputs.Has?
    ensures ServiceKey(safe, ActiveSource) in ServiceVars(safe, StatusById(inst, option).value)
    ensures SourceActive(inst, option, 0)
            <==> ServiceVars(safe, StatusById(inst, option).value)[ServiceKey(safe, ActiveSource)] == Str("Primary")
  {
    ActiveSourceValue(safe, StatusById(inst, option).value);
  }

  // ------------------------------------------------------------ any_service_running / all_services_stopped

  predicate AnyServiceRunning(inst: Instance) {
    AnyOf(inst.services, (s: Service) => s.state == "started")
  }

  predicate AllServicesStopped(inst: Instance) {
    |inst.services| > 0 && AllOf(inst.services, (s: Service) => s.state == "stopped")
  }

  /** any_service_running: some listed service is started. */
  lemma AnyServiceRunningMeaning(inst: Instance)
    ensures AnyServiceRunning(inst) <==> exists k :: 0 <= k < |inst.services| && inst.services[k].state == "started"
  {
    AnyOfMeaning(inst.services, (s: Service) => s.state == "started");
  }

  /** all_services_stopped: the list is not empty and every listed service is stopped. */
  lemma AllServicesStoppedMeaning(inst: Instance)
    ensures AllServicesStopped(inst)
            <==> |inst.services| > 0 && forall k :: 0 <= k < |inst.services| ==> inst.services[k].state == "stopped"
  {
    AllOfMeaning(inst.services, (s: Service) => s.state == "stopped");
  }

  /** The two never hold together, and with an empty list neither holds. */
  lemma AnyAndAllExclusive(inst: Instance)
    ensures !(AnyServiceRunning(inst) && AllServicesStopped(inst))
    ensures inst.services == [] ==> !AnyServiceRunning(inst) && !AllServicesStopped(inst)
  {
    AnyServiceRunningMeaning(inst);
    AllServicesStoppedMeaning(inst);
  }

  // ------------------------------------------------------------ status by name

  /** The sources of a status, when it has inputs with sources. */
  function SourcesOf(st: ServiceStatus): Option<seq<Source>> {
    if st.inputs.Has? && st.inputs.value.sources.Has? then Some(st.inputs.value.sources.value) else None
  }

  /** The first source of the given type in the statistics stored under `name`. */
  function SourceByName(inst: Instance, name: string, kind: string): Option<Source> {
    if name in inst.serviceStatus && SourcesOf(inst.serviceStatus[name]).Some? then
      var srcs := SourcesOf(inst.serviceStatus[name]).value;
      match FindSource(srcs, kind)
      case None => None
      case Some(i) => Some(srcs[i])
    else None
  }

  // ------------------------------------------------------------ satellite_input_status

  /** satellite_input_status on the first "sat" source: RF lock, receiving, C/N margin and
      signal strength above the threshold. The BER check reads the text through
      parseFloat; whether it parses as a number below the threshold is the parameter
      `berBelow`. */
  predicate SatelliteInput(inst: Instance, name: string, checkType: string, threshold: int,
                           berBelow: (Field<string>, int) -> bool) {
    match SourceByName(inst, name, "sat")
    case None => false
    case Some(sat) =>
      if checkType == "rfLock" then sat.rfLock == Has(true)
      else if checkType == "receiving" then sat.receiving == Has(true)
      else if checkType == "ber" then berBelow(sat.ber, threshold)
      else if checkType == "cnMargin" then Greater(sat.cnMargin, threshold)
      else if checkType == "signalStrength" then Greater(sat.signalStrength, threshold)
      else false
  }

  /** Each check reads the first satellite source of the named statistics, and with no
      such source (or an unknown check) the condition is false. */
  lemma SatelliteInputMeaning(inst: Instance, name: string, checkType: string, threshold: int,
                              berBelow: (Field<string>, int) -> bool)
    ensures SatelliteInput(inst, name, checkType, threshold, berBelow) ==>
              name in inst.serviceStatus && SourceByName(inst, name, "sat").Some?
              && SourceByName(inst, name, "sat").value.kind == Has("sat")
    ensures checkType !in {"rfLock", "receiving", "ber", "cnMargin", "signalStrength"} ==>
              !SatelliteInput(inst, name, checkType, threshold, berBelow)
    ensures SourceByName(inst, name, "sat").Some? && checkType == "cnMargin" ==>
              (SatelliteInput(inst, name, checkType, threshold, berBelow)
               <==> Greater(SourceByName(inst, name, "sat").value.cnMargin, threshold))
  {
    if SourceByName(inst, name, "sat").Some? {
      var srcs := SourcesOf(inst.serviceStatus[name]).value;
      assert srcs[FindSource(srcs, "sat").value].kind == Has("sat");
    }
  }

  // ------------------------------------------------------------ asi_input_status

  /** The ASI bitrate threshold: the option, or 1 000 000 when it is 0. */
  function AsiThreshold(threshold: int): int {
    OrInt(Has(threshold), 1000000)
  }

  /** asi_input_status on the first "asi" source: receiving, or a bitrate strictly above
      the threshold. */
  predicate AsiInput(inst: Instance, name: string, checkType: string, threshold: int) {
    match SourceByName(inst, name, "asi")
    case None => false
    case Some(asi) =>
      if checkType == "receiving" then asi.receiving == Has(true)
      else if checkType == "bitrate" then Greater(BitRateField(asi.bitRate), AsiThreshold(threshold))
      else false
  }

  /** A zero threshold means 1 000 000 bps; a missing bitrate never passes. */
  lemma AsiDefaultThreshold(inst: Instance, name: string)
    requires SourceByName(inst, name, "asi").Some?
    ensures var b := SourceByName(inst, name, "asi").value.bitRate;
            && (b.Has? ==> (AsiInput(inst, name, "bitrate", 0) <==> b.value > 1000000))
            && (!b.Has? ==> !AsiInput(inst, name, "bitrate", 0))
  {
  }

  // ------------------------------------------------------------ service_blocked

  /** service_blocked: the running state stored under the name contains "blocked". */
  predicate ServiceBlocked(inst: Instance, name: string) {
    name in inst.serviceStatus && IsBlocked(inst.serviceStatus[name])
  }

  /** service_blocked holds exactly when the stored running state has "blocked" at some
      position; it is the same test getServerStatus uses to count blocked services. */
  lemma ServiceBlockedMeaning(inst: Instance, name: string)
    ensures ServiceBlocked(inst, name)
            <==> name in inst.serviceStatus && inst.serviceStatus[name].runningState.Has?
                 && exists i: nat :: OccursAt(inst.serviceStatus[name].runningState.value, "blocked", i)
  {
    if name in inst.serviceStatus && inst.serviceStatus[name].runningState.Has? {
      IncludesAt(inst.serviceStatus[name].runningState.value, "blocked");
    }
  }

  // ------------------------------------------------------------ program_detected

  /** program_detected: with program number 0, any program at all; otherwise a program
      with exactly that number. */
  predicate ProgramDetected(inst: Instance, name: string, programNumber: int) {
    if name in inst.serviceStatus && inst.serviceStatus[name].inputs.Has?
       && inst.serviceStatus[name].inputs.value.mptsPrograms.Has?
    then
      var progs := inst.serviceStatus[name].inputs.value.mptsPrograms.value;
      if programNumber == 0 then |progs| > 0
      else AnyOf(progs, (p: Program) => p.programNumber == Has(programNumber))
    else false
  }

  lemma ProgramDetectedMeaning(inst: Instance, name: string, programNumber: int)
    requires name in inst.serviceStatus && inst.serviceStatus[name].inputs.Has?
    requires inst.serviceStatus[name].inputs.value.mptsPrograms.Has?
    ensures var progs := inst.serviceStatus[name].inputs.value.mptsPrograms.value;
            && (programNumber == 0 ==> (ProgramDetected(inst, name, programNumber) <==> |progs| > 0))
            && (programNumber != 0 ==>
                  (ProgramDetected(inst, name, programNumber)
                   <==> exists i :: 0 <= i < |progs| && progs[i].programNumber == Has(programNumber)))
  {
    var progs := inst.serviceStatus[name].inputs.value.mptsPrograms.value;
    AnyOfMeaning(progs, (p: Program) => p.programNumber == Has(programNumber));
  }

  /** Without a program list the condition is false for every number. */
  lemma ProgramDetectedNeedsList(inst: Instance, name: string, programNumber: int)
    requires name in inst.serviceStatus && inst.serviceStatus[name].inputs.Has?
             ==> !inst.serviceStatus[name].inputs.value.mptsPrograms.Has?
    ensures !ProgramDetected(inst, name, programNumber)
  {
  }

  // ------------------------------------------------------------ decode_state

  /** The statistics stored under `name` either have no decode or have a stream list
      (the callback reads `decode.streams` without checking it). */
  predicate StreamsPresent(inst: Instance, name: string) {
    name in inst.serviceStatus && DecodeOf(inst.serviceStatus[name]).Some?
    ==> DecodeOf(inst.serviceStatus[name]).value.streams.Has?
  }

  /** The first stream of the requested type, in the decode of the named statistics. */
  function DecodeStream(inst: Instance, name: string, streamType: string): Option<Stream>
    requires StreamsPresent(inst, name)
  {
    if name in inst.serviceStatus && DecodeOf(inst.serviceStatus[name]).Some? then
      var streams := DecodeOf(inst.serviceStatus[name]).value.streams.value;
      match FindStream(streams, streamType)
      case None => None
      case Some(i) => Some(streams[i])
    else None
  }

  /** `${width}x${height}` (missing fields read "undefined"). */
  function ResolutionText(v: Stream): string {
    FieldText(v.width) + "x" + FieldText(v.height)
  }

  /** decode_state: a stream of the type exists ("active"), or the video resolution or the
      codec is the match value. */
  predicate DecodeState(inst: Instance, name: string, streamType: string, check: string, matchValue: string)
    requires StreamsPresent(inst, name)
  {
    match DecodeStream(inst, name, streamType)
    case None => false
    case Some(stream) =>
      if check == "active" then true
      else if check == "resolution" then streamType == "video" && ResolutionText(stream) == matchValue
      else if check == "codec" then stream.codec == Has(matchValue)
      else false
  }

  /** "active" holds exactly when a stream of that type is decoded; a resolution match is
      never reported for audio. */
  lemma DecodeStateMeaning(inst: Instance, name: string, streamType: string, matchValue: string)
    requires StreamsPresent(inst, name)
    ensures DecodeState(inst, name, streamType, "active", matchValue) <==> DecodeStream(inst, name, streamType).Some?
    ensures streamType != "video" ==> !DecodeState(inst, name, streamType, "resolution", matchValue)
    ensures DecodeStream(inst, name, streamType).Some? ==> DecodeStream(inst, name, streamType).value.kind == Has(streamType)
  {
    if name in inst.serviceStatus && DecodeOf(inst.serviceStatus[name]).Some? {
      var streams := DecodeOf(inst.serviceStatus[name]).value.streams.value;
      if FindStream(streams, streamType).Some? {
        assert streams[FindStream(streams, streamType).value].kind == Has(streamType);
      }
    }
  }

  /** For a video stream with a width and a height, the resolution check compares with
      the text of the video_resolution variable updateServiceVariables sets for it. */
  lemma ResolutionMatchesVariable(inst: Instance, name: string, matchValue: string)
    requires StreamsPresent(inst, name)
    requires DecodeStream(inst, name, "video").Some?
    requires DecodeStream(inst, name, "video").value.width.Has?
    requires DecodeStream(inst, name, "video").value.height.Has?
    ensures VideoStreamWrites(DecodeStream(inst, name, "video").value)[5].0 == VideoResolution
    ensures DecodeState(inst, name, "video", "resolution", matchValue)
            <==> VideoStreamWrites(DecodeStream(inst, name, "video").value)[5].1 == Str(matchValue)
  {
  }
}
