/** JavaScript value semantics the adapter leans on: a JSON field that may be missing
    (`undefined`), `null`, or present, and the `x || d` default that replaces every
    falsy value (missing, null, false, 0, "") by `d`. */
module JsValues {
  import opened Wrappers
  import Text

  datatype Field<+T> = Absent | Null | Has(value: T)

  /** A value written into a host variable: a number or a string. */
  datatype Value = Num(n: int) | Str(s: string)

  predicate TruthyBool(f: Field<bool>) { f == Has(true) }
  predicate TruthyInt(f: Field<int>) { f.Has? && f.value != 0 }
  predicate TruthyStr(f: Field<string>) { f.Has? && f.value != "" }
  predicate TruthyValue(f: Field<Value>) { f.Has? && f.value != Num(0) && f.value != Str("") }

  /** `f || d` for a numeric field. */
  function OrInt(f: Field<int>, d: int): int { if TruthyInt(f) then f.value else d }

  /** `f || d` for a string field. */
  function OrStr(f: Field<string>, d: string): string { if TruthyStr(f) then f.value else d }

  /** `f || d` for a field that may hold a number or a string. */
  function OrValue(f: Field<Value>, d: Value): Value { if TruthyValue(f) then f.value else d }

  /** `f ? 'Yes' : 'No'`. */
  function YesNo(b: bool): Value { if b then Str("Yes") else Str("No") }

  /** The number a JavaScript relational operator sees: `undefined` is NaN (every
      comparison with it is false), `null` compares as 0. */
  function Numeric(f: Field<int>): Option<int> {
    match f
    case Absent => None
    case Null => Some(0)
    case Has(v) => Some(v)
  }

  /** JavaScript `f > t`. */
  predicate Greater(f: Field<int>, t: int) { Numeric(f).Some? && Numeric(f).value > t }

  /** JavaScript `f < t`. */
  predicate Less(f: Field<int>, t: int) { Numeric(f).Some? && Numeric(f).value < t }

  /** `${f}` in a template string. */
  function FieldText(f: Field<int>): string {
    match f
    case Absent => "undefined"
    case Null => "null"
    case Has(v) => Text.IntToString(v)
  }
}

/** The device's records as the adapter reads them (the JSON bodies of the REST API),
    and the snapshot the adapter keeps of them. JSON `type` members are called `kind`,
    `type` being a Dafny keyword. */
module Telemetry {
  import opened Wrappers
  import opened JsValues

  /** One entry of `GET /api/services`. */
  datatype Service = Service(
    serviceId: string,
    serviceName: string,
    serviceType: string,
    state: string,
    stateModifiedAt: Field<string>)

  datatype Source = Source(
    kind: Field<string>,
    receiving: Field<bool>,
    bitRate: Field<nat>,
    ccError: Field<int>,
    pidError: Field<int>,
    pmtError: Field<int>,
    syncByteError: Field<int>,
    transportError: Field<int>,
    tsSyncLoss: Field<int>,
    ber: Field<string>,
    cnMargin: Field<int>,
    fecRate: Field<string>,
    modulation: Field<string>,
    rfLock: Field<bool>,
    signalStrength: Field<int>,
    deliverySystem: Field<string>)

  datatype Program = Program(programNumber: Field<int>)

  datatype Inputs = Inputs(
    activeSourceIndex: Field<int>,
    networkId: Field<int>,
    originalNetworkId: Field<int>,
    transportStreamId: Field<int>,
    mptsPrograms: Field<seq<Program>>,
    sources: Field<seq<Source>>)

  /** An elementary stream of the decoded program; video and audio streams share the shape. */
  datatype Stream = Stream(
    kind: Field<string>,
    pid: Field<int>,
    bitRate: Field<nat>,
    width: Field<int>,
    height: Field<int>,
    interlaced: Field<bool>,
    frameRateNumerator: Field<int>,
    frameRateDenominator: Field<int>,
    codec: Field<string>,
    chromaFormat: Field<string>,
    language: Field<string>,
    samplingRate: Field<int>,
    channelCount: Field<int>)

  datatype Decode = Decode(
    programNumber: Field<int>,
    programAutoSelected: Field<bool>,
    descramblingState: Field<string>,
    streams: Field<seq<Stream>>)

  datatype Processings = Processings(decode: Field<Decode>)

  datatype Multicast = Multicast(udpOutputPacketCount: Field<int>)

  datatype Output = Output(
    kind: Field<string>,
    port: Field<Value>,
    remoteProductionMasterSlaveStatus: Field<string>,
    multicasts: Field<seq<Multicast>>)

  /** Statistics of one service (`type=content_processing`). */
  datatype ServiceStatus = ServiceStatus(
    id: Field<string>,
    uptimeSec: Field<int>,
    runningState: Field<string>,
    inputs: Field<Inputs>,
    processings: Field<Processings>,
    outputs: Field<seq<Output>>)

  /** The empty object `{}`. */
  const EmptyStatus := ServiceStatus(Absent, Absent, Absent, Absent, Absent, Absent)

  datatype SdiPort = SdiPort(kind: Field<string>, serviceName: Field<string>)

  datatype PcieSlot = PcieSlot(description: Field<string>, partNumber: Field<string>)

  /** Statistics of the receiver itself (`type=content_processing_server`); a PCIe slot
      without a card is JSON `null`. */
  datatype ServerStatus = ServerStatus(
    uptime: Field<string>,
    uptimeSec: Field<int>,
    chassisName: Field<string>,
    productName: Field<string>,
    dateTime: Field<string>,
    memSizeGByte: Field<int>,
    diskSizeGByte: Field<int>,
    tpm: Field<bool>,
    version: Field<string>,
    id: Field<string>,
    sdiPorts: Field<seq<SdiPort>>,
    pcieSlots: Field<seq<Option<PcieSlot>>>,
    services: Field<seq<ServiceStatus>>)

  /** The empty object `{}`. */
  const EmptyServer := ServerStatus(Absent, Absent, Absent, Absent, Absent, Absent, Absent,
                                    Absent, Absent, Absent, Absent, Absent, Absent)

  /** A dropdown choice offered for a service: id `type/id`, caption `name (type)` (the JavaScript `label`). */
  datatype Choice = Choice(id: string, caption: string)

  /** The first index whose element satisfies `p` (`Array.prototype.find` by position). */
  function FindFirst<T>(xs: seq<T>, p: T -> bool): (r: Option<nat>)
    ensures r.Some? ==> r.value < |xs| && p(xs[r.value])
    ensures r.Some? ==> forall j :: 0 <= j < r.value ==> !p(xs[j])
    ensures r.None? ==> forall j :: 0 <= j < |xs| ==> !p(xs[j])
    decreases |xs|
  {
    if xs == [] then None
    else if p(xs[0]) then Some(0)
    else
      match FindFirst(xs[1..], p)
      case None => None
      case Some(k) => Some(k + 1)
  }

  /** `Array.prototype.filter`. */
  function Filter<T>(xs: seq<T>, p: T -> bool): (r: seq<T>)
    ensures |r| <= |xs|
    ensures forall k :: 0 <= k < |r| ==> p(r[k]) && r[k] in xs
    decreases |xs|
  {
    if xs == [] then [] else (if p(xs[0]) then [xs[0]] else []) + Filter(xs[1..], p)
  }

  /** Filtering a list with one more element at the end filters the list and then that
      element. */
  lemma {:induction false} FilterSnoc<T>(xs: seq<T>, x: T, p: T -> bool)
    ensures Filter(xs + [x], p) == Filter(xs, p) + (if p(x) then [x] else [])
    decreases |xs|
  {
    if xs == [] {
      assert [x][1..] == [];
    } else {
      assert (xs + [x])[1..] == xs[1..] + [x];
      FilterSnoc(xs[1..], x, p);
    }
  }

  function FindByName(services: seq<Service>, name: string): Option<nat> {
    FindFirst(services, (s: Service) => s.serviceName == name)
  }

  function FindById(services: seq<Service>, id: string): Option<nat> {
    FindFirst(services, (s: Service) => s.serviceId == id)
  }

  function FindByTypeAndId(services: seq<Service>, serviceType: string, id: string): Option<nat> {
    FindFirst(services, (s: Service) => s.serviceType == serviceType && s.serviceId == id)
  }

  function FindStream(streams: seq<Stream>, kind: string): Option<nat> {
    FindFirst(streams, (s: Stream) => s.kind == Has(kind))
  }

  function FindSource(sources: seq<Source>, kind: string): Option<nat> {
    FindFirst(sources, (s: Source) => s.kind == Has(kind))
  }

  function AudioStreams(streams: seq<Stream>): seq<Stream> {
    Filter(streams, (s: Stream) => s.kind == Has("audio"))
  }

  /** Number of audio streams a status reports (zero when it has no decode streams). */
  function AudioCount(st: ServiceStatus): nat {
    if st.processings.Has? && st.processings.value.decode.Has?
       && st.processings.value.decode.value.streams.Has?
    then |AudioStreams(st.processings.value.decode.value.streams.value)|
    else 0
  }
}
