/** How the adapter turns device statistics into host variable values. Each derivation
    is a list of writes (field, value) in the order the source assigns them; the
    dictionary it fills is the fold of that list, a later write to the same id replacing
    an earlier one. index.js (updateServiceVariables, getServerStatus,
    clearServiceVariables) and src/variables.js derive the same values, so both use
    these lists. */
module Projection {
  import opened Wrappers
  import opened Text
  import opened JsValues
  import opened Telemetry
  import opened VarIds
  import opened Formatter

  type SvcWrite = (ServiceField, Value)
  type SysWrite = (SystemField, Value)

  /** The fields a list of writes touches, in order. */
  function SvcFields(ws: seq<SvcWrite>): (fs: seq<ServiceField>)
    ensures |fs| == |ws| && forall i :: 0 <= i < |ws| ==> fs[i] == ws[i].0
  {
    seq(|ws|, i requires 0 <= i < |ws| => ws[i].0)
  }

  function SysFields(ws: seq<SysWrite>): (fs: seq<SystemField>)
    ensures |fs| == |ws| && forall i :: 0 <= i < |ws| ==> fs[i] == ws[i].0
  {
    seq(|ws|, i requires 0 <= i < |ws| => ws[i].0)
  }

  // ------------------------------------------------------------ folding writes into a dictionary

  /** `vars[key(field)] = value` for each write in turn. */
  function Put<F>(m: map<string, Value>, key: F -> string, ws: seq<(F, Value)>): map<string, Value>
    decreases |ws|
  {
    if ws == [] then m else Put(m, key, ws[..|ws| - 1])[key(ws[|ws| - 1].0) := ws[|ws| - 1].1]
  }

  lemma PutSnoc<F>(m: map<string, Value>, key: F -> string, ws: seq<(F, Value)>, w: (F, Value))
    ensures Put(m, key, ws + [w]) == Put(m, key, ws)[key(w.0) := w.1]
  {
    assert (ws + [w])[..|ws|] == ws;
  }

  /** Writing a then b is writing a, then writing b. */
  lemma {:induction false} PutConcat<F>(m: map<string, Value>, key: F -> string, a: seq<(F, Value)>, b: seq<(F, Value)>)
    ensures Put(m, key, a + b) == Put(Put(m, key, a), key, b)
    decreases |b|
  {
    if b == [] {
      assert a + b == a;
    } else {
      var b' := b[..|b| - 1];
      assert (a + b)[..|a + b| - 1] == a + b';
      PutConcat(m, key, a, b');
    }
  }

  /** The ids present after the writes: the old ones and one per write. */
  lemma {:induction false} PutKeys<F>(m: map<string, Value>, key: F -> string, ws: seq<(F, Value)>, k: string)
    ensures k in Put(m, key, ws) <==> k in m || exists i :: 0 <= i < |ws| && key(ws[i].0) == k
    decreases |ws|
  {
    if ws != [] {
      var ws' := ws[..|ws| - 1];
      PutKeys(m, key, ws', k);
      if exists i :: 0 <= i < |ws'| && key(ws'[i].0) == k {
        var i :| 0 <= i < |ws'| && key(ws'[i].0) == k;
        assert ws[i] == ws'[i];
      }
      if exists i :: 0 <= i < |ws| && key(ws[i].0) == k {
        var i :| 0 <= i < |ws| && key(ws[i].0) == k;
        if i < |ws'| {
          assert ws[i] == ws'[i];
        }
      }
    }
  }

  /** The last write to an id decides its value. */
  lemma {:induction false} PutLast<F>(m: map<string, Value>, key: F -> string, ws: seq<(F, Value)>, j: nat)
    requires j < |ws|
    requires forall i :: j < i < |ws| ==> key(ws[i].0) != key(ws[j].0)
    ensures key(ws[j].0) in Put(m, key, ws) && Put(m, key, ws)[key(ws[j].0)] == ws[j].1
    decreases |ws|
  {
    if j < |ws| - 1 {
      var ws' := ws[..|ws| - 1];
      assert ws'[j] == ws[j];
      assert forall i :: j < i < |ws'| ==> ws'[i] == ws[i];
      PutLast(m, key, ws', j);
    }
  }

  /** An id no write touches keeps its old value. */
  lemma {:induction false} PutUntouched<F>(m: map<string, Value>, key: F -> string, ws: seq<(F, Value)>, k: string)
    requires forall i :: 0 <= i < |ws| ==> key(ws[i].0) != k
    ensures (k in Put(m, key, ws) <==> k in m) && (k in m ==> Put(m, key, ws)[k] == m[k])
    decreases |ws|
  {
    if ws != [] {
      var ws' := ws[..|ws| - 1];
      assert forall i :: 0 <= i < |ws'| ==> ws'[i] == ws[i];
      PutUntouched(m, key, ws', k);
    }
  }

  /** The value of the last write to field f, if any. */
  function LastWrite<F(==)>(ws: seq<(F, Value)>, f: F): Option<Value>
    decreases |ws|
  {
    if ws == [] then None
    else if ws[|ws| - 1].0 == f then Some(ws[|ws| - 1].1)
    else LastWrite(ws[..|ws| - 1], f)
  }

  /** A field is written at all exactly when it occurs among the writes. */
  lemma {:induction false} LastWriteSome<F>(ws: seq<(F, Value)>, f: F)
    ensures LastWrite(ws, f).Some? <==> exists i :: 0 <= i < |ws| && ws[i].0 == f
    decreases |ws|
  {
    if ws != [] {
      var ws' := ws[..|ws| - 1];
      LastWriteSome(ws', f);
      if exists i :: 0 <= i < |ws'| && ws'[i].0 == f {
        var i :| 0 <= i < |ws'| && ws'[i].0 == f;
        assert ws[i] == ws'[i];
      }
      if exists i :: 0 <= i < |ws| && ws[i].0 == f {
        var i :| 0 <= i < |ws| && ws[i].0 == f;
        if i < |ws'| {
          assert ws[i] == ws'[i];
        }
      }
    }
  }

  /** The write at position j is the last one to its field. */
  lemma {:induction false} LastWriteAt<F>(ws: seq<(F, Value)>, f: F, j: nat)
    requires j < |ws| && ws[j].0 == f
    requires forall i :: j < i < |ws| ==> ws[i].0 != f
    ensures LastWrite(ws, f) == Some(ws[j].1)
    decreases |ws|
  {
    if j < |ws| - 1 {
      var ws' := ws[..|ws| - 1];
      assert ws'[j] == ws[j];
      assert forall i :: j < i < |ws'| ==> ws'[i] == ws[i];
      LastWriteAt(ws', f, j);
    }
  }

  /** In a + b, a write in b overrides any in a. */
  lemma {:induction false} LastWriteConcat<F>(a: seq<(F, Value)>, b: seq<(F, Value)>, f: F)
    ensures LastWrite(a + b, f) == if LastWrite(b, f).Some? then LastWrite(b, f) else LastWrite(a, f)
    decreases |b|
  {
    if b == [] {
      assert a + b == a;
    } else {
      assert (a + b)[..|a + b| - 1] == a + b[..|b| - 1];
      LastWriteConcat(a, b[..|b| - 1], f);
    }
  }

  /** Looking an id up after the writes: the last write to its field decides, and an id
      no write touches keeps its old state. Needs distinct fields to have distinct ids. */
  lemma {:induction false} PutLookup<F>(m: map<string, Value>, key: F -> string, ws: seq<(F, Value)>, f: F)
    requires forall g: F :: key(g) == key(f) ==> g == f
    ensures LastWrite(ws, f).Some? ==> key(f) in Put(m, key, ws) && Put(m, key, ws)[key(f)] == LastWrite(ws, f).value
    ensures LastWrite(ws, f).None? ==> (key(f) in Put(m, key, ws) <==> key(f) in m)
    ensures LastWrite(ws, f).None? && key(f) in m ==> Put(m, key, ws)[key(f)] == m[key(f)]
    decreases |ws|
  {
    if ws != [] {
      PutLookup(m, key, ws[..|ws| - 1], f);
    }
  }

  /** The id of a service field for the service whose sanitised name is `safe`. */
  function SvcKey(safe: string): ServiceField -> string {
    f => ServiceKey(safe, f)
  }

  /** `vars[service_${safe}_<field>] = value` for each write in turn. */
  function PutSvc(m: map<string, Value>, safe: string, ws: seq<SvcWrite>): map<string, Value> {
    Put(m, SvcKey(safe), ws)
  }

  /** `serverVars[<id>] = value` for each write in turn. */
  function PutSys(m: map<string, Value>, ws: seq<SysWrite>): map<string, Value> {
    Put(m, SystemKey, ws)
  }

  // ------------------------------------------------------------ one service (updateServiceVariables)

  /** `idx === 0 ? 'primary' : 'secondary'`. */
  function SlotOf(idx: nat): SourceSlot {
    if idx == 0 then Primary else Secondary
  }

  function BasicWrites(st: ServiceStatus): seq<SvcWrite> {
    [(Uptime, Num(OrInt(st.uptimeSec, 0))),
     (RunningState, Str(OrStr(st.runningState, "unknown")))]
  }

  /** The writes for one input source; satellite fields only for a `sat` source. */
  function SourceWrites(slot: SourceSlot, src: Source): seq<SvcWrite> {
    [(ServiceField.Source(slot, SrcType), Str(OrStr(src.kind, "unknown"))),
     (ServiceField.Source(slot, Receiving), YesNo(TruthyBool(src.receiving))),
     (ServiceField.Source(slot, Bitrate), Str(FormatBitrate(src.bitRate, src.receiving))),
     (ServiceField.Source(slot, BitrateRaw), Num(OrInt(src.bitRate, 0))),
     (ServiceField.Source(slot, CcErrors), Num(OrInt(src.ccError, 0))),
     (ServiceField.Source(slot, PidErrors), Num(OrInt(src.pidError, 0))),
     (ServiceField.Source(slot, PmtErrors), Num(OrInt(src.pmtError, 0))),
     (ServiceField.Source(slot, SyncErrors), Num(OrInt(src.syncByteError, 0))),
     (ServiceField.Source(slot, TransportErrors), Num(OrInt(src.transportError, 0))),
     (ServiceField.Source(slot, SyncLoss), Num(OrInt(src.tsSyncLoss, 0)))]
    + (if src.kind == Has("sat") then SatWrites(slot, src) else [])
  }

  function SatWrites(slot: SourceSlot, src: Source): seq<SvcWrite> {
    [(ServiceField.Source(slot, Ber), Str(OrStr(src.ber, "<1e-7"))),
     (ServiceField.Source(slot, CnMargin), Num(OrInt(src.cnMargin, 0))),
     (ServiceField.Source(slot, FecRate), Str(OrStr(src.fecRate, "Unknown"))),
     (ServiceField.Source(slot, Modulation), Str(OrStr(src.modulation, "Unknown"))),
     (ServiceField.Source(slot, RfLock), YesNo(TruthyBool(src.rfLock))),
     (ServiceField.Source(slot, SignalStrength), Num(OrInt(src.signalStrength, 0))),
     (ServiceField.Source(slot, Delivery), Str(OrStr(src.deliverySystem, "Unknown")))]
  }

  /** The writes of `sources.forEach((source, idx) => ...)`. */
  function SourcesWrites(srcs: seq<Source>): seq<SvcWrite>
    decreases |srcs|
  {
    if srcs == [] then []
    else SourcesWrites(srcs[..|srcs| - 1]) + SourceWrites(SlotOf(|srcs| - 1), srcs[|srcs| - 1])
  }

  function InputHeader(inp: Inputs): seq<SvcWrite> {
    [(ActiveSource, Str(if inp.activeSourceIndex == Has(0) then "Primary" else "Secondary")),
     (NetworkId, Num(OrInt(inp.networkId, 0))),
     (OrigNetworkId, Num(OrInt(inp.originalNetworkId, 0))),
     (TsId, Num(OrInt(inp.transportStreamId, 0))),
     (ProgramCount, Num(if inp.mptsPrograms.Has? then |inp.mptsPrograms.value| else 0))]
  }

  function InputWrites(st: ServiceStatus): seq<SvcWrite> {
    match st.inputs
    case Has(inp) =>
      InputHeader(inp) + (if inp.sources.Has? then SourcesWrites(inp.sources.value) else [])
    case _ => []
  }

  function VideoStreamWrites(v: Stream): (ws: seq<SvcWrite>)
    ensures |ws| == 10 && forall i :: 0 <= i < |ws| ==> IsVideoField(ws[i].0)
  {
    var decoding := Greater(v.width, 0) && Greater(v.height, 0);
    [(VideoPid, Num(OrInt(v.pid, 0))),
     (VideoBitrate, Str(FormatBitrate(v.bitRate, Has(decoding)))),
     (VideoBitrateRaw, Num(OrInt(v.bitRate, 0))),
     (VideoWidth, Num(OrInt(v.width, 0))),
     (VideoHeight, Num(OrInt(v.height, 0))),
     (VideoResolution, Str(IntToString(OrInt(v.width, 0)) + "x" + IntToString(OrInt(v.height, 0)))),
     (VideoInterlaced, YesNo(TruthyBool(v.interlaced))),
     (VideoFramerate, Str(if TruthyInt(v.frameRateNumerator) && TruthyInt(v.frameRateDenominator)
                          then IntToString(v.frameRateNumerator.value) + "/"
                               + IntToString(v.frameRateDenominator.value)
                          else "Unknown")),
     (VideoCodec, Str(OrStr(v.codec, "Unknown"))),
     (VideoChroma, Str(OrStr(v.chromaFormat, "Unknown")))]
  }

  /** The first video stream, if any, gives the video writes. */
  function VideoWrites(streams: seq<Stream>): (ws: seq<SvcWrite>)
    ensures forall i :: 0 <= i < |ws| ==> IsVideoField(ws[i].0)
  {
    match FindStream(streams, "video")
    case None => []
    case Some(i) => VideoStreamWrites(streams[i])
  }

  /** The writes for audio stream number n (counting from 1). */
  function AudioStreamWrites(n: nat, a: Stream): seq<SvcWrite> {
    [(Audio(n, APid), Num(OrInt(a.pid, 0))),
     (Audio(n, ALang), Str(OrStr(a.language, "Unknown"))),
     (Audio(n, ACodec), Str(OrStr(a.codec, "Unknown"))),
     (Audio(n, ABitrate), Str(FormatBitrate(a.bitRate, Absent))),
     (Audio(n, ABitrateRaw), Num(OrInt(a.bitRate, 0))),
     (Audio(n, ASampleRate), Num(OrInt(a.samplingRate, 0))),
     (Audio(n, AChannels), Num(OrInt(a.channelCount, 0)))]
  }

  /** The writes of `audioStreams.forEach((audioStream, idx) => ...)`, numbered idx + 1. */
  function AudioWrites(auds: seq<Stream>): seq<SvcWrite>
    decreases |auds|
  {
    if auds == [] then []
    else AudioWrites(auds[..|auds| - 1]) + AudioStreamWrites(|auds|, auds[|auds| - 1])
  }

  function DecodeHeader(d: Decode): seq<SvcWrite> {
    [(ProgramNumber, Num(OrInt(d.programNumber, 0))),
     (ProgramAuto, YesNo(TruthyBool(d.programAutoSelected))),
     (Descrambling, Str(OrStr(d.descramblingState, "unknown")))]
  }

  function StreamWrites(streams: seq<Stream>): seq<SvcWrite> {
    VideoWrites(streams) + AudioWrites(AudioStreams(streams))
  }

  function DecodeWrites(st: ServiceStatus): seq<SvcWrite> {
    if st.processings.Has? && st.processings.value.decode.Has? then
      var d := st.processings.value.decode.value;
      DecodeHeader(d) + (if d.streams.Has? then StreamWrites(d.streams.value) else [])
    else []
  }

  function OutputWrites(st: ServiceStatus): seq<SvcWrite> {
    if st.outputs.Has? && |st.outputs.value| > 0 then
      var o := st.outputs.value[0];
      [(OutputType, Str(OrStr(o.kind, "Unknown")))]
      + (if o.kind == Has("sdiOutput") then
           [(ServiceField.SdiPort, OrValue(o.port, Str("Unknown"))),
            (RemoteProdStatus, Str(OrStr(o.remoteProductionMasterSlaveStatus, "N/A")))]
         else if o.kind == Has("udpOutput") && o.multicasts.Has? && |o.multicasts.value| > 0 then
           [(UdpPackets, Num(OrInt(o.multicasts.value[0].udpOutputPacketCount, 0)))]
         else [])
    else []
  }

  /** Everything updateServiceVariables assigns for one status, in order. */
  function ServiceWrites(st: ServiceStatus): seq<SvcWrite> {
    BasicWrites(st) + InputWrites(st) + DecodeWrites(st) + OutputWrites(st)
  }

  /** The dictionary updateServiceVariables hands to the host. */
  function ServiceVars(safe: string, st: ServiceStatus): map<string, Value> {
    PutSvc(map[], safe, ServiceWrites(st))
  }

  /** clearServiceVariables: bitrates to "No Data", running state to "offline",
      receiving flags to "No". */
  function ClearWrites(): seq<SvcWrite> {
    [(ServiceField.Source(Primary, Bitrate), Str("No Data")),
     (ServiceField.Source(Secondary, Bitrate), Str("No Data")),
     (VideoBitrate, Str("No Data")),
     (RunningState, Str("offline")),
     (ServiceField.Source(Primary, Receiving), Str("No")),
     (ServiceField.Source(Secondary, Receiving), Str("No"))]
  }

  function ClearVars(safe: string): map<string, Value> {
    PutSvc(map[], safe, ClearWrites())
  }

  /** The list entry's own fields (state, type, id, modification time). */
  function InfoWrites(s: Service): seq<SvcWrite> {
    [(State, Str(s.state)),
     (SvcType, Str(s.serviceType)),
     (Id, Str(s.serviceId)),
     (StateModified, Str(OrStr(s.stateModifiedAt, "")))]
  }

  // ------------------------------------------------------------ the server (getServerStatus)

  function ServerBaseWrites(ss: ServerStatus): seq<SysWrite> {
    [(ServerUptime, Str(OrStr(ss.uptime, "0 days 00:00:00"))),
     (ServerUptimeSec, Num(OrInt(ss.uptimeSec, 0))),
     (ServerChassis, Str(OrStr(ss.chassisName, OrStr(ss.productName, "Unknown")))),
     (ServerProductName, Str(OrStr(ss.productName, "Unknown"))),
     (ServerDatetime, Str(OrStr(ss.dateTime, ""))),
     (ServerMemSize, Num(OrInt(ss.memSizeGByte, 0))),
     (ServerDiskSize, Num(OrInt(ss.diskSizeGByte, 0))),
     (ServerTpm, YesNo(TruthyBool(ss.tpm))),
     (ServerVersion, Str(OrStr(ss.version, "Unknown"))),
     (ServerId, Str(OrStr(ss.id, "Receiver1")))]
  }

  /** The writes for SDI port number idx; the port's service is looked up by name. */
  function PortWrites(idx: nat, p: SdiPort, services: seq<Service>): seq<SysWrite> {
    [(Sdi(idx, PortType), Str(OrStr(p.kind, "Unknown"))),
     (Sdi(idx, PortService), Str(OrStr(p.serviceName, "None")))]
    + (if TruthyStr(p.serviceName) then
         match FindByName(services, p.serviceName.value)
         case Some(k) =>
           [(Sdi(idx, PortServiceType), Str(OrStr(Has(services[k].serviceType), "Unknown"))),
            (Sdi(idx, PortServiceState), Str(OrStr(Has(services[k].state), "Unknown"))),
            (Sdi(idx, OutputActive), YesNo(services[k].state == "started"))]
         case None =>
           [(Sdi(idx, PortServiceType), Str("Unknown")),
            (Sdi(idx, PortServiceState), Str("Unknown")),
            (Sdi(idx, OutputActive), Str("No"))]
       else
         [(Sdi(idx, PortServiceType), Str("None")),
          (Sdi(idx, PortServiceState), Str("None")),
          (Sdi(idx, OutputActive), Str("No"))])
  }

  function SdiWrites(ports: seq<SdiPort>, services: seq<Service>): seq<SysWrite>
    decreases |ports|
  {
    if ports == [] then []
    else SdiWrites(ports[..|ports| - 1], services) + PortWrites(|ports| - 1, ports[|ports| - 1], services)
  }

  /** The writes for PCIe slot number idx; an empty (null) slot reads "Empty" / "N/A". */
  function SlotWrites(idx: nat, slot: Option<PcieSlot>): seq<SysWrite> {
    match slot
    case Some(c) =>
      [(Pcie(idx, Desc), Str(OrStr(c.description, "Empty"))),
       (Pcie(idx, Part), Str(OrStr(c.partNumber, "N/A")))]
    case None =>
      [(Pcie(idx, Desc), Str("Empty")), (Pcie(idx, Part), Str("N/A"))]
  }

  function PcieWrites(slots: seq<Option<PcieSlot>>): seq<SysWrite>
    decreases |slots|
  {
    if slots == [] then []
    else PcieWrites(slots[..|slots| - 1]) + SlotWrites(|slots| - 1, slots[|slots| - 1])
  }

  /** Everything getServerStatus assigns into serverVars, in order. */
  function ServerWrites(ss: ServerStatus, services: seq<Service>): seq<SysWrite> {
    ServerBaseWrites(ss)
    + (if ss.sdiPorts.Has? then SdiWrites(ss.sdiPorts.value, services) else [])
    + (if ss.pcieSlots.Has? then PcieWrites(ss.pcieSlots.value) else [])
  }

  function ServerVars(ss: ServerStatus, services: seq<Service>): map<string, Value> {
    PutSys(map[], ServerWrites(ss, services))
  }

  function CountStarted(services: seq<Service>): nat {
    |Filter(services, (s: Service) => s.state == "started")|
  }

  function CountStopped(services: seq<Service>): nat {
    |Filter(services, (s: Service) => s.state == "stopped")|
  }

  /** The count values src/variables.js sets (blocked always starts at 0). */
  function CountWrites(services: seq<Service>): seq<SysWrite> {
    [(TotalServices, Num(|services|)),
     (RunningServices, Num(CountStarted(services))),
     (StoppedServices, Num(CountStopped(services))),
     (BlockedServices, Num(0))]
  }

  // ------------------------------------------------------------ filling the dictionaries in place

  /** `sources.forEach((source, idx) => ...)`: one block of writes per source. */
  method FillSources(m: map<string, Value>, safe: string, srcs: seq<Source>)
    returns (vars: map<string, Value>)
    ensures vars == PutSvc(m, safe, SourcesWrites(srcs))
  {
    vars := m;
    var i := 0;
    while i < |srcs|
      invariant 0 <= i <= |srcs|
      invariant vars == PutSvc(m, safe, SourcesWrites(srcs[..i]))
    {
      assert srcs[..i + 1][..i] == srcs[..i];
      PutConcat(m, SvcKey(safe), SourcesWrites(srcs[..i]), SourceWrites(SlotOf(i), srcs[i]));
      vars := PutSvc(vars, safe, SourceWrites(SlotOf(i), srcs[i]));
      i := i + 1;
    }
    assert srcs[..i] == srcs;
  }

  /** `audioStreams.forEach((audioStream, idx) => ...)`: block number idx + 1 per stream. */
  method FillAudio(m: map<string, Value>, safe: string, auds: seq<Stream>)
    returns (vars: map<string, Value>)
    ensures vars == PutSvc(m, safe, AudioWrites(auds))
  {
    vars := m;
    var n := 0;
    while n < |auds|
      invariant 0 <= n <= |auds|
      invariant vars == PutSvc(m, safe, AudioWrites(auds[..n]))
    {
      assert auds[..n + 1][..n] == auds[..n];
      PutConcat(m, SvcKey(safe), AudioWrites(auds[..n]), AudioStreamWrites(n + 1, auds[n]));
      vars := PutSvc(vars, safe, AudioStreamWrites(n + 1, auds[n]));
      n := n + 1;
    }
    assert auds[..n] == auds;
  }

  /** The decode part of updateServiceVariables: program fields, the first video stream,
      then the audio streams. */
  method FillDecode(m: map<string, Value>, safe: string, st: ServiceStatus)
    returns (vars: map<string, Value>)
    ensures vars == PutSvc(m, safe, DecodeWrites(st))
  {
    vars := m;
    if st.processings.Has? && st.processings.value.decode.Has? {
      var d := st.processings.value.decode.value;
      vars := PutSvc(vars, safe, DecodeHeader(d));
      if d.streams.Has? {
        var streams := d.streams.value;
        var video := FindStream(streams, "video");
        var v := vars;
        if video.Some? {
          vars := PutSvc(vars, safe, VideoStreamWrites(streams[video.value]));
        }
        assert vars == PutSvc(v, safe, VideoWrites(streams));
        var w := vars;
        vars := FillAudio(vars, safe, AudioStreams(streams));
        PutConcat(v, SvcKey(safe), VideoWrites(streams), AudioWrites(AudioStreams(streams)));
        PutConcat(m, SvcKey(safe), DecodeHeader(d), StreamWrites(streams));
        assert DecodeWrites(st) == DecodeHeader(d) + StreamWrites(streams);
        assert vars == PutSvc(m, safe, DecodeWrites(st));
      } else {
        assert DecodeWrites(st) == DecodeHeader(d) + [];
        assert DecodeHeader(d) + [] == DecodeHeader(d);
        assert vars == PutSvc(m, safe, DecodeWrites(st));
      }
    } else {
      assert DecodeWrites(st) == [];
      assert vars == PutSvc(m, safe, DecodeWrites(st));
    }
  }

  /** updateServiceVariables' dictionary filling: uptime and running state, the input
      block with one block per source, the decode block, then the first output. */
  method FillServiceVars(m: map<string, Value>, safe: string, st: ServiceStatus)
    returns (vars: map<string, Value>)
    ensures vars == PutSvc(m, safe, ServiceWrites(st))
  {
    vars := PutSvc(m, safe, BasicWrites(st));
    var afterBasic := vars;
    if st.inputs.Has? {
      var inp := st.inputs.value;
      vars := PutSvc(vars, safe, InputHeader(inp));
      if inp.sources.Has? {
        vars := FillSources(vars, safe, inp.sources.value);
        PutConcat(afterBasic, SvcKey(safe), InputHeader(inp), SourcesWrites(inp.sources.value));
        assert InputWrites(st) == InputHeader(inp) + SourcesWrites(inp.sources.value);
        assert vars == PutSvc(afterBasic, safe, InputWrites(st));
      } else {
        assert InputWrites(st) == InputHeader(inp) + [];
        assert InputHeader(inp) + [] == InputHeader(inp);
        assert vars == PutSvc(afterBasic, safe, InputWrites(st));
      }
    } else {
      assert InputWrites(st) == [];
      assert vars == PutSvc(afterBasic, safe, InputWrites(st));
    }
    assert vars == PutSvc(afterBasic, safe, InputWrites(st));
    var afterInput := vars;
    vars := FillDecode(vars, safe, st);
    var afterDecode := vars;
    vars := PutSvc(vars, safe, OutputWrites(st));
    PutConcat(m, SvcKey(safe), BasicWrites(st), InputWrites(st));
    PutConcat(m, SvcKey(safe), BasicWrites(st) + InputWrites(st), DecodeWrites(st));
    PutConcat(m, SvcKey(safe), BasicWrites(st) + InputWrites(st) + DecodeWrites(st), OutputWrites(st));
  }

  /** `sdiPorts.forEach((port, idx) => ...)`. */
  method FillPorts(m: map<string, Value>, ports: seq<SdiPort>, services: seq<Service>)
    returns (vars: map<string, Value>)
    ensures vars == PutSys(m, SdiWrites(ports, services))
  {
    vars := m;
    var i := 0;
    while i < |ports|
      invariant 0 <= i <= |ports|
      invariant vars == PutSys(m, SdiWrites(ports[..i], services))
    {
      assert ports[..i + 1][..i] == ports[..i];
      PutConcat(m, SystemKey, SdiWrites(ports[..i], services), PortWrites(i, ports[i], services));
      vars := PutSys(vars, PortWrites(i, ports[i], services));
      i := i + 1;
    }
    assert ports[..i] == ports;
  }

  /** `pcieSlots.forEach((slot, idx) => ...)`. */
  method FillSlots(m: map<string, Value>, slots: seq<Option<PcieSlot>>)
    returns (vars: map<string, Value>)
    ensures vars == PutSys(m, PcieWrites(slots))
  {
    vars := m;
    var i := 0;
    while i < |slots|
      invariant 0 <= i <= |slots|
      invariant vars == PutSys(m, PcieWrites(slots[..i]))
    {
      assert slots[..i + 1][..i] == slots[..i];
      PutConcat(m, SystemKey, PcieWrites(slots[..i]), SlotWrites(i, slots[i]));
      vars := PutSys(vars, SlotWrites(i, slots[i]));
      i := i + 1;
    }
    assert slots[..i] == slots;
  }

  /** getServerStatus' serverVars filling: the fixed server values, one block per SDI
      port, one block per PCIe slot. */
  method FillServerVars(m: map<string, Value>, ss: ServerStatus, services: seq<Service>)
    returns (vars: map<string, Value>)
    ensures vars == PutSys(m, ServerWrites(ss, services))
  {
    var base := ServerBaseWrites(ss);
    var sdi := if ss.sdiPorts.Has? then SdiWrites(ss.sdiPorts.value, services) else [];
    var pcie := if ss.pcieSlots.Has? then PcieWrites(ss.pcieSlots.value) else [];
    vars := PutSys(m, base);
    if ss.sdiPorts.Has? {
      vars := FillPorts(vars, ss.sdiPorts.value, services);
    }
    assert vars == PutSys(PutSys(m, base), sdi);
    if ss.pcieSlots.Has? {
      vars := FillSlots(vars, ss.pcieSlots.value);
    }
    assert vars == PutSys(PutSys(PutSys(m, base), sdi), pcie);
    PutConcat(m, SystemKey, base, sdi);
    PutConcat(m, SystemKey, base + sdi, pcie);
  }
}
