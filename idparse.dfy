/** Reading variable ids back into fields. Every id the adapter renders parses back to
    the field it came from, so two different fields of one service (or two different
    server-wide fields) never share an id. */
module IdParse {
  import opened Wrappers
  import opened Text
  import opened VarIds

  /** Length of the run of decimal digits at the start of `s`. */
  function LeadingDigits(s: string): (k: nat)
    ensures k <= |s| && forall i :: 0 <= i < k ==> IsDigit(s[i])
    decreases |s|
  {
    if s == [] || !IsDigit(s[0]) then 0 else 1 + LeadingDigits(s[1..])
  }

  lemma {:induction false} LeadingDigitsOf(d: string, r: string)
    requires AllDigits(d)
    requires r != [] && !IsDigit(r[0])
    ensures LeadingDigits(d + r) == |d|
    decreases |d|
  {
    if d == [] {
      assert d + r == r;
    } else {
      assert (d + r)[1..] == d[1..] + r;
      LeadingDigitsOf(d[1..], r);
    }
  }

  /** `s.startsWith(p)`. */
  predicate StartsWith(s: string, p: string) {
    |p| <= |s| && s[..|p|] == p
  }

  /** `<number>_<rest>` split into the number and the rest. */
  function ParseIndexed(s: string): Option<(nat, string)> {
    var k := LeadingDigits(s);
    if k == 0 || k >= |s| || s[k] != '_' then None else Some((ParseNat(s[..k]), s[k + 1..]))
  }

  lemma ParseIndexedRoundTrip(n: nat, r: string)
    ensures ParseIndexed(NatToString(n) + "_" + r) == Some((n, r))
  {
    var d := NatToString(n);
    var s := d + "_" + r;
    assert s == d + ("_" + r);
    LeadingDigitsOf(d, "_" + r);
    assert s[..|d|] == d;
    assert s[|d| + 1..] == r;
    ParseNatToString(n);
  }

  function ParseSourceSuffix(s: string): Option<SourceField> {
    match |s|
    case 3 => if s == "ber" then Some(Ber) else None
    case 4 => if s == "type" then Some(SrcType) else None
    case 7 =>
      if s == "bitrate" then Some(Bitrate)
      else if s == "rf_lock" then Some(RfLock)
      else None
    case 8 =>
      if s == "fec_rate" then Some(FecRate)
      else if s == "delivery" then Some(Delivery)
      else None
    case 9 =>
      if s == "receiving" then Some(Receiving)
      else if s == "cc_errors" then Some(CcErrors)
      else if s == "sync_loss" then Some(SyncLoss)
      else if s == "cn_margin" then Some(CnMargin)
      else None
    case 10 =>
      if s == "pid_errors" then Some(PidErrors)
      else if s == "pmt_errors" then Some(PmtErrors)
      else if s == "modulation" then Some(Modulation)
      else None
    case 11 =>
      if s == "bitrate_raw" then Some(BitrateRaw)
      else if s == "sync_errors" then Some(SyncErrors)
      else None
    case 15 => if s == "signal_strength" then Some(SignalStrength) else None
    case 16 => if s == "transport_errors" then Some(TransportErrors) else None
    case _ => None
  }

  lemma SourceSuffixRoundTrip(f: SourceField)
    ensures ParseSourceSuffix(SourceSuffix(f)) == Some(f)
  {
    match f
    case SrcType =>
    case Receiving =>
    case Bitrate =>
    case BitrateRaw =>
    case CcErrors =>
    case PidErrors =>
    case PmtErrors =>
    case SyncErrors =>
    case TransportErrors =>
    case SyncLoss =>
    case Ber =>
    case CnMargin =>
    case FecRate =>
    case Modulation =>
    case RfLock =>
    case SignalStrength =>
    case Delivery =>
  }

  function ParseAudioSuffix(s: string): Option<AudioField> {
    match |s|
    case 3 => if s == "pid" then Some(APid) else None
    case 4 => if s == "lang" then Some(ALang) else None
    case 5 => if s == "codec" then Some(ACodec) else None
    case 7 => if s == "bitrate" then Some(ABitrate) else None
    case 8 => if s == "channels" then Some(AChannels) else None
    case 10 => if s == "samplerate" then Some(ASampleRate) else None
    case 11 => if s == "bitrate_raw" then Some(ABitrateRaw) else None
    case _ => None
  }

  lemma AudioSuffixRoundTrip(f: AudioField)
    ensures ParseAudioSuffix(AudioSuffix(f)) == Some(f)
  {
    match f
    case APid =>
    case ALang =>
    case ACodec =>
    case ABitrate =>
    case ABitrateRaw =>
    case ASampleRate =>
    case AChannels =>
  }

  /** The suffixes that are one fixed text each, told apart by their length first. */
  function ParseFixedSuffix(s: string): Option<ServiceField> {
    match |s|
    case 2 => if s == "id" then Some(Id) else None
    case 4 => if s == "type" then Some(SvcType) else None
    case 5 =>
      if s == "state" then Some(State)
      else if s == "ts_id" then Some(TsId)
      else None
    case 6 => if s == "uptime" then Some(Uptime) else None
    case 8 => if s == "sdi_port" then Some(SdiPort) else None
    case 9 => if s == "video_pid" then Some(VideoPid) else None
    case 10 => if s == "network_id" then Some(NetworkId) else None
    case 11 =>
      if s == "video_width" then Some(VideoWidth)
      else if s == "video_codec" then Some(VideoCodec)
      else if s == "output_type" then Some(OutputType)
      else if s == "udp_packets" then Some(UdpPackets)
      else None
    case 12 =>
      if s == "program_auto" then Some(ProgramAuto)
      else if s == "descrambling" then Some(Descrambling)
      else if s == "video_height" then Some(VideoHeight)
      else if s == "video_chroma" then Some(VideoChroma)
      else None
    case 13 =>
      if s == "running_state" then Some(RunningState)
      else if s == "active_source" then Some(ActiveSource)
      else if s == "program_count" then Some(ProgramCount)
      else if s == "video_bitrate" then Some(VideoBitrate)
      else None
    case 14 =>
      if s == "state_modified" then Some(StateModified)
      else if s == "program_number" then Some(ProgramNumber)
      else None
    case 15 =>
      if s == "orig_network_id" then Some(OrigNetworkId)
      else if s == "video_framerate" then Some(VideoFramerate)
      else None
    case 16 =>
      if s == "video_resolution" then Some(VideoResolution)
      else if s == "video_interlaced" then Some(VideoInterlaced)
      else None
    case 17 => if s == "video_bitrate_raw" then Some(VideoBitrateRaw) else None
    case 18 => if s == "remote_prod_status" then Some(RemoteProdStatus) else None
    case _ => None
  }

  /** Reads the part of a service variable id after `service_<safe name>_`. */
  function ParseServiceSuffix(s: string): Option<ServiceField> {
    match ParseFixedSuffix(s)
    case Some(f) => Some(f)
    case None =>
      if StartsWith(s, "primary_") then
        match ParseSourceSuffix(s[8..])
        case Some(sf) => Some(Source(Primary, sf))
        case None => None
      else if StartsWith(s, "secondary_") then
        match ParseSourceSuffix(s[10..])
        case Some(sf) => Some(Source(Secondary, sf))
        case None => None
      else if StartsWith(s, "audio") then
        match ParseIndexed(s[5..])
        case Some((n, r)) =>
          (match ParseAudioSuffix(r)
           case Some(af) => Some(Audio(n, af))
           case None => None)
        case None => None
      else None
  }

  lemma SourceNotFixed(slot: SourceSlot, sf: SourceField)
    ensures ParseFixedSuffix(ServiceSuffix(Source(slot, sf))) == None
  {
    var s := ServiceSuffix(Source(slot, sf));
    assert s == SlotName(slot) + ("_" + SourceSuffix(sf));
    if slot == Primary {
      assert s[0] == 'p' && s[1] == 'r' && s[2] == 'i';
    } else {
      assert s[0] == 's' && s[1] == 'e';
    }
    FixedNotSource(s);
  }

  lemma SourceSuffixParses(slot: SourceSlot, sf: SourceField)
    ensures ParseServiceSuffix(ServiceSuffix(Source(slot, sf))) == Some(Source(slot, sf))
  {
    var s := ServiceSuffix(Source(slot, sf));
    SourceNotFixed(slot, sf);
    SourceSuffixRoundTrip(sf);
    if slot == Primary {
      assert s == "primary_" + SourceSuffix(sf);
      assert s[..8] == "primary_";
      assert s[8..] == SourceSuffix(sf);
    } else {
      assert s == "secondary_" + SourceSuffix(sf);
      NotStartsWith(s, "primary_");
      assert s[..10] == "secondary_";
      assert s[10..] == SourceSuffix(sf);
    }
  }

  /** A string starting with `c` does not start with a prefix whose first character differs. */
  lemma NotStartsWith(s: string, p: string)
    requires |s| > 0 && |p| > 0 && s[0] != p[0]
    ensures !StartsWith(s, p)
  {
  }

  /** No fixed suffix starts with "au" and is nine characters or longer. */
  lemma FixedNotAudio(s: string)
    requires |s| >= 9 && s[0] == 'a' && s[1] == 'u'
    ensures ParseFixedSuffix(s) == None
  {
  }

  /** No fixed suffix starts with "pri" or "se" and is ten characters or longer. */
  lemma FixedNotSource(s: string)
    requires |s| >= 10
    requires (s[0] == 'p' && s[1] == 'r' && s[2] == 'i') || (s[0] == 's' && s[1] == 'e')
    ensures ParseFixedSuffix(s) == None
  {
  }

  lemma AudioNotFixed(n: nat, af: AudioField)
    ensures ParseFixedSuffix(ServiceSuffix(Audio(n, af))) == None
  {
    var s := ServiceSuffix(Audio(n, af));
    assert s == "audio" + (NatToString(n) + "_" + AudioSuffix(af));
    assert s[0] == 'a' && s[1] == 'u';
    FixedNotAudio(s);
  }

  lemma AudioSuffixParses(n: nat, af: AudioField)
    ensures ParseServiceSuffix(ServiceSuffix(Audio(n, af))) == Some(Audio(n, af))
  {
    var s := ServiceSuffix(Audio(n, af));
    var rest := NatToString(n) + "_" + AudioSuffix(af);
    assert s == "audio" + rest;
    AudioNotFixed(n, af);
    NotStartsWith(s, "primary_");
    NotStartsWith(s, "secondary_");
    assert s[..5] == "audio";
    assert s[5..] == rest;
    ParseIndexedRoundTrip(n, AudioSuffix(af));
    AudioSuffixRoundTrip(af);
  }

  /** Every service suffix reads back as its field. */
  lemma ServiceSuffixRoundTrip(f: ServiceField)
    ensures ParseServiceSuffix(ServiceSuffix(f)) == Some(f)
  {
    match f
    case Source(slot, sf) => SourceSuffixParses(slot, sf);
    case Audio(n, af) => AudioSuffixParses(n, af);
    case _ =>
      if IsVideoStreamField(f) {
        VideoStreamSuffixRoundTrip(f);
      } else if IsVideoFormatField(f) {
        VideoFormatSuffixRoundTrip(f);
      } else {
        StatusSuffixRoundTrip(f);
      }
  }

  /** The fixed suffixes of the service's state, transport stream and output. */
  lemma StatusSuffixRoundTrip(f: ServiceField)
    requires !f.Source? && !f.Audio? && !IsVideoStreamField(f) && !IsVideoFormatField(f)
    ensures ParseFixedSuffix(ServiceSuffix(f)) == Some(f)
  {
    match f
    case State =>
    case SvcType =>
    case Id =>
    case StateModified =>
    case Uptime =>
    case RunningState =>
    case ActiveSource =>
    case NetworkId =>
    case OrigNetworkId =>
    case TsId =>
    case ProgramCount =>
    case ProgramNumber =>
    case ProgramAuto =>
    case Descrambling =>
    case OutputType =>
    case SdiPort =>
    case RemoteProdStatus =>
    case UdpPackets =>
  }

  /** The fixed suffixes of the video stream's pid, rate, resolution and width. */
  lemma VideoStreamSuffixRoundTrip(f: ServiceField)
    requires IsVideoStreamField(f)
    ensures ParseFixedSuffix(ServiceSuffix(f)) == Some(f)
  {
    match f
    case VideoPid =>
    case VideoBitrate =>
    case VideoBitrateRaw =>
    case VideoResolution =>
    case VideoWidth =>
  }

  /** The fixed suffixes of the video stream's height, scan, frame rate, codec and chroma. */
  lemma VideoFormatSuffixRoundTrip(f: ServiceField)
    requires IsVideoFormatField(f)
    ensures ParseFixedSuffix(ServiceSuffix(f)) == Some(f)
  {
    match f
    case VideoHeight =>
    case VideoInterlaced =>
    case VideoFramerate =>
    case VideoCodec =>
    case VideoChroma =>
  }

  lemma ServiceSuffixInjective(f: ServiceField, g: ServiceField)
    requires ServiceSuffix(f) == ServiceSuffix(g)
    ensures f == g
  {
    ServiceSuffixRoundTrip(f);
    ServiceSuffixRoundTrip(g);
  }

  /** Within one service, different fields have different variable ids. */
  lemma ServiceKeyInjective(safe: string, f: ServiceField, g: ServiceField)
    ensures ServiceKey(safe, f) == ServiceKey(safe, g) <==> f == g
  {
    if ServiceKey(safe, f) == ServiceKey(safe, g) {
      var p := "service_" + safe + "_";
      assert ServiceKey(safe, f) == p + ServiceSuffix(f);
      assert ServiceKey(safe, g) == p + ServiceSuffix(g);
      assert ServiceSuffix(f) == ServiceKey(safe, f)[|p|..];
      assert ServiceSuffix(g) == ServiceKey(safe, g)[|p|..];
      ServiceSuffixInjective(f, g);
    }
  }

  // ------------------------------------------------------------ server-wide ids

  function ParseSdiSuffix(s: string): Option<SdiField> {
    if s == "type" then Some(PortType)
    else if s == "service" then Some(PortService)
    else if s == "service_type" then Some(PortServiceType)
    else if s == "service_state" then Some(PortServiceState)
    else if s == "output_active" then Some(OutputActive)
    else None
  }

  /** The server-wide ids that are one fixed text each, told apart by their length first. */
  function ParseFixedSystemKey(s: string): Option<SystemField> {
    match |s|
    case 9 => if s == "server_id" then Some(ServerId) else None
    case 10 => if s == "server_tpm" then Some(ServerTpm) else None
    case 13 => if s == "server_uptime" then Some(ServerUptime) else None
    case 14 =>
      if s == "server_chassis" then Some(ServerChassis)
      else if s == "server_version" then Some(ServerVersion)
      else if s == "total_services" then Some(TotalServices)
      else None
    case 15 =>
      if s == "server_datetime" then Some(ServerDatetime)
      else if s == "server_mem_size" then Some(ServerMemSize)
      else None
    case 16 =>
      if s == "server_disk_size" then Some(ServerDiskSize)
      else if s == "running_services" then Some(RunningServices)
      else if s == "stopped_services" then Some(StoppedServices)
      else if s == "blocked_services" then Some(BlockedServices)
      else None
    case 17 => if s == "server_uptime_sec" then Some(ServerUptimeSec) else None
    case 19 => if s == "server_product_name" then Some(ServerProductName) else None
    case _ => None
  }

  /** Reads a server-wide variable id. */
  function ParseSystemKey(s: string): Option<SystemField> {
    match ParseFixedSystemKey(s)
    case Some(f) => Some(f)
    case None =>
      if StartsWith(s, "sdi_port_") then
        match ParseIndexed(s[9..])
        case Some((p, r)) =>
          (match ParseSdiSuffix(r)
           case Some(df) => Some(Sdi(p, df))
           case None => None)
        case None => None
      else if StartsWith(s, "pcie_slot_") then
        match ParseIndexed(s[10..])
        case Some((k, r)) =>
          if r == "desc" then Some(Pcie(k, Desc))
          else if r == "part" then Some(Pcie(k, Part))
          else None
        case None => None
      else None
  }

  lemma SdiSuffixRoundTrip(df: SdiField)
    ensures ParseSdiSuffix(SdiSuffix(df)) == Some(df)
  {
    match df
    case PortType =>
    case PortService =>
    case PortServiceType =>
    case PortServiceState =>
    case OutputActive =>
  }

  lemma SdiKeyParses(p: nat, df: SdiField)
    ensures ParseSystemKey(SystemKey(Sdi(p, df))) == Some(Sdi(p, df))
  {
    var s := SystemKey(Sdi(p, df));
    var rest := NatToString(p) + "_" + SdiSuffix(df);
    assert s == "sdi_port_" + rest;
    assert s[0] == 's' && s[1] == 'd';
    FixedSystemNotSdi(s);
    assert s[..9] == "sdi_port_";
    assert s[9..] == rest;
    ParseIndexedRoundTrip(p, SdiSuffix(df));
    SdiSuffixRoundTrip(df);
  }

  /** No fixed server-wide id starts with "sd". */
  lemma FixedSystemNotSdi(s: string)
    requires |s| > 1 && s[0] == 's' && s[1] == 'd'
    ensures ParseFixedSystemKey(s) == None
  {
  }

  lemma PcieKeyParses(k: nat, pf: PcieField)
    ensures ParseSystemKey(SystemKey(Pcie(k, pf))) == Some(Pcie(k, pf))
  {
    var s := SystemKey(Pcie(k, pf));
    var r := if pf == Desc then "desc" else "part";
    PcieKeyShape(k, pf, r);
    FixedSystemNotPcie(s);
    NotStartsWith(s, "sdi_port_");
    ParseIndexedRoundTrip(k, r);
  }

  lemma PcieKeyShape(k: nat, pf: PcieField, r: string)
    requires r == if pf == Desc then "desc" else "part"
    ensures |SystemKey(Pcie(k, pf))| > 10 && SystemKey(Pcie(k, pf))[0] == 'p'
    ensures StartsWith(SystemKey(Pcie(k, pf)), "pcie_slot_")
    ensures SystemKey(Pcie(k, pf))[10..] == NatToString(k) + "_" + r
  {
    var s := SystemKey(Pcie(k, pf));
    assert s == "pcie_slot_" + (NatToString(k) + "_" + r);
    assert s[..10] == "pcie_slot_";
  }

  /** No fixed server-wide id starts with "p". */
  lemma FixedSystemNotPcie(s: string)
    requires |s| > 0 && s[0] == 'p'
    ensures ParseFixedSystemKey(s) == None
  {
  }

  /** Every server-wide id reads back as its field. */
  lemma SystemKeyRoundTrip(f: SystemField)
    ensures ParseSystemKey(SystemKey(f)) == Some(f)
  {
    match f
    case Sdi(p, df) => SdiKeyParses(p, df);
    case Pcie(k, pf) => PcieKeyParses(k, pf);
    case _ => FixedSystemKeyRoundTrip(f);
  }

  lemma FixedSystemKeyRoundTrip(f: SystemField)
    requires !f.Sdi? && !f.Pcie?
    ensures ParseFixedSystemKey(SystemKey(f)) == Some(f)
  {
    match f
    case ServerUptime =>
    case ServerUptimeSec =>
    case ServerChassis =>
    case ServerProductName =>
    case ServerDatetime =>
    case ServerMemSize =>
    case ServerDiskSize =>
    case ServerTpm =>
    case ServerVersion =>
    case ServerId =>
    case TotalServices =>
    case RunningServices =>
    case StoppedServices =>
    case BlockedServices =>
  }

  /** Different server-wide fields have different variable ids. */
  lemma SystemKeyInjective(f: SystemField, g: SystemField)
    ensures SystemKey(f) == SystemKey(g) <==> f == g
  {
    SystemKeyRoundTrip(f);
    SystemKeyRoundTrip(g);
  }
}
