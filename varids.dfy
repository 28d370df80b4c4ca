/** The vocabulary of host variables: every variable the adapter declares or writes is
    one of these fields, rendered to its id text (`server_uptime`,
    `sdi_port_3_output_active`, `service_<safe name>_audio2_lang`, ...) and to its
    display name. */
module VarIds {
  import opened Text

  // ------------------------------------------------------------ per-service fields

  datatype SourceSlot = Primary | Secondary

  /** The variables of one input source; the last seven are written for satellite
      sources only. */
  datatype SourceField =
    | SrcType | Receiving | Bitrate | BitrateRaw | CcErrors | PidErrors | PmtErrors
    | SyncErrors | TransportErrors | SyncLoss
    | Ber | CnMargin | FecRate | Modulation | RfLock | SignalStrength | Delivery

  datatype AudioField = APid | ALang | ACodec | ABitrate | ABitrateRaw | ASampleRate | AChannels

  datatype ServiceField =
    | State | SvcType | Id | StateModified | Uptime | RunningState
    | ActiveSource | NetworkId | OrigNetworkId | TsId | ProgramCount
    | Source(slot: SourceSlot, sf: SourceField)
    | ProgramNumber | ProgramAuto | Descrambling
    | VideoPid | VideoBitrate | VideoBitrateRaw | VideoResolution | VideoWidth | VideoHeight
    | VideoInterlaced | VideoFramerate | VideoCodec | VideoChroma
    | Audio(n: nat, af: AudioField)
    | OutputType | SdiPort | RemoteProdStatus | UdpPackets

  /** The video stream's pid, rates, resolution and width. */
  predicate IsVideoStreamField(f: ServiceField) {
    f.VideoPid? || f.VideoBitrate? || f.VideoBitrateRaw? || f.VideoResolution? || f.VideoWidth?
  }

  /** The video stream's height, scan, frame rate, codec and chroma. */
  predicate IsVideoFormatField(f: ServiceField) {
    f.VideoHeight? || f.VideoInterlaced? || f.VideoFramerate? || f.VideoCodec? || f.VideoChroma?
  }

  predicate IsVideoField(f: ServiceField) {
    IsVideoStreamField(f) || IsVideoFormatField(f)
  }

  predicate IsSatField(f: SourceField) {
    f.Ber? || f.CnMargin? || f.FecRate? || f.Modulation? || f.RfLock? || f.SignalStrength? || f.Delivery?
  }

  function SlotName(slot: SourceSlot): string {
    match slot
    case Primary => "primary"
    case Secondary => "secondary"
  }

  function SourceSuffix(f: SourceField): string {
    match f
    case SrcType => "type"
    case Receiving => "receiving"
    case Bitrate => "bitrate"
    case BitrateRaw => "bitrate_raw"
    case CcErrors => "cc_errors"
    case PidErrors => "pid_errors"
    case PmtErrors => "pmt_errors"
    case SyncErrors => "sync_errors"
    case TransportErrors => "transport_errors"
    case SyncLoss => "sync_loss"
    case Ber => "ber"
    case CnMargin => "cn_margin"
    case FecRate => "fec_rate"
    case Modulation => "modulation"
    case RfLock => "rf_lock"
    case SignalStrength => "signal_strength"
    case Delivery => "delivery"
  }

  function AudioSuffix(f: AudioField): string {
    match f
    case APid => "pid"
    case ALang => "lang"
    case ACodec => "codec"
    case ABitrate => "bitrate"
    case ABitrateRaw => "bitrate_raw"
    case ASampleRate => "samplerate"
    case AChannels => "channels"
  }

  /** The part of a service variable id after `service_<safe name>_`. */
  function ServiceSuffix(f: ServiceField): string {
    match f
    case State => "state"
    case SvcType => "type"
    case Id => "id"
    case StateModified => "state_modified"
    case Uptime => "uptime"
    case RunningState => "running_state"
    case ActiveSource => "active_source"
    case NetworkId => "network_id"
    case OrigNetworkId => "orig_network_id"
    case TsId => "ts_id"
    case ProgramCount => "program_count"
    case Source(slot, sf) => SlotName(slot) + "_" + SourceSuffix(sf)
    case ProgramNumber => "program_number"
    case ProgramAuto => "program_auto"
    case Descrambling => "descrambling"
    case VideoPid => "video_pid"
    case VideoBitrate => "video_bitrate"
    case VideoBitrateRaw => "video_bitrate_raw"
    case VideoResolution => "video_resolution"
    case VideoWidth => "video_width"
    case VideoHeight => "video_height"
    case VideoInterlaced => "video_interlaced"
    case VideoFramerate => "video_framerate"
    case VideoCodec => "video_codec"
    case VideoChroma => "video_chroma"
    case Audio(n, af) => "audio" + NatToString(n) + "_" + AudioSuffix(af)
    case OutputType => "output_type"
    case SdiPort => "sdi_port"
    case RemoteProdStatus => "remote_prod_status"
    case UdpPackets => "udp_packets"
  }

  /** `service_${safeName}_<suffix>`. */
  function ServiceKey(safe: string, f: ServiceField): string {
    "service_" + safe + "_" + ServiceSuffix(f)
  }

  function SourceCaption(f: SourceField): string {
    match f
    case SrcType => "Type"
    case Receiving => "Receiving"
    case Bitrate => "Bitrate"
    case BitrateRaw => "Bitrate (Raw)"
    case CcErrors => "CC Errors"
    case PidErrors => "PID Errors"
    case PmtErrors => "PMT Errors"
    case SyncErrors => "Sync Byte Errors"
    case TransportErrors => "Transport Errors"
    case SyncLoss => "TS Sync Loss"
    case Ber => "BER"
    case CnMargin => "C/N Margin"
    case FecRate => "FEC Rate"
    case Modulation => "Modulation"
    case RfLock => "RF Lock"
    case SignalStrength => "Signal Strength"
    case Delivery => "Delivery System"
  }

  function AudioCaption(f: AudioField): string {
    match f
    case APid => "PID"
    case ALang => "Language"
    case ACodec => "Codec"
    case ABitrate => "Bitrate"
    case ABitrateRaw => "Bitrate (Raw)"
    case ASampleRate => "Sample Rate"
    case AChannels => "Channels"
  }

  /** The part of a service variable's display name after `<service name> `. */
  function ServiceCaption(f: ServiceField): string {
    match f
    case State => "State"
    case SvcType => "Type"
    case Id => "ID"
    case StateModified => "State Modified"
    case Uptime => "Uptime"
    case RunningState => "Running State"
    case ActiveSource => "Active Source"
    case NetworkId => "Network ID"
    case OrigNetworkId => "Original Network ID"
    case TsId => "Transport Stream ID"
    case ProgramCount => "Program Count"
    case Source(slot, sf) => SlotName(slot) + " " + SourceCaption(sf)
    case ProgramNumber => "Program Number"
    case ProgramAuto => "Program Auto Selected"
    case Descrambling => "Descrambling State"
    case VideoPid => "Video PID"
    case VideoBitrate => "Video Bitrate"
    case VideoBitrateRaw => "Video Bitrate (Raw)"
    case VideoResolution => "Video Resolution"
    case VideoWidth => "Video Width"
    case VideoHeight => "Video Height"
    case VideoInterlaced => "Video Interlaced"
    case VideoFramerate => "Video Frame Rate"
    case VideoCodec => "Video Codec"
    case VideoChroma => "Video Chroma Format"
    case Audio(n, af) => "Audio " + NatToString(n) + " " + AudioCaption(af)
    case OutputType => "Output Type"
    case SdiPort => "SDI Output Port"
    case RemoteProdStatus => "Remote Production Status"
    case UdpPackets => "UDP Output Packets"
  }

  /** How many audio streams, SDI ports and PCIe slots get declarations. */
  const AudioSlots: nat := 8
  const SdiPorts: nat := 5
  const PcieSlots: nat := 4

  /** Fields declared for every service: audio streams 1 to 8 only. */
  predicate ServiceDeclared(f: ServiceField) {
    f.Audio? ==> 1 <= f.n <= 8
  }

  function SourceBlock(slot: SourceSlot): seq<ServiceField> {
    [Source(slot, SrcType), Source(slot, Receiving), Source(slot, Bitrate), Source(slot, BitrateRaw),
     Source(slot, CcErrors), Source(slot, PidErrors), Source(slot, PmtErrors), Source(slot, SyncErrors),
     Source(slot, TransportErrors), Source(slot, SyncLoss),
     Source(slot, Ber), Source(slot, CnMargin), Source(slot, FecRate), Source(slot, Modulation),
     Source(slot, RfLock), Source(slot, SignalStrength), Source(slot, Delivery)]
  }

  function AudioBlock(n: nat): seq<ServiceField> {
    [Audio(n, APid), Audio(n, ALang), Audio(n, ACodec), Audio(n, ABitrate), Audio(n, ABitrateRaw),
     Audio(n, ASampleRate), Audio(n, AChannels)]
  }

  /** The audio blocks for streams 1 to k, in that order. */
  function AudioBlocks(k: nat): seq<ServiceField> {
    if k == 0 then [] else AudioBlocks(k - 1) + AudioBlock(k)
  }

  function BasicBlock(): seq<ServiceField> {
    [State, SvcType, Id, StateModified, Uptime, RunningState]
  }

  function InputBlock(): seq<ServiceField> {
    [ActiveSource, NetworkId, OrigNetworkId, TsId, ProgramCount]
  }

  function DecodeBlock(): seq<ServiceField> {
    [ProgramNumber, ProgramAuto, Descrambling]
  }

  function VideoBlock(): seq<ServiceField> {
    [VideoPid, VideoBitrate, VideoBitrateRaw, VideoResolution, VideoWidth, VideoHeight,
     VideoInterlaced, VideoFramerate, VideoCodec, VideoChroma]
  }

  function OutputBlock(): seq<ServiceField> {
    [OutputType, SdiPort, RemoteProdStatus, UdpPackets]
  }

  /** The per-service block of declared fields, in declaration order. */
  function ServiceFieldOrder(): seq<ServiceField> {
    BasicBlock() + InputBlock() + SourceBlock(Primary) + SourceBlock(Secondary)
    + DecodeBlock() + VideoBlock() + AudioBlocks(AudioSlots) + OutputBlock()
  }

  lemma {:induction false} AudioBlocksLength(k: nat)
    ensures |AudioBlocks(k)| == 7 * k
    decreases k
  {
    if k > 0 {
      AudioBlocksLength(k - 1);
    }
  }

  lemma InAudioBlock(n: nat, a: AudioField)
    ensures Audio(n, a) in AudioBlock(n)
  {
    match a
    case APid => case ALang => case ACodec => case ABitrate =>
    case ABitrateRaw => case ASampleRate => case AChannels =>
  }

  lemma InSourceBlock(slot: SourceSlot, x: SourceField)
    ensures Source(slot, x) in SourceBlock(slot)
  {
    match x
    case SrcType => case Receiving => case Bitrate => case BitrateRaw =>
    case CcErrors => case PidErrors => case PmtErrors => case SyncErrors =>
    case TransportErrors => case SyncLoss => case Ber => case CnMargin =>
    case FecRate => case Modulation => case RfLock => case SignalStrength =>
    case Delivery =>
  }

  /** The audio blocks up to k hold exactly the audio fields numbered 1 to k. */
  lemma {:induction false} AudioBlocksMember(k: nat, f: ServiceField)
    ensures f in AudioBlocks(k) <==> f.Audio? && 1 <= f.n <= k
    decreases k
  {
    if k > 0 {
      AudioBlocksMember(k - 1, f);
      if f.Audio? && f.n == k {
        InAudioBlock(k, f.af);
      }
    }
  }

  /** A service contributes 118 declarations. */
  lemma ServiceFieldOrderLength()
    ensures |ServiceFieldOrder()| == 118
  {
    AudioBlocksLength(AudioSlots);
  }

  /** Where each field that is not an audio field sits in the per-service block. */
  lemma NonAudioInOrder(f: ServiceField)
    requires !f.Audio?
    ensures f in BasicBlock() || f in InputBlock() || f in SourceBlock(Primary)
            || f in SourceBlock(Secondary) || f in DecodeBlock() || f in VideoBlock()
            || f in OutputBlock()
  {
    match f
    case State => case SvcType => case Id => case StateModified => case Uptime =>
    case RunningState => assert f in BasicBlock();
    case ActiveSource => case NetworkId => case OrigNetworkId => case TsId =>
    case ProgramCount => assert f in InputBlock();
    case Source(slot, x) =>
      InSourceBlock(slot, x);
      if slot == Primary {} else {}
    case ProgramNumber => case ProgramAuto => case Descrambling =>
    case VideoPid => case VideoBitrate => case VideoBitrateRaw => case VideoResolution =>
    case VideoWidth => case VideoHeight => case VideoInterlaced => case VideoFramerate =>
    case VideoCodec => case VideoChroma =>
    case OutputType => case SdiPort => case RemoteProdStatus => case UdpPackets =>
  }

  /** The per-service declarations are exactly the declared fields. */
  lemma ServiceFieldOrderMember(f: ServiceField)
    ensures f in ServiceFieldOrder() <==> ServiceDeclared(f)
  {
    if !f.Audio? {
      NonAudioInOrder(f);
    } else if ServiceDeclared(f) {
      AudioBlocksMember(AudioSlots, f);
    } else {
      AudioNotInOrder(f);
    }
  }

  /** An audio field numbered outside 1 to 8 is in none of the blocks. */
  lemma AudioNotInOrder(f: ServiceField)
    requires f.Audio? && !(1 <= f.n <= 8)
    ensures f !in ServiceFieldOrder()
  {
    assert f !in BasicBlock() && f !in InputBlock() && f !in DecodeBlock();
    assert f !in SourceBlock(Primary) && f !in SourceBlock(Secondary);
    assert f !in VideoBlock() && f !in OutputBlock();
    AudioBlocksMember(AudioSlots, f);
  }

  // ------------------------------------------------------------ server-wide fields

  datatype SdiField = PortType | PortService | PortServiceType | PortServiceState | OutputActive

  datatype PcieField = Desc | Part

  datatype SystemField =
    | ServerUptime | ServerUptimeSec | ServerChassis | ServerProductName | ServerDatetime
    | ServerMemSize | ServerDiskSize | ServerTpm | ServerVersion | ServerId
    | TotalServices | RunningServices | StoppedServices | BlockedServices
    | Sdi(port: nat, df: SdiField)
    | Pcie(slot: nat, pf: PcieField)

  function SdiSuffix(f: SdiField): string {
    match f
    case PortType => "type"
    case PortService => "service"
    case PortServiceType => "service_type"
    case PortServiceState => "service_state"
    case OutputActive => "output_active"
  }

  function SystemKey(f: SystemField): string {
    match f
    case ServerUptime => "server_uptime"
    case ServerUptimeSec => "server_uptime_sec"
    case ServerChassis => "server_chassis"
    case ServerProductName => "server_product_name"
    case ServerDatetime => "server_datetime"
    case ServerMemSize => "server_mem_size"
    case ServerDiskSize => "server_disk_size"
    case ServerTpm => "server_tpm"
    case ServerVersion => "server_version"
    case ServerId => "server_id"
    case TotalServices => "total_services"
    case RunningServices => "running_services"
    case StoppedServices => "stopped_services"
    case BlockedServices => "blocked_services"
    case Sdi(p, df) => "sdi_port_" + NatToString(p) + "_" + SdiSuffix(df)
    case Pcie(s, pf) => "pcie_slot_" + NatToString(s) + (if pf == Desc then "_desc" else "_part")
  }

  function SystemLabel(f: SystemField): string {
    match f
    case ServerUptime => "Server Uptime"
    case ServerUptimeSec => "Server Uptime Seconds"
    case ServerChassis => "Server Chassis"
    case ServerProductName => "Server Product Name"
    case ServerDatetime => "Server DateTime"
    case ServerMemSize => "Server Memory Size (GB)"
    case ServerDiskSize => "Server Disk Size (GB)"
    case ServerTpm => "Server TPM"
    case ServerVersion => "Server Version"
    case ServerId => "Server ID"
    case TotalServices => "Total Services"
    case RunningServices => "Running Services"
    case StoppedServices => "Stopped Services"
    case BlockedServices => "Blocked Services"
    case Sdi(p, df) =>
      "SDI Port " + NatToString(p) + " "
      + (match df
         case PortType => "Type"
         case PortService => "Service"
         case PortServiceType => "Service Type"
         case PortServiceState => "Service State"
         case OutputActive => "Output Active")
    case Pcie(s, pf) => "PCIe Slot " + NatToString(s) + (if pf == Desc then " Description" else " Part Number")
  }

  /** Server-wide fields declared: SDI ports 0 to 4 and PCIe slots 0 to 3. */
  predicate SystemDeclared(f: SystemField) {
    (f.Sdi? ==> f.port < 5) && (f.Pcie? ==> f.slot < 4)
  }

  function SdiBlock(p: nat): seq<SystemField> {
    [Sdi(p, PortType), Sdi(p, PortService), Sdi(p, PortServiceType), Sdi(p, PortServiceState),
     Sdi(p, OutputActive)]
  }

  /** The SDI blocks for ports 0 to k - 1. */
  function SdiBlocks(k: nat): seq<SystemField> {
    if k == 0 then [] else SdiBlocks(k - 1) + SdiBlock(k - 1)
  }

  /** The PCIe blocks for slots 0 to k - 1. */
  function PcieBlocks(k: nat): seq<SystemField> {
    if k == 0 then [] else PcieBlocks(k - 1) + [Pcie(k - 1, Desc), Pcie(k - 1, Part)]
  }

  function ServerBlock(): seq<SystemField> {
    [ServerUptime, ServerUptimeSec, ServerChassis, ServerProductName, ServerDatetime,
     ServerMemSize, ServerDiskSize, ServerTpm, ServerVersion, ServerId]
  }

  function CountBlock(): seq<SystemField> {
    [TotalServices, RunningServices, StoppedServices, BlockedServices]
  }

  /** The fixed block of server-wide declarations, in declaration order. */
  function FixedFields(): seq<SystemField> {
    ServerBlock() + CountBlock() + SdiBlocks(SdiPorts) + PcieBlocks(PcieSlots)
  }

  lemma {:induction false} SdiBlocksLength(k: nat)
    ensures |SdiBlocks(k)| == 5 * k
    decreases k
  {
    if k > 0 {
      SdiBlocksLength(k - 1);
    }
  }

  lemma {:induction false} PcieBlocksLength(k: nat)
    ensures |PcieBlocks(k)| == 2 * k
    decreases k
  {
    if k > 0 {
      PcieBlocksLength(k - 1);
    }
  }

  /** The SDI blocks up to k hold exactly the fields of ports 0 to k - 1. */
  lemma {:induction false} SdiBlocksMember(k: nat, f: SystemField)
    ensures f in SdiBlocks(k) <==> f.Sdi? && f.port < k
    decreases k
  {
    if k > 0 {
      SdiBlocksMember(k - 1, f);
      if f.Sdi? && f.port == k - 1 {
        match f.df
        case PortType => case PortService => case PortServiceType =>
        case PortServiceState => case OutputActive =>
      }
    }
  }

  /** The PCIe blocks up to k hold exactly the fields of slots 0 to k - 1. */
  lemma {:induction false} PcieBlocksMember(k: nat, f: SystemField)
    ensures f in PcieBlocks(k) <==> f.Pcie? && f.slot < k
    decreases k
  {
    if k > 0 {
      PcieBlocksMember(k - 1, f);
      if f.Pcie? && f.slot == k - 1 {
        if f.pf == Desc {} else {}
      }
    }
  }

  /** The fixed block holds 47 declarations: 10 server, 4 counts, 5 x 5 SDI and 4 x 2 PCIe. */
  lemma FixedFieldsLength()
    ensures |FixedFields()| == 47
  {
    SdiBlocksLength(SdiPorts);
    PcieBlocksLength(PcieSlots);
  }

  /** The fixed declarations are exactly the declared server-wide fields. */
  lemma FixedFieldsMember(f: SystemField)
    ensures f in FixedFields() <==> SystemDeclared(f)
  {
    if SystemDeclared(f) {
      FixedFieldsComplete(f);
    } else {
      SdiBlocksMember(SdiPorts, f);
      PcieBlocksMember(PcieSlots, f);
    }
  }

  lemma FixedFieldsComplete(f: SystemField)
    requires SystemDeclared(f)
    ensures f in FixedFields()
  {
    match f
    case Sdi(_, _) => SdiBlocksMember(SdiPorts, f);
    case Pcie(_, _) => PcieBlocksMember(PcieSlots, f);
    case ServerUptime => case ServerUptimeSec => case ServerChassis =>
    case ServerProductName => case ServerDatetime => case ServerMemSize =>
    case ServerDiskSize => case ServerTpm => case ServerVersion => case ServerId =>
      assert f in ServerBlock();
    case TotalServices => case RunningServices => case StoppedServices =>
    case BlockedServices =>
      assert f in CountBlock();
  }
}
