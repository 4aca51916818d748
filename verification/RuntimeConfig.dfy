/** The runtime configuration: its values, its validator and the meaning of one setting. */
module RuntimeConfig {
  import opened Bytes
  import opened Ipv4Text
  import opened Text
  import opened Wrappers

  /** Limits of the tunnel protocol, whose header is not part of this model. */
  type PayloadLimit = n: nat | n >= 24 witness 24
  type FlowLimit = n: nat | n >= 1 witness 1
  const MAXIMUM_UDP_PAYLOAD_STORAGE_BYTES: PayloadLimit
  const MAXIMUM_FLOWS_PER_CLIENT: FlowLimit

  const MINIMUM_PAYLOAD_BYTES: nat := 24
  const MAXIMUM_PROFILES: nat := 8
  const MAXIMUM_PROFILE_NAME_LENGTH: nat := 32
  const MAXIMUM_DATAGRAM_COUNT: nat := 4096
  const MAXIMUM_DURATION_MS: nat := 60000

  datatype Scenario = DirectTunnelUdp | DirectTunnelTcp | BsdSystemUdp | BsdSystemTcp | TunnelContractValidation

  datatype ExpectedOutcome = EchoReply | NoReplyTimeout | TerminalClosure

  datatype Profile = Profile(
    name: string,
    tunnelIpv4: string,
    bsdIpv4: string,
    udpPort: u16,
    tcpPort: u16)

  datatype Config = Config(
    scenario: Scenario,
    nextWorkloadId: u32,
    activeProfile: u64,
    profiles: seq<Profile>,
    payloadBytes: u64,
    datagramCount: u32,
    pacingMs: u32,
    concurrentFlows: u32,
    udpDeadlineMs: u32,
    payloadSeed: u32,
    echoReplies: bool,
    tcpDeadlineMs: u32,
    verifyClone: bool,
    verifyMixedBatch: bool,
    verifyPostRoute: bool,
    expectedOutcome: ExpectedOutcome,
    requireRecovery: bool)

  // ---- validation ----

  datatype ConfigError =
    | NoActiveProfile
    | BadProfileName
    | BadProfileDestination
    | ZeroUdpPort
    | ZeroTcpPort
    | PayloadOutOfRange
    | CountOutOfRange
    | UdpTimeoutOutOfRange
    | FlowsOutOfRange
    | TcpTimeoutOutOfRange
    | NoReplyNeedsSingleSilentDatagram
    | TerminalNeedsSingleEchoedDatagram
    | NoContractCheck

  function ProfileError(profile: Profile): Option<ConfigError> {
    if profile.name == "" || |profile.name| > MAXIMUM_PROFILE_NAME_LENGTH then Some(BadProfileName)
    else if !IsDottedQuad(profile.tunnelIpv4) || !IsDottedQuad(profile.bsdIpv4) then Some(BadProfileDestination)
    else if profile.udpPort == 0 then Some(ZeroUdpPort)
    else if profile.tcpPort == 0 then Some(ZeroTcpPort)
    else None
  }

  /** The first profile error in list order. */
  function ProfilesError(profiles: seq<Profile>): (error: Option<ConfigError>)
    ensures error.None? <==> forall i :: 0 <= i < |profiles| ==> ProfileError(profiles[i]).None?
  {
    if profiles == [] then None
    else if ProfileError(profiles[0]).Some? then ProfileError(profiles[0])
    else
      var error := ProfilesError(profiles[1..]);
      assert forall i :: 0 < i < |profiles| ==> profiles[i] == profiles[1..][i - 1];
      error
  }

  function BehaviourError(c: Config): Option<ConfigError> {
    if c.payloadBytes < MINIMUM_PAYLOAD_BYTES || c.payloadBytes > MAXIMUM_UDP_PAYLOAD_STORAGE_BYTES then Some(PayloadOutOfRange)
    else if c.datagramCount == 0 || c.datagramCount > MAXIMUM_DATAGRAM_COUNT then Some(CountOutOfRange)
    else if c.pacingMs > MAXIMUM_DURATION_MS || c.udpDeadlineMs == 0 || c.udpDeadlineMs > MAXIMUM_DURATION_MS
      then Some(UdpTimeoutOutOfRange)
    else if c.concurrentFlows == 0 || c.concurrentFlows > MAXIMUM_FLOWS_PER_CLIENT then Some(FlowsOutOfRange)
    else if c.tcpDeadlineMs == 0 || c.tcpDeadlineMs > MAXIMUM_DURATION_MS then Some(TcpTimeoutOutOfRange)
    else if c.scenario == BsdSystemUdp && c.expectedOutcome == NoReplyTimeout
      && (c.echoReplies || c.datagramCount != 1 || c.concurrentFlows != 1) then Some(NoReplyNeedsSingleSilentDatagram)
    else if c.scenario == BsdSystemUdp && c.expectedOutcome == TerminalClosure
      && (c.requireRecovery || !c.echoReplies || c.datagramCount != 1 || c.concurrentFlows != 1)
      then Some(TerminalNeedsSingleEchoedDatagram)
    else if c.scenario == TunnelContractValidation && !c.verifyClone && !c.verifyMixedBatch then Some(NoContractCheck)
    else None
  }

  function ValidateRuntimeConfig(c: Config): Option<ConfigError> {
    if c.profiles == [] || |c.profiles| > MAXIMUM_PROFILES || c.activeProfile >= |c.profiles| then Some(NoActiveProfile)
    else if ProfilesError(c.profiles).Some? then ProfilesError(c.profiles)
    else BehaviourError(c)
  }

  predicate Valid(c: Config) {
    ValidateRuntimeConfig(c).None?
  }

  // ---- settings ----

  datatype ProfileField = Name | TunnelIpv4 | BsdIpv4 | UdpPort | TcpPort

  /** The settings the printer writes. */
  datatype Setting =
    | RunScenario
    | RunNextWorkloadId
    | RunActiveProfile
    | ProfilesCount
    | ProfileSetting(index: nat, field: ProfileField)
    | UdpPayloadBytes
    | UdpDatagramCount
    | UdpPacingMs
    | UdpConcurrentFlows
    | UdpReceiveDeadlineMs
    | UdpPayloadSeed
    | UdpEchoReplies
    | TcpReceiveDeadlineMs
    | VerifyClonedSessionLifetime
    | VerifyMixedBatch
    | VerifyPostRouteRejection
    | BsdExpectedOutcome
    | RequireWritableRecovery

  /** Keys of earlier versions, still understood. Keys shared with current settings never reach the legacy branch. */
  datatype LegacySetting =
    | TunnelUdpEnabled
    | BsdSystemUdpEnabled
    | TunnelContractEnabled
    | LegacyDestinationIpv4
    | LegacyDestinationPort
    | LegacyWorkloadId
    | LegacyPayloadBytes
    | LegacyDatagramCount
    | LegacyPacingMs
    | LegacyConcurrentFlows
    | LegacyReceiveDeadlineMs
    | LegacyPayloadSeed
    | LegacyEchoReplies

  datatype Recognized =
    | Current(setting: Setting)
    | UnknownProfileField(index: nat)
    | Legacy(legacy: LegacySetting)
    | Unknown

  function ParseProfileField(field: string): Option<ProfileField> {
    if field == "name" then Some(Name)
    else if field == "tunnel_destination_ipv4" then Some(TunnelIpv4)
    else if field == "bsd_destination_ipv4" then Some(BsdIpv4)
    else if field == "udp_destination_port" then Some(UdpPort)
    else if field == "tcp_destination_port" then Some(TcpPort)
    else None
  }

  const PROFILE_PREFIX: string := "profile."

  /** "profile.<index>.<field>" with an index that fits the machine word. */
  function ParseProfileKey(key: string): Option<(nat, string)> {
    if !StartsWith(key, PROFILE_PREFIX) then None
    else
      var remainder := key[|PROFILE_PREFIX|..];
      var separator := IndexOf(remainder, '.');
      if separator == |remainder| then None
      else
        match ParseU64(remainder[..separator])
        case None => None
        case Some(index) => Some((index, remainder[separator + 1..]))
  }

  const CONTRACT_SECTION: string := "tunnel_contract."
  const BSD_SECTION: string := "bsd_system_udp."

  function RecognizeLegacyReply(key: string): Recognized {
    if key == "tunnel_udp.concurrent_flows" then Legacy(LegacyConcurrentFlows)
    else if key == "tunnel_udp.receive_deadline_ms" then Legacy(LegacyReceiveDeadlineMs)
    else if key == "tunnel_udp.payload_seed" then Legacy(LegacyPayloadSeed)
    else if key == "tunnel_udp.echo_replies" then Legacy(LegacyEchoReplies)
    else Unknown
  }

  function RecognizeLegacyShape(key: string): Recognized {
    if key == "tunnel_udp.workload_id" then Legacy(LegacyWorkloadId)
    else if key == "tunnel_udp.payload_bytes" then Legacy(LegacyPayloadBytes)
    else if key == "tunnel_udp.datagram_count" then Legacy(LegacyDatagramCount)
    else if key == "tunnel_udp.pacing_ms" then Legacy(LegacyPacingMs)
    else RecognizeLegacyReply(key)
  }

  function RecognizeLegacyEndpoint(key: string): Recognized {
    if key == "tunnel_udp.destination_ipv4" then Legacy(LegacyDestinationIpv4)
    else if key == "tunnel_udp.destination_port" then Legacy(LegacyDestinationPort)
    else RecognizeLegacyShape(key)
  }

  function RecognizeLegacy(key: string): Recognized {
    if key == "tunnel_udp.enabled" then Legacy(TunnelUdpEnabled)
    else if key == "bsd_system_udp.enabled" then Legacy(BsdSystemUdpEnabled)
    else if key == "tunnel_contract.enabled" then Legacy(TunnelContractEnabled)
    else RecognizeLegacyEndpoint(key)
  }

  function RecognizeBsdCheck(key: string): Recognized {
    if key == BSD_SECTION + "verify_post_" + "route_rejection" then Current(VerifyPostRouteRejection)
    else if key == BSD_SECTION + "expected_outcome" then Current(BsdExpectedOutcome)
    else if key == BSD_SECTION + "require_writable" + "_recovery" then Current(RequireWritableRecovery)
    else RecognizeLegacy(key)
  }

  function RecognizeCheck(key: string): Recognized {
    if key == CONTRACT_SECTION + "verify_cloned_" + "session_lifetime" then Current(VerifyClonedSessionLifetime)
    else if key == CONTRACT_SECTION + "verify_mixed_batch" then Current(VerifyMixedBatch)
    else RecognizeBsdCheck(key)
  }

  function RecognizeReply(key: string): Recognized {
    if key == "udp.concurrent_flows" then Current(UdpConcurrentFlows)
    else if key == "udp.receive_deadline_ms" then Current(UdpReceiveDeadlineMs)
    else if key == "udp.payload_seed" then Current(UdpPayloadSeed)
    else if key == "udp.echo_replies" then Current(UdpEchoReplies)
    else if key == "tcp.receive_deadline_ms" then Current(TcpReceiveDeadlineMs)
    else RecognizeCheck(key)
  }

  function RecognizeBehaviour(key: string): Recognized {
    if key == "udp.payload_bytes" then Current(UdpPayloadBytes)
    else if key == "udp.datagram_count" then Current(UdpDatagramCount)
    else if key == "udp.pacing_ms" then Current(UdpPacingMs)
    else RecognizeReply(key)
  }

  /** The dispatch on the key, in the order the parser tests it. */
  function Recognize(key: string): Recognized {
    if key == "run.scenario" then Current(RunScenario)
    else if key == "run.next_workload_id" then Current(RunNextWorkloadId)
    else if key == "run.active_profile" then Current(RunActiveProfile)
    else if key == "profiles.count" then Current(ProfilesCount)
    else
      match ParseProfileKey(key)
      case Some((index, field)) =>
        (match ParseProfileField(field)
         case Some(f) => Current(ProfileSetting(index, f))
         case None => UnknownProfileField(index))
      case None => RecognizeBehaviour(key)
  }

  // ---- values ----

  function ParseBool(value: string): Option<bool> {
    if value == "true" || value == "1" then Some(true)
    else if value == "false" || value == "0" then Some(false)
    else None
  }

  function ParseScenario(value: string): Option<Scenario> {
    if value == "direct_tunnel_udp" then Some(DirectTunnelUdp)
    else if value == "direct_tunnel_tcp" then Some(DirectTunnelTcp)
    else if value == "bsd_system_udp" then Some(BsdSystemUdp)
    else if value == "bsd_system_tcp" then Some(BsdSystemTcp)
    else if value == "tunnel_contract_validation" then Some(TunnelContractValidation)
    else None
  }

  function ParseOutcome(value: string): Option<ExpectedOutcome> {
    if value == "echo" then Some(EchoReply)
    else if value == "no_reply_timeout" then Some(NoReplyTimeout)
    else if value == "terminal_closure" then Some(TerminalClosure)
    else None
  }

  function ParseU16(value: string): Option<u16> {
    match ParseUnsigned(value, 0x1_0000) case None => None case Some(n) => Some(n)
  }

  function ParseU32(value: string): Option<u32> {
    match ParseUnsigned(value, 0x1_0000_0000) case None => None case Some(n) => Some(n)
  }

  function ParseU64(value: string): Option<u64> {
    match ParseUnsigned(value, 0x1_0000_0000_0000_0000) case None => None case Some(n) => Some(n)
  }

  // ---- applying one setting ----

  datatype SettingError = InvalidValue | UnrecognizedProfileSetting | UnrecognizedKey

  /** The configuration afterwards, whether a legacy key was accepted, and the rejection if there was one. */
  datatype Applied = Applied(config: Config, migrated: bool, error: Option<SettingError>)

  /** Accept the new configuration when the value parsed; otherwise leave the old one and reject. */
  function Store(config: Config, next: Option<Config>): Applied {
    match next
    case None => Applied(config, false, Some(InvalidValue))
    case Some(c) => Applied(c, false, None)
  }

  function Resize(profiles: seq<Profile>, count: nat): (resized: seq<Profile>)
    requires profiles != []
    ensures |resized| == count
    ensures forall i :: 0 <= i < count ==> resized[i] == if i < |profiles| then profiles[i] else profiles[0]
  {
    seq(count, i requires 0 <= i < count => if i < |profiles| then profiles[i] else profiles[0])
  }

  function WithProfile(config: Config, index: nat, profile: Profile): Config
    requires index < |config.profiles|
  {
    config.(profiles := config.profiles[index := profile])
  }

  /** Same profiles up to destinations and ports. */
  predicate SameNames(ps: seq<Profile>, qs: seq<Profile>) {
    |ps| == |qs| && forall i :: 0 <= i < |ps| ==> ps[i].name == qs[i].name
  }

  /** The profile with one field replaced, if the value parses. Zero parses as a port. */
  function ProfileUpdate(profile: Profile, field: ProfileField, value: string): (next: Option<Profile>)
    ensures next.Some? && field != Name ==> next.value.name == profile.name
  {
    match field
    case Name => if |value| > MAXIMUM_PROFILE_NAME_LENGTH then None else Some(profile.(name := value))
    case TunnelIpv4 => if IsDottedQuad(value) then Some(profile.(tunnelIpv4 := value)) else None
    case BsdIpv4 => if IsDottedQuad(value) then Some(profile.(bsdIpv4 := value)) else None
    case UdpPort => ParseU16(value).Map(port => profile.(udpPort := port))
    case TcpPort => ParseU16(value).Map(port => profile.(tcpPort := port))
  }

  /** A port is stored as soon as it parses; zero is rejected afterwards. */
  function ApplyProfileField(config: Config, index: nat, field: ProfileField, value: string): (applied: Applied)
    requires index < |config.profiles|
    ensures |applied.config.profiles| == |config.profiles|
  {
    match ProfileUpdate(config.profiles[index], field, value)
    case None => Store(config, None)
    case Some(profile) =>
      var zeroPort := (field == UdpPort && profile.udpPort == 0) || (field == TcpPort && profile.tcpPort == 0);
      Applied(WithProfile(config, index, profile), false, if zeroPort then Some(InvalidValue) else None)
  }

  predicate IsScalar(setting: Setting) {
    !setting.ProfilesCount? && !setting.ProfileSetting?
  }

  /** The configuration with one setting outside the profile list replaced, if the value parses. */
  function ScalarUpdate(config: Config, setting: Setting, value: string): (next: Option<Config>)
    requires IsScalar(setting)
    ensures next.Some? ==> next.value.profiles == config.profiles
  {
    match setting
    case RunScenario => ParseScenario(value).Map(s => config.(scenario := s))
    case RunNextWorkloadId => ParseU32(value).Map(n => config.(nextWorkloadId := n))
    case RunActiveProfile => ParseU64(value).Map(n => config.(activeProfile := n))
    case UdpPayloadBytes => ParseU64(value).Map(n => config.(payloadBytes := n))
    case UdpDatagramCount => ParseU32(value).Map(n => config.(datagramCount := n))
    case UdpPacingMs => ParseU32(value).Map(n => config.(pacingMs := n))
    case UdpConcurrentFlows => ParseU32(value).Map(n => config.(concurrentFlows := n))
    case UdpReceiveDeadlineMs => ParseU32(value).Map(n => config.(udpDeadlineMs := n))
    case UdpPayloadSeed => ParseU32(value).Map(n => config.(payloadSeed := n))
    case UdpEchoReplies => ParseBool(value).Map(b => config.(echoReplies := b))
    case TcpReceiveDeadlineMs => ParseU32(value).Map(n => config.(tcpDeadlineMs := n))
    case VerifyClonedSessionLifetime => ParseBool(value).Map(b => config.(verifyClone := b))
    case VerifyMixedBatch => ParseBool(value).Map(b => config.(verifyMixedBatch := b))
    case VerifyPostRouteRejection => ParseBool(value).Map(b => config.(verifyPostRoute := b))
    case BsdExpectedOutcome => ParseOutcome(value).Map(o => config.(expectedOutcome := o))
    case RequireWritableRecovery => ParseBool(value).Map(b => config.(requireRecovery := b))
  }

  function ApplyCurrent(config: Config, setting: Setting, value: string): (applied: Applied)
    requires config.profiles != []
    ensures applied.config.profiles != []
  {
    match setting
    case ProfilesCount =>
      (match ParseU64(value)
       case None => Store(config, None)
       case Some(count) =>
         if count == 0 || count > MAXIMUM_PROFILES then Store(config, None)
         else Store(config, Some(config.(profiles := Resize(config.profiles, count)))))
    case ProfileSetting(index, field) =>
      if index >= |config.profiles| then Store(config, None) else ApplyProfileField(config, index, field, value)
    case _ => Store(config, ScalarUpdate(config, setting, value))
  }

  /** A legacy switch: "true" selects its scenario, "false" is accepted without effect. */
  function LegacyEnable(config: Config, value: string, scenario: Scenario): (next: Option<Config>)
    ensures next.Some? ==> next.value.profiles == config.profiles
  {
    ParseBool(value).Map(enabled => if enabled then config.(scenario := scenario) else config)
  }

  predicate IsEndpoint(setting: LegacySetting) {
    setting.LegacyDestinationIpv4? || setting.LegacyDestinationPort?
  }

  /** The address of a legacy file serves both networks, its port is the UDP port. */
  function LegacyEndpoint(profile: Profile, setting: LegacySetting, value: string): (next: Option<Profile>)
    requires IsEndpoint(setting)
    ensures next.Some? ==> next.value.name == profile.name
  {
    if setting.LegacyDestinationPort? then ParseU16(value).Map(port => profile.(udpPort := port))
    else if IsDottedQuad(value) then Some(profile.(tunnelIpv4 := value, bsdIpv4 := value))
    else None
  }

  function LegacyScalar(config: Config, setting: LegacySetting, value: string): (next: Option<Config>)
    requires !IsEndpoint(setting)
    ensures next.Some? ==> next.value.profiles == config.profiles
  {
    match setting
    case TunnelUdpEnabled => LegacyEnable(config, value, DirectTunnelUdp)
    case BsdSystemUdpEnabled => LegacyEnable(config, value, BsdSystemUdp)
    case TunnelContractEnabled => LegacyEnable(config, value, TunnelContractValidation)
    case LegacyWorkloadId => ParseU32(value).Map(n => config.(nextWorkloadId := n))
    case LegacyPayloadBytes => ParseU64(value).Map(n => config.(payloadBytes := n))
    case LegacyDatagramCount => ParseU32(value).Map(n => config.(datagramCount := n))
    case LegacyPacingMs => ParseU32(value).Map(n => config.(pacingMs := n))
    case LegacyConcurrentFlows => ParseU32(value).Map(n => config.(concurrentFlows := n))
    case LegacyReceiveDeadlineMs => ParseU32(value).Map(n => config.(udpDeadlineMs := n))
    case LegacyPayloadSeed => ParseU32(value).Map(n => config.(payloadSeed := n))
    case LegacyEchoReplies => ParseBool(value).Map(b => config.(echoReplies := b))
  }

  function LegacyUpdate(config: Config, index: nat, setting: LegacySetting, value: string): (next: Option<Config>)
    requires index < |config.profiles|
    ensures next.Some? ==> SameNames(next.value.profiles, config.profiles)
  {
    if !IsEndpoint(setting) then LegacyScalar(config, setting, value) else
      match LegacyEndpoint(config.profiles[index], setting, value)
      case None => None
      case Some(profile) => Some(WithProfile(config, index, profile))
  }

  /** Legacy keys act on the active profile and are all refused when there is none. A zero port is stored, then refused. */
  function ApplyLegacy(config: Config, setting: LegacySetting, value: string): (applied: Applied)
    requires config.profiles != []
    ensures SameNames(applied.config.profiles, config.profiles)
  {
    if config.activeProfile >= |config.profiles| then Applied(config, false, Some(UnrecognizedKey))
    else
      match LegacyUpdate(config, config.activeProfile, setting, value)
      case None => Applied(config, false, Some(UnrecognizedKey))
      case Some(c) =>
        if setting.LegacyDestinationPort? && c.profiles[config.activeProfile].udpPort == 0
        then Applied(c, false, Some(UnrecognizedKey))
        else Applied(c, true, None)
  }

  function ApplyRecognized(config: Config, recognized: Recognized, value: string): (applied: Applied)
    requires config.profiles != []
    ensures applied.config.profiles != []
  {
    match recognized
    case Current(setting) => ApplyCurrent(config, setting, value)
    case UnknownProfileField(index) =>
      Applied(config, false, Some(if index >= |config.profiles| then InvalidValue else UnrecognizedProfileSetting))
    case Legacy(legacy) => ApplyLegacy(config, legacy, value)
    case Unknown => Applied(config, false, Some(UnrecognizedKey))
  }

  const COMPILED_NAME: string := "Default"
  const COMPILED_DESTINATION: string := "10.1.0.2"

  function CompiledDefaultsAt(name: string, address: string): Config {
    Config(
      DirectTunnelUdp, 1, 0, [Profile(name, address, address, 29000, 28080)],
      48, 1, 0, 1, 5000, 0x4E585256, true, 5000, true, true, false, EchoReply, false)
  }

  /** The configuration compiled into the program. */
  function CompiledRuntimeDefaults(): Config {
    CompiledDefaultsAt(COMPILED_NAME, COMPILED_DESTINATION)
  }
}
