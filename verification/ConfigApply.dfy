/**
 * Settings as the program applies them: one comparison of the key after the other, the configuration changed by the
 * first that matches.
 */
module ConfigApply {
  import opened Bytes
  import opened Ipv4Text
  import opened RuntimeConfig
  import opened Text
  import opened Wrappers

  function Changed(config: Config): Applied {
    Applied(config, false, None)
  }

  function Invalid(config: Config): Applied {
    Applied(config, false, Some(InvalidValue))
  }

  method ApplyLegacyReply(config: Config, key: string, value: string) returns (ok: bool, next: Config)
    requires config.profiles != [] && config.activeProfile < |config.profiles|
    ensures
      var applied := ApplyRecognized(config, RecognizeLegacyReply(key), value);
      next == applied.config && applied.migrated == ok && applied.error == if ok then None else Some(UnrecognizedKey)
  {
    ok, next := false, config;
    if key == "tunnel_udp.concurrent_flows" {
      var n := ParseU32(value);
      return n.Some?, if n.Some? then config.(concurrentFlows := n.value) else config;
    }
    if key == "tunnel_udp.receive_deadline_ms" {
      var n := ParseU32(value);
      return n.Some?, if n.Some? then config.(udpDeadlineMs := n.value) else config;
    }
    if key == "tunnel_udp.payload_seed" {
      var n := ParseU32(value);
      return n.Some?, if n.Some? then config.(payloadSeed := n.value) else config;
    }
    if key == "tunnel_udp.echo_replies" {
      var b := ParseBool(value);
      return b.Some?, if b.Some? then config.(echoReplies := b.value) else config;
    }
  }

  method ApplyLegacyShape(config: Config, key: string, value: string) returns (ok: bool, next: Config)
    requires config.profiles != [] && config.activeProfile < |config.profiles|
    ensures
      var applied := ApplyRecognized(config, RecognizeLegacyShape(key), value);
      next == applied.config && applied.migrated == ok && applied.error == if ok then None else Some(UnrecognizedKey)
  {
    ok, next := false, config;
    if key == "tunnel_udp.workload_id" {
      var n := ParseU32(value);
      return n.Some?, if n.Some? then config.(nextWorkloadId := n.value) else config;
    }
    if key == "tunnel_udp.payload_bytes" {
      var n := ParseU64(value);
      return n.Some?, if n.Some? then config.(payloadBytes := n.value) else config;
    }
    if key == "tunnel_udp.datagram_count" {
      var n := ParseU32(value);
      return n.Some?, if n.Some? then config.(datagramCount := n.value) else config;
    }
    if key == "tunnel_udp.pacing_ms" {
      var n := ParseU32(value);
      return n.Some?, if n.Some? then config.(pacingMs := n.value) else config;
    }
    ok, next := ApplyLegacyReply(config, key, value);
  }

  method ApplyLegacyEndpoint(config: Config, key: string, value: string) returns (ok: bool, next: Config)
    requires config.profiles != [] && config.activeProfile < |config.profiles|
    ensures
      var applied := ApplyRecognized(config, RecognizeLegacyEndpoint(key), value);
      next == applied.config && applied.migrated == ok && applied.error == if ok then None else Some(UnrecognizedKey)
  {
    ok, next := false, config;
    var profile := config.profiles[config.activeProfile];
    if key == "tunnel_udp.destination_ipv4" {
      var isAddress := IsValidIpv4(value);
      if isAddress {
        profile := profile.(tunnelIpv4 := value, bsdIpv4 := value);
        return true, config.(profiles := config.profiles[config.activeProfile := profile]);
      }
      return;
    }
    if key == "tunnel_udp.destination_port" {
      var port := ParseU16(value);
      if port.Some? {
        profile := profile.(udpPort := port.value);
        return port.value != 0, config.(profiles := config.profiles[config.activeProfile := profile]);
      }
      return;
    }
    ok, next := ApplyLegacyShape(config, key, value);
  }

  /** The last branch: keys of earlier versions, which act on the active profile. */
  method ApplyLegacySetting(config: Config, key: string, value: string) returns (ok: bool, next: Config)
    requires config.profiles != []
    ensures
      var applied := ApplyRecognized(config, RecognizeLegacy(key), value);
      next == applied.config && applied.migrated == ok && applied.error == if ok then None else Some(UnrecognizedKey)
  {
    ok, next := false, config;
    if config.activeProfile >= |config.profiles| {
      return;
    }
    if key == "tunnel_udp.enabled" {
      var enabled := ParseBool(value);
      return enabled.Some?, if enabled == Some(true) then config.(scenario := DirectTunnelUdp) else config;
    }
    if key == "bsd_system_udp.enabled" {
      var enabled := ParseBool(value);
      return enabled.Some?, if enabled == Some(true) then config.(scenario := BsdSystemUdp) else config;
    }
    if key == "tunnel_contract.enabled" {
      var enabled := ParseBool(value);
      return enabled.Some?, if enabled == Some(true) then config.(scenario := TunnelContractValidation) else config;
    }
    ok, next := ApplyLegacyEndpoint(config, key, value);
  }

  /** One field of one profile. A port is stored as soon as it parses, and zero refused afterwards. */
  method ApplyProfileSetting(config: Config, index: nat, field: string, value: string) returns (applied: Applied)
    requires config.profiles != []
    ensures applied == ApplyRecognized(config,
      match ParseProfileField(field)
      case Some(f) => Current(ProfileSetting(index, f))
      case None => UnknownProfileField(index), value)
  {
    if index >= |config.profiles| {
      return Invalid(config);
    }
    var profile := config.profiles[index];
    if field == "name" {
      if |value| > MAXIMUM_PROFILE_NAME_LENGTH {
        return Invalid(config);
      }
      return Changed(config.(profiles := config.profiles[index := profile.(name := value)]));
    }
    if field == "tunnel_destination_ipv4" {
      var isAddress := IsValidIpv4(value);
      if !isAddress {
        return Invalid(config);
      }
      return Changed(config.(profiles := config.profiles[index := profile.(tunnelIpv4 := value)]));
    }
    if field == "bsd_destination_ipv4" {
      var isAddress := IsValidIpv4(value);
      if !isAddress {
        return Invalid(config);
      }
      return Changed(config.(profiles := config.profiles[index := profile.(bsdIpv4 := value)]));
    }
    if field == "udp_destination_port" {
      var port := ParseU16(value);
      if port == None {
        return Invalid(config);
      }
      var next := config.(profiles := config.profiles[index := profile.(udpPort := port.value)]);
      return if port.value != 0 then Changed(next) else Invalid(next);
    }
    if field == "tcp_destination_port" {
      var port := ParseU16(value);
      if port == None {
        return Invalid(config);
      }
      var next := config.(profiles := config.profiles[index := profile.(tcpPort := port.value)]);
      return if port.value != 0 then Changed(next) else Invalid(next);
    }
    return Applied(config, false, Some(UnrecognizedProfileSetting));
  }

  method ApplyBsdCheck(config: Config, key: string, value: string) returns (applied: Applied)
    requires config.profiles != []
    ensures applied == ApplyRecognized(config, RecognizeBsdCheck(key), value)
  {
    if key == BSD_SECTION + "verify_post_" + "route_rejection" {
      var b := ParseBool(value);
      return if b.Some? then Changed(config.(verifyPostRoute := b.value)) else Invalid(config);
    }
    if key == BSD_SECTION + "expected_outcome" {
      var outcome := ParseOutcome(value);
      return if outcome.Some? then Changed(config.(expectedOutcome := outcome.value)) else Invalid(config);
    }
    if key == BSD_SECTION + "require_writable" + "_recovery" {
      var b := ParseBool(value);
      return if b.Some? then Changed(config.(requireRecovery := b.value)) else Invalid(config);
    }
    var migrated, next := ApplyLegacySetting(config, key, value);
    return if migrated then Applied(next, true, None) else Applied(next, false, Some(UnrecognizedKey));
  }

  method ApplyCheckSetting(config: Config, key: string, value: string) returns (applied: Applied)
    requires config.profiles != []
    ensures applied == ApplyRecognized(config, RecognizeCheck(key), value)
  {
    if key == CONTRACT_SECTION + "verify_cloned_" + "session_lifetime" {
      var b := ParseBool(value);
      return if b.Some? then Changed(config.(verifyClone := b.value)) else Invalid(config);
    }
    if key == CONTRACT_SECTION + "verify_mixed_batch" {
      var b := ParseBool(value);
      return if b.Some? then Changed(config.(verifyMixedBatch := b.value)) else Invalid(config);
    }
    applied := ApplyBsdCheck(config, key, value);
  }

  method ApplyReplySetting(config: Config, key: string, value: string) returns (applied: Applied)
    requires config.profiles != []
    ensures applied == ApplyRecognized(config, RecognizeReply(key), value)
  {
    if key == "udp.concurrent_flows" {
      var n := ParseU32(value);
      return if n.Some? then Changed(config.(concurrentFlows := n.value)) else Invalid(config);
    }
    if key == "udp.receive_deadline_ms" {
      var n := ParseU32(value);
      return if n.Some? then Changed(config.(udpDeadlineMs := n.value)) else Invalid(config);
    }
    if key == "udp.payload_seed" {
      var n := ParseU32(value);
      return if n.Some? then Changed(config.(payloadSeed := n.value)) else Invalid(config);
    }
    if key == "udp.echo_replies" {
      var b := ParseBool(value);
      return if b.Some? then Changed(config.(echoReplies := b.value)) else Invalid(config);
    }
    if key == "tcp.receive_deadline_ms" {
      var n := ParseU32(value);
      return if n.Some? then Changed(config.(tcpDeadlineMs := n.value)) else Invalid(config);
    }
    applied := ApplyCheckSetting(config, key, value);
  }

  method ApplyBehaviourSetting(config: Config, key: string, value: string) returns (applied: Applied)
    requires config.profiles != []
    ensures applied == ApplyRecognized(config, RecognizeBehaviour(key), value)
  {
    if key == "udp.payload_bytes" {
      var n := ParseU64(value);
      return if n.Some? then Changed(config.(payloadBytes := n.value)) else Invalid(config);
    }
    if key == "udp.datagram_count" {
      var n := ParseU32(value);
      return if n.Some? then Changed(config.(datagramCount := n.value)) else Invalid(config);
    }
    if key == "udp.pacing_ms" {
      var n := ParseU32(value);
      return if n.Some? then Changed(config.(pacingMs := n.value)) else Invalid(config);
    }
    applied := ApplyReplySetting(config, key, value);
  }

  /** The number of profiles: new ones copy the first. */
  method ResizeProfiles(profiles: seq<Profile>, count: nat) returns (resized: seq<Profile>)
    requires profiles != []
    ensures resized == Resize(profiles, count)
  {
    resized := if count <= |profiles| then profiles[..count] else profiles;
    while |resized| < count
      invariant |resized| <= count
      invariant forall i :: 0 <= i < |resized| ==> resized[i] == if i < |profiles| then profiles[i] else profiles[0]
      invariant |resized| < count ==> |resized| >= |profiles|
    {
      resized := resized + [profiles[0]];
    }
  }

  method ApplySetting(config: Config, key: string, value: string) returns (applied: Applied)
    requires config.profiles != []
    ensures applied == ApplyRecognized(config, Recognize(key), value)
  {
    if key == "run.scenario" {
      var scenario := ParseScenario(value);
      return if scenario.Some? then Changed(config.(scenario := scenario.value)) else Invalid(config);
    }
    if key == "run.next_workload_id" {
      var n := ParseU32(value);
      return if n.Some? then Changed(config.(nextWorkloadId := n.value)) else Invalid(config);
    }
    if key == "run.active_profile" {
      var n := ParseU64(value);
      return if n.Some? then Changed(config.(activeProfile := n.value)) else Invalid(config);
    }
    if key == "profiles.count" {
      var count := ParseU64(value);
      if count == None || count.value == 0 || count.value > 8 {
        return Invalid(config);
      }
      var profiles := ResizeProfiles(config.profiles, count.value);
      return Changed(config.(profiles := profiles));
    }
    var parsed := ParseProfileKey(key);
    if parsed.Some? {
      applied := ApplyProfileSetting(config, parsed.value.0, parsed.value.1, value);
    } else {
      applied := ApplyBehaviourSetting(config, key, value);
    }
  }

  // Validation, in the order in which the program looks for a defect.

  method CheckProfile(profile: Profile) returns (error: Option<ConfigError>)
    ensures error == ProfileError(profile)
  {
    if profile.name == "" || |profile.name| > MAXIMUM_PROFILE_NAME_LENGTH {
      return Some(BadProfileName);
    }
    var tunnelIsAddress := IsValidIpv4(profile.tunnelIpv4);
    var bsdIsAddress := IsValidIpv4(profile.bsdIpv4);
    if !tunnelIsAddress || !bsdIsAddress {
      return Some(BadProfileDestination);
    }
    if profile.udpPort == 0 {
      return Some(ZeroUdpPort);
    }
    if profile.tcpPort == 0 {
      return Some(ZeroTcpPort);
    }
    return None;
  }

  lemma {:induction false} FirstProfileError(profiles: seq<Profile>, i: nat)
    requires i < |profiles| && ProfileError(profiles[i]).Some?
    requires forall k :: 0 <= k < i ==> ProfileError(profiles[k]).None?
    ensures ProfilesError(profiles) == ProfileError(profiles[i])
  {
    if i > 0 {
      FirstProfileError(profiles[1..], i - 1);
    }
  }

  method CheckProfiles(profiles: seq<Profile>) returns (error: Option<ConfigError>)
    ensures error == ProfilesError(profiles)
  {
    for i := 0 to |profiles|
      invariant forall k :: 0 <= k < i ==> ProfileError(profiles[k]).None?
    {
      error := CheckProfile(profiles[i]);
      if error.Some? {
        FirstProfileError(profiles, i);
        return;
      }
    }
    error := None;
  }

  method Validate(c: Config) returns (error: Option<ConfigError>)
    ensures error == ValidateRuntimeConfig(c)
    ensures error == None <==> Runs(c)
  {
    ValidMeansRuns(c);
    if c.profiles == [] || |c.profiles| > MAXIMUM_PROFILES || c.activeProfile >= |c.profiles| {
      return Some(NoActiveProfile);
    }
    error := CheckProfiles(c.profiles);
    if error.Some? {
      return;
    }
    if c.payloadBytes < MINIMUM_PAYLOAD_BYTES || c.payloadBytes > MAXIMUM_UDP_PAYLOAD_STORAGE_BYTES {
      return Some(PayloadOutOfRange);
    }
    if c.datagramCount == 0 || c.datagramCount > MAXIMUM_DATAGRAM_COUNT {
      return Some(CountOutOfRange);
    }
    if c.pacingMs > MAXIMUM_DURATION_MS || c.udpDeadlineMs == 0 || c.udpDeadlineMs > MAXIMUM_DURATION_MS {
      return Some(UdpTimeoutOutOfRange);
    }
    if c.concurrentFlows == 0 || c.concurrentFlows > MAXIMUM_FLOWS_PER_CLIENT {
      return Some(FlowsOutOfRange);
    }
    if c.tcpDeadlineMs == 0 || c.tcpDeadlineMs > MAXIMUM_DURATION_MS {
      return Some(TcpTimeoutOutOfRange);
    }
    if c.scenario == BsdSystemUdp {
      var single := c.datagramCount == 1 && c.concurrentFlows == 1;
      if c.expectedOutcome == NoReplyTimeout && (c.echoReplies || !single) {
        return Some(NoReplyNeedsSingleSilentDatagram);
      }
      if c.expectedOutcome == TerminalClosure && (c.requireRecovery || !c.echoReplies || !single) {
        return Some(TerminalNeedsSingleEchoedDatagram);
      }
    }
    if c.scenario == TunnelContractValidation && !c.verifyClone && !c.verifyMixedBatch {
      return Some(NoContractCheck);
    }
  }

  /** A profile that a scenario can use. */
  predicate Usable(profile: Profile) {
    && 1 <= |profile.name| <= 32 && IsDottedQuad(profile.tunnelIpv4) && IsDottedQuad(profile.bsdIpv4)
    && profile.udpPort != 0 && profile.tcpPort != 0
  }

  /** Numbers in range. */
  predicate InRange(c: Config) {
    && 24 <= c.payloadBytes <= MAXIMUM_UDP_PAYLOAD_STORAGE_BYTES && 1 <= c.datagramCount <= 4096
    && c.pacingMs <= 60000 && 1 <= c.udpDeadlineMs <= 60000 && 1 <= c.tcpDeadlineMs <= 60000
    && 1 <= c.concurrentFlows <= MAXIMUM_FLOWS_PER_CLIENT
  }

  /** What the chosen scenario asks of the workload and its checks. */
  predicate SuitsScenario(c: Config) {
    match c.scenario
    case BsdSystemUdp =>
      (match c.expectedOutcome
       case EchoReply => true
       case NoReplyTimeout => !c.echoReplies && c.datagramCount == 1 && c.concurrentFlows == 1
       case TerminalClosure => c.echoReplies && c.datagramCount == 1 && c.concurrentFlows == 1 && !c.requireRecovery)
    case TunnelContractValidation => c.verifyClone || c.verifyMixedBatch
    case _ => true
  }

  /** A configuration that can be run: one to eight usable profiles, one of them active, and a suitable workload. */
  predicate Runs(c: Config) {
    && 1 <= |c.profiles| <= 8 && c.activeProfile < |c.profiles|
    && (forall i :: 0 <= i < |c.profiles| ==> Usable(c.profiles[i]))
    && InRange(c) && SuitsScenario(c)
  }

  /** The validator accepts exactly the configurations that can be run. */
  lemma ValidMeansRuns(c: Config)
    ensures Valid(c) <==> Runs(c)
  {
    forall i | 0 <= i < |c.profiles| ensures ProfileError(c.profiles[i]).None? <==> Usable(c.profiles[i]) {
    }
  }
}
