/**
 * Files of earlier versions: every key they used says the same as lines that the current version would write, so a
 * whole file can be brought up to date line by line without changing what it configures.
 */
module ConfigLegacy {
  import opened Bytes
  import opened ConfigFile
  import opened Ipv4Text
  import opened Lines
  import opened RuntimeConfig
  import opened Text
  import opened Wrappers

  // What an old key says in terms of the current ones.

  datatype Entry = Entry(key: string, value: string)

  /** The keys of earlier versions as they stand in a file. */
  function LegacyKey(legacy: LegacySetting): string {
    match legacy
    case TunnelUdpEnabled => "tunnel_udp.enabled"
    case BsdSystemUdpEnabled => "bsd_system_udp.enabled"
    case TunnelContractEnabled => "tunnel_contract.enabled"
    case LegacyDestinationIpv4 => "tunnel_udp.destination_ipv4"
    case LegacyDestinationPort => "tunnel_udp.destination_port"
    case LegacyWorkloadId => "tunnel_udp.workload_id"
    case LegacyPayloadBytes => "tunnel_udp.payload_bytes"
    case LegacyDatagramCount => "tunnel_udp.datagram_count"
    case LegacyPacingMs => "tunnel_udp.pacing_ms"
    case LegacyConcurrentFlows => "tunnel_udp.concurrent_flows"
    case LegacyReceiveDeadlineMs => "tunnel_udp.receive_deadline_ms"
    case LegacyPayloadSeed => "tunnel_udp.payload_seed"
    case LegacyEchoReplies => "tunnel_udp.echo_replies"
  }

  lemma LegacyBranch(key: string)
    requires Recognize(key).Legacy?
    ensures RecognizeBehaviour(key) == Recognize(key)
  {
  }

  lemma BehaviourBranch(key: string)
    requires RecognizeBehaviour(key).Legacy?
    ensures RecognizeCheck(key) == RecognizeBehaviour(key)
  {
  }

  lemma CheckBranch(key: string)
    requires RecognizeCheck(key).Legacy?
    ensures RecognizeLegacy(key) == RecognizeCheck(key)
  {
  }

  lemma SwitchBranches(key: string, legacy: LegacySetting)
    requires RecognizeLegacy(key) == Legacy(legacy)
    requires IsSwitch(legacy)
    ensures key == LegacyKey(legacy)
  {
  }

  lemma EndpointBranches(key: string, legacy: LegacySetting)
    requires RecognizeLegacy(key) == Legacy(legacy)
    requires IsEndpoint(legacy) || legacy.LegacyWorkloadId?
    ensures key == LegacyKey(legacy)
  {
  }

  lemma ShapeBranches(key: string, legacy: LegacySetting)
    requires RecognizeLegacy(key) == Legacy(legacy)
    requires legacy.LegacyPayloadBytes? || legacy.LegacyDatagramCount? || legacy.LegacyPacingMs?
    ensures key == LegacyKey(legacy)
  {
  }

  lemma FlowBranches(key: string, legacy: LegacySetting)
    requires RecognizeLegacy(key) == Legacy(legacy)
    requires legacy.LegacyConcurrentFlows? || legacy.LegacyReceiveDeadlineMs?
    ensures key == LegacyKey(legacy)
  {
  }

  lemma ReplyBranches(key: string, legacy: LegacySetting)
    requires RecognizeLegacy(key) == Legacy(legacy)
    requires legacy.LegacyPayloadSeed? || legacy.LegacyEchoReplies?
    ensures key == LegacyKey(legacy)
  {
  }

  /** An old setting is recognized by its own key only. */
  lemma LegacyKeyOf(key: string, legacy: LegacySetting)
    requires Recognize(key) == Legacy(legacy)
    ensures key == LegacyKey(legacy)
  {
    LegacyBranch(key);
    BehaviourBranch(key);
    CheckBranch(key);
    if IsSwitch(legacy) {
      SwitchBranches(key, legacy);
    } else if IsEndpoint(legacy) || legacy.LegacyWorkloadId? {
      EndpointBranches(key, legacy);
    } else if legacy.LegacyPayloadBytes? || legacy.LegacyDatagramCount? || legacy.LegacyPacingMs? {
      ShapeBranches(key, legacy);
    } else if legacy.LegacyConcurrentFlows? || legacy.LegacyReceiveDeadlineMs? {
      FlowBranches(key, legacy);
    } else {
      ReplyBranches(key, legacy);
    }
  }

  /** A key of one profile, as the current version writes it. */
  function ProfileKey(index: nat, field: string): string {
    "profile." + Decimal(index) + "." + field
  }

  /** A switch that is on selects its scenario; one that is off says nothing; any other value stays what it was. */
  function Switched(legacy: LegacySetting, value: string, scenario: string): seq<Entry> {
    if value == "true" || value == "1" then [Entry("run.scenario", scenario)]
    else if value == "false" || value == "0" then []
    else [Entry(LegacyKey(legacy), value)]
  }

  /** What the current version writes in place of an old line, given which profile is active when the line is read. */
  function CurrentForm(active: nat, legacy: LegacySetting, value: string): (entries: seq<Entry>)
    ensures |entries| <= 2
  {
    match legacy
    case TunnelUdpEnabled => Switched(legacy, value, "direct_tunnel_udp")
    case BsdSystemUdpEnabled => Switched(legacy, value, "bsd_system_udp")
    case TunnelContractEnabled => Switched(legacy, value, "tunnel_contract_validation")
    case LegacyDestinationIpv4 =>
      [Entry(ProfileKey(active, "tunnel_destination_ipv4"), value), Entry(ProfileKey(active, "bsd_destination_ipv4"), value)]
    case LegacyDestinationPort => [Entry(ProfileKey(active, "udp_destination_port"), value)]
    case LegacyWorkloadId => [Entry("run.next_workload_id", value)]
    case LegacyPayloadBytes => [Entry("udp.payload_bytes", value)]
    case LegacyDatagramCount => [Entry("udp.datagram_count", value)]
    case LegacyPacingMs => [Entry("udp.pacing_ms", value)]
    case LegacyConcurrentFlows => [Entry("udp.concurrent_flows", value)]
    case LegacyReceiveDeadlineMs => [Entry("udp.receive_deadline_ms", value)]
    case LegacyPayloadSeed => [Entry("udp.payload_seed", value)]
    case LegacyEchoReplies => [Entry("udp.echo_replies", value)]
  }

  /** The effect of one entry: what the file's reader does with its key and value. */
  function Assigned(c: Config, entry: Entry): (applied: Applied)
    requires c.profiles != []
    ensures applied.config.profiles != []
  {
    ApplyRecognized(c, Recognize(entry.key), entry.value)
  }

  predicate Accepts(applied: Applied) {
    applied.error.None?
  }

  /** The entries together: the configuration after all of them, and whether each one was accepted without migration. */
  predicate Amounts(c: Config, entries: seq<Entry>, config: Config, accepted: bool)
    requires c.profiles != [] && |entries| <= 2
  {
    if entries == [] then config == c && accepted
    else
      var first := Assigned(c, entries[0]);
      if |entries| == 1 then !first.migrated && config == first.config && accepted == Accepts(first)
      else
        var second := Assigned(first.config, entries[1]);
        && !first.migrated && !second.migrated && config == second.config
        && accepted == Accepts(first) && accepted == Accepts(second)
  }

  predicate HasActive(c: Config) {
    c.activeProfile < |c.profiles|
  }

  /** A number or a flag under its current key, against the same value under its old one. */
  predicate Renames(legacy: LegacySetting, setting: Setting) {
    match setting
    case RunNextWorkloadId => legacy == LegacyWorkloadId
    case UdpPayloadBytes => legacy == LegacyPayloadBytes
    case UdpDatagramCount => legacy == LegacyDatagramCount
    case UdpPacingMs => legacy == LegacyPacingMs
    case UdpConcurrentFlows => legacy == LegacyConcurrentFlows
    case UdpReceiveDeadlineMs => legacy == LegacyReceiveDeadlineMs
    case UdpPayloadSeed => legacy == LegacyPayloadSeed
    case UdpEchoReplies => legacy == LegacyEchoReplies
    case _ => false
  }

  lemma RenamedUpdates(c: Config, legacy: LegacySetting, setting: Setting, value: string)
    requires Renames(legacy, setting)
    ensures LegacyScalar(c, legacy, value) == ScalarUpdate(c, setting, value)
  {
  }

  lemma RenamedAppliesAlike(c: Config, legacy: LegacySetting, setting: Setting, value: string)
    requires c.profiles != [] && HasActive(c) && Renames(legacy, setting)
    ensures ApplyLegacy(c, legacy, value).config == ApplyCurrent(c, setting, value).config
    ensures Accepts(ApplyLegacy(c, legacy, value)) <==> Accepts(ApplyCurrent(c, setting, value))
    ensures !ApplyCurrent(c, setting, value).migrated
  {
    RenamedUpdates(c, legacy, setting, value);
    assert ApplyCurrent(c, setting, value) == RuntimeConfig.Store(c, ScalarUpdate(c, setting, value));
    assert LegacyUpdate(c, c.activeProfile, legacy, value) == LegacyScalar(c, legacy, value);
  }

  function SettingOf(legacy: LegacySetting): Setting {
    match legacy
    case LegacyWorkloadId => RunNextWorkloadId
    case LegacyPayloadBytes => UdpPayloadBytes
    case LegacyDatagramCount => UdpDatagramCount
    case LegacyPacingMs => UdpPacingMs
    case LegacyConcurrentFlows => UdpConcurrentFlows
    case LegacyReceiveDeadlineMs => UdpReceiveDeadlineMs
    case LegacyPayloadSeed => UdpPayloadSeed
    case _ => UdpEchoReplies
  }

  predicate IsRenamed(legacy: LegacySetting) {
    !IsEndpoint(legacy) && !legacy.TunnelUdpEnabled? && !legacy.BsdSystemUdpEnabled? && !legacy.TunnelContractEnabled?
  }

  lemma RenamedForm(active: nat, legacy: LegacySetting, value: string)
    requires IsRenamed(legacy)
    ensures Renames(legacy, SettingOf(legacy))
    ensures CurrentForm(active, legacy, value) == [Entry(KeyText(SettingOf(legacy)), value)]
  {
  }

  lemma RenamedKeyIsRecognized(legacy: LegacySetting)
    requires IsRenamed(legacy)
    ensures Recognize(KeyText(SettingOf(legacy))) == Current(SettingOf(legacy))
  {
    if legacy.LegacyWorkloadId? {
      HeadKeyIsRecognized(RunNextWorkloadId);
    } else {
      UdpKeyIsRecognized(SettingOf(legacy));
    }
  }

  lemma RenamedActsAlike(c: Config, legacy: LegacySetting, value: string)
    requires c.profiles != [] && HasActive(c) && IsRenamed(legacy)
    ensures Amounts(c, CurrentForm(c.activeProfile, legacy, value), ApplyLegacy(c, legacy, value).config,
      Accepts(ApplyLegacy(c, legacy, value)))
  {
    RenamedForm(c.activeProfile, legacy, value);
    RenamedKeyIsRecognized(legacy);
    RenamedAppliesAlike(c, legacy, SettingOf(legacy), value);
  }

  // Switches.

  function SwitchScenario(legacy: LegacySetting): Scenario {
    match legacy
    case BsdSystemUdpEnabled => BsdSystemUdp
    case TunnelContractEnabled => TunnelContractValidation
    case _ => DirectTunnelUdp
  }

  predicate IsSwitch(legacy: LegacySetting) {
    legacy.TunnelUdpEnabled? || legacy.BsdSystemUdpEnabled? || legacy.TunnelContractEnabled?
  }

  lemma SwitchForm(active: nat, legacy: LegacySetting, value: string)
    requires IsSwitch(legacy)
    ensures CurrentForm(active, legacy, value) == Switched(legacy, value, ScenarioText(SwitchScenario(legacy)))
  {
  }

  /** Keys that start like the old section's reach the last branch. */
  predicate StartsOld(key: string) {
    |key| > 8 && key[0] == 't' && key[1] == 'u' && key[7] == 'u'
  }

  lemma OldKeyIsNoBehaviour(key: string)
    requires StartsOld(key)
    ensures RecognizeBehaviour(key) == RecognizeCheck(key)
  {
    assert "tcp.receive_deadline_ms"[1] == 'c';
  }

  lemma OldKeyIsNoCheck(key: string)
    requires StartsOld(key)
    ensures RecognizeCheck(key) == RecognizeLegacy(key)
  {
    assert CONTRACT_SECTION[7] == 'c' && BSD_SECTION[0] == 'b';
  }

  lemma EndpointKeyIsOld(key: string, legacy: LegacySetting)
    requires key == LegacyKey(legacy)
    requires IsEndpoint(legacy) || legacy.LegacyWorkloadId?
    ensures StartsOld(key) && RecognizeLegacy(key) == Legacy(legacy)
  {
  }

  lemma ShapeKeyIsOld(key: string, legacy: LegacySetting)
    requires key == LegacyKey(legacy)
    requires legacy.LegacyPayloadBytes? || legacy.LegacyDatagramCount? || legacy.LegacyPacingMs?
    ensures StartsOld(key) && RecognizeLegacy(key) == Legacy(legacy)
  {
  }

  lemma FlowKeyIsOld(key: string, legacy: LegacySetting)
    requires key == LegacyKey(legacy)
    requires legacy.LegacyConcurrentFlows? || legacy.LegacyReceiveDeadlineMs?
    ensures StartsOld(key) && RecognizeLegacy(key) == Legacy(legacy)
  {
  }

  lemma ReplyKeyIsOld(key: string, legacy: LegacySetting)
    requires key == LegacyKey(legacy)
    requires legacy.LegacyPayloadSeed? || legacy.LegacyEchoReplies?
    ensures StartsOld(key) && RecognizeLegacy(key) == Legacy(legacy)
  {
  }

  lemma SwitchBranch(key: string, legacy: LegacySetting)
    requires IsSwitch(legacy) && key == LegacyKey(legacy)
    ensures RecognizeBehaviour(key) == Legacy(legacy)
  {
  }

  lemma LegacyKeyStart(key: string, legacy: LegacySetting)
    requires key == LegacyKey(legacy)
    ensures key != "" && key[0] != 'p' && key[0] != 'r'
  {
  }

  /** Every key of earlier versions is understood, as the setting it was; and a setting by its own key only. */
  lemma LegacyKeyIff(key: string, legacy: LegacySetting)
    ensures Recognize(key) == Legacy(legacy) <==> key == LegacyKey(legacy)
  {
    if key == LegacyKey(legacy) {
      LegacyKeyStart(key, legacy);
      BehaviourKey(key);
      if IsSwitch(legacy) {
        SwitchBranch(key, legacy);
      } else if IsEndpoint(legacy) || legacy.LegacyWorkloadId? {
        EndpointKeyIsOld(key, legacy);
      } else if legacy.LegacyPayloadBytes? || legacy.LegacyDatagramCount? || legacy.LegacyPacingMs? {
        ShapeKeyIsOld(key, legacy);
      } else if legacy.LegacyConcurrentFlows? || legacy.LegacyReceiveDeadlineMs? {
        FlowKeyIsOld(key, legacy);
      } else {
        ReplyKeyIsOld(key, legacy);
      }
      if !IsSwitch(legacy) {
        OldKeyIsNoBehaviour(key);
        OldKeyIsNoCheck(key);
      }
    } else if Recognize(key) == Legacy(legacy) {
      LegacyKeyOf(key, legacy);
    }
  }

  lemma SwitchApplies(c: Config, legacy: LegacySetting, value: string)
    requires c.profiles != [] && HasActive(c) && IsSwitch(legacy)
    ensures
      var applied := ApplyLegacy(c, legacy, value);
      match ParseBool(value)
      case Some(true) => Accepts(applied) && applied.config == c.(scenario := SwitchScenario(legacy))
      case Some(false) => Accepts(applied) && applied.config == c
      case None => !Accepts(applied) && applied.config == c && !applied.migrated
  {
  }

  lemma SelectedScenario(c: Config, scenario: Scenario)
    requires c.profiles != []
    ensures
      var applied := Assigned(c, Entry("run.scenario", ScenarioText(scenario)));
      Accepts(applied) && !applied.migrated && applied.config == c.(scenario := scenario)
  {
    HeadKeyIsRecognized(RunScenario);
    ScenarioParses(scenario);
  }

  lemma SwitchActsAlike(c: Config, legacy: LegacySetting, value: string)
    requires c.profiles != [] && HasActive(c) && IsSwitch(legacy)
    ensures Amounts(c, CurrentForm(c.activeProfile, legacy, value), ApplyLegacy(c, legacy, value).config,
      Accepts(ApplyLegacy(c, legacy, value)))
  {
    SwitchForm(c.activeProfile, legacy, value);
    SwitchApplies(c, legacy, value);
    match ParseBool(value)
    case Some(on) =>
      if on {
        SelectedScenario(c, SwitchScenario(legacy));
      }
    case None => LegacyKeyIff(LegacyKey(legacy), legacy);
  }

  // The endpoint of the active profile.

  lemma ProfileKeyActs(c: Config, index: nat, field: ProfileField, value: string)
    requires index < |c.profiles| && index < 0x1_0000_0000_0000_0000
    ensures Assigned(c, Entry(ProfileKey(index, ProfileFieldText(field)), value)) == ApplyProfileField(c, index, field, value)
  {
    ProfileKeyIsRecognized(index, field);
    assert ProfileKey(index, ProfileFieldText(field)) == KeyText(ProfileSetting(index, field));
  }

  lemma OneEntry(c: Config, entry: Entry, entries: seq<Entry>, applied: Applied)
    requires c.profiles != [] && entries == [entry] && Assigned(c, entry) == applied && !applied.migrated
    ensures Amounts(c, entries, applied.config, Accepts(applied))
  {
  }

  lemma TwoEntries(c: Config, one: Entry, two: Entry, entries: seq<Entry>, first: Applied, second: Applied)
    requires c.profiles != [] && entries == [one, two] && Assigned(c, one) == first && !first.migrated
    requires Assigned(first.config, two) == second && !second.migrated && (Accepts(first) <==> Accepts(second))
    ensures Amounts(c, entries, second.config, Accepts(first))
  {
  }

  lemma PortApplies(c: Config, value: string)
    requires c.profiles != [] && HasActive(c)
    ensures
      var old_, now := ApplyLegacy(c, LegacyDestinationPort, value), ApplyProfileField(c, c.activeProfile, UdpPort, value);
      old_.config == now.config && (Accepts(old_) <==> Accepts(now)) && !now.migrated
  {
  }

  lemma PortActsAlike(c: Config, value: string, entries: seq<Entry>)
    requires c.profiles != [] && HasActive(c) && entries == CurrentForm(c.activeProfile, LegacyDestinationPort, value)
    ensures Amounts(c, entries, ApplyLegacy(c, LegacyDestinationPort, value).config,
      Accepts(ApplyLegacy(c, LegacyDestinationPort, value)))
  {
    var entry := Entry(ProfileKey(c.activeProfile, ProfileFieldText(UdpPort)), value);
    var applied := ApplyProfileField(c, c.activeProfile, UdpPort, value);
    PortApplies(c, value);
    ProfileKeyActs(c, c.activeProfile, UdpPort, value);
    OneEntry(c, entry, entries, applied);
  }

  /** The old address sets both networks' addresses; so do the two current ones. */
  lemma AddressApplies(c: Config, value: string, first: Applied, second: Applied)
    requires c.profiles != [] && HasActive(c) && first == ApplyProfileField(c, c.activeProfile, TunnelIpv4, value)
    requires second == ApplyProfileField(first.config, c.activeProfile, BsdIpv4, value)
    ensures ApplyLegacy(c, LegacyDestinationIpv4, value).config == second.config
    ensures Accepts(ApplyLegacy(c, LegacyDestinationIpv4, value)) <==> Accepts(first)
    ensures (Accepts(first) <==> Accepts(second)) && !first.migrated && !second.migrated
  {
    var i := c.activeProfile;
    if IsDottedQuad(value) {
      var both := c.profiles[i].(tunnelIpv4 := value, bsdIpv4 := value);
      assert c.profiles[i := first.config.profiles[i]][i := both] == c.profiles[i := both];
    }
  }

  lemma AddressActsAlike(c: Config, value: string, entries: seq<Entry>)
    requires c.profiles != [] && HasActive(c) && entries == CurrentForm(c.activeProfile, LegacyDestinationIpv4, value)
    ensures Amounts(c, entries, ApplyLegacy(c, LegacyDestinationIpv4, value).config,
      Accepts(ApplyLegacy(c, LegacyDestinationIpv4, value)))
  {
    var i := c.activeProfile;
    var one := Entry(ProfileKey(i, ProfileFieldText(TunnelIpv4)), value);
    var two := Entry(ProfileKey(i, ProfileFieldText(BsdIpv4)), value);
    var first := ApplyProfileField(c, i, TunnelIpv4, value);
    var second := ApplyProfileField(first.config, i, BsdIpv4, value);
    AddressApplies(c, value, first, second);
    ProfileKeyActs(c, i, TunnelIpv4, value);
    ProfileKeyActs(first.config, i, BsdIpv4, value);
    TwoEntries(c, one, two, entries, first, second);
  }

  /**
   * Every key of earlier versions, while some profile is active: its line does to the configuration what its current
   * form does, and is accepted exactly when that is.
   */
  lemma LegacyActsAsCurrent(c: Config, legacy: LegacySetting, value: string)
    requires c.profiles != [] && HasActive(c)
    ensures Amounts(c, CurrentForm(c.activeProfile, legacy, value), ApplyLegacy(c, legacy, value).config,
      Accepts(ApplyLegacy(c, legacy, value)))
  {
    if legacy.LegacyDestinationPort? {
      PortActsAlike(c, value, CurrentForm(c.activeProfile, legacy, value));
    } else if legacy.LegacyDestinationIpv4? {
      AddressActsAlike(c, value, CurrentForm(c.activeProfile, legacy, value));
    } else if IsSwitch(legacy) {
      SwitchActsAlike(c, legacy, value);
    } else {
      RenamedActsAlike(c, legacy, value);
    }
  }

  /** Without an active profile every such line is refused and changes nothing. */
  lemma LegacyNeedsActive(c: Config, legacy: LegacySetting, value: string)
    requires c.profiles != [] && !HasActive(c)
    ensures ApplyLegacy(c, legacy, value) == Applied(c, false, Some(UnrecognizedKey))
  {
  }
}
