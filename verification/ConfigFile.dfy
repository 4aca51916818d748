/** The configuration file: its printer, its line reader, and the proof that they undo each other. */
module ConfigFile {
  import opened Bytes
  import opened Ipv4Text
  import opened Lines
  import opened RuntimeConfig
  import opened Text
  import opened Wrappers

  // ---- printing ----

  function ProfileFieldText(field: ProfileField): string {
    match field
    case Name => "name"
    case TunnelIpv4 => "tunnel_destination_ipv4"
    case BsdIpv4 => "bsd_destination_ipv4"
    case UdpPort => "udp_destination_port"
    case TcpPort => "tcp_destination_port"
  }

  function KeyText(setting: Setting): string {
    match setting
    case RunScenario => "run.scenario"
    case RunNextWorkloadId => "run.next_workload_id"
    case RunActiveProfile => "run.active_profile"
    case ProfilesCount => "profiles.count"
    case ProfileSetting(index, field) => PROFILE_PREFIX + Decimal(index) + "." + ProfileFieldText(field)
    case UdpPayloadBytes => "udp.payload_bytes"
    case UdpDatagramCount => "udp.datagram_count"
    case UdpPacingMs => "udp.pacing_ms"
    case UdpConcurrentFlows => "udp.concurrent_flows"
    case UdpReceiveDeadlineMs => "udp.receive_deadline_ms"
    case UdpPayloadSeed => "udp.payload_seed"
    case UdpEchoReplies => "udp.echo_replies"
    case TcpReceiveDeadlineMs => "tcp.receive_deadline_ms"
    case VerifyClonedSessionLifetime => CONTRACT_SECTION + "verify_cloned_" + "session_lifetime"
    case VerifyMixedBatch => CONTRACT_SECTION + "verify_mixed_batch"
    case VerifyPostRouteRejection => BSD_SECTION + "verify_post_" + "route_rejection"
    case BsdExpectedOutcome => BSD_SECTION + "expected_outcome"
    case RequireWritableRecovery => BSD_SECTION + "require_writable" + "_recovery"
  }

  function BoolText(b: bool): string {
    if b then "true" else "false"
  }

  function ScenarioText(scenario: Scenario): string {
    match scenario
    case DirectTunnelUdp => "direct_tunnel_udp"
    case DirectTunnelTcp => "direct_tunnel_tcp"
    case BsdSystemUdp => "bsd_system_udp"
    case BsdSystemTcp => "bsd_system_tcp"
    case TunnelContractValidation => "tunnel_contract_validation"
  }

  function OutcomeText(outcome: ExpectedOutcome): string {
    match outcome
    case EchoReply => "echo"
    case NoReplyTimeout => "no_reply_timeout"
    case TerminalClosure => "terminal_closure"
  }

  /** Strings go through a %s conversion, which stops at the first NUL. */
  function ProfileValueText(profile: Profile, field: ProfileField): string {
    match field
    case Name => CString(profile.name)
    case TunnelIpv4 => CString(profile.tunnelIpv4)
    case BsdIpv4 => CString(profile.bsdIpv4)
    case UdpPort => Decimal(profile.udpPort)
    case TcpPort => Decimal(profile.tcpPort)
  }

  predicate InConfig(c: Config, setting: Setting) {
    setting.ProfileSetting? ==> setting.index < |c.profiles|
  }

  function ValueText(c: Config, setting: Setting): string
    requires InConfig(c, setting)
  {
    match setting
    case RunScenario => ScenarioText(c.scenario)
    case RunNextWorkloadId => Decimal(c.nextWorkloadId)
    case RunActiveProfile => Decimal(c.activeProfile)
    case ProfilesCount => Decimal(|c.profiles|)
    case ProfileSetting(index, field) => ProfileValueText(c.profiles[index], field)
    case UdpPayloadBytes => Decimal(c.payloadBytes)
    case UdpDatagramCount => Decimal(c.datagramCount)
    case UdpPacingMs => Decimal(c.pacingMs)
    case UdpConcurrentFlows => Decimal(c.concurrentFlows)
    case UdpReceiveDeadlineMs => Decimal(c.udpDeadlineMs)
    case UdpPayloadSeed => Decimal(c.payloadSeed)
    case UdpEchoReplies => BoolText(c.echoReplies)
    case TcpReceiveDeadlineMs => Decimal(c.tcpDeadlineMs)
    case VerifyClonedSessionLifetime => BoolText(c.verifyClone)
    case VerifyMixedBatch => BoolText(c.verifyMixedBatch)
    case VerifyPostRouteRejection => BoolText(c.verifyPostRoute)
    case BsdExpectedOutcome => OutcomeText(c.expectedOutcome)
    case RequireWritableRecovery => BoolText(c.requireRecovery)
  }

  const PROFILE_FIELDS: seq<ProfileField> := [Name, TunnelIpv4, BsdIpv4, UdpPort, TcpPort]
  const HEAD_SETTINGS: seq<Setting> := [RunScenario, RunNextWorkloadId, RunActiveProfile, ProfilesCount]
  const TAIL_SETTINGS: seq<Setting> := [
    UdpPayloadBytes, UdpDatagramCount, UdpPacingMs, UdpConcurrentFlows, UdpReceiveDeadlineMs, UdpPayloadSeed,
    UdpEchoReplies, TcpReceiveDeadlineMs, VerifyClonedSessionLifetime, VerifyMixedBatch, VerifyPostRouteRejection,
    BsdExpectedOutcome, RequireWritableRecovery]

  /** The lines about the first `count` profiles, five for each. */
  function ProfileSettings(count: nat): (settings: seq<Setting>)
    ensures forall s :: s in settings ==> s.ProfileSetting? && s.index < count
  {
    if count == 0 then []
    else ProfileSettings(count - 1) + seq(5, k requires 0 <= k < 5 => ProfileSetting(count - 1, PROFILE_FIELDS[k]))
  }

  /** Every setting in the order in which it is printed. */
  function PrintedSettings(profileCount: nat): seq<Setting> {
    HEAD_SETTINGS + ProfileSettings(profileCount) + TAIL_SETTINGS
  }

  function SettingLine(c: Config, setting: Setting): string
    requires InConfig(c, setting)
  {
    KeyText(setting) + "=" + ValueText(c, setting)
  }

  const HEADER: string := "# NX Reversing " + "Toolbox runtime " + "configuration"

  function SettingLines(c: Config, settings: seq<Setting>): (lines: seq<string>)
    requires forall s :: s in settings ==> InConfig(c, s)
    ensures |lines| == |settings|
    ensures forall i :: 0 <= i < |settings| ==> lines[i] == SettingLine(c, settings[i])
  {
    seq(|settings|, i requires 0 <= i < |settings| => SettingLine(c, settings[i]))
  }

  function Print(c: Config): string {
    JoinLines([HEADER] + SettingLines(c, PrintedSettings(|c.profiles|)))
  }

  // ---- loading ----

  datatype Diagnostic =
    | Unreadable
    | NoSeparator(line: nat)
    | EmptyKeyOrValue(line: nat)
    | Rejected(line: nat, key: string, error: SettingError)
    | LegacyLoaded
    | InvalidConfiguration(reason: ConfigError)

  datatype Reader = Reader(config: Config, migrated: bool, lineNumber: nat, diagnostics: seq<Diagnostic>)

  datatype FileRead = Missing | ReadError | Contents(text: string)

  datatype LoadReport = LoadReport(config: Config, loadedFromFile: bool, diagnostics: seq<Diagnostic>)

  /** What one line asks for. */
  datatype Action = Skip | Separatorless | Incomplete | Assign(key: string, recognized: Recognized, value: string)

  function InterpretTrimmed(trimmed: string): Action {
    if trimmed == "" || trimmed[0] == '#' then Skip
    else
      var separator := IndexOf(trimmed, '=');
      if separator == |trimmed| then Separatorless
      else
        var key := Trim(trimmed[..separator]);
        var value := Trim(trimmed[separator + 1..]);
        if key == "" || value == "" then Incomplete else Assign(key, Recognize(key), value)
  }

  /** What a line with a separator asks for. */
  function Asked(key: string, value: string): Action {
    if key == "" || value == "" then Incomplete else Assign(key, Recognize(key), value)
  }

  lemma AsksFor(trimmed: string, separator: nat, key: string, value: string)
    requires trimmed != "" && trimmed[0] != '#' && separator == IndexOf(trimmed, '=') < |trimmed|
    requires key == Trim(trimmed[..separator]) && value == Trim(trimmed[separator + 1..])
    ensures InterpretTrimmed(trimmed) == Asked(key, value)
  {
  }

  function Interpret(raw: string): Action {
    InterpretTrimmed(Trim(CString(raw)))
  }

  function Perform(r: Reader, action: Action): (r': Reader)
    requires r.config.profiles != []
    ensures r'.config.profiles != []
  {
    var number := r.lineNumber + 1;
    match action
    case Skip => r.(lineNumber := number)
    case Separatorless => r.(lineNumber := number, diagnostics := r.diagnostics + [NoSeparator(number)])
    case Incomplete => r.(lineNumber := number, diagnostics := r.diagnostics + [EmptyKeyOrValue(number)])
    case Assign(key, recognized, value) =>
      var applied := ApplyRecognized(r.config, recognized, value);
      Reader(
        applied.config,
        r.migrated || applied.migrated,
        number,
        r.diagnostics + if applied.error.None? then [] else [Rejected(number, key, applied.error.value)])
  }

  function PerformAll(r: Reader, actions: seq<Action>): (r': Reader)
    requires r.config.profiles != []
    ensures r'.config.profiles != []
    decreases |actions|
  {
    if actions == [] then r else PerformAll(Perform(r, actions[0]), actions[1..])
  }

  /** After the last line: report a migrated file, then fall back to the defaults if the result is not valid. */
  function Finish(defaults: Config, r: Reader): LoadReport {
    var diagnostics := r.diagnostics + if r.migrated then [LegacyLoaded] else [];
    match ValidateRuntimeConfig(r.config)
    case None => LoadReport(r.config, true, diagnostics)
    case Some(error) => LoadReport(defaults, true, diagnostics + [InvalidConfiguration(error)])
  }

  function Load(defaults: Config, file: FileRead): LoadReport
    requires defaults.profiles != []
  {
    match file
    case Missing => LoadReport(defaults, false, [])
    case ReadError => LoadReport(defaults, false, [Unreadable])
    case Contents(text) => Finish(defaults, PerformAll(Reader(defaults, false, 0, []), MapLines(Interpret, text)))
  }

  // ---- every loaded configuration is valid and printable ----

  /** Text that a line can carry unchanged. */
  predicate PlainText(s: string) {
    '\n' !in s && NUL !in s && Trimmed(s)
  }

  /** All profile names can be written to the file and read back. */
  predicate Clean(c: Config) {
    forall i :: 0 <= i < |c.profiles| ==> PlainText(c.profiles[i].name)
  }

  lemma ApplyKeepsClean(config: Config, recognized: Recognized, value: string)
    requires config.profiles != [] && Clean(config) && PlainText(value)
    ensures Clean(ApplyRecognized(config, recognized, value).config)
  {
    var profiles := ApplyRecognized(config, recognized, value).config.profiles;
    if recognized.Current? && recognized.setting.ProfileSetting? {
      FieldKeepsClean(config, recognized.setting, value);
    } else if recognized.Current? && recognized.setting.ProfilesCount? {
      CountKeepsClean(config, value);
    } else {
      assert SameNames(profiles, config.profiles);
    }
  }

  lemma FieldKeepsClean(config: Config, setting: Setting, value: string)
    requires config.profiles != [] && Clean(config) && PlainText(value) && setting.ProfileSetting?
    ensures Clean(ApplyCurrent(config, setting, value).config)
  {
    if setting.index < |config.profiles| {
      var next := ProfileUpdate(config.profiles[setting.index], setting.field, value);
      assert next.Some? ==> PlainText(next.value.name);
    }
  }

  lemma CountKeepsClean(config: Config, value: string)
    requires config.profiles != [] && Clean(config)
    ensures Clean(ApplyCurrent(config, ProfilesCount, value).config)
  {
  }

  predicate PlainAction(action: Action) {
    action.Assign? ==> PlainText(action.value)
  }

  /** A line that ends at its newline yields a value without newlines, NULs or surrounding space. */
  lemma InterpretIsPlain(raw: string)
    requires EndsAtNewline(raw)
    ensures PlainAction(Interpret(raw))
  {
    var trimmed := Trim(CString(raw));
    TrimmedLineIsPlain(raw);
    var separator := IndexOf(trimmed, '=');
    if separator < |trimmed| {
      var tail := trimmed[separator + 1..];
      TrimIsTrimmed(tail);
      assert forall c :: c in tail ==> c in trimmed;
      assert PlainText(Trim(tail));
    }
  }

  lemma TrimmedLineIsPlain(raw: string)
    requires EndsAtNewline(raw)
    ensures PlainText(Trim(CString(raw)))
  {
    var visible := CString(raw);
    var trimmed := Trim(visible);
    TrimIsTrimmed(visible);
    var first := FirstVisible(visible, 0);
    forall k | 0 <= k < |trimmed|
      ensures trimmed[k] != '\n'
    {
      assert trimmed[k] == visible[first + k] == raw[first + k];
      assert first + k == |raw| - 1 ==> k == |trimmed| - 1;
    }
  }

  lemma {:induction false} PerformAllKeepsClean(r: Reader, actions: seq<Action>)
    requires r.config.profiles != [] && Clean(r.config)
    requires forall i :: 0 <= i < |actions| ==> PlainAction(actions[i])
    ensures Clean(PerformAll(r, actions).config)
    decreases |actions|
  {
    if actions != [] {
      if actions[0].Assign? {
        ApplyKeepsClean(r.config, actions[0].recognized, actions[0].value);
      }
      PerformAllKeepsClean(Perform(r, actions[0]), actions[1..]);
    }
  }

  /** Whatever the file holds, what is loaded is valid and its names survive printing. */
  lemma LoadedConfigIsValidAndClean(defaults: Config, file: FileRead)
    requires Valid(defaults) && Clean(defaults)
    ensures Valid(Load(defaults, file).config)
    ensures Clean(Load(defaults, file).config)
  {
    if file.Contents? {
      forall raw | EndsAtNewline(raw)
        ensures PlainAction(Interpret(raw))
      {
        InterpretIsPlain(raw);
      }
      LinesEndAtNewlines(Interpret, PlainAction, file.text);
      PerformAllKeepsClean(Reader(defaults, false, 0, []), MapLines(Interpret, file.text));
    }
  }

  // ---- the line reader sees each printed line as its setting ----

  predicate PlainKey(key: string) {
    key != "" && key[0] != '#' && '=' !in key && PlainText(key)
  }

  lemma PrintedLineTrimmed(key: string, value: string)
    requires PlainKey(key) && PlainText(value) && value != ""
    ensures Trim(CString(key + "=" + value + "\n")) == key + "=" + value
  {
    var line := key + "=" + value;
    var raw := line + "\n";
    assert line[0] == key[0] && line[|line| - 1] == value[|value| - 1];
    assert forall k :: 0 <= k < |raw| ==> raw[k] != NUL;
    IndexOfUnique(raw, NUL, |raw|);
    assert CString(raw) == raw;
    TrimOfLine(line, line + "\n");
  }

  lemma SplitAtEquals(key: string, value: string)
    requires '=' !in key
    ensures var line := key + "=" + value;
            IndexOf(line, '=') == |key| && line[..|key|] == key && line[|key| + 1..] == value
  {
    var line := key + "=" + value;
    assert forall k :: 0 <= k < |key| ==> line[k] == key[k];
    IndexOfUnique(line, '=', |key|);
  }

  lemma InterpretPrintedLine(key: string, value: string, line: string, raw: string)
    requires PlainKey(key) && PlainText(value) && value != ""
    requires line == key + "=" + value && raw == line + "\n"
    ensures Interpret(raw) == Assign(key, Recognize(key), value)
  {
    PrintedLineTrimmed(key, value);
    SplitAtEquals(key, value);
    TrimOfTrimmed(key);
    TrimOfTrimmed(value);
    assert line[0] == key[0];
  }

  lemma TrimOfTrimmed(s: string)
    requires Trimmed(s)
    ensures Trim(s) == s
  {
    if s != "" {
      TrimOfLine(s, s);
    }
  }

  function Pow10(n: nat): (p: nat)
    ensures p > 0
  {
    if n == 0 then 1 else 10 * Pow10(n - 1)
  }

  lemma {:induction false} DecimalLength(n: nat, width: nat)
    requires n < Pow10(width + 1)
    ensures |Decimal(n)| <= width + 1
  {
    if n >= 10 {
      DecimalLength(n / 10, width - 1);
    }
  }

  lemma DecimalIsPlain(n: nat)
    ensures PlainText(Decimal(n)) && '=' !in Decimal(n) && '.' !in Decimal(n)
    ensures n < 0x1_0000_0000_0000_0000 ==> |Decimal(n)| <= 20
  {
    var s := Decimal(n);
    assert forall k :: 0 <= k < |s| ==> IsDigit(s[k]);
    if n < 0x1_0000_0000_0000_0000 {
      assert Pow10(5) == 100000;
      assert Pow10(10) == 100000 * Pow10(5);
      assert Pow10(15) == 100000 * Pow10(10);
      assert Pow10(20) == 100000 * Pow10(15);
      DecimalLength(n, 19);
    }
  }

  lemma DecimalParses(n: nat, bound: nat)
    requires n < bound
    ensures ParseUnsigned(Decimal(n), bound) == Some(n)
  {
  }

  const MAXIMUM_KEY_LENGTH: nat := 60

  predicate KeyChar(c: char) {
    'a' <= c <= 'z' || c == '_' || c == '.' || IsDigit(c)
  }

  predicate KeyChars(s: string) {
    s != "" && forall k :: 0 <= k < |s| ==> KeyChar(s[k])
  }

  lemma KeyCharsJoin(a: string, b: string)
    requires KeyChars(a) && KeyChars(b)
    ensures KeyChars(a + b)
  {
  }

  lemma KeyCharsArePlain(key: string)
    requires KeyChars(key)
    ensures PlainKey(key)
  {
  }

  predicate InHead(setting: Setting) {
    setting.RunScenario? || setting.RunNextWorkloadId? || setting.RunActiveProfile? || setting.ProfilesCount?
  }

  predicate InUdpSection(setting: Setting) {
    || setting.UdpPayloadBytes? || setting.UdpDatagramCount? || setting.UdpPacingMs? || setting.UdpConcurrentFlows?
    || setting.UdpReceiveDeadlineMs? || setting.UdpPayloadSeed? || setting.UdpEchoReplies? || setting.TcpReceiveDeadlineMs?
  }

  predicate InContractSection(setting: Setting) {
    setting.VerifyClonedSessionLifetime? || setting.VerifyMixedBatch?
  }

  lemma HeadKeyChars(setting: Setting)
    requires InHead(setting)
    ensures KeyChars(KeyText(setting)) && |KeyText(setting)| <= MAXIMUM_KEY_LENGTH
  {
  }

  predicate InUdpShape(setting: Setting) {
    setting.UdpPayloadBytes? || setting.UdpDatagramCount? || setting.UdpPacingMs? || setting.UdpConcurrentFlows?
  }

  lemma UdpShapeChars(setting: Setting)
    requires InUdpShape(setting)
    ensures KeyChars(KeyText(setting)) && |KeyText(setting)| <= MAXIMUM_KEY_LENGTH
  {
  }

  lemma DeadlineChars(setting: Setting)
    requires setting.UdpReceiveDeadlineMs? || setting.TcpReceiveDeadlineMs?
    ensures KeyChars(KeyText(setting)) && |KeyText(setting)| <= MAXIMUM_KEY_LENGTH
  {
  }

  lemma SeedAndEchoChars(setting: Setting)
    requires setting.UdpPayloadSeed? || setting.UdpEchoReplies?
    ensures KeyChars(KeyText(setting)) && |KeyText(setting)| <= MAXIMUM_KEY_LENGTH
  {
  }

  lemma UdpReplyChars(setting: Setting)
    requires InUdpSection(setting) && !InUdpShape(setting)
    ensures KeyChars(KeyText(setting)) && |KeyText(setting)| <= MAXIMUM_KEY_LENGTH
  {
    if setting.UdpPayloadSeed? || setting.UdpEchoReplies? {
      SeedAndEchoChars(setting);
    } else {
      DeadlineChars(setting);
    }
  }

  lemma UdpKeyChars(setting: Setting)
    requires InUdpSection(setting)
    ensures KeyChars(KeyText(setting)) && |KeyText(setting)| <= MAXIMUM_KEY_LENGTH
  {
    if InUdpShape(setting) {
      UdpShapeChars(setting);
    } else {
      UdpReplyChars(setting);
    }
  }

  lemma ContractKeyChars(setting: Setting)
    requires InContractSection(setting)
    ensures KeyChars(KeyText(setting)) && |KeyText(setting)| <= MAXIMUM_KEY_LENGTH
  {
    KeyCharsJoin(CONTRACT_SECTION, "verify_cloned_");
    KeyCharsJoin(CONTRACT_SECTION + "verify_cloned_", "session_lifetime");
    KeyCharsJoin(CONTRACT_SECTION, "verify_mixed_batch");
  }

  lemma BsdKeyChars(setting: Setting)
    requires IsScalar(setting) && !InHead(setting) && !InUdpSection(setting) && !InContractSection(setting)
    ensures KeyChars(KeyText(setting)) && |KeyText(setting)| <= MAXIMUM_KEY_LENGTH
  {
    assert KeyChars(BSD_SECTION);
    match setting
    case VerifyPostRouteRejection =>
      KeyCharsJoin(BSD_SECTION, "verify_post_");
      KeyCharsJoin(BSD_SECTION + "verify_post_", "route_rejection");
    case BsdExpectedOutcome =>
      KeyCharsJoin(BSD_SECTION, "expected_outcome");
    case RequireWritableRecovery =>
      KeyCharsJoin(BSD_SECTION, "require_writable");
      KeyCharsJoin(BSD_SECTION + "require_writable", "_recovery");
  }

  lemma ScalarKeyIsPlain(setting: Setting)
    requires IsScalar(setting) || setting == ProfilesCount
    ensures PlainKey(KeyText(setting)) && |KeyText(setting)| <= MAXIMUM_KEY_LENGTH
  {
    var key := KeyText(setting);
    if InHead(setting) {
      HeadKeyChars(setting);
    } else if InUdpSection(setting) {
      UdpKeyChars(setting);
    } else if InContractSection(setting) {
      ContractKeyChars(setting);
    } else {
      BsdKeyChars(setting);
    }
    KeyCharsArePlain(key);
  }

  /** Keys that start with neither "p" nor "r" go straight to the behaviour settings. */
  lemma BehaviourKey(key: string)
    requires key != "" && key[0] != 'p' && key[0] != 'r'
    ensures Recognize(key) == RecognizeBehaviour(key)
  {
    assert "run.scenario"[0] == "run.next_workload_id"[0] == "run.active_profile"[0] == 'r';
    assert "profiles.count"[0] == 'p';
    assert PROFILE_PREFIX[0] == 'p';
    if StartsWith(key, PROFILE_PREFIX) {
      assert false;
    }
  }

  lemma HeadKeyIsRecognized(setting: Setting)
    requires InHead(setting)
    ensures Recognize(KeyText(setting)) == Current(setting)
  {
  }

  lemma UdpKeyIsRecognized(setting: Setting)
    requires InUdpSection(setting)
    ensures Recognize(KeyText(setting)) == Current(setting)
  {
    UdpKeyStart(setting);
    BehaviourKey(KeyText(setting));
  }

  lemma UdpKeyStart(setting: Setting)
    requires InUdpSection(setting)
    ensures KeyText(setting)[..4] == if setting.TcpReceiveDeadlineMs? then "tcp." else "udp."
  {
  }

  lemma CloneCheckKey()
    ensures Recognize(KeyText(VerifyClonedSessionLifetime)) == Current(VerifyClonedSessionLifetime)
  {
    assert CONTRACT_SECTION[0] == 't';
    BehaviourKey(KeyText(VerifyClonedSessionLifetime));
  }

  lemma MixedBatchKey()
    ensures Recognize(KeyText(VerifyMixedBatch)) == Current(VerifyMixedBatch)
  {
    assert CONTRACT_SECTION[0] == 't';
    BehaviourKey(KeyText(VerifyMixedBatch));
  }

  lemma ContractKeyIsRecognized(setting: Setting)
    requires InContractSection(setting)
    ensures Recognize(KeyText(setting)) == Current(setting)
  {
    if setting.VerifyMixedBatch? {
      MixedBatchKey();
    } else {
      CloneCheckKey();
    }
  }

  lemma BsdKeyIsRecognized(setting: Setting)
    requires IsScalar(setting) && !InHead(setting) && !InUdpSection(setting) && !InContractSection(setting)
    ensures Recognize(KeyText(setting)) == Current(setting)
  {
    if setting.VerifyPostRouteRejection? {
      PostRouteKey();
    } else if setting.BsdExpectedOutcome? {
      OutcomeKey();
    } else {
      RecoveryKey();
    }
  }

  lemma PostRouteKey()
    ensures Recognize(KeyText(VerifyPostRouteRejection)) == Current(VerifyPostRouteRejection)
  {
    assert BSD_SECTION[0] == 'b';
    BehaviourKey(KeyText(VerifyPostRouteRejection));
  }

  lemma OutcomeKey()
    ensures Recognize(KeyText(BsdExpectedOutcome)) == Current(BsdExpectedOutcome)
  {
    assert BSD_SECTION[0] == 'b';
    BehaviourKey(KeyText(BsdExpectedOutcome));
  }

  lemma RecoveryKey()
    ensures Recognize(KeyText(RequireWritableRecovery)) == Current(RequireWritableRecovery)
  {
    assert BSD_SECTION[0] == 'b';
    BehaviourKey(KeyText(RequireWritableRecovery));
  }

  lemma ProfileKeyIsPlain(index: nat, field: ProfileField)
    requires index < 0x1_0000_0000_0000_0000
    ensures var key := KeyText(ProfileSetting(index, field)); PlainKey(key) && |key| <= MAXIMUM_KEY_LENGTH
  {
    DecimalIsPlain(index);
    FieldTextIsPlain(field);
    var digits := PROFILE_PREFIX + Decimal(index);
    var dotted := digits + ".";
    assert KeyChars(PROFILE_PREFIX) && KeyChars(".");
    KeyCharsJoin(PROFILE_PREFIX, Decimal(index));
    KeyCharsJoin(digits, ".");
    KeyCharsJoin(dotted, ProfileFieldText(field));
    KeyCharsArePlain(KeyText(ProfileSetting(index, field)));
  }

  lemma AddressFieldIsPlain(field: ProfileField)
    requires field == TunnelIpv4 || field == BsdIpv4
    ensures KeyChars(ProfileFieldText(field)) && |ProfileFieldText(field)| <= 23
  {
  }

  lemma OtherFieldIsPlain(field: ProfileField)
    requires field == Name || field == UdpPort || field == TcpPort
    ensures KeyChars(ProfileFieldText(field)) && |ProfileFieldText(field)| <= 23
  {
  }

  lemma FieldTextIsPlain(field: ProfileField)
    ensures KeyChars(ProfileFieldText(field)) && |ProfileFieldText(field)| <= 23
  {
    if field == TunnelIpv4 || field == BsdIpv4 {
      AddressFieldIsPlain(field);
    } else {
      OtherFieldIsPlain(field);
    }
  }

  lemma ProfileKeyParses(digits: string, name: string, key: string, index: nat)
    requires digits == Decimal(index) && index < 0x1_0000_0000_0000_0000 && key == PROFILE_PREFIX + digits + "." + name
    ensures ParseProfileKey(key) == Some((index, name))
  {
    var remainder := digits + "." + name;
    DecimalIsPlain(index);
    assert key[|PROFILE_PREFIX|..] == remainder;
    assert forall k :: 0 <= k < |digits| ==> remainder[k] == digits[k];
    IndexOfUnique(remainder, '.', |digits|);
    assert remainder[..|digits|] == digits;
    assert remainder[|digits| + 1..] == name;
    DecimalParses(index, 0x1_0000_0000_0000_0000);
  }

  lemma ProfileKeyIsRecognized(index: nat, field: ProfileField)
    requires index < 0x1_0000_0000_0000_0000
    ensures Recognize(KeyText(ProfileSetting(index, field))) == Current(ProfileSetting(index, field))
  {
    var key := KeyText(ProfileSetting(index, field));
    ProfileKeyParses(Decimal(index), ProfileFieldText(field), key, index);
    assert key[7] == '.';
  }

  lemma KeyIsPlainAndRecognized(c: Config, setting: Setting)
    requires InConfig(c, setting) && |c.profiles| <= MAXIMUM_PROFILES
    ensures PlainKey(KeyText(setting)) && |KeyText(setting)| <= MAXIMUM_KEY_LENGTH
    ensures Recognize(KeyText(setting)) == Current(setting)
  {
    if setting.ProfileSetting? {
      ProfileKeyIsPlain(setting.index, setting.field);
      ProfileKeyIsRecognized(setting.index, setting.field);
    } else {
      ScalarKeyIsPlain(setting);
      if InHead(setting) {
        HeadKeyIsRecognized(setting);
      } else if InUdpSection(setting) {
        UdpKeyIsRecognized(setting);
      } else if InContractSection(setting) {
        ContractKeyIsRecognized(setting);
      } else {
        BsdKeyIsRecognized(setting);
      }
    }
  }

  // ---- each printed value parses back to what was printed ----

  lemma IpTextIsPlain(ip: string)
    requires IsDottedQuad(ip)
    ensures PlainText(ip) && CString(ip) == ip && 0 < |ip| <= 15
  {
    DottedShape(ip, 0, 3);
    IndexOfUnique(ip, NUL, |ip|);
  }

  lemma PlainCString(s: string)
    requires PlainText(s)
    ensures CString(s) == s
  {
    assert forall k :: 0 <= k < |s| ==> s[k] in s;
    IndexOfUnique(s, NUL, |s|);
  }

  lemma ProfileValueIsPlain(profile: Profile, field: ProfileField)
    requires ProfileError(profile).None? && PlainText(profile.name)
    ensures var value := ProfileValueText(profile, field); PlainText(value) && 0 < |value| <= 40
  {
    match field
    case Name => PlainCString(profile.name);
    case TunnelIpv4 => IpTextIsPlain(profile.tunnelIpv4);
    case BsdIpv4 => IpTextIsPlain(profile.bsdIpv4);
    case UdpPort => DecimalIsPlain(profile.udpPort);
    case TcpPort => DecimalIsPlain(profile.tcpPort);
  }

  predicate IsFlag(setting: Setting) {
    || setting.UdpEchoReplies? || setting.VerifyClonedSessionLifetime? || setting.VerifyMixedBatch?
    || setting.VerifyPostRouteRejection? || setting.RequireWritableRecovery?
  }

  lemma FlagIsPlain(b: bool)
    ensures PlainText(BoolText(b)) && 0 < |BoolText(b)| <= 40 && ParseBool(BoolText(b)) == Some(b)
  {
  }

  lemma ScenarioChars(scenario: Scenario, text: string)
    requires text == ScenarioText(scenario)
    ensures KeyChars(text) && |text| <= 40
  {
  }

  lemma ScenarioIsPlain(scenario: Scenario)
    ensures PlainText(ScenarioText(scenario)) && 0 < |ScenarioText(scenario)| <= 40
  {
    var text := ScenarioText(scenario);
    ScenarioChars(scenario, text);
    KeyCharsArePlain(text);
  }

  lemma ScenarioParses(scenario: Scenario)
    ensures ParseScenario(ScenarioText(scenario)) == Some(scenario)
  {
  }

  lemma OutcomeIsPlain(outcome: ExpectedOutcome)
    ensures PlainText(OutcomeText(outcome)) && 0 < |OutcomeText(outcome)| <= 40
    ensures ParseOutcome(OutcomeText(outcome)) == Some(outcome)
  {
    assert KeyChars(OutcomeText(outcome));
    KeyCharsArePlain(OutcomeText(outcome));
  }

  /** The number a numeric setting prints. */
  function NumberOf(c: Config, setting: Setting): u64
    requires |c.profiles| <= MAXIMUM_PROFILES
  {
    match setting
    case RunNextWorkloadId => c.nextWorkloadId
    case RunActiveProfile => c.activeProfile
    case ProfilesCount => |c.profiles|
    case UdpPayloadBytes => c.payloadBytes
    case UdpDatagramCount => c.datagramCount
    case UdpPacingMs => c.pacingMs
    case UdpConcurrentFlows => c.concurrentFlows
    case UdpReceiveDeadlineMs => c.udpDeadlineMs
    case UdpPayloadSeed => c.payloadSeed
    case _ => c.tcpDeadlineMs
  }

  predicate IsNumber(setting: Setting) {
    !IsFlag(setting) && !setting.ProfileSetting? && !setting.RunScenario? && !setting.BsdExpectedOutcome?
  }

  lemma NumberIsPlain(c: Config, setting: Setting)
    requires |c.profiles| <= MAXIMUM_PROFILES && InConfig(c, setting) && IsNumber(setting)
    ensures PlainText(ValueText(c, setting)) && 0 < |ValueText(c, setting)| <= 40
  {
    DecimalIsPlain(NumberOf(c, setting));
  }

  lemma NamedValueIsPlain(c: Config, setting: Setting)
    requires InConfig(c, setting) && !IsNumber(setting) && !setting.ProfileSetting?
    ensures PlainText(ValueText(c, setting)) && 0 < |ValueText(c, setting)| <= 40
  {
    if setting.RunScenario? {
      ScenarioIsPlain(c.scenario);
    } else if setting.BsdExpectedOutcome? {
      OutcomeIsPlain(c.expectedOutcome);
    } else {
      FlagIsPlain(true);
      FlagIsPlain(false);
    }
  }

  lemma ValueIsPlain(c: Config, setting: Setting)
    requires Valid(c) && Clean(c) && InConfig(c, setting)
    ensures PlainText(ValueText(c, setting)) && 0 < |ValueText(c, setting)| <= 40
  {
    if setting.ProfileSetting? {
      assert ProfileError(c.profiles[setting.index]).None?;
      ProfileValueIsPlain(c.profiles[setting.index], setting.field);
    } else if IsNumber(setting) {
      NumberIsPlain(c, setting);
    } else {
      NamedValueIsPlain(c, setting);
    }
  }

  function PutField(mine: Profile, theirs: Profile, field: ProfileField): Profile {
    match field
    case Name => mine.(name := theirs.name)
    case TunnelIpv4 => mine.(tunnelIpv4 := theirs.tunnelIpv4)
    case BsdIpv4 => mine.(bsdIpv4 := theirs.bsdIpv4)
    case UdpPort => mine.(udpPort := theirs.udpPort)
    case TcpPort => mine.(tcpPort := theirs.tcpPort)
  }

  /** `config` with one setting taken from `c`; a new profile count keeps the old profiles that still fit. */
  function Put(config: Config, c: Config, setting: Setting): (config': Config)
    requires config.profiles != [] && c.profiles != []
    ensures config'.profiles != []
    ensures setting == ProfilesCount ==> |config'.profiles| == |c.profiles|
    ensures setting != ProfilesCount ==> |config'.profiles| == |config.profiles|
  {
    match setting
    case RunScenario => config.(scenario := c.scenario)
    case RunNextWorkloadId => config.(nextWorkloadId := c.nextWorkloadId)
    case RunActiveProfile => config.(activeProfile := c.activeProfile)
    case ProfilesCount => config.(profiles := Resize(config.profiles, |c.profiles|))
    case ProfileSetting(index, field) =>
      if index < |c.profiles| && index < |config.profiles|
      then WithProfile(config, index, PutField(config.profiles[index], c.profiles[index], field))
      else config
    case UdpPayloadBytes => config.(payloadBytes := c.payloadBytes)
    case UdpDatagramCount => config.(datagramCount := c.datagramCount)
    case UdpPacingMs => config.(pacingMs := c.pacingMs)
    case UdpConcurrentFlows => config.(concurrentFlows := c.concurrentFlows)
    case UdpReceiveDeadlineMs => config.(udpDeadlineMs := c.udpDeadlineMs)
    case UdpPayloadSeed => config.(payloadSeed := c.payloadSeed)
    case UdpEchoReplies => config.(echoReplies := c.echoReplies)
    case TcpReceiveDeadlineMs => config.(tcpDeadlineMs := c.tcpDeadlineMs)
    case VerifyClonedSessionLifetime => config.(verifyClone := c.verifyClone)
    case VerifyMixedBatch => config.(verifyMixedBatch := c.verifyMixedBatch)
    case VerifyPostRouteRejection => config.(verifyPostRoute := c.verifyPostRoute)
    case BsdExpectedOutcome => config.(expectedOutcome := c.expectedOutcome)
    case RequireWritableRecovery => config.(requireRecovery := c.requireRecovery)
  }

  lemma ProfileFieldApplies(config: Config, c: Config, index: nat, field: ProfileField)
    requires index < |c.profiles| <= |config.profiles|
    requires ProfileError(c.profiles[index]).None? && PlainText(c.profiles[index].name)
    ensures ApplyProfileField(config, index, field, ProfileValueText(c.profiles[index], field)) ==
            Applied(Put(config, c, ProfileSetting(index, field)), false, None)
  {
    var profile := c.profiles[index];
    match field
    case Name => PlainCString(profile.name);
    case TunnelIpv4 => IpTextIsPlain(profile.tunnelIpv4);
    case BsdIpv4 => IpTextIsPlain(profile.bsdIpv4);
    case UdpPort => DecimalParses(profile.udpPort, 0x1_0000);
    case TcpPort => DecimalParses(profile.tcpPort, 0x1_0000);
  }

  lemma NumberApplies(config: Config, c: Config, setting: Setting)
    requires config.profiles != [] && Valid(c) && IsNumber(setting)
    ensures ApplyCurrent(config, setting, ValueText(c, setting)) == Applied(Put(config, c, setting), false, None)
  {
    var n := NumberOf(c, setting);
    DecimalParses(n, 0x1_0000_0000_0000_0000);
    if n < 0x1_0000_0000 {
      DecimalParses(n, 0x1_0000_0000);
    }
  }

  /** Applying a printed value stores exactly the printed setting and rejects nothing. */
  lemma PrintedValueApplies(config: Config, c: Config, setting: Setting)
    requires config.profiles != [] && Valid(c) && Clean(c) && InConfig(c, setting)
    requires setting.ProfileSetting? ==> |c.profiles| <= |config.profiles|
    ensures ApplyCurrent(config, setting, ValueText(c, setting)) == Applied(Put(config, c, setting), false, None)
  {
    if setting.ProfileSetting? {
      assert ProfileError(c.profiles[setting.index]).None?;
      ProfileFieldApplies(config, c, setting.index, setting.field);
    } else if IsNumber(setting) {
      NumberApplies(config, c, setting);
    } else if setting.RunScenario? {
      ScenarioParses(c.scenario);
    } else if setting.BsdExpectedOutcome? {
      OutcomeIsPlain(c.expectedOutcome);
    } else {
      FlagIsPlain(true);
      FlagIsPlain(false);
    }
  }

  // ---- whole files ----

  /** All settings of a list stored in turn. */
  function PutAll(config: Config, c: Config, settings: seq<Setting>): (config': Config)
    requires config.profiles != [] && c.profiles != []
    ensures config'.profiles != []
    ensures |config.profiles| == |c.profiles| ==> |config'.profiles| == |c.profiles|
    decreases |settings|
  {
    if settings == [] then config else PutAll(Put(config, c, settings[0]), c, settings[1..])
  }

  lemma {:induction false} PutAllJoin(config: Config, c: Config, first: seq<Setting>, second: seq<Setting>)
    requires config.profiles != [] && c.profiles != []
    ensures PutAll(config, c, first + second) == PutAll(PutAll(config, c, first), c, second)
    decreases |first|
  {
    if first == [] {
      assert first + second == second;
    } else {
      assert (first + second)[1..] == first[1..] + second;
      PutAllJoin(Put(config, c, first[0]), c, first[1..], second);
    }
  }

  /** The reader after some printed lines: a new configuration, more lines seen, nothing reported. */
  function Advance(r: Reader, config: Config, lines: nat): (r': Reader)
    ensures r'.config == config
  {
    Reader(config, r.migrated, r.lineNumber + lines, r.diagnostics)
  }

  predicate Prints(c: Config, setting: Setting, action: Action) {
    InConfig(c, setting) && action.Assign? && action.recognized == Current(setting) && action.value == ValueText(c, setting)
  }

  predicate AllPrint(c: Config, settings: seq<Setting>, actions: seq<Action>) {
    |settings| == |actions| && forall i :: 0 <= i < |settings| ==> Prints(c, settings[i], actions[i])
  }

  lemma PerformPrinted(r: Reader, c: Config, setting: Setting, action: Action)
    requires r.config.profiles != [] && Valid(c) && Clean(c) && Prints(c, setting, action)
    requires setting.ProfileSetting? ==> |r.config.profiles| == |c.profiles|
    ensures Perform(r, action) == Advance(r, Put(r.config, c, setting), 1)
  {
    PrintedValueApplies(r.config, c, setting);
    assert r.diagnostics + [] == r.diagnostics;
  }

  /** Profile settings come only when the profile list, `current` long at first, has its target length. */
  predicate InOrder(current: nat, target: nat, settings: seq<Setting>)
    decreases |settings|
  {
    settings == [] ||
    ((settings[0].ProfileSetting? ==> current == target) &&
     InOrder(if settings[0] == ProfilesCount then target else current, target, settings[1..]))
  }

  lemma {:induction false} InOrderAtTarget(target: nat, settings: seq<Setting>)
    ensures InOrder(target, target, settings)
  {
    if settings != [] {
      InOrderAtTarget(target, settings[1..]);
    }
  }

  lemma PrintedSettingsInOrder(current: nat, target: nat, later: seq<Setting>)
    ensures InOrder(current, target, HEAD_SETTINGS + later)
  {
    var s0 := HEAD_SETTINGS + later;
    var s3 := [ProfilesCount] + later;
    var s2 := [RunActiveProfile] + s3;
    var s1 := [RunNextWorkloadId] + s2;
    assert s0 == [RunScenario] + s1 && s0[1..] == s1 && s1[1..] == s2 && s2[1..] == s3 && s3[1..] == later;
    InOrderAtTarget(target, later);
    assert InOrder(current, target, s3);
    assert InOrder(current, target, s2);
    assert InOrder(current, target, s1);
  }

  /** Performing printed lines stores their settings and reports nothing. */
  lemma {:induction false} PerformAllPrinted(r: Reader, c: Config, settings: seq<Setting>, actions: seq<Action>)
    requires r.config.profiles != [] && Valid(c) && Clean(c) && AllPrint(c, settings, actions)
    requires InOrder(|r.config.profiles|, |c.profiles|, settings)
    ensures PerformAll(r, actions) == Advance(r, PutAll(r.config, c, settings), |settings|)
    decreases |settings|
  {
    if settings != [] {
      PerformPrinted(r, c, settings[0], actions[0]);
      PerformAllPrinted(Advance(r, Put(r.config, c, settings[0]), 1), c, settings[1..], actions[1..]);
    }
  }

  lemma {:induction false} PerformAllJoin(r: Reader, first: seq<Action>, second: seq<Action>)
    requires r.config.profiles != []
    ensures PerformAll(r, first + second) == PerformAll(PerformAll(r, first), second)
    decreases |first|
  {
    if first == [] {
      assert first + second == second;
    } else {
      assert (first + second)[1..] == first[1..] + second;
      PerformAllJoin(Perform(r, first[0]), first[1..], second);
    }
  }

  lemma PrintedLineFits(c: Config, setting: Setting)
    requires Valid(c) && Clean(c) && InConfig(c, setting)
    ensures FitsLine(SettingLine(c, setting))
    ensures Prints(c, setting, Interpret(SettingLine(c, setting) + "\n"))
  {
    var key, value := KeyText(setting), ValueText(c, setting);
    KeyIsPlainAndRecognized(c, setting);
    ValueIsPlain(c, setting);
    LineOfPlainTexts(key, value);
    InterpretPrintedLine(key, value, SettingLine(c, setting), SettingLine(c, setting) + "\n");
  }

  lemma LineOfPlainTexts(key: string, value: string)
    requires PlainKey(key) && PlainText(value) && |key| <= MAXIMUM_KEY_LENGTH && |value| <= 40
    ensures FitsLine(key + "=" + value)
  {
    var line := key + "=" + value;
    assert forall k :: 0 <= k < |line| ==> line[k] in key || line[k] == '=' || line[k] in value;
  }

  lemma HeaderIsPlain()
    ensures PlainText(HEADER) && HEADER[0] == '#' && |HEADER| < 60
  {
    var a, b, c := "# NX Reversing ", "Toolbox runtime ", "configuration";
    assert HEADER == a + b + c && a[0] == '#' && c[|c| - 1] == 'n';
    assert HEADER[0] == a[0] && HEADER[|HEADER| - 1] == c[|c| - 1];
    assert forall k :: 0 <= k < |a| ==> a[k] != '\n' && a[k] != NUL;
    assert forall k :: 0 <= k < |b| ==> b[k] != '\n' && b[k] != NUL;
    assert forall k :: 0 <= k < |c| ==> c[k] != '\n' && c[k] != NUL;
  }

  lemma CommentIsSkipped(comment: string)
    requires PlainText(comment) && comment != "" && comment[0] == '#'
    ensures Interpret(comment + "\n") == Skip
  {
    var raw := comment + "\n";
    assert forall k :: 0 <= k < |raw| ==> raw[k] != NUL;
    IndexOfUnique(raw, NUL, |raw|);
    assert CString(raw) == raw;
    TrimOfLine(comment, comment + "\n");
  }

  lemma PutStep(config: Config, c: Config, settings: seq<Setting>, k: nat)
    requires config.profiles != [] && c.profiles != [] && k < |settings|
    ensures PutAll(config, c, settings[k..]) == PutAll(Put(config, c, settings[k]), c, settings[k + 1..])
  {
    assert settings[k..][1..] == settings[k + 1..];
  }

  lemma {:induction false} PutProfiles(config: Config, c: Config, count: nat)
    requires 0 < |config.profiles| == |c.profiles| && count <= |c.profiles|
    ensures PutAll(config, c, ProfileSettings(count)) ==
            config.(profiles := c.profiles[..count] + config.profiles[count..])
  {
    if count == 0 {
      assert config.profiles == c.profiles[..0] + config.profiles[0..];
    } else {
      var i := count - 1;
      var five := seq(5, k requires 0 <= k < 5 => ProfileSetting(i, PROFILE_FIELDS[k]));
      var sofar := config.(profiles := c.profiles[..i] + config.profiles[i..]);
      PutProfiles(config, c, i);
      PutAllJoin(config, c, ProfileSettings(i), five);
      PutFive(sofar, c, i, five);
      ReplaceNext(config.profiles, c.profiles, i);
    }
  }

  lemma ReplaceNext<T>(a: seq<T>, b: seq<T>, i: nat)
    requires i < |a| == |b|
    ensures (b[..i] + a[i..])[i] == a[i]
    ensures (b[..i] + a[i..])[i := b[i]] == b[..i + 1] + a[i + 1..]
  {
  }

  lemma PutFive(config: Config, c: Config, i: nat, five: seq<Setting>)
    requires i < |config.profiles| == |c.profiles|
    requires five == seq(5, k requires 0 <= k < 5 => ProfileSetting(i, PROFILE_FIELDS[k]))
    ensures PutAll(config, c, five) == config.(profiles := config.profiles[i := c.profiles[i]])
  {
    var p, q := config.profiles[i], c.profiles[i];
    var p1 := p.(name := q.name);
    var p2 := p1.(tunnelIpv4 := q.tunnelIpv4);
    var p3 := p2.(bsdIpv4 := q.bsdIpv4);
    var p4 := p3.(udpPort := q.udpPort);
    assert five[0..] == five;
    PutStep(config, c, five, 0);
    PutSame(config, c, i, p1, TunnelIpv4);
    PutStep(WithProfile(config, i, p1), c, five, 1);
    PutSame(config, c, i, p2, BsdIpv4);
    PutStep(WithProfile(config, i, p2), c, five, 2);
    PutSame(config, c, i, p3, UdpPort);
    PutStep(WithProfile(config, i, p3), c, five, 3);
    PutSame(config, c, i, p4, TcpPort);
    PutStep(WithProfile(config, i, p4), c, five, 4);
  }

  /** Storing a field of a profile that was just replaced replaces the profile once. */
  lemma PutSame(config: Config, c: Config, i: nat, mine: Profile, field: ProfileField)
    requires i < |config.profiles| == |c.profiles|
    ensures Put(WithProfile(config, i, mine), c, ProfileSetting(i, field)) ==
            WithProfile(config, i, PutField(mine, c.profiles[i], field))
  {
    assert config.profiles[i := mine][i := PutField(mine, c.profiles[i], field)] ==
           config.profiles[i := PutField(mine, c.profiles[i], field)];
  }

  lemma PutHead(config: Config, c: Config)
    requires config.profiles != [] && c.profiles != []
    ensures PutAll(config, c, HEAD_SETTINGS) ==
            config.(scenario := c.scenario, nextWorkloadId := c.nextWorkloadId, activeProfile := c.activeProfile,
                    profiles := Resize(config.profiles, |c.profiles|))
  {
    assert HEAD_SETTINGS[0..] == HEAD_SETTINGS;
    var c1 := Put(config, c, RunScenario);
    var c2 := Put(c1, c, RunNextWorkloadId);
    var c3 := Put(c2, c, RunActiveProfile);
    PutStep(config, c, HEAD_SETTINGS, 0);
    PutStep(c1, c, HEAD_SETTINGS, 1);
    PutStep(c2, c, HEAD_SETTINGS, 2);
    PutStep(c3, c, HEAD_SETTINGS, 3);
  }

  const SHAPE_SETTINGS: seq<Setting> := TAIL_SETTINGS[..4]
  const REPLY_SETTINGS: seq<Setting> := TAIL_SETTINGS[4..8]
  const CHECK_SETTINGS: seq<Setting> := TAIL_SETTINGS[8..]

  lemma PutShape(config: Config, c: Config)
    requires config.profiles != [] && c.profiles != []
    ensures PutAll(config, c, SHAPE_SETTINGS) ==
            config.(payloadBytes := c.payloadBytes, datagramCount := c.datagramCount, pacingMs := c.pacingMs,
                    concurrentFlows := c.concurrentFlows)
  {
    assert SHAPE_SETTINGS[0..] == SHAPE_SETTINGS;
    var c1 := config.(payloadBytes := c.payloadBytes);
    var c2 := c1.(datagramCount := c.datagramCount);
    var c3 := c2.(pacingMs := c.pacingMs);
    PutStep(config, c, SHAPE_SETTINGS, 0);
    PutStep(c1, c, SHAPE_SETTINGS, 1);
    PutStep(c2, c, SHAPE_SETTINGS, 2);
    PutStep(c3, c, SHAPE_SETTINGS, 3);
  }

  lemma PutReplies(config: Config, c: Config)
    requires config.profiles != [] && c.profiles != []
    ensures PutAll(config, c, REPLY_SETTINGS) ==
            config.(udpDeadlineMs := c.udpDeadlineMs, payloadSeed := c.payloadSeed, echoReplies := c.echoReplies,
                    tcpDeadlineMs := c.tcpDeadlineMs)
  {
    assert REPLY_SETTINGS[0..] == REPLY_SETTINGS;
    var c1 := config.(udpDeadlineMs := c.udpDeadlineMs);
    var c2 := c1.(payloadSeed := c.payloadSeed);
    var c3 := c2.(echoReplies := c.echoReplies);
    PutStep(config, c, REPLY_SETTINGS, 0);
    PutStep(c1, c, REPLY_SETTINGS, 1);
    PutStep(c2, c, REPLY_SETTINGS, 2);
    PutStep(c3, c, REPLY_SETTINGS, 3);
  }

  lemma PutChecks(config: Config, c: Config)
    requires config.profiles != [] && c.profiles != []
    ensures PutAll(config, c, CHECK_SETTINGS) ==
            config.(verifyClone := c.verifyClone, verifyMixedBatch := c.verifyMixedBatch,
                    verifyPostRoute := c.verifyPostRoute, expectedOutcome := c.expectedOutcome,
                    requireRecovery := c.requireRecovery)
  {
    assert CHECK_SETTINGS[0..] == CHECK_SETTINGS;
    var c1 := config.(verifyClone := c.verifyClone);
    var c2 := c1.(verifyMixedBatch := c.verifyMixedBatch);
    PutStep(config, c, CHECK_SETTINGS, 0);
    PutStep(c1, c, CHECK_SETTINGS, 1);
    PutSocketChecks(c2, c);
  }

  lemma PutSocketChecks(config: Config, c: Config)
    requires config.profiles != [] && c.profiles != []
    ensures PutAll(config, c, CHECK_SETTINGS[2..]) ==
            config.(verifyPostRoute := c.verifyPostRoute, expectedOutcome := c.expectedOutcome,
                    requireRecovery := c.requireRecovery)
  {
    var next := config.(verifyPostRoute := c.verifyPostRoute);
    assert CHECK_SETTINGS[2] == VerifyPostRouteRejection;
    assert Put(config, c, VerifyPostRouteRejection) == next;
    PutStep(config, c, CHECK_SETTINGS, 2);
    PutOutcomeChecks(next, c);
  }

  lemma PutOutcomeChecks(config: Config, c: Config)
    requires config.profiles != [] && c.profiles != []
    ensures PutAll(config, c, CHECK_SETTINGS[3..]) ==
            config.(expectedOutcome := c.expectedOutcome, requireRecovery := c.requireRecovery)
  {
    PutStep(config, c, CHECK_SETTINGS, 3);
    PutStep(config.(expectedOutcome := c.expectedOutcome), c, CHECK_SETTINGS, 4);
  }

  lemma PutTail(config: Config, c: Config)
    requires config.profiles != [] && c.profiles != []
    ensures PutAll(config, c, TAIL_SETTINGS) ==
            c.(scenario := config.scenario, nextWorkloadId := config.nextWorkloadId,
               activeProfile := config.activeProfile, profiles := config.profiles)
  {
    assert TAIL_SETTINGS == SHAPE_SETTINGS + (REPLY_SETTINGS + CHECK_SETTINGS);
    var shaped := PutAll(config, c, SHAPE_SETTINGS);
    PutAllJoin(config, c, SHAPE_SETTINGS, REPLY_SETTINGS + CHECK_SETTINGS);
    PutShape(config, c);
    var replying := PutAll(shaped, c, REPLY_SETTINGS);
    PutAllJoin(shaped, c, REPLY_SETTINGS, CHECK_SETTINGS);
    PutReplies(shaped, c);
    PutChecks(replying, c);
  }

  lemma PutInSteps(config: Config, c: Config, s1: seq<Setting>, s2: seq<Setting>, s3: seq<Setting>,
                   headed: Config, profiled: Config)
    requires config.profiles != [] && c.profiles != [] && headed.profiles != [] && profiled.profiles != []
    requires PutAll(config, c, s1) == headed && PutAll(headed, c, s2) == profiled && PutAll(profiled, c, s3) == c
    ensures PutAll(config, c, s1 + s2 + s3) == c
  {
    PutAllJoin(config, c, s1 + s2, s3);
    PutAllJoin(config, c, s1, s2);
  }

  function Headed(config: Config, c: Config): Config
    requires config.profiles != []
  {
    config.(scenario := c.scenario, nextWorkloadId := c.nextWorkloadId, activeProfile := c.activeProfile,
            profiles := Resize(config.profiles, |c.profiles|))
  }

  lemma PutTailCompletes(config: Config, c: Config, profiled: Config)
    requires config.profiles != [] && c.profiles != [] && profiled == Headed(config, c).(profiles := c.profiles)
    ensures PutAll(profiled, c, TAIL_SETTINGS) == c
  {
    PutTail(profiled, c);
  }

  /** Storing every printed setting turns any starting configuration into the printed one. */
  lemma PutEverything(config: Config, c: Config)
    requires config.profiles != [] && c.profiles != []
    ensures PutAll(config, c, PrintedSettings(|c.profiles|)) == c
  {
    var headed := Headed(config, c);
    PutHead(config, c);
    PutProfiles(headed, c, |c.profiles|);
    assert c.profiles[..|c.profiles|] + headed.profiles[|c.profiles|..] == c.profiles;
    var profiled := headed.(profiles := c.profiles);
    PutTailCompletes(config, c, profiled);
    PutInSteps(config, c, HEAD_SETTINGS, ProfileSettings(|c.profiles|), TAIL_SETTINGS, headed, profiled);
  }

  lemma ActionsOfLines(f: string -> Action, c: Config, settings: seq<Setting>, lines: seq<string>) returns (actions: seq<Action>)
    requires |lines| == 1 + |settings|
    requires forall i :: 0 <= i < |lines| ==> FitsLine(lines[i])
    requires f(lines[0] + "\n") == Skip
    requires forall i :: 0 <= i < |settings| ==> Prints(c, settings[i], f(lines[i + 1] + "\n"))
    ensures MapLines(f, JoinLines(lines)) == [Skip] + actions
    ensures AllPrint(c, settings, actions)
  {
    MapJoinedLines(f, lines);
    actions := MapLines(f, JoinLines(lines))[1..];
  }

  /** The printed file, seen through the line reader: the header is a comment, then each setting comes once. */
  lemma PrintedActions(c: Config) returns (actions: seq<Action>)
    requires Valid(c) && Clean(c)
    ensures MapLines(Interpret, Print(c)) == [Skip] + actions
    ensures AllPrint(c, PrintedSettings(|c.profiles|), actions)
  {
    var settings := PrintedSettings(|c.profiles|);
    var lines := [HEADER] + SettingLines(c, settings);
    PrintedLinesFit(c, settings);
    HeaderIsPlain();
    CommentIsSkipped(HEADER);
    actions := ActionsOfLines(Interpret, c, settings, lines);
  }

  lemma PrintedLinesFit(c: Config, settings: seq<Setting>)
    requires Valid(c) && Clean(c) && forall s :: s in settings ==> InConfig(c, s)
    ensures forall i :: 0 <= i < |settings| ==> FitsLine(SettingLine(c, settings[i]))
    ensures forall i :: 0 <= i < |settings| ==> Prints(c, settings[i], Interpret(SettingLine(c, settings[i]) + "\n"))
  {
    forall i | 0 <= i < |settings|
      ensures FitsLine(SettingLine(c, settings[i]))
      ensures Prints(c, settings[i], Interpret(SettingLine(c, settings[i]) + "\n"))
    {
      PrintedLineFits(c, settings[i]);
    }
  }

  lemma PerformSettings(r: Reader, c: Config, settings: seq<Setting>, actions: seq<Action>)
    requires r.config.profiles != [] && Valid(c) && Clean(c)
    requires settings == PrintedSettings(|c.profiles|) && AllPrint(c, settings, actions)
    ensures PerformAll(r, actions) == Advance(r, c, |actions|)
  {
    assert InOrder(|r.config.profiles|, |c.profiles|, settings) by {
      var later := ProfileSettings(|c.profiles|) + TAIL_SETTINGS;
      assert settings == HEAD_SETTINGS + later;
      PrintedSettingsInOrder(|r.config.profiles|, |c.profiles|, later);
    }
    PerformAllPrinted(r, c, settings, actions);
    PutEverything(r.config, c);
  }

  lemma SkipThen(r: Reader, actions: seq<Action>)
    requires r.config.profiles != []
    ensures PerformAll(r, [Skip] + actions) == PerformAll(Advance(r, r.config, 1), actions)
  {
    assert ([Skip] + actions)[1..] == actions;
  }

  /**
   * Save and load undo each other. A valid configuration comes back unchanged and without a single diagnostic
   * exactly when its profile names fit the line format.
   */
  lemma SaveLoadRoundTrip(defaults: Config, c: Config)
    requires Valid(defaults) && Clean(defaults) && Valid(c)
    ensures Load(defaults, Contents(Print(c))) == LoadReport(c, true, []) <==> Clean(c)
  {
    if Clean(c) {
      var actions := PrintedActions(c);
      SkipThen(Reader(defaults, false, 0, []), actions);
      PerformSettings(Reader(defaults, false, 1, []), c, PrintedSettings(|c.profiles|), actions);
    } else {
      LoadedConfigIsValidAndClean(defaults, Contents(Print(c)));
    }
  }

  /** Whatever the file held, saving what was loaded and loading it again changes nothing and reports nothing. */
  lemma LoadSaveLoad(defaults: Config, file: FileRead)
    requires Valid(defaults) && Clean(defaults)
    ensures var loaded := Load(defaults, file).config;
            Valid(loaded) && Load(defaults, Contents(Print(loaded))) == LoadReport(loaded, true, [])
  {
    LoadedConfigIsValidAndClean(defaults, file);
    SaveLoadRoundTrip(defaults, Load(defaults, file).config);
  }

  lemma CompiledAddressIsValid()
    ensures IsDottedQuad(COMPILED_DESTINATION)
  {
    assert IsOctet("1") && IsOctet("0") && IsOctet("2") by {
      assert "1"[..0] == "0"[..0] == "2"[..0] == "";
    }
    assert IsOctet("10") by { assert "10"[..1] == "1" && DigitsValue("1") == 1; }
    assert IsQuadOf(COMPILED_DESTINATION, "10", "1", "0", "2");
    QuadIsDotted(COMPILED_DESTINATION, "10", "1", "0", "2");
  }

  lemma SingleProfileConfig(c: Config, name: string, ip: string)
    requires c == CompiledDefaultsAt(name, ip) && 0 < |name| <= MAXIMUM_PROFILE_NAME_LENGTH && IsDottedQuad(ip)
    ensures Valid(c) <==> MAXIMUM_UDP_PAYLOAD_STORAGE_BYTES >= 48
  {
    assert ProfileError(c.profiles[0]).None?;
  }

  lemma CompiledNameIsPlain()
    ensures PlainText(COMPILED_NAME) && 0 < |COMPILED_NAME| <= MAXIMUM_PROFILE_NAME_LENGTH
  {
    assert KeyChars(COMPILED_NAME[1..]);
    assert COMPILED_NAME[0] == 'D' && COMPILED_NAME[6] == 't';
  }

  predicate CompiledEndpoints(c: Config) {
    && |c.profiles| == 1 && c.profiles[0].tunnelIpv4 == c.profiles[0].bsdIpv4
    && c.profiles[0].udpPort == 29000 && c.profiles[0].tcpPort == 28080
  }

  lemma CompiledEndpoint()
    ensures CompiledEndpoints(CompiledRuntimeDefaults())
  {
  }

  /** The compiled configuration can serve as the defaults exactly when the protocol has room for its 48-byte payload. */
  lemma CompiledDefaultsAreValid()
    ensures Clean(CompiledRuntimeDefaults())
    ensures Valid(CompiledRuntimeDefaults()) <==> MAXIMUM_UDP_PAYLOAD_STORAGE_BYTES >= 48
    ensures CompiledEndpoints(CompiledRuntimeDefaults())
  {
    CompiledEndpoint();
    CompiledNameIsPlain();
    CompiledAddressIsValid();
    SingleProfileConfig(CompiledRuntimeDefaults(), COMPILED_NAME, COMPILED_DESTINATION);
  }
}
