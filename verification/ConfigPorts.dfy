/**
 * What becomes of a port of 0: it is stored although the line is reported, and the whole file falls back to the
 * defaults unless a later line stores another port in the same place.
 */
module ConfigPorts {
  import opened Bytes
  import opened ConfigFile
  import opened Lines
  import opened RuntimeConfig
  import opened Text
  import opened Wrappers

  datatype Protocol = Udp | Tcp

  function PortOf(profile: Profile, protocol: Protocol): u16 {
    match protocol case Udp => profile.udpPort case Tcp => profile.tcpPort
  }

  function FieldOf(protocol: Protocol): ProfileField {
    match protocol case Udp => UdpPort case Tcp => TcpPort
  }

  /** The setting stores a port of 0 where there was another one. */
  predicate ZeroesAPort(c: Config, recognized: Recognized, value: string) {
    match recognized
    case Current(ProfileSetting(i, field)) =>
      && i < |c.profiles| && ParseU16(value) == Some(0)
      && ((field == UdpPort && c.profiles[i].udpPort != 0) || (field == TcpPort && c.profiles[i].tcpPort != 0))
    case Legacy(LegacyDestinationPort) =>
      c.activeProfile < |c.profiles| && ParseU16(value) == Some(0) && c.profiles[c.activeProfile].udpPort != 0
    case _ => false
  }

  lemma RejectedProfileField(c: Config, i: nat, field: ProfileField, value: string)
    requires i < |c.profiles| && ApplyProfileField(c, i, field, value).error.Some?
    ensures ApplyProfileField(c, i, field, value).config == c
        <==> !ZeroesAPort(c, Current(ProfileSetting(i, field)), value)
  {
    match ProfileUpdate(c.profiles[i], field, value)
    case None =>
    case Some(profile) => assert WithProfile(c, i, profile).profiles[i] == profile;
  }

  lemma RejectedLegacy(c: Config, legacy: LegacySetting, value: string)
    requires c.profiles != [] && ApplyLegacy(c, legacy, value).error.Some?
    ensures ApplyLegacy(c, legacy, value).config == c <==> !ZeroesAPort(c, Legacy(legacy), value)
  {
  }

  /** A rejected setting leaves the configuration as it was exactly when it does not store a port of 0. */
  lemma RejectedChangesNothingIff(c: Config, recognized: Recognized, value: string)
    requires c.profiles != [] && ApplyRecognized(c, recognized, value).error.Some?
    ensures ApplyRecognized(c, recognized, value).config == c <==> !ZeroesAPort(c, recognized, value)
  {
    match recognized
    case Current(ProfileSetting(i, field)) =>
      if i < |c.profiles| {
        RejectedProfileField(c, i, field, value);
      }
    case Current(setting) =>
    case UnknownProfileField(index) =>
    case Legacy(legacy) => RejectedLegacy(c, legacy, value);
    case Unknown =>
  }

  // Which line decides a port.

  /** The port that a line stores for profile `i`, if it stores one. */
  function StoredPort(c: Config, action: Action, i: nat, protocol: Protocol): Option<u16> {
    if !action.Assign? || i >= |c.profiles| then None else
      match action.recognized
      case Current(ProfileSetting(index, field)) =>
        if index == i && field == FieldOf(protocol) then ParseU16(action.value) else None
      case Legacy(LegacyDestinationPort) =>
        if protocol == Udp && c.activeProfile == i then ParseU16(action.value) else None
      case _ => None
  }

  function StateAt(r: Reader, actions: seq<Action>, n: nat): (s: Reader)
    requires r.config.profiles != [] && n <= |actions|
    ensures s.config.profiles != []
  {
    if n == 0 then r else Perform(StateAt(r, actions, n - 1), actions[n - 1])
  }

  /**
   * The port of profile `i` read off the lines: what the last line stored that stored one, in this profile or, for
   * a profile made by a larger profile count, in the first one before it was copied.
   */
  function LastStored(r: Reader, actions: seq<Action>, n: nat, i: nat, protocol: Protocol): u16
    requires r.config.profiles != [] && n <= |actions| && i < |StateAt(r, actions, n).config.profiles|
  {
    if n == 0 then PortOf(r.config.profiles[i], protocol) else
      var before := StateAt(r, actions, n - 1).config;
      match StoredPort(before, actions[n - 1], i, protocol)
      case Some(port) => port
      case None => LastStored(r, actions, n - 1, if i < |before.profiles| then i else 0, protocol)
  }

  /** Profile `i` after a setting keeps its port unless the setting stores one; a new profile copies the first. */
  predicate PortFollows(c: Config, d: Config, i: nat, protocol: Protocol, stored: Option<u16>)
    requires c.profiles != []
  {
    i < |d.profiles| ==>
      PortOf(d.profiles[i], protocol)
      == (if stored.Some? then stored.value else PortOf(c.profiles[if i < |c.profiles| then i else 0], protocol))
  }

  lemma UpdatedPort(profile: Profile, field: ProfileField, value: string, protocol: Protocol)
    ensures
      var next := ProfileUpdate(profile, field, value);
      && (field == FieldOf(protocol) ==> next.Some? == ParseU16(value).Some?)
      && (next.Some? ==>
            PortOf(next.value, protocol)
            == (if field == FieldOf(protocol) then ParseU16(value).value else PortOf(profile, protocol)))
  {
  }

  lemma FieldStores(c: Config, index: nat, field: ProfileField, value: string, i: nat, protocol: Protocol)
    requires index < |c.profiles| && i < |c.profiles|
    ensures PortFollows(c, ApplyProfileField(c, index, field, value).config, i, protocol,
      if index == i && field == FieldOf(protocol) then ParseU16(value) else None)
  {
    UpdatedPort(c.profiles[index], field, value, protocol);
    var next := ProfileUpdate(c.profiles[index], field, value);
    if next.Some? {
      assert ApplyProfileField(c, index, field, value).config.profiles == c.profiles[index := next.value];
    }
  }

  lemma CurrentStores(c: Config, setting: Setting, value: string, i: nat, protocol: Protocol)
    requires c.profiles != []
    ensures PortFollows(c, ApplyCurrent(c, setting, value).config, i, protocol,
      if setting.ProfileSetting? && i < |c.profiles| && setting.index == i && setting.field == FieldOf(protocol)
      then ParseU16(value) else None)
  {
    if setting.ProfileSetting? {
      if setting.index < |c.profiles| && i < |c.profiles| {
        FieldStores(c, setting.index, setting.field, value, i, protocol);
      }
    } else if IsScalar(setting) {
      assert ApplyCurrent(c, setting, value) == RuntimeConfig.Store(c, ScalarUpdate(c, setting, value));
    }
  }

  lemma LegacyStores(c: Config, legacy: LegacySetting, value: string, i: nat, protocol: Protocol)
    requires c.profiles != [] && i < |c.profiles|
    ensures PortFollows(c, ApplyLegacy(c, legacy, value).config, i, protocol,
      if legacy.LegacyDestinationPort? && protocol == Udp && c.activeProfile == i then ParseU16(value) else None)
  {
    if c.activeProfile < |c.profiles| && LegacyUpdate(c, c.activeProfile, legacy, value).Some? {
      LegacyUpdateStores(c, c.activeProfile, legacy, value, i, protocol);
    }
  }

  lemma LegacyUpdateStores(c: Config, index: nat, legacy: LegacySetting, value: string, i: nat, protocol: Protocol)
    requires index < |c.profiles| && i < |c.profiles| && LegacyUpdate(c, index, legacy, value).Some?
    ensures PortFollows(c, LegacyUpdate(c, index, legacy, value).value, i, protocol,
      if legacy.LegacyDestinationPort? && protocol == Udp && index == i then ParseU16(value) else None)
  {
  }

  lemma OneLine(r: Reader, action: Action, i: nat, protocol: Protocol)
    requires r.config.profiles != []
    ensures PortFollows(r.config, Perform(r, action).config, i, protocol, StoredPort(r.config, action, i, protocol))
  {
    if action.Assign? {
      match action.recognized
      case Current(setting) => CurrentStores(r.config, setting, action.value, i, protocol);
      case Legacy(legacy) =>
        if i < |r.config.profiles| {
          LegacyStores(r.config, legacy, action.value, i, protocol);
        }
      case _ =>
    }
  }

  lemma LineDecides(before: Reader, action: Action, after: Reader, i: nat, protocol: Protocol)
    requires before.config.profiles != [] && after == Perform(before, action) && i < |after.config.profiles|
    ensures PortOf(after.config.profiles[i], protocol)
      == match StoredPort(before.config, action, i, protocol)
         case Some(port) => port
         case None => PortOf(before.config.profiles[if i < |before.config.profiles| then i else 0], protocol)
  {
    OneLine(before, action, i, protocol);
  }

  lemma {:induction false} PortIsLastStored(r: Reader, actions: seq<Action>, n: nat, i: nat, protocol: Protocol)
    requires r.config.profiles != [] && n <= |actions| && i < |StateAt(r, actions, n).config.profiles|
    ensures PortOf(StateAt(r, actions, n).config.profiles[i], protocol) == LastStored(r, actions, n, i, protocol)
  {
    if n > 0 {
      var before := StateAt(r, actions, n - 1);
      LineDecides(before, actions[n - 1], StateAt(r, actions, n), i, protocol);
      if StoredPort(before.config, actions[n - 1], i, protocol) == None {
        PortIsLastStored(r, actions, n - 1, if i < |before.config.profiles| then i else 0, protocol);
      }
    }
  }

  lemma PerformOneMore(r: Reader, actions: seq<Action>, action: Action, longer: seq<Action>)
    requires r.config.profiles != [] && longer == actions + [action]
    ensures PerformAll(r, longer) == Perform(PerformAll(r, actions), action)
  {
    PerformAllJoin(r, actions, [action]);
    var last := PerformAll(r, actions);
    assert [action][1..] == [];
    assert PerformAll(Perform(last, action), []) == Perform(last, action);
  }

  lemma {:induction false} StateIsPerformed(r: Reader, actions: seq<Action>, n: nat, first: seq<Action>)
    requires r.config.profiles != [] && n <= |actions| && first == actions[..n]
    ensures PerformAll(r, first) == StateAt(r, actions, n)
  {
    if n > 0 {
      var before := actions[..n - 1];
      StateIsPerformed(r, actions, n - 1, before);
      PerformOneMore(r, before, actions[n - 1], first);
    }
  }

  // When the file falls back.

  function Filled(profile: Profile): Profile {
    profile.(udpPort := if profile.udpPort == 0 then 1 else profile.udpPort,
             tcpPort := if profile.tcpPort == 0 then 1 else profile.tcpPort)
  }

  /** The configuration with any other port in place of each port of 0. */
  function PortsFilled(c: Config): Config {
    c.(profiles := seq(|c.profiles|, i requires 0 <= i < |c.profiles| => Filled(c.profiles[i])))
  }

  predicate SomePortIsZero(c: Config) {
    exists i :: 0 <= i < |c.profiles| && (c.profiles[i].udpPort == 0 || c.profiles[i].tcpPort == 0)
  }

  lemma FilledError(profile: Profile)
    ensures ProfileError(profile).None?
      <==> ProfileError(Filled(profile)).None? && profile.udpPort != 0 && profile.tcpPort != 0
  {
  }

  lemma ValidUpToPorts(c: Config)
    ensures Valid(c) <==> Valid(PortsFilled(c)) && !SomePortIsZero(c)
  {
    var filled := PortsFilled(c);
    forall i | 0 <= i < |c.profiles|
      ensures ProfileError(c.profiles[i]).None?
        <==> ProfileError(filled.profiles[i]).None? && c.profiles[i].udpPort != 0 && c.profiles[i].tcpPort != 0
    {
      FilledError(c.profiles[i]);
    }
    assert BehaviourError(filled) == BehaviourError(c);
  }

  /** The last port that the lines stored for profile `i` is 0. */
  predicate ZeroAt(r: Reader, actions: seq<Action>, i: nat)
    requires r.config.profiles != []
  {
    && i < |StateAt(r, actions, |actions|).config.profiles|
    && (LastStored(r, actions, |actions|, i, Udp) == 0 || LastStored(r, actions, |actions|, i, Tcp) == 0)
  }

  predicate LeavesZeroPort(r: Reader, actions: seq<Action>)
    requires r.config.profiles != []
  {
    exists i :: 0 <= i < |StateAt(r, actions, |actions|).config.profiles| && ZeroAt(r, actions, i)
  }

  predicate EndsInvalid(report: LoadReport) {
    report.diagnostics != [] && report.diagnostics[|report.diagnostics| - 1].InvalidConfiguration?
  }

  lemma ZeroAtIs(r: Reader, actions: seq<Action>, i: nat, profile: Profile)
    requires r.config.profiles != [] && i < |StateAt(r, actions, |actions|).config.profiles|
    requires profile == StateAt(r, actions, |actions|).config.profiles[i]
    ensures ZeroAt(r, actions, i) <==> profile.udpPort == 0 || profile.tcpPort == 0
  {
    PortIsLastStored(r, actions, |actions|, i, Udp);
    PortIsLastStored(r, actions, |actions|, i, Tcp);
  }

  lemma ZeroPortIsLeft(r: Reader, actions: seq<Action>, profiles: seq<Profile>)
    requires r.config.profiles != [] && profiles == StateAt(r, actions, |actions|).config.profiles
    ensures LeavesZeroPort(r, actions)
      <==> exists i :: 0 <= i < |profiles| && (profiles[i].udpPort == 0 || profiles[i].tcpPort == 0)
  {
    forall i | 0 <= i < |profiles|
      ensures ZeroAt(r, actions, i) <==> profiles[i].udpPort == 0 || profiles[i].tcpPort == 0
    {
      ZeroAtIs(r, actions, i, profiles[i]);
    }
  }

  /**
   * When a whole file falls back to the defaults, for every text: exactly when it ends with something else invalid,
   * or the last port stored for some profile, under any of the three keys, is 0. Otherwise every line counts.
   */
  lemma FileFallsBackIff(defaults: Config, text: string)
    requires defaults.profiles != []
    ensures
      var r, actions := Reader(defaults, false, 0, []), MapLines(Interpret, text);
      var final, report := StateAt(r, actions, |actions|).config, Load(defaults, Contents(text));
      if !Valid(PortsFilled(final)) || LeavesZeroPort(r, actions) then report.config == defaults && EndsInvalid(report)
      else report.config == final
  {
    var r, actions := Reader(defaults, false, 0, []), MapLines(Interpret, text);
    assert actions[..|actions|] == actions;
    StateIsPerformed(r, actions, |actions|, actions);
    ZeroPortIsLeft(r, actions, StateAt(r, actions, |actions|).config.profiles);
    ValidUpToPorts(StateAt(r, actions, |actions|).config);
  }

  function UdpPortLine(index: nat, value: string): Action {
    Assign(KeyText(ProfileSetting(index, UdpPort)), Current(ProfileSetting(index, UdpPort)), value)
  }

  lemma ZeroAndFive()
    ensures ParseU16("0") == Some(0) && ParseU16("5") == Some(5)
  {
    assert "0"[..0] == "" && "5"[..0] == "";
    assert DigitsValue("0") == 0 && DigitsValue("5") == 5;
  }

  /** From a valid configuration, a line with port 0 alone makes the file fall back; a line with port 5 after it repairs that. */
  lemma LaterLineRepairs(defaults: Config, r: Reader, index: nat)
    requires Valid(r.config) && index < |r.config.profiles| && defaults.profiles != []
    ensures
      var zero, five := UdpPortLine(index, "0"), UdpPortLine(index, "5");
      && Finish(defaults, Perform(r, zero)).config == defaults
      && Finish(defaults, Perform(Perform(r, zero), five)).config
        == WithProfile(r.config, index, r.config.profiles[index].(udpPort := 5))
  {
    ZeroAndFive();
    var zero, five := UdpPortLine(index, "0"), UdpPortLine(index, "5");
    var poisoned := Perform(r, zero);
    assert poisoned.config.profiles[index].udpPort == 0;
    assert SomePortIsZero(poisoned.config);
    ValidUpToPorts(poisoned.config);
    var repaired := Perform(poisoned, five);
    var want := WithProfile(r.config, index, r.config.profiles[index].(udpPort := 5));
    assert repaired.config.profiles == want.profiles;
    OtherPortIsValid(r.config, index);
  }

  lemma OtherPortIsValid(c: Config, index: nat)
    requires Valid(c) && index < |c.profiles|
    ensures Valid(WithProfile(c, index, c.profiles[index].(udpPort := 5)))
  {
    var d := WithProfile(c, index, c.profiles[index].(udpPort := 5));
    forall i | 0 <= i < |d.profiles| ensures ProfileError(d.profiles[i]).None? {
      assert ProfileError(c.profiles[i]).None?;
    }
    assert BehaviourError(d) == BehaviourError(c);
  }
}
