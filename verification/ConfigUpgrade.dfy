/**
 * Bringing a whole file up to date: each line of an earlier version replaced by its current form. The upgraded file
 * configures the same and is no longer reported as an old one.
 */
module ConfigUpgrade {
  import opened Bytes
  import opened ConfigFile
  import opened ConfigLegacy
  import opened Lines
  import opened RuntimeConfig
  import opened Text
  import opened Wrappers

  // Actions.

  function ActionOf(entry: Entry): Action {
    Assign(entry.key, Recognize(entry.key), entry.value)
  }

  /** The actions of at most two entries; a line that says nothing becomes a comment. */
  function ActionsOf(entries: seq<Entry>): seq<Action>
    requires |entries| <= 2
  {
    if entries == [] then [Skip]
    else if |entries| == 1 then [ActionOf(entries[0])]
    else [ActionOf(entries[0]), ActionOf(entries[1])]
  }

  predicate Outdated(c: Config, action: Action) {
    action.Assign? && action.recognized.Legacy? && HasActive(c)
  }

  function Upgraded(c: Config, action: Action): seq<Action> {
    if Outdated(c, action) then ActionsOf(CurrentForm(c.activeProfile, action.recognized.legacy, action.value)) else [action]
  }

  /** Every line upgraded for the profile that is active when the reader comes to it. */
  function UpgradedAll(r: Reader, actions: seq<Action>): seq<Action>
    requires r.config.profiles != []
    decreases |actions|
  {
    if actions == [] then [] else Upgraded(r.config, actions[0]) + UpgradedAll(Perform(r, actions[0]), actions[1..])
  }

  // What is left to compare when rejections and the migration notice are set aside.

  function Told(d: Diagnostic): seq<Diagnostic> {
    match d
    case Rejected(_, _, _) => []
    case LegacyLoaded => []
    case NoSeparator(_) => [NoSeparator(0)]
    case EmptyKeyOrValue(_) => [EmptyKeyOrValue(0)]
    case _ => [d]
  }

  /** All other diagnostics in order, without their line numbers. */
  function Tells(ds: seq<Diagnostic>): seq<Diagnostic> {
    if ds == [] then [] else Tells(ds[..|ds| - 1]) + Told(ds[|ds| - 1])
  }

  predicate Rejects(ds: seq<Diagnostic>) {
    exists i :: 0 <= i < |ds| && ds[i].Rejected?
  }

  lemma OneMoreTold(ds: seq<Diagnostic>, d: Diagnostic, longer: seq<Diagnostic>)
    requires longer == ds + [d]
    ensures Tells(longer) == Tells(ds) + Told(d) && (Rejects(longer) <==> Rejects(ds) || d.Rejected?)
  {
    assert longer[..|longer| - 1] == ds && longer[|ds|] == d;
    if Rejects(ds) {
      var i :| 0 <= i < |ds| && ds[i].Rejected?;
      assert longer[i].Rejected?;
    }
  }

  /** The same configuration, the same other diagnostics, and rejections in one exactly when there are in the other. */
  predicate Alike(r: Reader, q: Reader) {
    && r.config == q.config && Tells(r.diagnostics) == Tells(q.diagnostics)
    && (Rejects(r.diagnostics) <==> Rejects(q.diagnostics))
  }

  lemma Accepted(r: Reader, action: Action, applied: Applied, next: Reader)
    requires r.config.profiles != [] && action.Assign? && next == Perform(r, action)
    requires applied == ApplyRecognized(r.config, action.recognized, action.value) && applied.error.None?
    ensures next.config == applied.config && next.migrated == (r.migrated || applied.migrated)
    ensures next.diagnostics == r.diagnostics
  {
    assert r.diagnostics + [] == r.diagnostics;
  }

  lemma Refused(r: Reader, action: Action, applied: Applied, next: Reader)
    requires r.config.profiles != [] && action.Assign? && next == Perform(r, action)
    requires applied == ApplyRecognized(r.config, action.recognized, action.value) && applied.error.Some?
    ensures next.config == applied.config && next.migrated == (r.migrated || applied.migrated)
    ensures next.diagnostics == r.diagnostics + [Rejected(r.lineNumber + 1, action.key, applied.error.value)]
  {
  }

  /** One setting: what it does to the reader. */
  lemma Assigns(r: Reader, action: Action, applied: Applied, next: Reader)
    requires r.config.profiles != [] && action.Assign? && next == Perform(r, action)
    requires applied == ApplyRecognized(r.config, action.recognized, action.value)
    ensures next.config == applied.config && next.migrated == (r.migrated || applied.migrated)
    ensures Tells(next.diagnostics) == Tells(r.diagnostics)
    ensures Rejects(next.diagnostics) <==> Rejects(r.diagnostics) || applied.error.Some?
  {
    if applied.error.Some? {
      Refused(r, action, applied, next);
      OneMoreTold(r.diagnostics, Rejected(r.lineNumber + 1, action.key, applied.error.value), next.diagnostics);
    } else {
      Accepted(r, action, applied, next);
    }
  }

  lemma PerformTwo(r: Reader, a: Action, b: Action)
    requires r.config.profiles != []
    ensures PerformAll(r, [a]) == Perform(r, a)
    ensures PerformAll(r, [a, b]) == Perform(Perform(r, a), b)
  {
    assert [a][1..] == [] && [a, b][1..] == [b] && [b][1..] == [];
    assert PerformAll(Perform(Perform(r, a), b), []) == Perform(Perform(r, a), b);
    assert PerformAll(Perform(r, a), [b]) == PerformAll(Perform(Perform(r, a), b), []);
  }

  lemma CurrentNeverMigrates(c: Config, recognized: Recognized, value: string)
    requires c.profiles != []
    ensures ApplyRecognized(c, recognized, value).migrated ==> recognized.Legacy? && HasActive(c)
  {
  }

  lemma PlainLineAlike(r: Reader, q: Reader, action: Action)
    requires r.config.profiles != [] && Alike(r, q) && !action.Assign?
    ensures Alike(Perform(r, action), Perform(q, action)) && Perform(q, action).migrated == q.migrated
  {
    var m, n := r.lineNumber + 1, q.lineNumber + 1;
    match action
    case Skip =>
    case Separatorless =>
      OneMoreTold(r.diagnostics, NoSeparator(m), Perform(r, action).diagnostics);
      OneMoreTold(q.diagnostics, NoSeparator(n), Perform(q, action).diagnostics);
    case Incomplete =>
      OneMoreTold(r.diagnostics, EmptyKeyOrValue(m), Perform(r, action).diagnostics);
      OneMoreTold(q.diagnostics, EmptyKeyOrValue(n), Perform(q, action).diagnostics);
  }

  lemma SettingAlike(r: Reader, q: Reader, action: Action)
    requires r.config.profiles != [] && Alike(r, q) && !q.migrated && action.Assign? && !Outdated(r.config, action)
    ensures Alike(Perform(r, action), Perform(q, action)) && !Perform(q, action).migrated
  {
    var applied := ApplyRecognized(r.config, action.recognized, action.value);
    CurrentNeverMigrates(r.config, action.recognized, action.value);
    Assigns(r, action, applied, Perform(r, action));
    Assigns(q, action, applied, Perform(q, action));
  }

  /** The entries performed one after the other. */
  lemma EntriesPerform(q: Reader, entries: seq<Entry>, config: Config, accepted: bool)
    requires q.config.profiles != [] && |entries| <= 2 && !q.migrated && Amounts(q.config, entries, config, accepted)
    ensures
      var after := PerformAll(q, ActionsOf(entries));
      && after.config == config && !after.migrated && Tells(after.diagnostics) == Tells(q.diagnostics)
      && (Rejects(after.diagnostics) <==> Rejects(q.diagnostics) || !accepted)
  {
    if entries == [] {
      PerformTwo(q, Skip, Skip);
    } else {
      var a := ActionOf(entries[0]);
      Assigns(q, a, Assigned(q.config, entries[0]), Perform(q, a));
      PerformTwo(q, a, a);
      if |entries| == 2 {
        var b := ActionOf(entries[1]);
        PerformTwo(q, a, b);
        Assigns(Perform(q, a), b, Assigned(Perform(q, a).config, entries[1]), Perform(Perform(q, a), b));
      }
    }
  }

  lemma OutdatedAlike(r: Reader, q: Reader, action: Action)
    requires r.config.profiles != [] && Alike(r, q) && !q.migrated && Outdated(r.config, action)
    ensures Alike(Perform(r, action), PerformAll(q, Upgraded(r.config, action)))
    ensures !PerformAll(q, Upgraded(r.config, action)).migrated
  {
    var legacy := action.recognized.legacy;
    var applied := ApplyLegacy(r.config, legacy, action.value);
    var entries := CurrentForm(r.config.activeProfile, legacy, action.value);
    LegacyActsAsCurrent(r.config, legacy, action.value);
    Assigns(r, action, applied, Perform(r, action));
    EntriesPerform(q, entries, applied.config, Accepts(applied));
  }

  lemma LineAlike(r: Reader, q: Reader, action: Action)
    requires r.config.profiles != [] && Alike(r, q) && !q.migrated
    ensures Alike(Perform(r, action), PerformAll(q, Upgraded(r.config, action)))
    ensures !PerformAll(q, Upgraded(r.config, action)).migrated
  {
    if Outdated(r.config, action) {
      OutdatedAlike(r, q, action);
    } else {
      PerformTwo(q, action, action);
      if action.Assign? {
        SettingAlike(r, q, action);
      } else {
        PlainLineAlike(r, q, action);
      }
    }
  }

  /** A reader of the upgraded lines stays alike, and never sees an old file. */
  lemma {:induction false} UpgradedPerformsAlike(r: Reader, q: Reader, actions: seq<Action>)
    requires r.config.profiles != [] && Alike(r, q) && !q.migrated
    ensures Alike(PerformAll(r, actions), PerformAll(q, UpgradedAll(r, actions)))
    ensures !PerformAll(q, UpgradedAll(r, actions)).migrated
    decreases |actions|
  {
    if actions != [] {
      var first := Upgraded(r.config, actions[0]);
      LineAlike(r, q, actions[0]);
      UpgradedPerformsAlike(Perform(r, actions[0]), PerformAll(q, first), actions[1..]);
      PerformAllJoin(q, first, UpgradedAll(Perform(r, actions[0]), actions[1..]));
    }
  }

  // Files.

  /** The lines of one entry list as text. */
  function Texts(entries: seq<Entry>): seq<string>
    requires |entries| <= 2
  {
    if entries == [] then ["#"]
    else if |entries| == 1 then [entries[0].key + "=" + entries[0].value]
    else [entries[0].key + "=" + entries[0].value, entries[1].key + "=" + entries[1].value]
  }

  /** The line, which asks for this action, in its current form. */
  function UpgradedText(c: Config, line: string, action: Action): seq<string> {
    if Outdated(c, action) then Texts(CurrentForm(c.activeProfile, action.recognized.legacy, action.value)) else [line]
  }

  function UpgradedLine(c: Config, line: string): seq<string> {
    UpgradedText(c, line, Interpret(line + "\n"))
  }

  function UpgradedLines(r: Reader, lines: seq<string>): seq<string>
    requires r.config.profiles != []
    decreases |lines|
  {
    if lines == [] then [] else
      UpgradedLine(r.config, lines[0]) + UpgradedLines(Perform(r, Interpret(lines[0] + "\n")), lines[1..])
  }

  function InterpretAll(lines: seq<string>): (actions: seq<Action>)
    ensures |actions| == |lines|
  {
    if lines == [] then [] else [Interpret(lines[0] + "\n")] + InterpretAll(lines[1..])
  }

  lemma {:induction false} InterpretJoin(a: seq<string>, b: seq<string>)
    ensures InterpretAll(a + b) == InterpretAll(a) + InterpretAll(b)
  {
    if a == [] {
      assert a + b == b;
    } else {
      assert (a + b)[1..] == a[1..] + b;
      InterpretJoin(a[1..], b);
    }
  }

  lemma {:induction false} FileActions(lines: seq<string>)
    requires forall i :: 0 <= i < |lines| ==> FitsLine(lines[i])
    ensures MapLines(Interpret, JoinLines(lines)) == InterpretAll(lines)
  {
    if lines != [] {
      MapFirstLine(Interpret, lines[0], JoinLines(lines[1..]), JoinLines(lines));
      FileActions(lines[1..]);
    }
  }

  lemma EntryReads(entry: Entry)
    requires PlainKey(entry.key) && PlainText(entry.value) && entry.value != ""
    ensures Interpret(entry.key + "=" + entry.value + "\n") == ActionOf(entry)
  {
    var line := entry.key + "=" + entry.value;
    InterpretPrintedLine(entry.key, entry.value, line, line + "\n");
  }

  lemma CommentReads()
    ensures Interpret("#" + "\n") == Skip
  {
    CommentIsSkipped("#");
  }

  /** The keys of the current form are plain, and so are its values when the old value was. */
  predicate PlainEntry(entry: Entry) {
    PlainKey(entry.key) && PlainText(entry.value) && entry.value != ""
  }

  predicate PlainEntries(entries: seq<Entry>) {
    forall i :: 0 <= i < |entries| ==> PlainEntry(entries[i])
  }

  lemma OneRead(one: string)
    ensures InterpretAll([one]) == [Interpret(one + "\n")]
  {
    assert [one][1..] == [];
  }

  lemma TextsRead(entries: seq<Entry>)
    requires |entries| <= 2 && PlainEntries(entries)
    ensures InterpretAll(Texts(entries)) == ActionsOf(entries)
  {
    if entries == [] {
      CommentReads();
      OneRead("#");
    } else {
      var first := entries[0].key + "=" + entries[0].value;
      EntryReads(entries[0]);
      OneRead(first);
      if |entries| == 2 {
        var second := entries[1].key + "=" + entries[1].value;
        EntryReads(entries[1]);
        OneRead(second);
        InterpretJoin([first], [second]);
        assert [first] + [second] == Texts(entries);
      }
    }
  }

  lemma SwitchedIsPlain(legacy: LegacySetting, value: string)
    requires IsSwitch(legacy) && PlainText(value) && value != ""
    ensures PlainEntries(CurrentForm(0, legacy, value))
  {
    SwitchForm(0, legacy, value);
    HeadKeyChars(RunScenario);
    KeyCharsArePlain("run.scenario");
    ScenarioIsPlain(SwitchScenario(legacy));
    SwitchKeyChars(legacy);
    KeyCharsArePlain(LegacyKey(legacy));
  }

  lemma SwitchKeyChars(legacy: LegacySetting)
    requires IsSwitch(legacy)
    ensures KeyChars(LegacyKey(legacy))
  {
  }

  lemma SwitchedAnywhere(active: nat, legacy: LegacySetting, value: string)
    requires IsSwitch(legacy)
    ensures CurrentForm(active, legacy, value) == CurrentForm(0, legacy, value)
  {
  }

  lemma ProfileEntryIsPlain(index: nat, field: ProfileField, value: string)
    requires index < 0x1_0000_0000_0000_0000 && PlainText(value) && value != ""
    ensures PlainEntry(Entry(ProfileKey(index, ProfileFieldText(field)), value))
  {
    ProfileKeyIsPlain(index, field);
    assert ProfileKey(index, ProfileFieldText(field)) == KeyText(ProfileSetting(index, field));
  }

  lemma CurrentFormIsPlain(active: u64, legacy: LegacySetting, value: string)
    requires PlainText(value) && value != ""
    ensures PlainEntries(CurrentForm(active, legacy, value))
  {
    if IsSwitch(legacy) {
      SwitchedIsPlain(legacy, value);
      SwitchedAnywhere(active, legacy, value);
    } else if IsEndpoint(legacy) {
      EndpointFormIsPlain(active, legacy, value, CurrentForm(active, legacy, value));
    } else {
      RenamedForm(active, legacy, value);
      ScalarKeyIsPlain(SettingOf(legacy));
    }
  }

  lemma EndpointFormIsPlain(active: u64, legacy: LegacySetting, value: string, entries: seq<Entry>)
    requires IsEndpoint(legacy) && PlainText(value) && value != "" && entries == CurrentForm(active, legacy, value)
    ensures PlainEntries(entries)
  {
    ProfileEntryIsPlain(active, TunnelIpv4, value);
    ProfileEntryIsPlain(active, BsdIpv4, value);
    ProfileEntryIsPlain(active, UdpPort, value);
  }

  lemma AssignedValueIsPlain(line: string, action: Action)
    requires FitsLine(line) && action == Interpret(line + "\n") && action.Assign?
    ensures PlainText(action.value) && action.value != ""
  {
    assert forall k :: 0 <= k < |line| ==> (line + "\n")[k] == line[k];
    InterpretIsPlain(line + "\n");
  }

  lemma OneLineReads(line: string, action: Action)
    requires action == Interpret(line + "\n")
    ensures InterpretAll([line]) == [action]
  {
    assert [line][1..] == [] && InterpretAll([]) == [];
  }

  lemma UpgradedTextReads(c: Config, line: string, action: Action)
    requires InterpretAll([line]) == [action] && (action.Assign? ==> PlainText(action.value) && action.value != "")
    ensures InterpretAll(UpgradedText(c, line, action)) == Upgraded(c, action)
  {
    if Outdated(c, action) {
      CurrentFormIsPlain(c.activeProfile, action.recognized.legacy, action.value);
      TextsRead(CurrentForm(c.activeProfile, action.recognized.legacy, action.value));
    }
  }

  lemma UpgradedLineReads(c: Config, line: string, action: Action)
    requires FitsLine(line) && action == Interpret(line + "\n")
    ensures InterpretAll(UpgradedLine(c, line)) == Upgraded(c, action)
  {
    OneLineReads(line, action);
    if action.Assign? {
      AssignedValueIsPlain(line, action);
    }
    UpgradedTextReads(c, line, action);
  }

  lemma {:induction false} UpgradedLinesRead(r: Reader, lines: seq<string>)
    requires r.config.profiles != [] && forall i :: 0 <= i < |lines| ==> FitsLine(lines[i])
    ensures InterpretAll(UpgradedLines(r, lines)) == UpgradedAll(r, InterpretAll(lines))
    decreases |lines|
  {
    if lines != [] {
      var action := Interpret(lines[0] + "\n");
      UpgradedLineReads(r.config, lines[0], action);
      UpgradedLinesRead(Perform(r, action), lines[1..]);
      InterpretJoin(UpgradedLine(r.config, lines[0]), UpgradedLines(Perform(r, action), lines[1..]));
      assert InterpretAll(lines)[1..] == InterpretAll(lines[1..]);
    }
  }

  /** The same loaded configuration and the same other diagnostics; rejections in both or in neither. */
  predicate LoadsAlike(old_: LoadReport, now: LoadReport) {
    && old_.config == now.config && old_.loadedFromFile == now.loadedFromFile
    && Tells(old_.diagnostics) == Tells(now.diagnostics)
    && (Rejects(old_.diagnostics) <==> Rejects(now.diagnostics))
  }

  /** The diagnostics at the end of a file: the migration notice, if any, and what makes the result invalid, if anything. */
  function Closing(ds: seq<Diagnostic>, migrated: bool, error: Option<ConfigError>): seq<Diagnostic> {
    var noticed := if migrated then ds + [LegacyLoaded] else ds;
    if error.Some? then noticed + [InvalidConfiguration(error.value)] else noticed
  }

  lemma ClosingTells(ds: seq<Diagnostic>, migrated: bool, error: Option<ConfigError>)
    ensures Tells(Closing(ds, migrated, error)) == Tells(ds) + if error.Some? then [InvalidConfiguration(error.value)] else []
    ensures Rejects(Closing(ds, migrated, error)) <==> Rejects(ds)
  {
    var noticed := if migrated then ds + [LegacyLoaded] else ds;
    if migrated {
      OneMoreTold(ds, LegacyLoaded, noticed);
    }
    if error.Some? {
      OneMoreTold(noticed, InvalidConfiguration(error.value), noticed + [InvalidConfiguration(error.value)]);
    }
  }

  lemma FinishCloses(defaults: Config, r: Reader)
    ensures
      var error := ValidateRuntimeConfig(r.config);
      Finish(defaults, r) == LoadReport(if error.Some? then defaults else r.config, true, Closing(r.diagnostics, r.migrated, error))
  {
    assert r.diagnostics + [] == r.diagnostics;
  }

  lemma FinishAlike(defaults: Config, r: Reader, q: Reader)
    requires Alike(r, q) && !q.migrated
    ensures LoadsAlike(Finish(defaults, r), Finish(defaults, q))
  {
    FinishCloses(defaults, r);
    FinishCloses(defaults, q);
    ClosingTells(r.diagnostics, r.migrated, ValidateRuntimeConfig(r.config));
    ClosingTells(q.diagnostics, q.migrated, ValidateRuntimeConfig(q.config));
  }

  lemma {:induction false} NotLegacyUntilTheEnd(r: Reader, actions: seq<Action>)
    requires r.config.profiles != [] && LegacyLoaded !in r.diagnostics
    ensures LegacyLoaded !in PerformAll(r, actions).diagnostics
    decreases |actions|
  {
    if actions != [] {
      NotLegacyUntilTheEnd(Perform(r, actions[0]), actions[1..]);
    }
  }

  lemma LoadedFromLines(defaults: Config, start: Reader, lines: seq<string>)
    requires defaults.profiles != [] && start == Reader(defaults, false, 0, [])
    requires forall i :: 0 <= i < |lines| ==> FitsLine(lines[i])
    ensures Load(defaults, Contents(JoinLines(lines))) == Finish(defaults, PerformAll(start, InterpretAll(lines)))
  {
    FileActions(lines);
  }

  lemma UpgradedActionsLoadTheSame(defaults: Config, start: Reader, actions: seq<Action>, upgraded: seq<Action>)
    requires start.config.profiles != [] && !start.migrated && LegacyLoaded !in start.diagnostics
    requires upgraded == UpgradedAll(start, actions)
    ensures LoadsAlike(Finish(defaults, PerformAll(start, actions)), Finish(defaults, PerformAll(start, upgraded)))
    ensures LegacyLoaded !in Finish(defaults, PerformAll(start, upgraded)).diagnostics
  {
    UpgradedPerformsAlike(start, start, actions);
    NotLegacyUntilTheEnd(start, upgraded);
    FinishAlike(defaults, PerformAll(start, actions), PerformAll(start, upgraded));
    FinishCloses(defaults, PerformAll(start, upgraded));
  }

  /**
   * For every file whose lines fit the line buffer, before and after: with each old line replaced by its current form
   * it loads the same configuration, reports the same except for rejections, line numbers and the migration notice, is
   * free of rejections exactly when it was, and is not reported as an old file.
   */
  lemma UpgradedFileLoadsTheSame(defaults: Config, lines: seq<string>, upgraded: seq<string>)
    requires defaults.profiles != [] && upgraded == UpgradedLines(Reader(defaults, false, 0, []), lines)
    requires forall i :: 0 <= i < |lines| ==> FitsLine(lines[i])
    requires forall i :: 0 <= i < |upgraded| ==> FitsLine(upgraded[i])
    ensures LoadsAlike(Load(defaults, Contents(JoinLines(lines))), Load(defaults, Contents(JoinLines(upgraded))))
    ensures LegacyLoaded !in Load(defaults, Contents(JoinLines(upgraded))).diagnostics
  {
    var start := Reader(defaults, false, 0, []);
    LoadedFromLines(defaults, start, lines);
    LoadedFromLines(defaults, start, upgraded);
    UpgradedLinesRead(start, lines);
    UpgradedActionsLoadTheSame(defaults, start, InterpretAll(lines), InterpretAll(upgraded));
  }
}
