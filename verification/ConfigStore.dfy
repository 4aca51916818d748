/**
 * Replacing the configuration file: a temporary file, a backup and renames, any of which can fail, and the run
 * identifiers that depend on it.
 */
module ConfigStore {
  import opened Bytes
  import opened ConfigApply
  import opened ConfigFile
  import opened RuntimeConfig
  import opened Wrappers

  /** The three files of the protocol, by content. */
  datatype Files = Files(path: Option<string>, tmp: Option<string>, bak: Option<string>)

  /** How each file operation of one save turns out. `written` is the text that the unchecked prints delivered. */
  datatype Environment = Environment(
    directoriesFail: bool,
    openFails: bool,
    written: string,
    flushFails: bool,
    closeFails: bool,
    clearBackupFails: bool,
    moveAsideFails: bool,
    replaceFails: bool,
    restoreFails: bool,
    cleanupFails: bool,
    dropBackupFails: bool)

  /** The result of a save with every state the files went through, the first and the last included. */
  datatype SaveRun = SaveRun(ok: bool, states: seq<Files>)

  function Final(run: SaveRun): Files
    requires run.states != []
  {
    run.states[|run.states| - 1]
  }

  function RemoveTmp(files: Files, fails: bool): Files {
    if fails then files else files.(tmp := None)
  }

  function RemoveBackup(files: Files, fails: bool): Files {
    if fails then files else files.(bak := None)
  }

  /** A rename that succeeds moves the content and leaves nothing behind; a missing source is no failure of the medium. */
  function MoveAside(files: Files): Files {
    if files.path.None? then files else files.(path := None, bak := files.path)
  }

  function Replace(files: Files): Files {
    files.(path := files.tmp, tmp := None)
  }

  function Restore(files: Files, fails: bool): Files {
    if fails || files.bak.None? then files else files.(path := files.bak, bak := None)
  }

  /** The replacement proper: the temporary file is complete and the backup has been cleared. */
  function ReplaceSteps(files: Files, env: Environment): SaveRun {
    if env.moveAsideFails then SaveRun(false, [files, RemoveTmp(files, env.cleanupFails)])
    else
      var moved := files.path.Some?;
      var aside := MoveAside(files);
      if env.replaceFails || aside.tmp.None? then
        var restored := if moved then Restore(aside, env.restoreFails) else aside;
        SaveRun(false, [files, aside, restored, RemoveTmp(restored, env.cleanupFails)])
      else
        var replaced := Replace(aside);
        SaveRun(true, [files, aside, replaced] + if moved then [RemoveBackup(replaced, env.dropBackupFails)] else [])
  }

  /** The temporary file has been printed: flush and close it, clear the backup, replace. */
  function PrintedSteps(printed: Files, env: Environment): (run: SaveRun)
    ensures run.states != [] && run.states[0] == printed
  {
    if env.flushFails || env.closeFails then SaveRun(false, [printed, RemoveTmp(printed, env.cleanupFails)])
    else if env.clearBackupFails then SaveRun(false, [printed, printed, RemoveTmp(printed, env.cleanupFails)])
    else
      var rest := ReplaceSteps(printed.(bak := None), env);
      SaveRun(rest.ok, [printed] + rest.states)
  }

  function SaveSteps(files: Files, c: Config, env: Environment): (run: SaveRun)
    ensures run.states != [] && run.states[0] == files
  {
    if !Valid(c) || env.directoriesFail || env.openFails then SaveRun(false, [files])
    else
      var rest := PrintedSteps(files.(tmp := Some(env.written)), env);
      SaveRun(rest.ok, [files, files.(tmp := Some(""))] + rest.states)
  }

  /** States recorded in two parts, where the first part ends where the second begins. */
  lemma HistoryJoin<T>(before: seq<T>, first: seq<T>, rest: seq<T>, all: seq<T>)
    requires first != [] && rest != [] && all == before + first[1..] + [rest[0]] + rest[1..]
    ensures all == before + (first + rest)[1..]
  {
    var head := before + first[1..];
    HeadAndTail(head, rest, all);
    assert (first + rest)[1..] == first[1..] + rest;
    assert head + rest == before + (first[1..] + rest);
  }

  lemma HeadAndTail<T>(head: seq<T>, rest: seq<T>, all: seq<T>)
    requires rest != [] && all == head + [rest[0]] + rest[1..]
    ensures all == head + rest
  {
  }

  // ---- the save as it runs, one file operation at a time ----

  class ConfigDirectory {
    var path: Option<string>
    var tmp: Option<string>
    var bak: Option<string>
    /** Every state a crash could have left behind. */
    ghost var history: seq<Files>

    ghost function Now(): Files
      reads this
    {
      Files(path, tmp, bak)
    }

    method RemoveTemporary(fails: bool)
      modifies this`tmp, this`history
      ensures Now() == RemoveTmp(old(Now()), fails) && history == old(history) + [Now()]
    {
      if !fails {
        tmp := None;
      }
      history := history + [Now()];
    }

    /** Returns false only for failures other than a missing file. */
    method RemoveBackupFile(fails: bool) returns (ok: bool)
      modifies this`bak, this`history
      ensures Now() == RemoveBackup(old(Now()), fails) && history == old(history) + [Now()] && ok == !fails
    {
      if !fails {
        bak := None;
      }
      ok := !fails;
      history := history + [Now()];
    }

    method SaveRuntimeConfig(c: Config, env: Environment) returns (ok: bool)
      modifies this
      ensures var run := SaveSteps(old(Now()), c, env);
              ok == run.ok && Now() == Final(run) && history == old(history) + run.states[1..]
    {
      var error := Validate(c);
      if error.Some? || env.directoriesFail || env.openFails {
        return false;
      }
      tmp := Some("");
      history := history + [Now()];
      tmp := Some(env.written);
      history := history + [Now()];
      ghost var printed := Now();
      ok := FinishSave(env);
      HistoryJoin(old(history), [old(Now()), old(Now()).(tmp := Some(""))], PrintedSteps(printed, env).states, history);
    }

    method FinishSave(env: Environment) returns (ok: bool)
      requires tmp.Some?
      modifies this
      ensures var run := PrintedSteps(old(Now()), env);
              ok == run.ok && Now() == Final(run) && history == old(history) + run.states[1..]
    {
      if env.flushFails || env.closeFails {
        RemoveTemporary(env.cleanupFails);
        return false;
      }
      var cleared := RemoveBackupFile(env.clearBackupFails);
      if !cleared {
        RemoveTemporary(env.cleanupFails);
        return false;
      }
      ghost var ready := Now();
      ok := ReplaceFile(env);
      HistoryJoin(old(history), [old(Now())], ReplaceSteps(ready, env).states, history);
    }

    /** The backup is clear and the temporary file complete: move the old file aside, the new one in, or undo. */
    method ReplaceFile(env: Environment) returns (ok: bool)
      requires tmp.Some?
      modifies this
      ensures var run := ReplaceSteps(old(Now()), env);
              ok == run.ok && Now() == Final(run) && history == old(history) + run.states[1..]
    {
      if env.moveAsideFails {
        RemoveTemporary(env.cleanupFails);
        return false;
      }
      var moved := path.Some?;
      if moved {
        path, bak := None, path;
      }
      history := history + [Now()];
      if env.replaceFails {
        if moved && !env.restoreFails {
          path, bak := bak, None;
        }
        history := history + [Now()];
        RemoveTemporary(env.cleanupFails);
        return false;
      }
      path, tmp := tmp, None;
      history := history + [Now()];
      if moved {
        var _ := RemoveBackupFile(env.dropBackupFails);
      }
      ok := true;
    }
  }

  // ---- crash safety ----

  /** Someone opening the files now finds a complete configuration: the old one, or the new one in its place. */
  predicate Recoverable(files: Files, before: string, after: string) {
    files.path == Some(before) || files.bak == Some(before) || files.path == Some(after)
  }

  /** The case in which a failed save has moved the old configuration away and could not bring it back. */
  predicate RestoreFailed(files: Files, c: Config, env: Environment) {
    && Valid(c) && !env.directoriesFail && !env.openFails && !env.flushFails && !env.closeFails
    && !env.clearBackupFails && !env.moveAsideFails && files.path.Some? && env.replaceFails && env.restoreFails
  }

  /** Whatever fails and wherever the run stops, a configuration at the path is never lost. */
  lemma SaveIsCrashSafe(files: Files, c: Config, env: Environment, before: string)
    requires files.path == Some(before)
    ensures forall i :: 0 <= i < |SaveSteps(files, c, env).states| ==>
              Recoverable(SaveSteps(files, c, env).states[i], before, env.written)
  {
  }

  /** A refused save changes the path exactly when the restoring rename failed, and then the backup holds the old text. */
  lemma FailedSaveKeepsPath(files: Files, c: Config, env: Environment)
    requires !SaveSteps(files, c, env).ok
    ensures Final(SaveSteps(files, c, env)).path == files.path <==> !RestoreFailed(files, c, env)
    ensures RestoreFailed(files, c, env) ==> Final(SaveSteps(files, c, env)).bak == files.path
  {
  }

  /**
   * A successful save puts the delivered text at the path. That is the configuration exactly when the prints, whose
   * results are not checked, delivered all of it.
   */
  lemma SuccessfulSave(files: Files, c: Config, env: Environment)
    requires SaveSteps(files, c, env).ok
    ensures var final := Final(SaveSteps(files, c, env));
            && final.path == Some(env.written) && final.tmp == None
            && (final.path == Some(Print(c)) <==> env.written == Print(c))
  {
  }

  /** With nothing at the path, a save gives up the backup for good exactly when it gets as far as clearing it. */
  lemma LoneBackupIsLost(files: Files, c: Config, env: Environment, before: string)
    requires files.path == None && files.bak == Some(before) && env.written != before
    ensures (exists i :: 0 <= i < |SaveSteps(files, c, env).states|
                         && !Recoverable(SaveSteps(files, c, env).states[i], before, env.written))
            <==> Valid(c) && !env.directoriesFail && !env.openFails && !env.flushFails && !env.closeFails
                 && !env.clearBackupFails
  {
    var run := SaveSteps(files, c, env);
    if Valid(c) && !env.directoriesFail && !env.openFails && !env.flushFails && !env.closeFails && !env.clearBackupFails {
      assert !Recoverable(run.states[3], before, env.written);
    }
  }

  // ---- run identifiers ----

  /** The application's configuration in memory, the files, and the identifiers handed to runs so far. */
  datatype App = App(memory: Config, files: Files, reserved: seq<nat>)

  datatype Event =
    | StartRun(env: Environment)
    | SaveUnchanged(env: Environment)
    | Restart(readable: bool)

  function ReadPath(files: Files, readable: bool): FileRead {
    if !readable then ReadError else match files.path case None => Missing case Some(text) => Contents(text)
  }

  /** What a start finds: nothing stored, something that cannot be read and is reported, or the text of the file. */
  lemma StartReads(defaults: Config, files: Files)
    requires defaults.profiles != []
    ensures Load(defaults, ReadPath(files, false)) == LoadReport(defaults, false, [Unreadable])
    ensures files.path == None ==> Load(defaults, ReadPath(files, true)) == LoadReport(defaults, false, [])
    ensures files.path.Some? ==> Load(defaults, ReadPath(files, true)) == Load(defaults, Contents(files.path.value))
    ensures files.path.Some? ==> Load(defaults, ReadPath(files, true)).loadedFromFile
    ensures files.path.Some? ==> Launch(defaults, files).memory == Load(defaults, Contents(files.path.value)).config
  {
  }

  /** Reserving an identifier: advance it in memory, persist that, and undo it in memory if persisting fails. */
  function ReserveRun(app: App, env: Environment): App {
    if !Valid(app.memory) || app.memory.nextWorkloadId == 0xFFFF_FFFF then app
    else
      var advanced := app.memory.(nextWorkloadId := app.memory.nextWorkloadId + 1);
      var run := SaveSteps(app.files, advanced, env);
      if run.ok then App(advanced, Final(run), app.reserved + [app.memory.nextWorkloadId])
      else app.(files := Final(run))
  }

  function Step(defaults: Config, app: App, event: Event): App
    requires defaults.profiles != []
  {
    match event
    case StartRun(env) => ReserveRun(app, env)
    case SaveUnchanged(env) => app.(files := Final(SaveSteps(app.files, app.memory, env)))
    case Restart(readable) => app.(memory := Load(defaults, ReadPath(app.files, readable)).config)
  }

  function Run(defaults: Config, app: App, events: seq<Event>): App
    requires defaults.profiles != []
  {
    if events == [] then app else Step(defaults, Run(defaults, app, events[..|events| - 1]), events[|events| - 1])
  }

  /** The application right after it first loaded whatever the files held. */
  function Launch(defaults: Config, files: Files): App
    requires defaults.profiles != []
  {
    App(Load(defaults, ReadPath(files, true)).config, files, [])
  }

  /** The text that a save of the current state would print. */
  function Advanced(app: App): Config {
    if app.memory.nextWorkloadId == 0xFFFF_FFFF then app.memory
    else app.memory.(nextWorkloadId := app.memory.nextWorkloadId + 1)
  }

  /** Saves deliver their text and can be undone, and restarts can read the file. */
  predicate Orderly(app: App, event: Event) {
    match event
    case StartRun(env) => env.written == Print(Advanced(app)) && !RestoreFailed(app.files, Advanced(app), env)
    case SaveUnchanged(env) => env.written == Print(app.memory) && !RestoreFailed(app.files, app.memory, env)
    case Restart(readable) => readable
  }

  predicate AllOrderly(defaults: Config, app: App, events: seq<Event>)
    requires defaults.profiles != []
  {
    forall i :: 0 <= i < |events| ==> Orderly(Run(defaults, app, events[..i]), events[i])
  }

  predicate Increasing(ids: seq<nat>) {
    forall i, j :: 0 <= i < j < |ids| ==> ids[i] < ids[j]
  }

  /** What the file would give back is never behind the identifiers already handed out. */
  predicate Ahead(defaults: Config, app: App)
    requires defaults.profiles != []
  {
    var stored := Load(defaults, ReadPath(app.files, true)).config.nextWorkloadId;
    && Valid(app.memory) && Clean(app.memory) && Increasing(app.reserved)
    && (forall i :: 0 <= i < |app.reserved| ==> app.reserved[i] < app.memory.nextWorkloadId && app.reserved[i] < stored)
  }

  lemma PathAfterSave(defaults: Config, files: Files, c: Config, env: Environment)
    requires Valid(defaults) && Clean(defaults) && Clean(c)
    requires env.written == Print(c) && !RestoreFailed(files, c, env)
    ensures var run := SaveSteps(files, c, env);
            if run.ok then Valid(c) && Load(defaults, ReadPath(Final(run), true)).config == c
            else Final(run).path == files.path
  {
    var run := SaveSteps(files, c, env);
    if run.ok {
      SuccessfulSave(files, c, env);
      SaveLoadRoundTrip(defaults, c);
    } else {
      FailedSaveKeepsPath(files, c, env);
    }
  }

  lemma StepStaysAhead(defaults: Config, app: App, event: Event)
    requires Valid(defaults) && Clean(defaults) && Ahead(defaults, app) && Orderly(app, event)
    ensures Ahead(defaults, Step(defaults, app, event))
  {
    match event
    case StartRun(env) =>
      if app.memory.nextWorkloadId != 0xFFFF_FFFF {
        PathAfterSave(defaults, app.files, Advanced(app), env);
      }
    case SaveUnchanged(env) =>
      PathAfterSave(defaults, app.files, app.memory, env);
    case Restart(readable) =>
      LoadedConfigIsValidAndClean(defaults, ReadPath(app.files, readable));
  }

  lemma LaunchIsAhead(defaults: Config, files: Files)
    requires Valid(defaults) && Clean(defaults)
    ensures Ahead(defaults, Launch(defaults, files))
  {
    LoadedConfigIsValidAndClean(defaults, ReadPath(files, true));
  }

  lemma OrderlyPrefix(defaults: Config, app: App, events: seq<Event>, before: seq<Event>)
    requires defaults.profiles != [] && events != [] && before == events[..|events| - 1]
    requires AllOrderly(defaults, app, events)
    ensures AllOrderly(defaults, app, before)
    ensures Orderly(Run(defaults, app, before), events[|events| - 1])
  {
    forall i | 0 <= i < |before|
      ensures Orderly(Run(defaults, app, before[..i]), before[i])
    {
      assert before[..i] == events[..i];
    }
  }

  lemma {:induction false} RunStaysAhead(defaults: Config, app: App, events: seq<Event>)
    requires Valid(defaults) && Clean(defaults)
    requires Ahead(defaults, app) && AllOrderly(defaults, app, events)
    ensures Ahead(defaults, Run(defaults, app, events))
  {
    if events != [] {
      var before := events[..|events| - 1];
      OrderlyPrefix(defaults, app, events, before);
      RunStaysAhead(defaults, app, before);
      StepStaysAhead(defaults, Run(defaults, app, before), events[|events| - 1]);
    }
  }

  /** Reserved run identifiers strictly increase over every orderly run, across failed saves and restarts. */
  lemma RunIdsIncrease(defaults: Config, files: Files, events: seq<Event>)
    requires Valid(defaults) && Clean(defaults)
    requires AllOrderly(defaults, Launch(defaults, files), events)
    ensures Ahead(defaults, Run(defaults, Launch(defaults, files), events))
  {
    LaunchIsAhead(defaults, files);
    RunStaysAhead(defaults, Launch(defaults, files), events);
  }

  /** Nothing fails and the text arrives. */
  function Quiet(text: string): Environment {
    Environment(false, false, text, false, false, false, false, false, false, false, false)
  }

  /** Orderliness is needed: after a failed restore, a restart falls back to the defaults and their identifier. */
  lemma FailedRestoreForgetsIds(defaults: Config, app: App, env: Environment)
    requires defaults.profiles != [] && app.memory.nextWorkloadId != 0xFFFF_FFFF
    requires Valid(app.memory) && RestoreFailed(app.files, Advanced(app), env)
    ensures var after := Step(defaults, Step(defaults, app, StartRun(env)), Restart(true));
            after.memory == defaults && after.reserved == app.reserved
  {
  }

  lemma QuietStart(app: App, text: string)
    requires Valid(app.memory) && app.memory.nextWorkloadId != 0xFFFF_FFFF
    ensures Valid(Advanced(app))
    ensures ReserveRun(app, Quiet(text)) ==
            App(Advanced(app), Files(Some(text), None, None), app.reserved + [app.memory.nextWorkloadId])
  {
  }

  lemma RunOneMore(defaults: Config, app: App, events: seq<Event>, event: Event)
    requires defaults.profiles != []
    ensures Run(defaults, app, events + [event]) == Step(defaults, Run(defaults, app, events), event)
  {
    assert (events + [event])[..|events|] == events;
  }

  /** Every event of the run but the one at `n` is orderly, and that one is a run whose restoring rename fails. */
  predicate OrderlyExcept(defaults: Config, app: App, events: seq<Event>, n: nat)
    requires defaults.profiles != []
  {
    && n < |events| && events[n].StartRun?
    && RestoreFailed(Run(defaults, app, events[..n]).files, Advanced(Run(defaults, app, events[..n])), events[n].env)
    && forall i :: 0 <= i < |events| && i != n ==> Orderly(Run(defaults, app, events[..i]), events[i])
  }

  lemma BrokenSave(app: App) returns (env: Environment)
    requires Valid(app.memory) && app.memory.nextWorkloadId < 0xFFFF_FFFF && app.files.path.Some?
    ensures RestoreFailed(app.files, Advanced(app), env)
    ensures ReserveRun(app, env).memory == app.memory && ReserveRun(app, env).reserved == app.reserved
    ensures ReserveRun(app, env).files.path == None
  {
    assert Valid(Advanced(app));
    env := Quiet(Print(Advanced(app))).(replaceFails := true, restoreFails := true);
  }

  /** The save of a start that nothing disturbs. */
  function Undisturbed(app: App): Event {
    StartRun(Quiet(Print(Advanced(app))))
  }

  lemma UndisturbedStart(defaults: Config, app: App)
    requires Valid(app.memory) && app.memory.nextWorkloadId < 0xFFFF_FFFF && defaults.profiles != []
    ensures Orderly(app, Undisturbed(app))
    ensures Step(defaults, app, Undisturbed(app)) == App(app.memory.(nextWorkloadId := app.memory.nextWorkloadId + 1),
      Files(Some(Print(Advanced(app))), None, None), app.reserved + [app.memory.nextWorkloadId])
  {
    QuietStart(app, Print(Advanced(app)));
  }

  /** After a start whose save cannot be undone, a restart is back at the defaults, whatever was reserved. */
  lemma BrokenThenRestart(defaults: Config, app: App, broken: Environment)
    requires Valid(app.memory) && app.memory.nextWorkloadId < 0xFFFF_FFFF && defaults.profiles != []
    requires RestoreFailed(app.files, Advanced(app), broken)
    ensures
      var after := Step(defaults, Step(defaults, app, StartRun(broken)), Restart(true));
      after.memory == defaults && after.reserved == app.reserved
  {
    FailedRestoreForgetsIds(defaults, app, broken);
  }

  lemma FourEvents(defaults: Config, app: App, a: Event, b: Event, c: Event, d: Event, events: seq<Event>)
    requires defaults.profiles != [] && events == [a] + [b] + [c] + [d]
    ensures events[..0] == [] && Run(defaults, app, events[..0]) == app
    ensures Run(defaults, app, events[..1]) == Step(defaults, app, a)
    ensures Run(defaults, app, events[..2]) == Step(defaults, Step(defaults, app, a), b)
    ensures Run(defaults, app, events[..3]) == Step(defaults, Step(defaults, Step(defaults, app, a), b), c)
    ensures Run(defaults, app, events) == Step(defaults, Step(defaults, Step(defaults, Step(defaults, app, a), b), c), d)
  {
    var one, two, three := [a], [a] + [b], [a] + [b] + [c];
    assert [] + [a] == one;
    RunOneMore(defaults, app, [], a);
    RunOneMore(defaults, app, one, b);
    RunOneMore(defaults, app, two, c);
    RunOneMore(defaults, app, three, d);
    assert events[..1] == one && events[..2] == two && events[..3] == three;
  }

  /** A run on empty files that hands out the same identifier twice, with nothing going wrong but one failed restore. */
  lemma RunIdsCanRepeat(defaults: Config) returns (events: seq<Event>)
    requires Valid(defaults) && defaults.nextWorkloadId < 0xFFFF_FFFE
    ensures OrderlyExcept(defaults, Launch(defaults, Files(None, None, None)), events, 1)
    ensures Run(defaults, Launch(defaults, Files(None, None, None)), events).reserved ==
            [defaults.nextWorkloadId, defaults.nextWorkloadId]
  {
    var start := Launch(defaults, Files(None, None, None));
    UndisturbedStart(defaults, start);
    var a1 := Step(defaults, start, Undisturbed(start));
    assert Valid(a1.memory) by { assert Valid(Advanced(start)); }
    var broken := BrokenSave(a1);
    BrokenThenRestart(defaults, a1, broken);
    var a3 := Step(defaults, Step(defaults, a1, StartRun(broken)), Restart(true));
    UndisturbedStart(defaults, a3);
    events := [Undisturbed(start)] + [StartRun(broken)] + [Restart(true)] + [Undisturbed(a3)];
    FourEvents(defaults, start, Undisturbed(start), StartRun(broken), Restart(true), Undisturbed(a3), events);
  }
}
