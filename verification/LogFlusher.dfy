/**
 * The logger as it runs: any number of producers and one flush thread taking turns under one lock. Everything
 * between two uses of the lock is a step of its own, so a run is any sequence of steps.
 */
module LogFlusher {
  import opened Bytes
  import opened LogRings

  datatype Fate = Popped | Overwritten

  /** Every entry a ring has accepted, and what became of those no longer pending. */
  datatype Track = Track(accepted: seq<Entry>, fate: seq<Fate>)

  datatype Flusher =
    | Waiting
    | Collecting
    | Emitting(work: seq<Output>, empty: bool)
    | Checking
    | Exited

  /**
   * `output` is what left the logger, in order. `tracks`, `refused` and `uncollected` (records refused since
   * the drop counters were last taken) only record history.
   */
  datatype Logger = Logger(rings: seq<Ring>, stopping: bool, flusher: Flusher, output: seq<Output>,
    tracks: seq<Track>, refused: nat, uncollected: nat)

  datatype Event =
    | Line(path: string, line: seq<byte>)
    | Blob(path: string, data: seq<byte>)
    | RequestStop
    | FlusherStep

  predicate Shaped(s: Logger) {
    |s.rings| == RINGS && |s.tracks| == RINGS
  }

  function Admit(t: Track, full: bool, e: Entry): Track {
    Track(t.accepted + [e], if full then t.fate + [Overwritten] else t.fate)
  }

  function Accept(s: Logger, rings: seq<Ring>, ring: nat, e: Entry): Logger
    requires Shaped(s) && |rings| == RINGS && ring < RINGS
  {
    s.(rings := rings,
       tracks := s.tracks[ring := Admit(s.tracks[ring], |s.rings[ring].pending| == Capacity(ring), e)])
  }

  function StoredLine(path: string, line: seq<byte>): Entry {
    Entry(Clamp(path, MAX_PATH), Clamp(line, MAX_LINE))
  }

  function StoredBlob(path: string, data: seq<byte>): Entry {
    Entry(Clamp(path, MAX_PATH), data)
  }

  function PoppedTimes(n: nat): (f: seq<Fate>)
    ensures |f| == n
  {
    seq(n, _ => Popped)
  }

  function Take(rings: seq<Ring>, tracks: seq<Track>): (t: seq<Track>)
    requires |rings| == RINGS && |tracks| == RINGS
    ensures |t| == RINGS
  {
    seq(RINGS, i requires 0 <= i < RINGS =>
      Track(tracks[i].accepted, tracks[i].fate + PoppedTimes(|Taken(rings[i], BatchSize(i))|)))
  }

  predicate AllEmpty(rings: seq<Ring>) {
    forall r :: r in rings ==> r.pending == []
  }

  /** One pass of the flush loop runs Collecting, then one Emitting step for each output; an empty pass is the last. */
  function FlusherTurn(s: Logger): (t: Logger)
    requires Shaped(s)
    ensures Shaped(t)
  {
    match s.flusher
    case Waiting => s.(flusher := Collecting)
    case Collecting =>
      var writes := Batches(s.rings, RINGS);
      s.(rings := Collected(s.rings), tracks := Take(s.rings, s.tracks), uncollected := 0,
         flusher := Emitting(Warnings(s.rings, RINGS) + writes, writes == []))
    case Emitting(work, empty) =>
      if work != [] then s.(output := s.output + [work[0]], flusher := Emitting(work[1..], empty))
      else s.(flusher := if empty then Checking else Collecting)
    case Checking => s.(flusher := if s.stopping && AllEmpty(s.rings) then Exited else Waiting)
    case Exited => s
  }

  function Step(s: Logger, event: Event): (t: Logger)
    requires Shaped(s)
    ensures Shaped(t)
  {
    match event
    case Line(path, line) =>
      if path == [] || line == [] then s
      else Accept(s, QueueLine(s.rings, path, line), LINES, StoredLine(path, line))
    case Blob(path, data) =>
      if path == [] || data == [] then s
      else if |data| > MAX_BLOB then
        s.(rings := QueueBlob(s.rings, path, data), refused := s.refused + 1, uncollected := s.uncollected + 1)
      else Accept(s, QueueBlob(s.rings, path, data), RingOf(path), StoredBlob(path, data))
    case RequestStop => s.(stopping := true)
    case FlusherStep => FlusherTurn(s)
  }

  /** A started logger: the flush thread has not run yet and the boot banner is queued. */
  function Started(banner: Entry): (s: Logger)
    ensures Shaped(s)
  {
    Logger(NoEntries()[LINES := Ring([banner], 0)], false, Waiting, [],
      [Track([banner], []), Track([], []), Track([], []), Track([], []), Track([], [])], 0, 0)
  }

  function Run(banner: Entry, events: seq<Event>): (s: Logger)
    ensures Shaped(s)
  {
    if events == [] then Started(banner) else Step(Run(banner, events[..|events| - 1]), events[|events| - 1])
  }

  // What an output list says about one ring.

  function WrittenOf(out: seq<Output>, ring: nat): seq<Entry> {
    if out == [] then [] else
      var last := out[|out| - 1];
      WrittenOf(out[..|out| - 1], ring) + if last.Wrote? && last.ring == ring then [last.entry] else []
  }

  function ReportedOf(out: seq<Output>, ring: nat): nat {
    if out == [] then 0 else
      var last := out[|out| - 1];
      ReportedOf(out[..|out| - 1], ring) + if last.Dropped? && last.ring == ring then last.n else 0
  }

  lemma {:induction false} OutputJoin(a: seq<Output>, b: seq<Output>, ring: nat)
    ensures WrittenOf(a + b, ring) == WrittenOf(a, ring) + WrittenOf(b, ring)
    ensures ReportedOf(a + b, ring) == ReportedOf(a, ring) + ReportedOf(b, ring)
  {
    if b == [] {
      assert a + b == a;
    } else {
      assert (a + b)[..|a + b| - 1] == a + b[..|b| - 1];
      OutputJoin(a, b[..|b| - 1], ring);
    }
  }

  lemma {:induction false} WarningsOf(rings: seq<Ring>, upto: nat, ring: nat)
    requires upto <= |rings|
    ensures WrittenOf(Warnings(rings, upto), ring) == []
    ensures ReportedOf(Warnings(rings, upto), ring) == if ring < upto then rings[ring].dropped else 0
  {
    if upto == 0 {
    } else {
      WarningsOf(rings, upto - 1, ring);
      var last: seq<Output> := if rings[upto - 1].dropped == 0 then [] else [Dropped(upto - 1, rings[upto - 1].dropped)];
      OutputJoin(Warnings(rings, upto - 1), last, ring);
    }
  }

  lemma {:induction false} WritesOf(source: nat, entries: seq<Entry>, ring: nat)
    ensures WrittenOf(Writes(source, entries), ring) == if ring == source then entries else []
    ensures ReportedOf(Writes(source, entries), ring) == 0
  {
    if entries == [] {
    } else {
      var all := Writes(source, entries);
      assert all[..|all| - 1] == Writes(source, entries[..|entries| - 1]);
      WritesOf(source, entries[..|entries| - 1], ring);
    }
  }

  lemma AppendWrites(out: seq<Output>, source: nat, entries: seq<Entry>, all: seq<Output>, ring: nat)
    requires all == out + Writes(source, entries)
    ensures WrittenOf(all, ring) == WrittenOf(out, ring) + if ring == source then entries else []
    ensures ReportedOf(all, ring) == ReportedOf(out, ring)
  {
    WritesOf(source, entries, ring);
    OutputJoin(out, Writes(source, entries), ring);
  }

  lemma {:induction false} BatchesOf(rings: seq<Ring>, upto: nat, ring: nat)
    requires upto <= |rings|
    ensures WrittenOf(Batches(rings, upto), ring) == if ring < upto then Taken(rings[ring], BatchSize(ring)) else []
    ensures ReportedOf(Batches(rings, upto), ring) == 0
  {
    if upto == 0 {
    } else {
      var taken := Taken(rings[upto - 1], BatchSize(upto - 1));
      BatchesOf(rings, upto - 1, ring);
      AppendWrites(Batches(rings, upto - 1), upto - 1, taken, Batches(rings, upto), ring);
    }
  }

  // What became of the entries a ring accepted.

  function Kept(accepted: seq<Entry>, fate: seq<Fate>): seq<Entry>
    requires |fate| <= |accepted|
  {
    if fate == [] then [] else
      var n := |fate| - 1;
      Kept(accepted, fate[..n]) + if fate[n] == Popped then [accepted[n]] else []
  }

  function Overwrites(fate: seq<Fate>): nat {
    if fate == [] then 0 else
      Overwrites(fate[..|fate| - 1]) + if fate[|fate| - 1] == Overwritten then 1 else 0
  }

  lemma {:induction false} KeptAdmit(accepted: seq<Entry>, fate: seq<Fate>, e: Entry)
    requires |fate| <= |accepted|
    ensures Kept(accepted + [e], fate) == Kept(accepted, fate)
  {
    if fate == [] {
    } else {
      KeptAdmit(accepted, fate[..|fate| - 1], e);
    }
  }

  lemma KeptSnoc(accepted: seq<Entry>, fate: seq<Fate>, longer: seq<Fate>)
    requires longer == fate + [Popped] && |longer| <= |accepted|
    ensures Kept(accepted, longer) == Kept(accepted, fate) + [accepted[|fate|]]
    ensures Overwrites(longer) == Overwrites(fate)
  {
    assert longer[..|longer| - 1] == fate;
  }

  lemma {:induction false} KeptPopped(accepted: seq<Entry>, fate: seq<Fate>, n: nat, longer: seq<Fate>)
    requires longer == fate + PoppedTimes(n) && |longer| <= |accepted|
    ensures Kept(accepted, longer) == Kept(accepted, fate) + accepted[|fate|..|longer|]
    ensures Overwrites(longer) == Overwrites(fate)
  {
    if n == 0 {
      assert longer == fate;
    } else {
      var shorter := fate + PoppedTimes(n - 1);
      assert longer == shorter + [Popped];
      KeptPopped(accepted, fate, n - 1, shorter);
      KeptSnoc(accepted, shorter, longer);
      assert accepted[|fate|..|longer|] == accepted[|fate|..|shorter|] + [accepted[|shorter|]];
    }
  }

  function InFlight(f: Flusher): seq<Output> {
    if f.Emitting? then f.work else []
  }

  /** What has left the logger or is on its way out, with nothing that can stop it. */
  function Promised(s: Logger): seq<Output> {
    s.output + InFlight(s.flusher)
  }

  function RefusedAt(ring: nat, n: nat): nat {
    if ring == GENERIC then n else 0
  }

  /**
   * One ring's books balance: the pending entries are the last ones accepted, the popped ones are exactly the
   * ones written, in order, and every overwrite is reported or still counted.
   */
  predicate Accounted(r: Ring, t: Track, out: seq<Output>, ring: nat, refused: nat) {
    && |t.fate| <= |t.accepted|
    && r.pending == t.accepted[|t.fate|..]
    && |r.pending| <= Capacity(ring)
    && WrittenOf(out, ring) == Kept(t.accepted, t.fate)
    && ReportedOf(out, ring) + r.dropped == Overwrites(t.fate) + RefusedAt(ring, refused)
  }

  lemma AcceptAccounted(r: Ring, t: Track, out: seq<Output>, ring: nat, refused: nat, e: Entry)
    requires Accounted(r, t, out, ring, refused)
    requires r.dropped + 1 < 0x1_0000_0000_0000_0000
    ensures Accounted(Put(r, Capacity(ring), e), Admit(t, |r.pending| == Capacity(ring), e), out, ring, refused)
  {
    var full := |r.pending| == Capacity(ring);
    var u := Admit(t, full, e);
    KeptAdmit(t.accepted, t.fate, e);
    if full {
      assert u.fate[..|u.fate| - 1] == t.fate;
    }
  }

  lemma CollectAccounted(r: Ring, t: Track, out: seq<Output>, work: seq<Output>, ring: nat, refused: nat, n: nat)
    requires Accounted(r, t, out, ring, refused)
    requires n == |Taken(r, BatchSize(ring))|
    requires WrittenOf(work, ring) == Taken(r, BatchSize(ring)) && ReportedOf(work, ring) == r.dropped
    ensures Accounted(Emptied(r, BatchSize(ring)), Track(t.accepted, t.fate + PoppedTimes(n)), out + work, ring, refused)
  {
    var longer := t.fate + PoppedTimes(n);
    OutputJoin(out, work, ring);
    KeptPopped(t.accepted, t.fate, n, longer);
    assert t.accepted[|t.fate|..|longer|] == Taken(r, BatchSize(ring));
    assert t.accepted[|longer|..] == Emptied(r, BatchSize(ring)).pending;
  }

  predicate Books(s: Logger) {
    && Shaped(s)
    && forall i :: 0 <= i < RINGS ==> Accounted(s.rings[i], s.tracks[i], Promised(s), i, s.refused)
  }

  /** Between the start of an empty flush pass and the decision whether to exit. */
  predicate Quiet(f: Flusher) {
    f.Checking? || (f.Emitting? && f.empty)
  }

  /** Drops not collected yet are refusals or belong to a ring that has been filled since the last collection. */
  predicate DropsAreRecent(r: Ring, ring: nat, uncollected: nat, quiet: bool) {
    && r.dropped >= RefusedAt(ring, uncollected)
    && (quiet && r.dropped > RefusedAt(ring, uncollected) ==> |r.pending| == Capacity(ring))
  }

  predicate Recent(s: Logger)
    requires Shaped(s)
  {
    forall i :: 0 <= i < RINGS ==> DropsAreRecent(s.rings[i], i, s.uncollected, Quiet(s.flusher))
  }

  predicate DropsBelow(s: Logger, n: nat)
    requires Shaped(s)
  {
    forall i :: 0 <= i < RINGS ==> s.rings[i].dropped <= n
  }

  predicate Consistent(s: Logger, n: nat) {
    Books(s) && Recent(s) && DropsBelow(s, n)
  }

  lemma AcceptKeepsBooks(s: Logger, t: Logger, rings: seq<Ring>, ring: nat, e: Entry, n: nat)
    requires Consistent(s, n) && n + 1 < 0x1_0000_0000_0000_0000
    requires ring < RINGS && rings == s.rings[ring := Put(s.rings[ring], Capacity(ring), e)]
    requires t == Accept(s, rings, ring, e)
    ensures Consistent(t, n + 1)
  {
    AcceptAccounted(s.rings[ring], s.tracks[ring], Promised(s), ring, s.refused, e);
    assert Promised(t) == Promised(s);
  }

  lemma RefusalKeepsBooks(s: Logger, path: string, data: seq<byte>, n: nat)
    requires Consistent(s, n) && n + 1 < 0x1_0000_0000_0000_0000
    requires path != [] && |data| > MAX_BLOB
    ensures Consistent(Step(s, Blob(path, data)), n + 1)
  {
    var t := Step(s, Blob(path, data));
    assert Promised(t) == Promised(s);
  }

  lemma EmptyBatches(rings: seq<Ring>, upto: nat)
    requires upto <= |rings| && Batches(rings, upto) == []
    ensures forall i :: 0 <= i < upto ==> rings[i].pending == []
  {
    if upto > 0 {
      assert Writes(upto - 1, Taken(rings[upto - 1], BatchSize(upto - 1))) == [];
      EmptyBatches(rings, upto - 1);
    }
  }

  lemma CollectKeepsBooks(s: Logger, n: nat)
    requires Consistent(s, n) && s.flusher == Collecting
    ensures Consistent(FlusherTurn(s), n)
  {
    var t := FlusherTurn(s);
    var warnings, writes := Warnings(s.rings, RINGS), Batches(s.rings, RINGS);
    assert Promised(s) == s.output;
    forall i | 0 <= i < RINGS
      ensures Accounted(t.rings[i], t.tracks[i], Promised(t), i, t.refused)
    {
      WarningsOf(s.rings, RINGS, i);
      BatchesOf(s.rings, RINGS, i);
      OutputJoin(warnings, writes, i);
      CollectAccounted(s.rings[i], s.tracks[i], s.output, warnings + writes, i, s.refused,
        |Taken(s.rings[i], BatchSize(i))|);
    }
  }

  lemma EmitKeepsBooks(s: Logger, n: nat)
    requires Consistent(s, n) && s.flusher != Collecting
    ensures Consistent(FlusherTurn(s), n)
  {
    var t := FlusherTurn(s);
    if s.flusher.Emitting? && s.flusher.work != [] {
      assert s.flusher.work == [s.flusher.work[0]] + s.flusher.work[1..];
    }
    assert Promised(t) == Promised(s);
  }

  lemma StepKeepsBooks(s: Logger, event: Event, n: nat)
    requires Consistent(s, n) && n + 1 < 0x1_0000_0000_0000_0000
    ensures Consistent(Step(s, event), n + 1)
  {
    match event
    case Line(path, line) =>
      if path != [] && line != [] {
        AcceptKeepsBooks(s, Step(s, event), QueueLine(s.rings, path, line), LINES, StoredLine(path, line), n);
      }
    case Blob(path, data) =>
      if path != [] && data != [] {
        if |data| > MAX_BLOB {
          RefusalKeepsBooks(s, path, data, n);
        } else {
          AcceptKeepsBooks(s, Step(s, event), QueueBlob(s.rings, path, data), RingOf(path), StoredBlob(path, data), n);
        }
      }
    case RequestStop =>
      assert Promised(Step(s, event)) == Promised(s);
    case FlusherStep =>
      if s.flusher == Collecting {
        CollectKeepsBooks(s, n);
      } else {
        EmitKeepsBooks(s, n);
      }
  }

  lemma StartedIsConsistent(banner: Entry)
    ensures Consistent(Started(banner), 0)
  {
    var s := Started(banner);
    forall i | 0 <= i < RINGS
      ensures Accounted(s.rings[i], s.tracks[i], Promised(s), i, 0)
    {
      assert s.tracks[i].accepted[0..] == s.tracks[i].accepted;
    }
  }

  /**
   * In every run, in every interleaving: a ring holds exactly the last entries it accepted, everything popped is
   * written once and in order of acceptance, and every drop is either reported once or still in its counter.
   */
  lemma {:induction false} BooksAlwaysBalance(banner: Entry, events: seq<Event>)
    requires |events| < 0x1_0000_0000_0000_0000
    ensures Consistent(Run(banner, events), |events|)
  {
    if events == [] {
      StartedIsConsistent(banner);
    } else {
      BooksAlwaysBalance(banner, events[..|events| - 1]);
      StepKeepsBooks(Run(banner, events[..|events| - 1]), events[|events| - 1], |events| - 1);
    }
  }

  /**
   * The stop handshake. When the flush thread exits, every entry accepted so far was written, in order, or was
   * overwritten and that overwrite was reported; only refusals of oversized records can still be uncounted.
   */
  lemma ExitLosesNothing(banner: Entry, events: seq<Event>, ring: nat)
    requires |events| + 1 < 0x1_0000_0000_0000_0000 && ring < RINGS
    requires Run(banner, events).flusher != Exited
    requires Run(banner, events + [FlusherStep]).flusher == Exited
    ensures
      var s := Run(banner, events + [FlusherStep]);
      && s.stopping
      && |s.tracks[ring].fate| == |s.tracks[ring].accepted|
      && WrittenOf(s.output, ring) == Kept(s.tracks[ring].accepted, s.tracks[ring].fate)
      && ReportedOf(s.output, ring) + RefusedAt(ring, s.uncollected)
          == Overwrites(s.tracks[ring].fate) + RefusedAt(ring, s.refused)
  {
    var longer := events + [FlusherStep];
    assert longer[..|longer| - 1] == events;
    BooksAlwaysBalance(banner, events);
    var s := Run(banner, events);
    var t := Run(banner, longer);
    assert t == FlusherTurn(s) && s.flusher == Checking;
    assert s.rings[ring] in s.rings;
    assert Promised(s) == s.output;
    assert Accounted(s.rings[ring], s.tracks[ring], Promised(s), ring, s.refused);
    assert DropsAreRecent(s.rings[ring], ring, s.uncollected, true);
  }

  /** Nothing restarts the flush thread: whatever is queued after it exits is never written. */
  lemma {:induction false} NothingAfterExit(banner: Entry, events: seq<Event>, more: seq<Event>)
    requires Run(banner, events).flusher == Exited
    ensures Run(banner, events + more).flusher == Exited
    ensures Run(banner, events + more).output == Run(banner, events).output
  {
    if more == [] {
      assert events + more == events;
    } else {
      var all := events + more;
      assert all[..|all| - 1] == events + more[..|more| - 1];
      NothingAfterExit(banner, events, more[..|more| - 1]);
    }
  }

  /** The flush thread never ends by itself: in every run it has exited only if a stop was requested. */
  lemma {:induction false} ExitNeedsARequest(banner: Entry, events: seq<Event>)
    ensures Run(banner, events).stopping <==> RequestStop in events
    ensures Run(banner, events).flusher == Exited ==> RequestStop in events
  {
    if events != [] {
      var before, last := events[..|events| - 1], events[|events| - 1];
      ExitNeedsARequest(banner, before);
      assert events == before + [last];
    }
  }

  // Which ring takes what, and the order in which the files see it.

  /** The ring an event adds an entry to, and the entry as stored. */
  function Addition(event: Event, ring: nat): seq<Entry> {
    match event
    case Line(path, line) => if path != [] && line != [] && ring == LINES then [StoredLine(path, line)] else []
    case Blob(path, data) =>
      if path != [] && 0 < |data| <= MAX_BLOB && ring == RingOf(path) then [StoredBlob(path, data)] else []
    case _ => []
  }

  function AcceptedBy(events: seq<Event>, ring: nat): seq<Entry> {
    if events == [] then [] else
      AcceptedBy(events[..|events| - 1], ring) + Addition(events[|events| - 1], ring)
  }

  lemma StepAccepts(s: Logger, event: Event, ring: nat)
    requires Shaped(s) && ring < RINGS
    ensures Step(s, event).tracks[ring].accepted == s.tracks[ring].accepted + Addition(event, ring)
  {
  }

  /** The accepted entries the books are about are the ones the producers handed in, to the right ring, in order. */
  lemma {:induction false} TracksFollowTheProducers(banner: Entry, events: seq<Event>, ring: nat)
    requires ring < RINGS
    ensures Run(banner, events).tracks[ring].accepted
        == (if ring == LINES then [banner] else []) + AcceptedBy(events, ring)
  {
    if events == [] {
    } else {
      var before := events[..|events| - 1];
      TracksFollowTheProducers(banner, before, ring);
      StepAccepts(Run(banner, before), events[|events| - 1], ring);
    }
  }

  /** `a` arises from `b` by leaving elements out. */
  predicate Subsequence<T(==)>(a: seq<T>, b: seq<T>)
    decreases |b|
  {
    a == [] ||
    (b != [] &&
      (Subsequence(a, b[..|b| - 1]) ||
        (a[|a| - 1] == b[|b| - 1] && Subsequence(a[..|a| - 1], b[..|b| - 1]))))
  }

  lemma SubsequenceGrows<T>(a: seq<T>, b: seq<T>, c: seq<T>, x: T)
    requires Subsequence(a, b)
    requires c == b + [x]
    ensures Subsequence(a, c)
    ensures Subsequence(a + [x], c)
  {
    assert c[..|c| - 1] == b;
    assert (a + [x])[..|a + [x]| - 1] == a;
  }

  lemma {:induction false} SubsequenceShrinks<T>(a: seq<T>, b: seq<T>, n: nat)
    requires Subsequence(a, b) && n <= |a|
    ensures Subsequence(a[..n], b)
    decreases |b|
  {
    if n == 0 || n == |a| {
      assert n == |a| ==> a[..n] == a;
    } else if Subsequence(a, b[..|b| - 1]) {
      SubsequenceShrinks(a, b[..|b| - 1], n);
    } else {
      SubsequenceShrinks(a[..|a| - 1], b[..|b| - 1], n);
      assert a[..|a| - 1][..n] == a[..n];
    }
  }

  lemma {:induction false} KeptIsSubsequence(accepted: seq<Entry>, fate: seq<Fate>)
    requires |fate| <= |accepted|
    ensures Subsequence(Kept(accepted, fate), accepted[..|fate|])
  {
    if fate == [] {
    } else {
      var n := |fate| - 1;
      KeptIsSubsequence(accepted, fate[..n]);
      SubsequenceGrows(Kept(accepted, fate[..n]), accepted[..n], accepted[..n + 1], accepted[n]);
      assert Kept(accepted, fate[..n]) + [] == Kept(accepted, fate[..n]);
    }
  }

  lemma {:induction false} SubsequenceExtends<T>(a: seq<T>, b: seq<T>, n: nat)
    requires n <= |b| && Subsequence(a, b[..n])
    ensures Subsequence(a, b)
    decreases |b| - n
  {
    if n == |b| {
      assert b[..n] == b;
    } else {
      SubsequenceGrows(a, b[..n], b[..n + 1], b[n]);
      SubsequenceExtends(a, b, n + 1);
    }
  }

  /** What a file receives: the data of the writes to one path, across all rings of binary records. */
  function FileOf(out: seq<Output>, path: string): seq<seq<byte>> {
    if out == [] then [] else
      var last := out[|out| - 1];
      FileOf(out[..|out| - 1], path)
        + if last.Wrote? && last.ring != LINES && last.entry.path == path then [last.entry.data] else []
  }

  /** What the producers hand in under one file name, which is what is left of the path in its slot. */
  function HandedTo(events: seq<Event>, path: string): seq<seq<byte>> {
    if events == [] then [] else
      var last := events[|events| - 1];
      HandedTo(events[..|events| - 1], path)
        + if last.Blob? && Clamp(last.path, MAX_PATH) == path && 0 < |last.data| <= MAX_BLOB then [last.data] else []
  }

  function ForPath(entries: seq<Entry>, path: string): seq<seq<byte>> {
    if entries == [] then [] else
      var last := entries[|entries| - 1];
      ForPath(entries[..|entries| - 1], path) + if last.path == path then [last.data] else []
  }

  lemma {:induction false} ForPathSubsequence(a: seq<Entry>, b: seq<Entry>, path: string)
    requires Subsequence(a, b)
    ensures Subsequence(ForPath(a, path), ForPath(b, path))
    decreases |b|
  {
    if a == [] {
    } else {
      var shorter := b[..|b| - 1];
      var x := b[|b| - 1];
      if Subsequence(a, shorter) {
        ForPathSubsequence(a, shorter, path);
      } else {
        ForPathSubsequence(a[..|a| - 1], shorter, path);
      }
      if x.path == path {
        var before := if Subsequence(a, shorter) then a else a[..|a| - 1];
        SubsequenceGrows(ForPath(before, path), ForPath(shorter, path), ForPath(b, path), x.data);
      } else {
        assert ForPath(b, path) == ForPath(shorter, path);
        assert !Subsequence(a, shorter) ==> ForPath(a, path) == ForPath(a[..|a| - 1], path);
      }
    }
  }

  /** All records handed in under this file name go to one ring. */
  predicate OneRing(events: seq<Event>, path: string, ring: nat) {
    forall i :: 0 <= i < |events| && events[i].Blob? && Clamp(events[i].path, MAX_PATH) == path ==>
      RingOf(events[i].path) == ring
  }

  predicate RoutedEntry(path: string, target: nat, ring: nat, e: Entry) {
    ring != LINES && e.path == path ==> ring == target
  }

  predicate AllRouted(path: string, target: nat, ring: nat, entries: seq<Entry>) {
    forall e :: e in entries ==> RoutedEntry(path, target, ring, e)
  }

  predicate OutputRouted(path: string, target: nat, out: seq<Output>) {
    forall o :: o in out && o.Wrote? ==> RoutedEntry(path, target, o.ring, o.entry)
  }

  predicate Routed(path: string, target: nat, s: Logger)
    requires Shaped(s)
  {
    && (forall i :: 0 <= i < RINGS ==> AllRouted(path, target, i, s.rings[i].pending))
    && OutputRouted(path, target, Promised(s))
  }

  lemma BatchesRouted(path: string, target: nat, rings: seq<Ring>, upto: nat)
    requires upto <= |rings|
    requires forall i :: 0 <= i < upto ==> AllRouted(path, target, i, rings[i].pending)
    ensures OutputRouted(path, target, Batches(rings, upto))
  {
  }

  lemma WarningsRouted(path: string, target: nat, rings: seq<Ring>, upto: nat)
    requires upto <= |rings|
    ensures OutputRouted(path, target, Warnings(rings, upto))
  {
  }

  lemma CollectingKeepsRouted(path: string, target: nat, s: Logger)
    requires Shaped(s) && Routed(path, target, s) && s.flusher == Collecting
    ensures Routed(path, target, FlusherTurn(s))
  {
    BatchesRouted(path, target, s.rings, RINGS);
    WarningsRouted(path, target, s.rings, RINGS);
  }

  lemma StepKeepsRouted(path: string, target: nat, s: Logger, event: Event)
    requires Shaped(s) && Routed(path, target, s)
    requires event.Blob? && Clamp(event.path, MAX_PATH) == path ==> RingOf(event.path) == target
    ensures Routed(path, target, Step(s, event))
  {
    var t := Step(s, event);
    if event == FlusherStep && s.flusher == Collecting {
      CollectingKeepsRouted(path, target, s);
    } else {
      if event == FlusherStep && s.flusher.Emitting? && s.flusher.work != [] {
        assert s.flusher.work == [s.flusher.work[0]] + s.flusher.work[1..];
      }
      assert Promised(t) == Promised(s);
    }
  }

  lemma {:induction false} AlwaysRouted(banner: Entry, events: seq<Event>, path: string, target: nat)
    requires OneRing(events, path, target)
    ensures Routed(path, target, Run(banner, events))
  {
    if events == [] {
    } else {
      AlwaysRouted(banner, events[..|events| - 1], path, target);
      StepKeepsRouted(path, target, Run(banner, events[..|events| - 1]), events[|events| - 1]);
    }
  }

  lemma ForPathSnoc(entries: seq<Entry>, more: seq<Entry>, all: seq<Entry>, path: string)
    requires all == entries + more && |more| <= 1
    ensures ForPath(all, path)
        == ForPath(entries, path) + if more != [] && more[0].path == path then [more[0].data] else []
  {
    if more == [] {
      assert all == entries;
    } else {
      assert all[..|all| - 1] == entries;
    }
  }

  lemma {:induction false} FileOfOneRing(out: seq<Output>, path: string, ring: nat)
    requires OutputRouted(path, ring, out) && ring != LINES
    ensures FileOf(out, path) == ForPath(WrittenOf(out, ring), path)
  {
    if out == [] {
    } else {
      var last := out[|out| - 1];
      var before := out[..|out| - 1];
      FileOfOneRing(before, path, ring);
      var more := if last.Wrote? && last.ring == ring then [last.entry] else [];
      ForPathSnoc(WrittenOf(before, ring), more, WrittenOf(out, ring), path);
      assert last.Wrote? ==> RoutedEntry(path, ring, last.ring, last.entry);
    }
  }

  lemma AdditionForPath(event: Event, path: string, ring: nat)
    requires path != [] && ring != LINES
    requires event.Blob? && Clamp(event.path, MAX_PATH) == path ==> RingOf(event.path) == ring
    ensures |Addition(event, ring)| <= 1
    ensures (Addition(event, ring) != [] && Addition(event, ring)[0].path == path)
        <==> (event.Blob? && Clamp(event.path, MAX_PATH) == path && 0 < |event.data| <= MAX_BLOB)
    ensures event.Blob? && Addition(event, ring) != [] ==> Addition(event, ring)[0].data == event.data
  {
  }

  lemma {:induction false} HandedToOneRing(events: seq<Event>, path: string, ring: nat)
    requires path != [] && ring != LINES && OneRing(events, path, ring)
    ensures HandedTo(events, path) == ForPath(AcceptedBy(events, ring), path)
  {
    if events == [] {
    } else {
      var last := events[|events| - 1];
      var before := events[..|events| - 1];
      HandedToOneRing(before, path, ring);
      AdditionForPath(last, path, ring);
      ForPathSnoc(AcceptedBy(before, ring), Addition(last, ring), AcceptedBy(events, ring), path);
    }
  }

  /** What has been written of one ring is a subsequence of what the ring accepted. */
  lemma WrittenIsSubsequence(r: Ring, t: Track, done: seq<Output>, doing: seq<Output>, ring: nat, refused: nat)
    requires Accounted(r, t, done + doing, ring, refused)
    ensures Subsequence(WrittenOf(done, ring), t.accepted)
  {
    OutputJoin(done, doing, ring);
    KeptIsSubsequence(t.accepted, t.fate);
    SubsequenceExtends(Kept(t.accepted, t.fate), t.accepted, |t.fate|);
    var written := WrittenOf(done, ring);
    SubsequenceShrinks(Kept(t.accepted, t.fate), t.accepted, |written|);
    assert Kept(t.accepted, t.fate)[..|written|] == written;
  }

  lemma OneRingInOrder(s: Logger, path: string, ring: nat, n: nat)
    requires Consistent(s, n) && ring < RINGS
    ensures Subsequence(ForPath(WrittenOf(s.output, ring), path), ForPath(s.tracks[ring].accepted, path))
  {
    WrittenIsSubsequence(s.rings[ring], s.tracks[ring], s.output, InFlight(s.flusher), ring, s.refused);
    ForPathSubsequence(WrittenOf(s.output, ring), s.tracks[ring].accepted, path);
  }

  lemma FileFollowsItsRing(banner: Entry, events: seq<Event>, path: string, ring: nat)
    requires path != [] && GENERIC <= ring < RINGS && OneRing(events, path, ring)
    ensures FileOf(Run(banner, events).output, path) == ForPath(WrittenOf(Run(banner, events).output, ring), path)
    ensures HandedTo(events, path) == ForPath(Run(banner, events).tracks[ring].accepted, path)
  {
    var out := Run(banner, events).output;
    AlwaysRouted(banner, events, path, ring);
    assert OutputRouted(path, ring, out) by {
      assert forall o :: o in out ==> o in Promised(Run(banner, events));
    }
    FileOfOneRing(out, path, ring);
    HandedToOneRing(events, path, ring);
    TracksFollowTheProducers(banner, events, ring);
    assert [] + AcceptedBy(events, ring) == AcceptedBy(events, ring);
  }

  /** Records for one file are written in the order they were handed in, none twice, if they all go to one ring. */
  lemma RecordsKeepTheirOrder(banner: Entry, events: seq<Event>, path: string, ring: nat)
    requires |events| < 0x1_0000_0000_0000_0000 && path != [] && GENERIC <= ring < RINGS && OneRing(events, path, ring)
    ensures Subsequence(FileOf(Run(banner, events).output, path), HandedTo(events, path))
  {
    BooksAlwaysBalance(banner, events);
    FileFollowsItsRing(banner, events, path, ring);
    OneRingInOrder(Run(banner, events), path, ring, |events|);
  }

  /** A name shorter than its slot is a whole path, and all its records go to one ring. */
  lemma ShortPathsKeepTheirOrder(banner: Entry, events: seq<Event>, path: string)
    requires |events| < 0x1_0000_0000_0000_0000 && 0 < |path| < MAX_PATH
    ensures Subsequence(FileOf(Run(banner, events).output, path), HandedTo(events, path))
  {
    RecordsKeepTheirOrder(banner, events, path, RingOf(path));
  }

  // Names shared by two rings.

  lemma {:induction false} FileOfJoin(a: seq<Output>, b: seq<Output>, ab: seq<Output>, path: string)
    requires ab == a + b
    ensures FileOf(ab, path) == FileOf(a, path) + FileOf(b, path)
  {
    if b == [] {
      assert ab == a;
    } else {
      assert ab[..|ab| - 1] == a + b[..|b| - 1];
      FileOfJoin(a, b[..|b| - 1], ab[..|ab| - 1], path);
    }
  }

  /** At most one record is pending in each ring of records. */
  predicate SingleRecords(rings: seq<Ring>) {
    forall i :: 0 < i < |rings| ==> |rings[i].pending| <= 1
  }

  /** The records pending in the rings below `upto`, ring by ring. */
  function PendingFor(rings: seq<Ring>, upto: nat, path: string): seq<seq<byte>>
    requires upto <= |rings|
  {
    if upto == 0 then [] else
      PendingFor(rings, upto - 1, path) + if upto - 1 == LINES then [] else ForPath(rings[upto - 1].pending, path)
  }

  lemma {:induction false} LinesAreNoRecords(entries: seq<Entry>, path: string)
    ensures FileOf(Writes(LINES, entries), path) == []
  {
    if entries != [] {
      var all := Writes(LINES, entries);
      assert all[..|all| - 1] == Writes(LINES, entries[..|entries| - 1]);
      LinesAreNoRecords(entries[..|entries| - 1], path);
    }
  }

  lemma OneRecord(ring: nat, entries: seq<Entry>, path: string)
    requires ring != LINES && |entries| <= 1
    ensures FileOf(Writes(ring, entries), path) == ForPath(entries, path)
  {
    if entries != [] {
      var all := Writes(ring, entries);
      assert all[..0] == [] && entries[..0] == [];
    }
  }

  lemma {:induction false} BatchesForFile(rings: seq<Ring>, upto: nat, path: string)
    requires upto <= |rings| && SingleRecords(rings)
    ensures FileOf(Batches(rings, upto), path) == PendingFor(rings, upto, path)
  {
    if upto == 0 {
    } else {
      var ring := upto - 1;
      var taken := Taken(rings[ring], BatchSize(ring));
      BatchesForFile(rings, ring, path);
      FileOfJoin(Batches(rings, ring), Writes(ring, taken), Batches(rings, upto), path);
      if ring == LINES {
        LinesAreNoRecords(taken, path);
      } else {
        assert taken == rings[ring].pending;
        OneRecord(ring, taken, path);
      }
    }
  }

  lemma {:induction false} WarningsForFile(rings: seq<Ring>, upto: nat, path: string)
    requires upto <= |rings|
    ensures FileOf(Warnings(rings, upto), path) == []
  {
    if upto == 0 {
    } else {
      WarningsForFile(rings, upto - 1, path);
      var last: seq<Output> := if rings[upto - 1].dropped == 0 then [] else [Dropped(upto - 1, rings[upto - 1].dropped)];
      FileOfJoin(Warnings(rings, upto - 1), last, Warnings(rings, upto), path);
      assert last[..0] == [];
    }
  }

  lemma OneMore(banner: Entry, events: seq<Event>, event: Event)
    ensures Run(banner, events + [event]) == Step(Run(banner, events), event)
  {
    assert (events + [event])[..|events|] == events;
  }

  lemma StepsJoin(events: seq<Event>, n: nat, longer: seq<Event>)
    requires longer == events + [FlusherStep]
    ensures longer + FlusherSteps(n) == events + FlusherSteps(n + 1)
  {
  }

  lemma MoveHead(out: seq<Output>, work: seq<Output>)
    requires work != []
    ensures out + [work[0]] + work[1..] == out + work
  {
  }

  lemma {:induction false} EmittingFinishes(banner: Entry, events: seq<Event>, work: seq<Output>)
    requires Run(banner, events).flusher.Emitting? && Run(banner, events).flusher.work == work
    ensures Run(banner, events + FlusherSteps(|work|)).output == Run(banner, events).output + work
    decreases |work|
  {
    if work == [] {
      assert events + FlusherSteps(0) == events;
    } else {
      var longer, rest := events + [FlusherStep], work[1..];
      OneMore(banner, events, FlusherStep);
      EmittingFinishes(banner, longer, rest);
      StepsJoin(events, |rest|, longer);
      MoveHead(Run(banner, events).output, work);
    }
  }

  lemma {:induction false} WorkBound(rings: seq<Ring>, upto: nat)
    requires upto <= |rings|
    ensures |Warnings(rings, upto)| <= upto && |Batches(rings, upto)| <= 16 * upto
  {
    if upto == 0 {
    } else {
      WorkBound(rings, upto - 1);
      assert |Taken(rings[upto - 1], BatchSize(upto - 1))| <= 16;
    }
  }

  /** One pass of the flush thread over rings with at most one record each writes them ring by ring. */
  lemma OnePass(banner: Entry, events: seq<Event>, path: string) returns (n: nat)
    requires
      var s := Run(banner, events);
      s.flusher == Waiting && s.output == [] && SingleRecords(s.rings)
    ensures FileOf(Run(banner, events + FlusherSteps(n)).output, path) == PendingFor(Run(banner, events).rings, RINGS, path)
    ensures n <= 17 * RINGS + 2
  {
    WorkBound(Run(banner, events).rings, RINGS);
    var s := Run(banner, events);
    OneMore(banner, events, FlusherStep);
    OneMore(banner, events + [FlusherStep], FlusherStep);
    var collected := events + [FlusherStep] + [FlusherStep];
    var work := Warnings(s.rings, RINGS) + Batches(s.rings, RINGS);
    EmittingFinishes(banner, collected, work);
    n := |work| + 2;
    assert events + FlusherSteps(n) == collected + FlusherSteps(|work|);
    assert s.output + work == work;
    WarningsForFile(s.rings, RINGS, path);
    BatchesForFile(s.rings, RINGS, path);
    FileOfJoin(Warnings(s.rings, RINGS), Batches(s.rings, RINGS), work, path);
  }

  /** What ring `k` holds when the rings `i` and `j` hold one entry each. */
  function Held(k: nat, i: nat, x: Entry, j: nat, y: Entry): seq<Entry> {
    if k == i then [x] else if k == j then [y] else []
  }

  predicate TwoHold(rings: seq<Ring>, i: nat, x: Entry, j: nat, y: Entry) {
    i != LINES && j != LINES && forall k :: GENERIC <= k < |rings| ==> rings[k].pending == Held(k, i, x, j, y)
  }

  predicate OneHolds(rings: seq<Ring>, j: nat, y: Entry) {
    j != LINES && forall k :: GENERIC <= k < |rings| ==> rings[k].pending == if k == j then [y] else []
  }

  lemma FirstAccepted(s: Logger, p: string, a: seq<byte>)
    requires Shaped(s) && p != [] && 0 < |a| <= MAX_BLOB && forall k :: GENERIC <= k < RINGS ==> s.rings[k].pending == []
    ensures OneHolds(Step(s, Blob(p, a)).rings, RingOf(p), StoredBlob(p, a))
    ensures Step(s, Blob(p, a)).flusher == s.flusher && Step(s, Blob(p, a)).output == s.output
  {
  }

  lemma SecondAccepted(s: Logger, j: nat, y: Entry, q: string, b: seq<byte>)
    requires Shaped(s) && OneHolds(s.rings, j, y) && RingOf(q) < j < RINGS && q != [] && 0 < |b| <= MAX_BLOB
    ensures TwoHold(Step(s, Blob(q, b)).rings, RingOf(q), StoredBlob(q, b), j, y)
    ensures SingleRecords(Step(s, Blob(q, b)).rings)
    ensures Step(s, Blob(q, b)).flusher == s.flusher && Step(s, Blob(q, b)).output == s.output
  {
    var rings := Step(s, Blob(q, b)).rings;
    forall k | GENERIC <= k < RINGS ensures rings[k].pending == Held(k, RingOf(q), StoredBlob(q, b), j, y) {
      assert s.rings[k].pending == if k == j then [y] else [];
    }
  }

  lemma BothAccepted(banner: Entry, p: string, a: seq<byte>, q: string, b: seq<byte>, both: seq<Event>)
    requires p != [] && q != [] && RingOf(q) < RingOf(p) && both == [Blob(p, a)] + [Blob(q, b)]
    requires 0 < |a| <= MAX_BLOB && 0 < |b| <= MAX_BLOB
    ensures
      var s := Run(banner, both);
      s.flusher == Waiting && s.output == [] && SingleRecords(s.rings)
      && TwoHold(s.rings, RingOf(q), StoredBlob(q, b), RingOf(p), StoredBlob(p, a))
  {
    var first := [Blob(p, a)];
    OneMore(banner, [], Blob(p, a));
    assert [] + [Blob(p, a)] == first;
    FirstAccepted(Started(banner), p, a);
    OneMore(banner, first, Blob(q, b));
    SecondAccepted(Run(banner, first), RingOf(p), StoredBlob(p, a), q, b);
  }

  /**
   * Two long paths that are cut to the same name but lead to different rings: handed in against the order of the
   * rings, their records are written the other way round.
   */
  lemma SharedNamesCanSwap(banner: Entry, p: string, a: seq<byte>, q: string, b: seq<byte>) returns (events: seq<Event>)
    requires p != [] && q != [] && Clamp(p, MAX_PATH) == Clamp(q, MAX_PATH) && RingOf(q) < RingOf(p)
    requires 0 < |a| <= MAX_BLOB && 0 < |b| <= MAX_BLOB
    ensures |events| <= 17 * RINGS + 4 && HandedTo(events, Clamp(p, MAX_PATH)) == [a, b]
    ensures FileOf(Run(banner, events).output, Clamp(p, MAX_PATH)) == [b, a]
  {
    var path, both := Clamp(p, MAX_PATH), [Blob(p, a)] + [Blob(q, b)];
    BothAccepted(banner, p, a, q, b, both);
    TwoPending(Run(banner, both).rings, RingOf(q), Entry(path, b), RingOf(p), Entry(path, a), RINGS);
    var n := OnePass(banner, both, path);
    events := both + FlusherSteps(n);
    HandedToBoth(p, a, q, b, n);
  }

  lemma ForPathOne(e: Entry)
    ensures ForPath([e], e.path) == [e.data]
  {
    assert [e][..0] == [];
  }

  lemma PendingOneMore(rings: seq<Ring>, ring: nat, path: string, before: seq<seq<byte>>, piece: seq<seq<byte>>)
    requires ring < |rings| && before == PendingFor(rings, ring, path)
    requires piece == if ring == LINES then [] else ForPath(rings[ring].pending, path)
    ensures PendingFor(rings, ring + 1, path) == before + piece
    ensures piece == [] ==> PendingFor(rings, ring + 1, path) == before
  {
  }

  lemma {:induction false} TwoPending(rings: seq<Ring>, i: nat, x: Entry, j: nat, y: Entry, upto: nat)
    requires upto <= |rings| && i < j && x.path == y.path && TwoHold(rings, i, x, j, y)
    ensures PendingFor(rings, upto, x.path) == if upto <= i then [] else if upto <= j then [x.data] else [x.data, y.data]
  {
    if upto == 0 {
    } else {
      var ring := upto - 1;
      var before := PendingFor(rings, ring, x.path);
      TwoPending(rings, i, x, j, y, ring);
      assert ring != LINES ==> rings[ring].pending == Held(ring, i, x, j, y);
      if ring == i {
        ForPathOne(x);
        PendingOneMore(rings, ring, x.path, before, [x.data]);
      } else if ring == j {
        ForPathOne(y);
        PendingOneMore(rings, ring, x.path, before, [y.data]);
      } else {
        PendingOneMore(rings, ring, x.path, before, []);
      }
    }
  }

  lemma HandedOneMore(events: seq<Event>, event: Event, longer: seq<Event>, path: string)
    requires longer == events + [event]
    ensures HandedTo(longer, path) == HandedTo(events, path)
      + if event.Blob? && Clamp(event.path, MAX_PATH) == path && 0 < |event.data| <= MAX_BLOB then [event.data] else []
  {
    assert longer[..|longer| - 1] == events;
  }

  lemma {:induction false} HandedToBoth(p: string, a: seq<byte>, q: string, b: seq<byte>, n: nat)
    requires Clamp(p, MAX_PATH) == Clamp(q, MAX_PATH) && 0 < |a| <= MAX_BLOB && 0 < |b| <= MAX_BLOB
    ensures HandedTo([Blob(p, a)] + [Blob(q, b)] + FlusherSteps(n), Clamp(p, MAX_PATH)) == [a, b]
  {
    var path, both := Clamp(p, MAX_PATH), [Blob(p, a)] + [Blob(q, b)];
    if n == 0 {
      var first := [Blob(p, a)];
      HandedOneMore([], Blob(p, a), first, path);
      assert HandedTo(first, path) == [a];
      HandedOneMore(first, Blob(q, b), both, path);
      assert HandedTo(both, path) == [a, b];
      assert both + FlusherSteps(0) == both;
    } else {
      HandedToBoth(p, a, q, b, n - 1);
      HandedOneMore(both + FlusherSteps(n - 1), FlusherStep, both + FlusherSteps(n), path);
    }
  }

  // The flush thread always finishes once the producers stop.

  function Total(rings: seq<Ring>, upto: nat): nat
    requires upto <= |rings|
  {
    if upto == 0 then 0 else Total(rings, upto - 1) + |rings[upto - 1].pending|
  }

  lemma {:induction false} CollectShrinks(rings: seq<Ring>, upto: nat)
    requires upto <= |rings|
    ensures Total(Collected(rings), upto) + |Batches(rings, upto)| == Total(rings, upto)
  {
    if upto == 0 {
    } else {
      CollectShrinks(rings, upto - 1);
    }
  }

  lemma {:induction false} TotalZero(rings: seq<Ring>, upto: nat)
    requires upto <= |rings|
    ensures Total(rings, upto) == 0 <==> AllEmpty(rings[..upto])
  {
    if upto == 0 {
    } else {
      TotalZero(rings, upto - 1);
      assert rings[..upto] == rings[..upto - 1] + [rings[upto - 1]];
    }
  }

  lemma PendingMeansWork(rings: seq<Ring>)
    ensures Batches(rings, |rings|) == [] ==> Total(rings, |rings|) == 0
  {
    if Batches(rings, |rings|) == [] {
      EmptyBatches(rings, |rings|);
      assert rings[..|rings|] == rings;
      TotalZero(rings, |rings|);
    }
  }

  /** How far the flush thread is from its next collection, or from exiting when nothing is left to collect. */
  function Distance(f: Flusher, pending: nat): nat {
    match f
    case Exited => 0
    case Checking => if pending > 0 then 6 else 1
    case Emitting(_, empty) => if !empty then 4 else if pending > 0 then 7 else 2
    case Collecting => 3
    case Waiting => 5
  }

  lemma CollectAdvances(s: Logger, t: Logger)
    requires Shaped(s) && s.flusher == Collecting && t == FlusherTurn(s)
    ensures
      || Total(t.rings, RINGS) < Total(s.rings, RINGS)
      || (Total(t.rings, RINGS) == Total(s.rings, RINGS) == 0 && t.flusher.Emitting? && t.flusher.empty)
  {
    CollectShrinks(s.rings, RINGS);
    PendingMeansWork(s.rings);
  }

  lemma TurnAdvances(s: Logger, t: Logger, a: nat, b: nat)
    requires Shaped(s) && s.stopping && s.flusher != Exited && t == FlusherTurn(s)
    requires a == Total(s.rings, RINGS) && b == Total(t.rings, RINGS)
    ensures t.stopping
    ensures
      || b < a
      || (a == b && Distance(t.flusher, b) < Distance(s.flusher, a))
      || (a == b && Distance(t.flusher, b) == Distance(s.flusher, a) && |InFlight(t.flusher)| < |InFlight(s.flusher)|)
  {
    match s.flusher
    case Collecting => CollectAdvances(s, t);
    case Checking =>
      TotalZero(s.rings, RINGS);
      assert s.rings[..RINGS] == s.rings;
    case Emitting(work, empty) =>
      assert t.rings == s.rings;
    case Waiting =>
      assert t.rings == s.rings;
  }

  /** After a stop request, and with no more entries coming in, finitely many flusher steps reach the exit. */
  lemma StopIsHonoured(banner: Entry, events: seq<Event>) returns (n: nat)
    requires Run(banner, events).stopping
    ensures Run(banner, events + FlusherSteps(n)).flusher == Exited
    decreases Total(Run(banner, events).rings, RINGS),
      Distance(Run(banner, events).flusher, Total(Run(banner, events).rings, RINGS)),
      |InFlight(Run(banner, events).flusher)|
  {
    var s := Run(banner, events);
    if s.flusher == Exited {
      n := 0;
      assert events + FlusherSteps(0) == events;
    } else {
      var longer := events + [FlusherStep];
      OneMore(banner, events, FlusherStep);
      TurnAdvances(s, Run(banner, longer), Total(s.rings, RINGS), Total(Run(banner, longer).rings, RINGS));
      var rest := StopIsHonoured(banner, longer);
      n := rest + 1;
      StepsJoin(events, rest, longer);
    }
  }

  function FlusherSteps(n: nat): seq<Event> {
    seq(n, _ => FlusherStep)
  }
}
