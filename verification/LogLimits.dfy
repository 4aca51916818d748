/** What the fixed sizes of the logger's slots cost: which file names keep their order, and which drops stay unreported. */
module LogLimits {
  import opened Bytes
  import opened LogFlusher
  import opened LogRings

  // Which file names keep the order of their records in every run.

  const NIFM := "probe-mitm-" + "nifm.bin"

  ghost predicate KeepsOrder(banner: Entry, path: string) {
    forall events: seq<Event> :: |events| < 0x1_0000_0000_0000_0000 ==>
      Subsequence(FileOf(Run(banner, events).output, path), HandedTo(events, path))
  }

  lemma LongerContains(name: string, rest: string, path: string, part: string)
    requires path == name + rest && Contains(name, part)
    ensures Contains(path, part)
  {
    var at :| 0 <= at <= |name| && OccursAt(name, part, at);
    assert path[at..at + |part|] == name[at..at + |part|];
    assert OccursAt(path, part, at);
  }

  lemma EndsWithPart(name: string, part: string, path: string)
    requires path == name + part
    ensures Contains(path, part)
  {
    assert path[|name|..|name| + |part|] == part;
    assert OccursAt(path, part, |name|);
  }

  lemma CutPath(path: string, name: string)
    requires Clamp(path, MAX_PATH) == name && |name| == MAX_PATH
    ensures path == name + path[MAX_PATH..]
  {
  }

  /** A name that fills its slot and shows the nifm file name: however its paths go on, they lead to the nifm ring. */
  lemma NifmNamesHaveOneRing(events: seq<Event>, name: string)
    requires |name| == MAX_PATH && Contains(name, NIFM)
    ensures OneRing(events, name, 2)
  {
    forall i | 0 <= i < |events| && events[i].Blob? && Clamp(events[i].path, MAX_PATH) == name
      ensures RingOf(events[i].path) == 2
    {
      CutPath(events[i].path, name);
      LongerContains(name, events[i].path[MAX_PATH..], events[i].path, NIFM);
    }
  }

  /** Any other name of that length is shared by a path on the nifm ring and the name itself, on another ring. */
  lemma OtherNamesAreShared(name: string) returns (p: string, q: string)
    requires |name| == MAX_PATH && !Contains(name, NIFM)
    ensures Clamp(p, MAX_PATH) == Clamp(q, MAX_PATH) == name && RingOf(q) < RingOf(p)
  {
    var longer := name + NIFM;
    EndsWithPart(name, NIFM, longer);
    assert longer[..MAX_PATH] == name;
    if RingOf(name) < 2 {
      p, q := longer, name;
    } else {
      p, q := name, longer;
    }
  }

  lemma NotSubsequence(a: seq<byte>, b: seq<byte>)
    requires a != b
    ensures !Subsequence([b, a], [a, b])
  {
    var long, short := [a, b], [b, a];
    assert long[..1] == [a] && short[..1] == [b];
    assert !Subsequence(short, long[..1]) && !Subsequence(short[..1], long[..1]);
  }

  lemma SwappedRun(banner: Entry, name: string) returns (events: seq<Event>)
    requires |name| == MAX_PATH && !Contains(name, NIFM)
    ensures |events| < 0x1_0000_0000_0000_0000
    ensures !Subsequence(FileOf(Run(banner, events).output, name), HandedTo(events, name))
  {
    var p, q := OtherNamesAreShared(name);
    events := SharedNamesCanSwap(banner, p, [0], q, [1]);
    NotSubsequence([0], [1]);
  }

  lemma KeptInRun(banner: Entry, events: seq<Event>, name: string)
    requires name != [] && (|name| != MAX_PATH || Contains(name, NIFM)) && |events| < 0x1_0000_0000_0000_0000
    ensures Subsequence(FileOf(Run(banner, events).output, name), HandedTo(events, name))
  {
    if |name| < MAX_PATH {
      ShortPathsKeepTheirOrder(banner, events, name);
    } else if |name| == MAX_PATH {
      NifmNamesHaveOneRing(events, name);
      RecordsKeepTheirOrder(banner, events, name, 2);
    } else {
      RecordsKeepTheirOrder(banner, events, name, GENERIC);
    }
  }

  /** Exactly which file names keep the order of their records in every run: all but those that just fill their slot
    * and do not show the nifm file name. */
  lemma KeepsOrderIff(banner: Entry, name: string)
    requires name != []
    ensures KeepsOrder(banner, name) <==> |name| != MAX_PATH || Contains(name, NIFM)
  {
    if |name| != MAX_PATH || Contains(name, NIFM) {
      forall events: seq<Event> | |events| < 0x1_0000_0000_0000_0000
        ensures Subsequence(FileOf(Run(banner, events).output, name), HandedTo(events, name))
      {
        KeptInRun(banner, events, name);
      }
    } else {
      var events := SwappedRun(banner, name);
    }
  }

  // A refusal that is never reported.

  function Turns(s: Logger, n: nat): (t: Logger)
    requires Shaped(s)
    ensures Shaped(t)
  {
    if n == 0 then s else FlusherTurn(Turns(s, n - 1))
  }

  lemma {:induction false} StepsAreTurns(banner: Entry, events: seq<Event>, n: nat)
    ensures Run(banner, events + FlusherSteps(n)) == Turns(Run(banner, events), n)
  {
    if n == 0 {
      assert events + FlusherSteps(0) == events;
    } else {
      StepsAreTurns(banner, events, n - 1);
      OneMore(banner, events + FlusherSteps(n - 1), FlusherStep);
      assert events + FlusherSteps(n) == events + FlusherSteps(n - 1) + [FlusherStep];
    }
  }

  /** Only the ring of lines may hold something, and nothing has been dropped. */
  predicate OnlyLines(rings: seq<Ring>, lines: seq<Entry>) {
    |rings| == RINGS && forall i :: 0 <= i < RINGS ==> rings[i] == Ring(if i == LINES then lines else [], 0)
  }

  lemma {:induction false} NoWarnings(rings: seq<Ring>, lines: seq<Entry>, upto: nat)
    requires OnlyLines(rings, lines) && upto <= RINGS
    ensures Warnings(rings, upto) == []
  {
    if upto > 0 {
      NoWarnings(rings, lines, upto - 1);
      assert rings[upto - 1].dropped == 0;
    }
  }

  lemma {:induction false} WorkOfLines(rings: seq<Ring>, lines: seq<Entry>, upto: nat)
    requires OnlyLines(rings, lines) && |lines| <= 1 && upto <= RINGS
    ensures Batches(rings, upto) == if upto == 0 then [] else Writes(LINES, lines)
  {
    if upto > 0 {
      var ring, before := upto - 1, Batches(rings, upto - 1);
      WorkOfLines(rings, lines, ring);
      if ring == LINES {
        assert Taken(rings[ring], BatchSize(ring)) == lines;
        assert before + Writes(ring, lines) == Writes(LINES, lines);
      } else {
        assert Taken(rings[ring], BatchSize(ring)) == [];
        assert before + Writes(ring, []) == before;
      }
    }
  }

  lemma CollectedLines(rings: seq<Ring>, lines: seq<Entry>)
    requires OnlyLines(rings, lines) && |lines| <= 1
    ensures OnlyLines(Collected(rings), [])
  {
  }

  /** One pass over a logger that holds at most one line. */
  lemma PassOverLines(s: Logger, lines: seq<Entry>)
    requires Shaped(s) && s.flusher == Collecting && OnlyLines(s.rings, lines) && |lines| <= 1
    ensures OnlyLines(FlusherTurn(s).rings, []) && FlusherTurn(s).flusher == Emitting(Writes(LINES, lines), lines == [])
    ensures FlusherTurn(s).output == s.output && FlusherTurn(s).stopping == s.stopping
    ensures FlusherTurn(s).refused == s.refused
  {
    NoWarnings(s.rings, lines, RINGS);
    WorkOfLines(s.rings, lines, RINGS);
    CollectedLines(s.rings, lines);
  }

  /** The flush thread of a logger that was stopped at once: it writes the banner and comes to its last check. */
  lemma StoppedTurns(s: Logger, banner: Entry)
    requires s == Started(banner).(stopping := true)
    ensures
      var t := Turns(s, 6);
      && t.flusher == Checking && t.stopping && OnlyLines(t.rings, []) && t.refused == 0
      && t.output == Writes(LINES, [banner])
  {
    assert OnlyLines(s.rings, [banner]);
    assert Turns(s, 1) == s.(flusher := Collecting);
    PassOverLines(Turns(s, 1), [banner]);
    var work := Writes(LINES, [banner]);
    assert Turns(s, 2).flusher == Emitting(work, false) && Turns(s, 2).output == [];
    assert work[1..] == [] && [] + [work[0]] == work;
    assert Turns(s, 3).flusher == Emitting([], false) && Turns(s, 3).output == work;
    assert Turns(s, 4).flusher == Collecting;
    PassOverLines(Turns(s, 4), []);
    assert Turns(s, 5).flusher == Emitting([], true);
  }

  lemma RefusedAtTheEnd(s: Logger, path: string, data: seq<byte>)
    requires Shaped(s) && s.flusher == Checking && s.stopping && OnlyLines(s.rings, []) && s.refused == 0
    requires path != [] && |data| > MAX_BLOB
    ensures
      var t := FlusherTurn(Step(s, Blob(path, data)));
      t.flusher == Exited && t.refused == 1 && t.rings[GENERIC].dropped == 1 && t.output == s.output
  {
    var refused := Step(s, Blob(path, data));
    assert forall i :: 0 <= i < RINGS ==> refused.rings[i].pending == [];
    assert AllEmpty(refused.rings);
  }

  /**
   * A record that is refused for its size between the flush thread's last collection and its exit: the thread has
   * exited, the drop is in its counter, and nothing that was written reports it.
   */
  lemma RefusalCanStayUnreported(banner: Entry, path: string, data: seq<byte>) returns (events: seq<Event>)
    requires path != [] && |data| > MAX_BLOB
    ensures
      var s := Run(banner, events);
      && s.flusher == Exited && s.refused == 1 && s.rings[GENERIC].dropped == 1
      && s.output == Writes(LINES, [banner]) && ReportedOf(s.output, GENERIC) == 0
  {
    var stopped := [RequestStop];
    OneMore(banner, [], RequestStop);
    assert [] + [RequestStop] == stopped;
    StoppedTurns(Run(banner, stopped), banner);
    var checking := stopped + FlusherSteps(6);
    StepsAreTurns(banner, stopped, 6);
    RefusedAtTheEnd(Run(banner, checking), path, data);
    OneMore(banner, checking, Blob(path, data));
    OneMore(banner, checking + [Blob(path, data)], FlusherStep);
    events := checking + [Blob(path, data)] + [FlusherStep];
    WritesOf(LINES, [banner], GENERIC);
  }

  // How many lines wait before one is lost.

  function LinesOnly(path: string, line: seq<byte>, n: nat): (events: seq<Event>)
    ensures |events| == n
  {
    seq(n, _ => Line(path, line))
  }

  function Copies(e: Entry, n: nat): (c: seq<Entry>)
    ensures |c| == n
  {
    seq(n, _ => e)
  }

  lemma {:induction false} LinesFill(banner: Entry, path: string, line: seq<byte>, n: nat)
    requires path != [] && line != [] && n <= 895
    ensures Run(banner, LinesOnly(path, line, n)).rings[0] == Ring([banner] + Copies(StoredLine(path, line), n), 0)
  {
    var e := StoredLine(path, line);
    if n == 0 {
      assert [banner] + Copies(e, 0) == [banner];
    } else {
      LinesFill(banner, path, line, n - 1);
      assert LinesOnly(path, line, n) == LinesOnly(path, line, n - 1) + [Line(path, line)];
      OneMore(banner, LinesOnly(path, line, n - 1), Line(path, line));
      LinesThatWait(Run(banner, LinesOnly(path, line, n - 1)).rings, path, line);
      assert [banner] + Copies(e, n - 1) + [e] == [banner] + Copies(e, n);
    }
  }

  /** Until the flush thread runs, 895 lines wait behind the boot banner; the next one pushes the banner out. */
  lemma BannerIsPushedOut(banner: Entry, path: string, line: seq<byte>)
    requires path != [] && line != []
    ensures Run(banner, LinesOnly(path, line, 895)).rings[0] == Ring([banner] + Copies(StoredLine(path, line), 895), 0)
    ensures Run(banner, LinesOnly(path, line, 896)).rings[0] == Ring(Copies(StoredLine(path, line), 896), 1)
  {
    var e := StoredLine(path, line);
    LinesFill(banner, path, line, 895);
    assert LinesOnly(path, line, 896) == LinesOnly(path, line, 895) + [Line(path, line)];
    OneMore(banner, LinesOnly(path, line, 895), Line(path, line));
    LinesThatWait(Run(banner, LinesOnly(path, line, 895)).rings, path, line);
    assert ([banner] + Copies(e, 895))[1..] + [e] == Copies(e, 896);
  }
}
