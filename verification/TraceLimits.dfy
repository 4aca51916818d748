/**
 * What the fixed sizes of the trace tables and of the path buffer cost: exactly which open handles are forgotten,
 * when a close is therefore taken for the last one, and which paths no longer show their ancestry.
 */
module TraceLimits {
  import opened Bytes
  import opened SlotTable
  import opened TraceTables
  import opened TraceRun
  import opened Wrappers
  import ObjectPath
  import Text

  // Handles that are open without being tracked.

  predicate Accepts(e: Event, session: u64, handle: int) {
    (e.Accepted? || e.CloneAccepted?) && e.session == session && e.handle == handle
  }

  predicate Closes(e: Event, session: u64, handle: int) {
    e.HandleClosed? && e.session == session && e.handle == handle
  }

  /** The event removes this handle from the table although it does not close it. */
  predicate Drops(t: Tables, e: Event, session: u64, handle: int)
    requires Shaped(t)
  {
    match e
    case Accepted(s, h, _, _, _) => Evicts(t.handles, Key(s, h)) && t.handles[0].key == Key(session, handle)
    case CloneAccepted(s, h, _, _, _) => Evicts(t.handles, Key(s, h)) && t.handles[0].key == Key(session, handle)
    case Connected(s, _) => Evicts(t.sessions, SessionKey(s)) && t.sessions[0].key.session == session
    case Disconnected(s) => s == session
    case _ => false
  }

  lemma OpenAfterAccept(t: Tables, e: Event, session: u64, handle: int)
    requires Shaped(t) && Unique(t.handles) && (e.Accepted? || e.CloneAccepted?)
    ensures IsOpen(Step(t, e), session, handle)
      <==> Accepts(e, session, handle) || (IsOpen(t, session, handle) && !Drops(t, e, session, handle))
  {
    var key := Key(e.session, e.handle);
    var value := HandleSeen(Lookup(t.handles, key), e.peer, e.forward, e.CloneAccepted?, e.now);
    assert Step(t, e).handles == Store(t.handles, key, value);
    LookupStored(t.handles, key, value, Key(session, handle));
  }

  /** Which handles are open after one event: for every event, every table and every handle. */
  lemma OpenAfter(t: Tables, e: Event, session: u64, handle: int)
    requires Shaped(t) && KeysUnique(t) && Possible(e)
    ensures IsOpen(Step(t, e), session, handle)
      <==> (Accepts(e, session, handle)
        || (IsOpen(t, session, handle) && !Closes(e, session, handle) && !Drops(t, e, session, handle)))
  {
    match e
    case Accepted(_, _, _, _, _) => OpenAfterAccept(t, e, session, handle);
    case CloneAccepted(_, _, _, _, _) => OpenAfterAccept(t, e, session, handle);
    case HandleClosed(s, h, now) => OpenAfterClose(t, e, session, handle);
    case Disconnected(s) => ForgottenDetails(t, s, session, handle);
    case Connected(s, _) =>
      if Evicts(t.sessions, SessionKey(s)) {
        ForgottenDetails(t, t.sessions[0].key.session, session, handle);
      }
    case ObjectsReturned(s, parent, _, _) => ChildrenTouchPathsOnly(t, e, RelativePath(t, s, parent), 0);
    case _ =>
  }

  lemma OpenAfterClose(t: Tables, e: Event, session: u64, handle: int)
    requires Shaped(t) && Unique(t.handles) && e.HandleClosed?
    ensures IsOpen(Step(t, e), session, handle) <==> IsOpen(t, session, handle) && !Closes(e, session, handle)
  {
    var key := Key(e.session, e.handle);
    if Lookup(t.handles, key).Some? {
      LookupStored(t.handles, key, Lookup(t.handles, key).value.(closed := true, closeSeen := e.now), Key(session, handle));
    }
  }

  /** The handle was handed out and has not been closed since, whatever the tables say. */
  predicate Alive(events: seq<Event>, session: u64, handle: int) {
    if events == [] then false else
      var e := events[|events| - 1];
      Accepts(e, session, handle) || (!Closes(e, session, handle) && Alive(events[..|events| - 1], session, handle))
  }

  /** The handle was dropped while it was open, and has neither been handed out nor closed since. */
  predicate Dropped(events: seq<Event>, session: u64, handle: int)
    requires AllPossible(events)
  {
    if events == [] then false else
      var before, e := events[..|events| - 1], events[|events| - 1];
      && !Accepts(e, session, handle) && !Closes(e, session, handle)
      && (Dropped(before, session, handle)
        || (IsOpen(Run(before), session, handle) && Drops(Run(before), e, session, handle)))
  }

  /** In every run the handles that are really open are those tracked as open and those dropped. */
  lemma {:induction false} AliveIsOpenOrDropped(events: seq<Event>, session: u64, handle: int)
    requires AllPossible(events)
    ensures Alive(events, session, handle)
      <==> IsOpen(Run(events), session, handle) || Dropped(events, session, handle)
    ensures !(IsOpen(Run(events), session, handle) && Dropped(events, session, handle))
  {
    if events == [] {
    } else {
      var before, e := events[..|events| - 1], events[|events| - 1];
      AliveIsOpenOrDropped(before, session, handle);
      KeysAlwaysUnique(before);
      OpenAfter(Run(before), e, session, handle);
    }
  }

  /** The tracer takes a close for the session's last one, and it is not. */
  predicate TakenForLast(events: seq<Event>, session: u64, handle: int, now: u64)
    requires AllPossible(events)
  {
    OpenHandles(Step(Run(events), HandleClosed(session, handle, now)), session) == 0
  }

  ghost predicate OtherAlive(events: seq<Event>, session: u64, handle: int) {
    exists h: int :: h != handle && Alive(events, session, h)
  }

  ghost predicate OtherTracked(t: Tables, session: u64, handle: int) {
    exists h: int :: h != handle && IsOpen(t, session, h)
  }

  ghost predicate OtherDropped(events: seq<Event>, session: u64, handle: int)
    requires AllPossible(events)
  {
    exists h: int :: h != handle && Dropped(events, session, h)
  }

  lemma OtherAliveIff(events: seq<Event>, session: u64, handle: int)
    requires AllPossible(events)
    ensures OtherAlive(events, session, handle)
      <==> OtherTracked(Run(events), session, handle) || OtherDropped(events, session, handle)
  {
    if OtherAlive(events, session, handle) {
      var h: int :| h != handle && Alive(events, session, h);
      AliveIsOpenOrDropped(events, session, h);
    }
    if OtherTracked(Run(events), session, handle) {
      var h: int :| h != handle && IsOpen(Run(events), session, h);
      AliveIsOpenOrDropped(events, session, h);
    }
    if OtherDropped(events, session, handle) {
      var h: int :| h != handle && Dropped(events, session, h);
      AliveIsOpenOrDropped(events, session, h);
    }
  }

  lemma TakenForLastIff(events: seq<Event>, session: u64, handle: int, now: u64)
    requires AllPossible(events)
    ensures TakenForLast(events, session, handle, now) <==> !OtherTracked(Run(events), session, handle)
  {
    KeysAlwaysUnique(events);
    FinalClose(Run(events), session, handle, now);
  }

  ghost predicate WronglyFinal(events: seq<Event>, session: u64, handle: int, now: u64)
    requires AllPossible(events)
  {
    TakenForLast(events, session, handle, now) && OtherAlive(events, session, handle)
  }

  /**
   * Exactly when a close is wrongly taken for the last one, over every run: no other handle of the session is
   * tracked as open, and at least one has been dropped from the tables while it was.
   */
  lemma WronglyFinalIff(events: seq<Event>, session: u64, handle: int, now: u64)
    requires AllPossible(events)
    ensures WronglyFinal(events, session, handle, now)
      <==> !OtherTracked(Run(events), session, handle) && OtherDropped(events, session, handle)
  {
    TakenForLastIff(events, session, handle, now);
    OtherAliveIff(events, session, handle);
  }

  // A run that does it: two handles of session 1, then handles of session 2 until the table overflows.

  function SessionOf(i: nat): u64 {
    if i < 2 then 1 else 2
  }

  function Fill(n: nat): (events: seq<Event>)
    ensures |events| == n && AllPossible(events)
  {
    seq(n, i requires 0 <= i < n => Accepted(SessionOf(i), i, 0, NoForward, 1))
  }

  function FilledTable(n: nat): (t: Table<SessionHandle>)
    ensures |t| == MAX_SESSION_HANDLES
  {
    seq(MAX_SESSION_HANDLES, i requires 0 <= i < MAX_SESSION_HANDLES =>
      if i < n then Used(Key(SessionOf(i), i), SessionHandle(0, NoForward, false, 1, 0, false)) else Free)
  }

  lemma NextInTable(n: nat, key: Key)
    requires n <= MAX_SESSION_HANDLES && key == Key(SessionOf(n), n)
    ensures Lookup(FilledTable(n), key) == None
    ensures n < MAX_SESSION_HANDLES ==> Place(FilledTable(n), key) == n
    ensures n == MAX_SESSION_HANDLES ==> Evicts(FilledTable(n), key)
  {
    var t := FilledTable(n);
    assert forall k :: 0 <= k < |t| ==> !Holds(t[k], key);
    FirstFreeIs(t, n);
  }

  lemma {:induction false} Filled(n: nat)
    requires n <= MAX_SESSION_HANDLES
    ensures Run(Fill(n)).handles == FilledTable(n)
  {
    if n == 0 {
      assert Run(Fill(0)).handles == FilledTable(0);
    } else {
      var key := Key(SessionOf(n - 1), n - 1);
      Filled(n - 1);
      assert Fill(n)[..n - 1] == Fill(n - 1);
      NextInTable(n - 1, key);
      var value := SessionHandle(0, NoForward, false, 1, 0, false);
      assert Run(Fill(n)).handles == FilledTable(n - 1)[n - 1 := Used(key, value)];
      assert FilledTable(n - 1)[n - 1 := Used(key, value)] == FilledTable(n);
    }
  }

  lemma OpenInFilled(n: nat, handle: int)
    requires n <= MAX_SESSION_HANDLES && Run(Fill(n)).handles == FilledTable(n)
    ensures IsOpen(Run(Fill(n)), 1, handle) <==> 0 <= handle < 2 && handle < n
  {
    var t := FilledTable(n);
    if 0 <= handle < 2 && handle < n {
      FirstIs(t, Key(1, handle), handle);
    } else {
      assert forall k :: 0 <= k < |t| ==> !Holds(t[k], Key(1, handle));
    }
  }

  /** 129 handles: the last one pushes out handle 0 of session 1, and closing handle 1 then ends that session early. */
  lemma FullTableEndsASessionEarly(now: u64)
    ensures WronglyFinal(Fill(MAX_SESSION_HANDLES + 1), 1, 1, now)
    ensures Alive(Fill(MAX_SESSION_HANDLES + 1), 1, 0)
  {
    var n := MAX_SESSION_HANDLES;
    var before, events := Fill(n), Fill(n + 1);
    Filled(n);
    assert events[..n] == before;
    NextInTable(n, Key(SessionOf(n), n));
    OpenInFilled(n, 0);
    assert Drops(Run(before), events[n], 1, 0);
    assert Dropped(events, 1, 0);
    KeysAlwaysUnique(before);
    forall h: int | h != 1 ensures !IsOpen(Run(events), 1, h) {
      OpenInFilled(n, h);
      OpenAfter(Run(before), events[n], 1, h);
    }
    WronglyFinalIff(events, 1, 1, now);
    AliveIsOpenOrDropped(events, 1, 0);
  }

  // Paths that do not fit.

  lemma CutSegment(parent: string, command: u32, index: u32, piece: string, path: string)
    requires |parent| <= MAX_PATH_LENGTH && path == Clip(ObjectPath.Child(parent, command, index))
    requires piece == path[|parent|..]
    ensures path == parent + piece && |parent| <= |path|
    ensures |piece| <= |ObjectPath.Segment(command, index)|
    ensures piece == ObjectPath.Segment(command, index)[..|piece|]
    ensures |path| < MAX_PATH_LENGTH ==> |piece| == |ObjectPath.Segment(command, index)|
    ensures |path| <= MAX_PATH_LENGTH
  {
    var whole := ObjectPath.Child(parent, command, index);
    assert whole[..|parent|] == parent;
    assert whole[|parent|..] == ObjectPath.Segment(command, index);
  }

  lemma PieceMarks(command: u32, index: u32, piece: string)
    requires |piece| <= |ObjectPath.Segment(command, index)|
    requires piece == ObjectPath.Segment(command, index)[..|piece|]
    ensures forall k :: 1 <= k < |piece| ==> piece[k] != '.'
    ensures ObjectPath.MarkAt(piece, 0) <==> |piece| >= 4
    ensures ObjectPath.CountMarks(piece, 0) == if |piece| >= 4 then 1 else 0
    ensures ObjectPath.NoMarkTail(piece)
  {
    ObjectPath.SegmentText(command, index);
    if piece != [] {
      ObjectPath.NoDotNoMark(piece, 1);
    }
  }

  /** The depth of a child's path, cut or not: one segment more exactly if ".cmd" still fits, and else none. */
  lemma CutPathsLoseTheirChildren(parent: string, command: u32, index: u32)
    requires |parent| <= MAX_PATH_LENGTH
    ensures ObjectPath.CountMarks(Clip(ObjectPath.Child(parent, command, index)), 0)
      == ObjectPath.CountMarks(parent, 0) + if |parent| + 4 <= MAX_PATH_LENGTH then 1 else 0
  {
    var path := Clip(ObjectPath.Child(parent, command, index));
    var piece := path[|parent|..];
    CutSegment(parent, command, index, piece, path);
    PieceMarks(command, index, piece);
    ObjectPath.CountJoin(parent, piece, path, 0);
  }

  // Reading the creator back from a cut path.

  predicate Dotted(b: string) {
    b == [] || b[0] == '.'
  }

  lemma {:induction false} SkipSpaceJoin(a: string, b: string, ab: string, from: nat)
    requires ab == a + b && Dotted(b) && from <= |a|
    ensures ObjectPath.SkipSpace(ab, from) == ObjectPath.SkipSpace(a, from)
    decreases |a| - from
  {
    if from < |a| {
      SkipSpaceJoin(a, b, ab, from + 1);
    }
  }

  lemma {:induction false} DigitsEndJoin(a: string, b: string, ab: string, from: nat)
    requires ab == a + b && Dotted(b) && from <= |a|
    ensures ObjectPath.DigitsEnd(ab, from) == ObjectPath.DigitsEnd(a, from)
    decreases |a| - from
  {
    if from < |a| {
      DigitsEndJoin(a, b, ab, from + 1);
    }
  }

  /** Where a sign may stand, it stands in the same place. */
  predicate SignAt(s: string, i: nat) {
    i < |s| && (s[i] == '-' || s[i] == '+')
  }

  lemma SignJoin(a: string, b: string, ab: string, i: nat)
    requires ab == a + b && Dotted(b) && i <= |a|
    ensures SignAt(ab, i) == SignAt(a, i)
  {
  }

  lemma SliceJoin(a: string, b: string, ab: string, i: nat, j: nat)
    requires ab == a + b && i <= j <= |a|
    ensures ab[i..j] == a[i..j]
  {
  }

  /** What strtoul reads after these places is the same: where the digits start, and where they end. */
  lemma StrtoulJoin(a: string, b: string, ab: string, from: nat)
    requires ab == a + b && Dotted(b) && from <= |a|
    ensures ObjectPath.Strtoul(ab, from) == ObjectPath.Strtoul(a, from)
  {
    var start := ObjectPath.SkipSpace(a, from);
    SkipSpaceJoin(a, b, ab, from);
    SignJoin(a, b, ab, start);
    var digits := if SignAt(a, start) then start + 1 else start;
    var end := ObjectPath.DigitsEnd(a, digits);
    DigitsEndJoin(a, b, ab, digits);
    SliceJoin(a, b, ab, digits, end);
    assert start < |a| ==> ab[start] == a[start];
  }

  lemma CreatorJoin(a: string, b: string, ab: string, last: int)
    requires ab == a + b && Dotted(b) && (last >= 0 ==> ObjectPath.MarkAt(a, last) && ObjectPath.MarkAt(ab, last))
    ensures ObjectPath.CreatorAt(ab, last) == ObjectPath.CreatorAt(a, last)
  {
    if last >= 0 {
      StrtoulJoin(a, b, ab, last + 4);
    }
  }

  lemma SameLastMark(full: string, parent: string, piece: string)
    requires full == parent + piece && Dotted(piece) && |piece| < 4
    requires forall k :: 1 <= k < |piece| ==> piece[k] != '.'
    ensures ObjectPath.LastMark(full, |full|) == ObjectPath.LastMark(parent, |parent|)
  {
    var last := ObjectPath.LastMark(parent, |parent|);
    forall k | 0 <= k < |full| ensures ObjectPath.MarkAt(full, k) <==> k < |parent| && ObjectPath.MarkAt(parent, k) {
      ObjectPath.MarkInJoin(parent, piece, full, k);
    }
    if full != [] {
      ObjectPath.LastIs(full, last);
    }
  }

  /** Too little room for a mark: what is read back is what the parent's path says. */
  lemma ReadsTheParent(full: string, parent: string, piece: string)
    requires full == parent + piece && Dotted(piece) && |piece| < 4
    requires forall k :: 1 <= k < |piece| ==> piece[k] != '.'
    ensures ObjectPath.LastCreator(full) == ObjectPath.LastCreator(parent)
  {
    SameLastMark(full, parent, piece);
    CreatorJoin(parent, piece, full, ObjectPath.LastMark(parent, |parent|));
  }

  /** Room for the mark but not for the bracket: nothing is read back. */
  lemma ReadsNothing(full: string, before: string, piece: string, digits: string)
    requires full == before + piece && ObjectPath.MarkAt(piece, 0)
    requires forall k :: 1 <= k < |piece| ==> piece[k] != '.'
    requires Text.AllDigits(digits) && |piece| <= 4 + |digits| && piece[4..] == digits[..|piece| - 4]
    ensures ObjectPath.LastCreator(full) == -1
  {
    ObjectPath.SegmentMark(before, piece, full);
    var at := |before| + 4;
    assert full[at..|full|] == piece[4..] == digits[..|piece| - 4];
    ObjectPath.DigitsEndIs(full, at, |full|);
    if at < |full| {
      assert full[at] == piece[4] == digits[0];
    }
  }

  lemma PlacesInPiece(full: string, before: string, piece: string, s: string, i: nat, j: nat)
    requires full == before + piece && |piece| <= |s| && piece == s[..|piece|] && i <= j < |piece|
    ensures full[|before| + i..|before| + j] == s[i..j] && full[|before| + j] == s[j]
  {
  }

  /** Room for the bracket: the creator is read back as the conversion to int leaves it. */
  lemma ReadsTheCreator(full: string, before: string, piece: string, command: u32, index: u32)
    requires full == before + piece
    requires 4 + |Text.Decimal(command)| < |piece| <= |ObjectPath.Segment(command, index)|
    requires piece == ObjectPath.Segment(command, index)[..|piece|]
    ensures ObjectPath.LastCreator(full) == ObjectPath.ToInt(command)
  {
    var s, digits := ObjectPath.Segment(command, index), Text.Decimal(command);
    PieceMarks(command, index, piece);
    ObjectPath.SegmentText(command, index);
    ObjectPath.SegmentMark(before, piece, full);
    PlacesInPiece(full, before, piece, s, 4, 4 + |digits|);
    ObjectPath.StrtoulDigits(full, |before| + 4, |before| + 4 + |digits|, digits);
  }

  /** The text up to the bracket after the command fits the buffer. */
  predicate CreatorFits(parent: string, command: u32) {
    |parent| + 4 + |Text.Decimal(command)| < MAX_PATH_LENGTH
  }

  /**
   * The command read back from a child's full path, cut or not, is its creator exactly if the command is below 2^31
   * and the path keeps it up to its bracket, or if not even ".cmd" fits and the parent happens to name the same one.
   */
  lemma CreatorSurvivesIff(prefix: string, parent: string, command: u32, index: u32, full: string)
    requires |parent| <= MAX_PATH_LENGTH
    requires full == prefix + Clip(ObjectPath.Child(parent, command, index))
    ensures ObjectPath.LastCreator(full) == command <==>
      if |parent| + 4 > MAX_PATH_LENGTH then ObjectPath.LastCreator(prefix + parent) == command
      else CreatorFits(parent, command) && command < ObjectPath.INT_LIMIT
  {
    var path := Clip(ObjectPath.Child(parent, command, index));
    var piece, before := path[|parent|..], prefix + parent;
    CutSegment(parent, command, index, piece, path);
    PieceMarks(command, index, piece);
    assert full == before + piece;
    ObjectPath.SegmentText(command, index);
    var s, digits := ObjectPath.Segment(command, index), Text.Decimal(command);
    if |piece| < 4 {
      ReadsTheParent(full, before, piece);
    } else if |piece| <= 4 + |digits| {
      assert piece[4..] == s[4..4 + |digits|][..|piece| - 4];
      ReadsNothing(full, before, piece, digits);
    } else {
      ReadsTheCreator(full, before, piece, command, index);
      ObjectPath.ToIntKeepsSmall(command);
    }
  }

  // Over runs.

  lemma {:induction false} DecimalLength(n: nat, k: nat, bound: nat)
    requires k > 0 && n < bound && bound == Pow10(k)
    ensures |Text.Decimal(n)| <= k
    decreases k
  {
    if n >= 10 {
      DecimalLength(n / 10, k - 1, Pow10(k - 1));
    }
  }

  function Pow10(k: nat): (p: nat)
    ensures p > 0
  {
    if k == 0 then 1 else 10 * Pow10(k - 1)
  }

  /** No path read from the tables is longer than the buffer. */
  lemma PathsFitTheBuffer(events: seq<Event>, session: u64, object_: u32)
    requires AllPossible(events)
    ensures |RelativePath(Run(events), session, object_)| <= MAX_PATH_LENGTH
  {
    EveryPathIsBorn(events);
    var at := FindKey(Run(events).paths, Key(session, object_), 0);
    if object_ != 0 && at < |Run(events).paths| {
      assert Born(events, Run(events).paths[at].key, Run(events).paths[at].value);
    } else if object_ != 0 {
      assert Pow10(4) == 10 * Pow10(3) == 100 * Pow10(2) == 10000;
      assert Pow10(10) == 10 * Pow10(9) == 100 * Pow10(8) == 1000 * Pow10(7) == 10000 * Pow10(6) == 100000 * Pow10(5);
      DecimalLength(object_, 10, Pow10(10));
    }
  }

  /**
   * In every run, for every tracked object that is not a root: exactly when its path still shows its depth, and
   * exactly when it still names its creator, in terms of the parent's path when the object was returned.
   */
  lemma TrackedPathsShowAncestryIff(events: seq<Event>, key: Key, p: DomainPath, service: string, full: string)
    returns (n: nat, index: u32)
    requires AllPossible(events)
    requires Lookup(Run(events).paths, key) == Some(p) && !(p.path == "root" && p.creator == 0)
    requires full == (service + ".") + p.path
    ensures BornAt(events, key, p, n, index)
    ensures
      var parent := RelativePath(Run(events[..n]), key.session, p.parent);
      && |parent| <= MAX_PATH_LENGTH
      && (ObjectPath.CountMarks(p.path, 0) == ObjectPath.CountMarks(parent, 0) + 1 <==> |parent| + 4 <= MAX_PATH_LENGTH)
      && (ObjectPath.LastCreator(full) == p.creator <==>
        if |parent| + 4 > MAX_PATH_LENGTH then ObjectPath.LastCreator((service + ".") + parent) == p.creator
        else CreatorFits(parent, p.creator) && p.creator < ObjectPath.INT_LIMIT)
  {
    EveryPathIsBorn(events);
    var at := FindKey(Run(events).paths, key, 0);
    assert Born(events, key, p);
    n, index :| BornAt(events, key, p, n, index);
    var parent := RelativePath(Run(events[..n]), key.session, p.parent);
    PathsFitTheBuffer(events[..n], key.session, p.parent);
    CutPathsLoseTheirChildren(parent, p.creator, index);
    CreatorSurvivesIff(service + ".", parent, p.creator, index, full);
  }

  // A run that reaches cut paths: every object returns one more object.

  function Generations(n: nat): (events: seq<Event>)
    requires n < 0xFFFF_FFFF
    ensures |events| == n && AllPossible(events)
  {
    seq(n, i requires 0 <= i < n => ObjectsReturned(1, i, 1, [Returned(i + 1, 1)]))
  }

  function GenerationPath(n: nat): string {
    if n == 0 then "root" else OnlyChild(GenerationPath(n - 1))
  }

  function OnlyChild(parent: string): string {
    Clip(ObjectPath.Child(parent, 1, 0))
  }

  lemma OneChild(t: Tables, e: Event, parentPath: string, object_: u32)
    requires Shaped(t) && e.ObjectsReturned? && e.objects == [Returned(object_, 1)]
    ensures RememberChildren(t, e, parentPath, 0)
      == RememberPath(t, e.session, object_, Clip(ObjectPath.Child(parentPath, e.command, 0)), e.parent, e.command, 1)
  {
    var next := RememberPath(t, e.session, object_, Clip(ObjectPath.Child(parentPath, e.command, 0)), e.parent, e.command, 1);
    assert RememberChildren(next, e, parentPath, 1) == next;
  }

  lemma RememberedPath(t: Tables, session: u64, object_: u32, path: string, parent: u32, creator: u32)
    requires Shaped(t) && Unique(t.paths) && object_ != 0 && path != [] && |path| <= MAX_PATH_LENGTH
    ensures RelativePath(RememberPath(t, session, object_, path, parent, creator, 1), session, object_) == path
  {
    var key := Key(session, object_);
    LookupStored(t.paths, key, PathSeen(Lookup(t.paths, key), path, parent, creator, 1), key);
  }

  lemma NextGeneration(t: Tables, e: Event, parentPath: string, n: u32)
    requires Shaped(t) && Unique(t.paths) && 0 < n && e == ObjectsReturned(1, n - 1, 1, [Returned(n, 1)])
    requires parentPath == RelativePath(t, 1, n - 1)
    ensures RelativePath(Step(t, e), 1, n) == OnlyChild(parentPath)
  {
    OneChild(t, e, parentPath, n);
    RememberedPath(t, 1, n, OnlyChild(parentPath), n - 1, 1);
  }

  lemma LastStep(events: seq<Event>, before: seq<Event>, e: Event)
    requires events == before + [e] && AllPossible(before) && Possible(e)
    ensures AllPossible(events) && Run(events) == Step(Run(before), e)
    ensures Unique(Run(before).paths)
  {
    assert events[..|events| - 1] == before;
    KeysAlwaysUnique(before);
  }

  /** After these events object `n` carries this path. */
  predicate Carries(events: seq<Event>, n: u32, path: string) {
    AllPossible(events) && RelativePath(Run(events), 1, n) == path
  }

  lemma NextCarries(before: seq<Event>, e: Event, events: seq<Event>, path: string, n: u32)
    requires 0 < n && Carries(before, n - 1, path)
    requires e == ObjectsReturned(1, n - 1, 1, [Returned(n, 1)]) && events == before + [e]
    ensures Carries(events, n, OnlyChild(path))
  {
    LastStep(events, before, e);
    NextGeneration(Run(before), e, path, n);
  }

  lemma GenerationsGrow(n: nat)
    requires 0 < n < 0xFFFF_FFFF
    ensures Generations(n) == Generations(n - 1) + [ObjectsReturned(1, n - 1, 1, [Returned(n, 1)])]
  {
  }

  /** The n-th generation carries the n times extended and cut path. */
  lemma {:induction false} GenerationsCarryPaths(n: nat, events: seq<Event>)
    requires n < 0xFFFF_FFFF && events == Generations(n)
    ensures Carries(events, n, GenerationPath(n))
  {
    if n > 0 {
      var before := Generations(n - 1);
      GenerationsCarryPaths(n - 1, before);
      GenerationsGrow(n);
      NextCarries(before, ObjectsReturned(1, n - 1, 1, [Returned(n, 1)]), events, GenerationPath(n - 1), n);
    }
  }

  lemma ChildLength(parent: string)
    ensures |ObjectPath.Child(parent, 1, 0)| == |parent| + 8
  {
    assert |Text.Decimal(1)| == 1 && |Text.Decimal(0)| == 1;
  }

  lemma {:induction false} GenerationLength(n: nat)
    ensures |GenerationPath(n)| == if 4 + 8 * n <= MAX_PATH_LENGTH then 4 + 8 * n else MAX_PATH_LENGTH
  {
    if n > 0 {
      GenerationLength(n - 1);
      ChildLength(GenerationPath(n - 1));
    }
  }

  /** In the run of single returned objects, generation 12 and all later ones show the depth of generation 11. */
  lemma DeepObjectsLookAlike(n: nat)
    requires 12 <= n < 0xFFFF_FFFF
    ensures
      var deep := RelativePath(Run(Generations(n)), 1, n);
      var parent := RelativePath(Run(Generations(n - 1)), 1, n - 1);
      ObjectPath.CountMarks(deep, 0) == ObjectPath.CountMarks(parent, 0)
  {
    GenerationsCarryPaths(n, Generations(n));
    GenerationsCarryPaths(n - 1, Generations(n - 1));
    GenerationLength(n - 1);
    CutPathsLoseTheirChildren(GenerationPath(n - 1), 1, 0);
  }

  // The capacities in numbers.

  /** A store evicts slot 0 exactly when this many entries are tracked and none of them has the key. */
  predicate EvictsAt<V>(t: Table<V>, key: Key, capacity: nat) {
    Evicts(t, key) <==> CountUsed(t) == capacity && Lookup(t, key) == None
  }

  lemma EvictsWhenFull<V>(t: Table<V>, key: Key)
    ensures EvictsAt(t, key, |t|)
  {
    FullByCount(t);
  }

  /** In every run: 64 sessions, 128 handles, 128 clones and 256 object paths are tracked before one has to go. */
  lemma CapacitiesInNumbers(events: seq<Event>, key: Key)
    requires AllPossible(events)
    ensures
      var t := Run(events);
      && EvictsAt(t.sessions, key, 64) && EvictsAt(t.handles, key, 128)
      && EvictsAt(t.clones, key, 128) && EvictsAt(t.paths, key, 256)
  {
    var t := Run(events);
    EvictsWhenFull(t.sessions, key);
    EvictsWhenFull(t.handles, key);
    EvictsWhenFull(t.clones, key);
    EvictsWhenFull(t.paths, key);
  }
}
