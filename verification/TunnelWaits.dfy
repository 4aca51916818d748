/**
 * Waiting for completions of the tunnel service. Everything the service and the clock do during one wait is a
 * finite script: the wakes of the completion event, and for each wake the batches received until the queue is
 * empty or the receive fails. The deadline expires when the script is over.
 */
module TunnelWaits {
  import opened Bytes
  import opened Wrappers

  datatype CompletionKind = FlowStateChanged | InboundUdpDatagram | Writable | OtherCompletion

  datatype Completion = Completion(kind: CompletionKind, flow: u64, offset: u32, size: u32)

  /** One successful receive; `storage` is the payload buffer it filled. */
  datatype Batch = Batch(completions: seq<Completion>, storage: seq<byte>)

  datatype DrainEnd = QueueEmpty | OtherStatus | CallFailed

  datatype Wake = EventFailed | Woken(batches: seq<Batch>, end: DrainEnd)

  datatype Rule = EchoOf(flow: u64, expected: seq<byte>) | WritableOf(flow: u64)

  datatype Verdict = Hit | Terminal | ServiceLost | BadStatus | WaitFailed | Expired

  /** `ignored` and `wakes` are the counters the workload adds up. */
  datatype Waited = Waited(verdict: Verdict, ignored: nat, wakes: nat)

  datatype Scan = Going(ignored: nat) | Done(verdict: Verdict, ignored: nat)

  predicate InBounds(c: Completion, storage: seq<byte>) {
    c.offset + c.size <= |storage|
  }

  function PayloadOf(c: Completion, storage: seq<byte>): seq<byte>
    requires InBounds(c, storage)
  {
    storage[c.offset..c.offset + c.size]
  }

  predicate Ends(rule: Rule, c: Completion) {
    c.kind == FlowStateChanged && c.flow == rule.flow
  }

  predicate Satisfies(rule: Rule, c: Completion, storage: seq<byte>) {
    match rule
    case EchoOf(flow, expected) =>
      c.kind == InboundUdpDatagram && c.flow == flow && InBounds(c, storage) && PayloadOf(c, storage) == expected
    case WritableOf(flow) => c.kind == Writable && c.flow == flow
  }

  /** The completions of a batch from index `i` on. */
  function ScanBatch(rule: Rule, b: Batch, i: nat, ignored: nat): Scan
    requires i <= |b.completions|
    decreases |b.completions| - i
  {
    if i == |b.completions| then Going(ignored)
    else if Ends(rule, b.completions[i]) then Done(Terminal, ignored)
    else if Satisfies(rule, b.completions[i], b.storage) then Done(Hit, ignored)
    else ScanBatch(rule, b, i + 1, ignored + 1)
  }

  function ScanDrain(rule: Rule, batches: seq<Batch>, end: DrainEnd, i: nat, ignored: nat): Scan
    requires i <= |batches|
    decreases |batches| - i
  {
    if i == |batches| then
      match end
      case QueueEmpty => Going(ignored)
      case OtherStatus => Done(BadStatus, ignored)
      case CallFailed => Done(ServiceLost, ignored)
    else
      var s := ScanBatch(rule, batches[i], 0, ignored);
      if s.Done? then s else ScanDrain(rule, batches, end, i + 1, s.ignored)
  }

  function ScanWakes(rule: Rule, script: seq<Wake>, i: nat, ignored: nat): Waited
    requires i <= |script|
    decreases |script| - i
  {
    if i == |script| then Waited(Expired, ignored, i)
    else if script[i].EventFailed? then Waited(WaitFailed, ignored, i)
    else
      var s := ScanDrain(rule, script[i].batches, script[i].end, 0, ignored);
      if s.Done? then Waited(s.verdict, s.ignored, i + 1) else ScanWakes(rule, script, i + 1, s.ignored)
  }

  function Outcome(rule: Rule, script: seq<Wake>): Waited {
    ScanWakes(rule, script, 0, 0)
  }

  /** The completion that is waited for: room on the flow, or a datagram in bounds with exactly the expected bytes. */
  method IsHit(rule: Rule, c: Completion, storage: seq<byte>) returns (hit: bool)
    ensures hit == Satisfies(rule, c, storage)
  {
    if c.flow != rule.flow {
      return false;
    }
    match rule
    case WritableOf(_) => hit := c.kind == Writable;
    case EchoOf(_, expected) =>
      if c.kind != InboundUdpDatagram || c.offset + c.size > |storage| {
        return false;
      }
      hit := storage[c.offset..c.offset + c.size] == expected;
  }

  method ReadBatch(rule: Rule, b: Batch, before: nat) returns (verdict: Verdict, done: bool, ignored: nat)
    ensures ScanBatch(rule, b, 0, before) == if done then Done(verdict, ignored) else Going(ignored)
  {
    ignored, done, verdict := before, false, Expired;
    for i := 0 to |b.completions|
      invariant ScanBatch(rule, b, i, ignored) == ScanBatch(rule, b, 0, before)
    {
      var c := b.completions[i];
      if c.kind == FlowStateChanged && c.flow == rule.flow {
        return Terminal, true, ignored;
      }
      var hit := IsHit(rule, c, b.storage);
      if hit {
        return Hit, true, ignored;
      }
      ignored := ignored + 1;
    }
  }

  /** Wait until a completion satisfies the rule. */
  method WaitFor(rule: Rule, script: seq<Wake>) returns (result: Waited)
    ensures result == Outcome(rule, script)
    ensures Explained(rule, Trace(script), result)
  {
    OutcomeIsFirstDecision(rule, script);
    var ignored, wakes := 0, 0;
    while wakes < |script|
      invariant wakes <= |script|
      invariant ScanWakes(rule, script, wakes, ignored) == Outcome(rule, script)
    {
      var wake := script[wakes];
      if wake.EventFailed? {
        return Waited(WaitFailed, ignored, wakes);
      }
      wakes := wakes + 1;
      ghost var before := ignored;
      for i := 0 to |wake.batches|
        invariant ScanDrain(rule, wake.batches, wake.end, i, ignored) == ScanDrain(rule, wake.batches, wake.end, 0, before)
      {
        var verdict, done;
        verdict, done, ignored := ReadBatch(rule, wake.batches[i], ignored);
        if done {
          return Waited(verdict, ignored, wakes);
        }
      }
      match wake.end
      case CallFailed => return Waited(ServiceLost, ignored, wakes);
      case OtherStatus => return Waited(BadStatus, ignored, wakes);
      case QueueEmpty =>
    }
    return Waited(Expired, ignored, wakes);
  }

  // The script as one line of events, and what decides a wait.

  datatype Happening =
    | Awake
    | Arrived(completion: Completion, storage: seq<byte>)
    | EventWaitFailed
    | StatusFailed
    | ServiceGone

  function Arrivals(b: Batch): (t: seq<Happening>)
    ensures |t| == |b.completions|
  {
    seq(|b.completions|, i requires 0 <= i < |b.completions| => Arrived(b.completions[i], b.storage))
  }

  function EndOf(end: DrainEnd): seq<Happening> {
    match end
    case QueueEmpty => []
    case OtherStatus => [StatusFailed]
    case CallFailed => [ServiceGone]
  }

  /** The batches of one wake from the i-th on, and how receiving ended. */
  function Received(batches: seq<Batch>, end: DrainEnd, i: nat): seq<Happening>
    requires i <= |batches|
    decreases |batches| - i
  {
    if i == |batches| then EndOf(end) else Arrivals(batches[i]) + Received(batches, end, i + 1)
  }

  function Happenings(wake: Wake): seq<Happening> {
    if wake.EventFailed? then [EventWaitFailed] else [Awake] + Received(wake.batches, wake.end, 0)
  }

  function TraceFrom(script: seq<Wake>, i: nat): seq<Happening>
    requires i <= |script|
    decreases |script| - i
  {
    if i == |script| then [] else Happenings(script[i]) + TraceFrom(script, i + 1)
  }

  /** Everything in the script, in order. */
  function Trace(script: seq<Wake>): seq<Happening> {
    TraceFrom(script, 0)
  }

  /** What an event decides by itself. An end of the flow goes before the completion that was waited for. */
  function Decision(rule: Rule, h: Happening): Option<Verdict> {
    match h
    case Awake => None
    case Arrived(c, storage) =>
      if Ends(rule, c) then Some(Terminal) else if Satisfies(rule, c, storage) then Some(Hit) else None
    case EventWaitFailed => Some(WaitFailed)
    case StatusFailed => Some(BadStatus)
    case ServiceGone => Some(ServiceLost)
  }

  /** The n-th event decides the wait and none before it does. */
  predicate FirstDecision(rule: Rule, t: seq<Happening>, n: nat) {
    n < |t| && Decision(rule, t[n]).Some? && forall m :: 0 <= m < n ==> Decision(rule, t[m]) == None
  }

  predicate Undecided(rule: Rule, t: seq<Happening>) {
    forall m :: 0 <= m < |t| ==> Decision(rule, t[m]) == None
  }

  function CountArrived(t: seq<Happening>): nat {
    if t == [] then 0 else CountArrived(t[..|t| - 1]) + if t[|t| - 1].Arrived? then 1 else 0
  }

  function CountAwake(t: seq<Happening>): nat {
    if t == [] then 0 else CountAwake(t[..|t| - 1]) + if t[|t| - 1].Awake? then 1 else 0
  }

  /** The n-th event decides the wait, with this verdict and these counts of what came before it. */
  predicate DecidedAt(rule: Rule, t: seq<Happening>, n: nat, w: Waited) {
    && FirstDecision(rule, t, n) && Decision(rule, t[n]) == Some(w.verdict)
    && w.ignored == CountArrived(t[..n]) && w.wakes == CountAwake(t[..n])
  }

  /** `w` is what the events say: the first decision, or the deadline, and how much came before it. */
  ghost predicate Explained(rule: Rule, t: seq<Happening>, w: Waited) {
    if w.verdict == Expired then
      Undecided(rule, t) && w.ignored == CountArrived(t) && w.wakes == CountAwake(t)
    else
      exists n: nat :: DecidedAt(rule, t, n, w)
  }

  // Following a trace, and what the loops make of each part of it.

  /** The state of a wait between two events, or its end. */
  function Follow(rule: Rule, t: seq<Happening>, w: Waited): Waited {
    if t == [] then w else
      var before := Follow(rule, t[..|t| - 1], w);
      if before.verdict != Expired then before else
        match Decision(rule, t[|t| - 1])
        case Some(v) => before.(verdict := v)
        case None =>
          if t[|t| - 1].Awake? then before.(wakes := before.wakes + 1) else before.(ignored := before.ignored + 1)
  }

  lemma {:induction false} FollowJoin(rule: Rule, a: seq<Happening>, b: seq<Happening>, ab: seq<Happening>, w: Waited)
    requires ab == a + b
    ensures Follow(rule, ab, w) == Follow(rule, b, Follow(rule, a, w))
  {
    if b == [] {
      assert ab == a;
    } else {
      assert ab[..|ab| - 1] == a + b[..|b| - 1];
      FollowJoin(rule, a, b[..|b| - 1], ab[..|ab| - 1], w);
    }
  }

  lemma {:induction false} FollowDecided(rule: Rule, t: seq<Happening>, w: Waited)
    requires w.verdict != Expired
    ensures Follow(rule, t, w) == w
  {
    if t != [] {
      FollowDecided(rule, t[..|t| - 1], w);
    }
  }

  /** A followed trace explains its outcome. */
  lemma {:induction false} FollowExplains(rule: Rule, t: seq<Happening>)
    ensures Explained(rule, t, Follow(rule, t, Waited(Expired, 0, 0)))
  {
    if t == [] {
    } else {
      var before, last := t[..|t| - 1], |t| - 1;
      var w := Follow(rule, before, Waited(Expired, 0, 0));
      FollowExplains(rule, before);
      if w.verdict != Expired {
        var n: nat :| DecidedAt(rule, before, n, w);
        assert t[..n] == before[..n];
        assert DecidedAt(rule, t, n, w);
      } else if Decision(rule, t[last]).Some? {
        assert DecidedAt(rule, t, last, Follow(rule, t, Waited(Expired, 0, 0)));
      }
    }
  }

  /** A wait between two batches, with these counters. */
  function Waiting(ignored: nat, wakes: nat): Waited {
    Waited(Expired, ignored, wakes)
  }

  function AsWaited(s: Scan, wakes: nat): Waited {
    Waited(if s.Done? then s.verdict else Expired, s.ignored, wakes)
  }

  lemma FollowOne(rule: Rule, h: Happening, w: Waited)
    ensures Follow(rule, [h], w) == if w.verdict != Expired then w else
      match Decision(rule, h)
      case Some(v) => w.(verdict := v)
      case None => if h.Awake? then w.(wakes := w.wakes + 1) else w.(ignored := w.ignored + 1)
  {
    assert [h][..0] == [];
  }

  lemma {:induction false} BatchFollows(rule: Rule, b: Batch, i: nat, ignored: nat, wakes: nat)
    requires i <= |b.completions|
    ensures AsWaited(ScanBatch(rule, b, i, ignored), wakes) == Follow(rule, Arrivals(b)[i..], Waiting(ignored, wakes))
    ensures ScanBatch(rule, b, i, ignored).Done? ==> ScanBatch(rule, b, i, ignored).verdict != Expired
    decreases |b.completions| - i
  {
    if i < |b.completions| {
      var rest := Arrivals(b)[i..];
      var h := Arrivals(b)[i];
      assert rest == [h] + Arrivals(b)[i + 1..];
      FollowJoin(rule, [h], Arrivals(b)[i + 1..], rest, Waiting(ignored, wakes));
      FollowOne(rule, h, Waiting(ignored, wakes));
      if Decision(rule, h).Some? {
        FollowDecided(rule, Arrivals(b)[i + 1..], Waiting(ignored, wakes).(verdict := Decision(rule, h).value));
      } else {
        BatchFollows(rule, b, i + 1, ignored + 1, wakes);
      }
    }
  }

  /** Following a part that decides leaves nothing for the rest to say. */
  lemma FollowParts(rule: Rule, a: seq<Happening>, b: seq<Happening>, ab: seq<Happening>, w: Waited, middle: Waited)
    requires ab == a + b && middle == Follow(rule, a, w)
    ensures middle.verdict != Expired ==> Follow(rule, ab, w) == middle
    ensures Follow(rule, ab, w) == Follow(rule, b, middle)
  {
    FollowJoin(rule, a, b, ab, w);
    if middle.verdict != Expired {
      FollowDecided(rule, b, middle);
    }
  }

  lemma {:induction false} DrainFollows(rule: Rule, batches: seq<Batch>, end: DrainEnd, i: nat, ignored: nat, wakes: nat)
    requires i <= |batches|
    ensures AsWaited(ScanDrain(rule, batches, end, i, ignored), wakes)
        == Follow(rule, Received(batches, end, i), Waiting(ignored, wakes))
    ensures ScanDrain(rule, batches, end, i, ignored).Done? ==> ScanDrain(rule, batches, end, i, ignored).verdict != Expired
    decreases |batches| - i
  {
    if i == |batches| {
      FollowOne(rule, StatusFailed, Waiting(ignored, wakes));
      FollowOne(rule, ServiceGone, Waiting(ignored, wakes));
    } else {
      var s := ScanBatch(rule, batches[i], 0, ignored);
      BatchFollows(rule, batches[i], 0, ignored, wakes);
      assert Arrivals(batches[i])[0..] == Arrivals(batches[i]);
      FollowParts(rule, Arrivals(batches[i]), Received(batches, end, i + 1), Received(batches, end, i),
        Waiting(ignored, wakes), AsWaited(s, wakes));
      if s.Going? {
        DrainFollows(rule, batches, end, i + 1, s.ignored, wakes);
      }
    }
  }

  lemma WakeFollows(rule: Rule, wake: Wake, ignored: nat, wakes: nat)
    requires wake.Woken?
    ensures AsWaited(ScanDrain(rule, wake.batches, wake.end, 0, ignored), wakes + 1)
        == Follow(rule, Happenings(wake), Waiting(ignored, wakes))
    ensures ScanDrain(rule, wake.batches, wake.end, 0, ignored).Done?
        ==> ScanDrain(rule, wake.batches, wake.end, 0, ignored).verdict != Expired
  {
    FollowOne(rule, Awake, Waiting(ignored, wakes));
    FollowParts(rule, [Awake], Received(wake.batches, wake.end, 0), Happenings(wake), Waiting(ignored, wakes),
      Waiting(ignored, wakes + 1));
    DrainFollows(rule, wake.batches, wake.end, 0, ignored, wakes + 1);
  }

  lemma FailedStep(rule: Rule, script: seq<Wake>, i: nat, ignored: nat)
    requires i < |script| && script[i].EventFailed?
    ensures Follow(rule, TraceFrom(script, i), Waiting(ignored, i)) == Waited(WaitFailed, ignored, i)
  {
    FollowOne(rule, EventWaitFailed, Waiting(ignored, i));
    FollowParts(rule, Happenings(script[i]), TraceFrom(script, i + 1), TraceFrom(script, i), Waiting(ignored, i),
      Waited(WaitFailed, ignored, i));
  }

  lemma WokenStep(rule: Rule, script: seq<Wake>, i: nat, ignored: nat, s: Scan)
    requires i < |script| && script[i].Woken? && s == ScanDrain(rule, script[i].batches, script[i].end, 0, ignored)
    ensures Follow(rule, TraceFrom(script, i), Waiting(ignored, i))
        == if s.Going? then Follow(rule, TraceFrom(script, i + 1), Waiting(s.ignored, i + 1)) else AsWaited(s, i + 1)
  {
    WakeFollows(rule, script[i], ignored, i);
    FollowParts(rule, Happenings(script[i]), TraceFrom(script, i + 1), TraceFrom(script, i), Waiting(ignored, i),
      AsWaited(s, i + 1));
  }

  lemma {:induction false} WakesFollow(rule: Rule, script: seq<Wake>, i: nat, ignored: nat)
    requires i <= |script|
    ensures ScanWakes(rule, script, i, ignored) == Follow(rule, TraceFrom(script, i), Waiting(ignored, i))
    decreases |script| - i
  {
    if i < |script| {
      if script[i].EventFailed? {
        FailedStep(rule, script, i, ignored);
      } else {
        var s := ScanDrain(rule, script[i].batches, script[i].end, 0, ignored);
        WokenStep(rule, script, i, ignored, s);
        if s.Going? {
          WakesFollow(rule, script, i + 1, s.ignored);
        }
      }
    }
  }

  /**
   * Every wait, over every script: the verdict is that of the first decisive event - a failure, the end of the flow,
   * or the completion waited for - and the deadline expires only if there is none. Both counters count what came before.
   */
  lemma OutcomeIsFirstDecision(rule: Rule, script: seq<Wake>)
    ensures Explained(rule, Trace(script), Outcome(rule, script))
  {
    WakesFollow(rule, script, 0, 0);
    FollowExplains(rule, Trace(script));
  }

  /** The exact condition for each verdict. */
  lemma VerdictIff(rule: Rule, script: seq<Wake>, v: Verdict)
    ensures Outcome(rule, script).verdict == v <==>
      if v == Expired then Undecided(rule, Trace(script))
      else exists n: nat :: FirstDecision(rule, Trace(script), n) && Decision(rule, Trace(script)[n]) == Some(v)
  {
    var t, w := Trace(script), Outcome(rule, script);
    OutcomeIsFirstDecision(rule, script);
    if w.verdict != Expired {
      var k: nat :| DecidedAt(rule, t, k, w);
      assert FirstDecision(rule, t, k);
      forall n: nat | FirstDecision(rule, t, n) ensures n == k {
        assert !(n < k) && !(k < n);
      }
    }
  }

  lemma DecidedBy(rule: Rule, script: seq<Wake>, n: nat)
    requires FirstDecision(rule, Trace(script), n)
    ensures DecidedAt(rule, Trace(script), n, Outcome(rule, script))
  {
    var t, w := Trace(script), Outcome(rule, script);
    OutcomeIsFirstDecision(rule, script);
    if w.verdict == Expired {
      assert false;
    } else {
      var k: nat :| DecidedAt(rule, t, k, w);
      assert !(n < k) && !(k < n);
    }
  }

  /**
   * A wait depends on nothing that happens after its deciding event, so it does not matter how long the service
   * would have gone on reporting, or where a script is cut after that event.
   */
  lemma LaterEventsDoNotMatter(rule: Rule, a: seq<Wake>, b: seq<Wake>, n: nat)
    requires FirstDecision(rule, Trace(a), n) && n < |Trace(b)| && Trace(a)[..n + 1] == Trace(b)[..n + 1]
    ensures Outcome(rule, a) == Outcome(rule, b)
  {
    var s, t := Trace(a), Trace(b);
    assert s[n] == s[..n + 1][n] == t[n];
    assert s[..n] == s[..n + 1][..n] == t[..n];
    forall m | 0 <= m < n ensures t[m] == s[m] {
      assert t[m] == t[..n][m] && s[m] == s[..n][m];
    }
    DecidedBy(rule, a, n);
    DecidedBy(rule, b, n);
  }
}
