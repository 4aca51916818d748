/**
 * Waiting for progress of a TCP flow: the stream arrives in pieces, batch by batch, and is put together in a
 * 14-byte buffer that must end up holding the expected reply. What the service and the clock do during the wait is
 * a finite script, and the deadline expires when the script is over.
 */
module TunnelTcp {
  import opened Bytes
  import opened Wrappers

  /** The ASCII codes of fourteen characters. */
  const EXPECTED: seq<byte> := [0x4E, 0x58, 0x52, 0x56, 0x20, 0x54, 0x43, 0x50, 0x20, 0x41, 0x43, 0x4B, 0x0D, 0x0A]
  const REPLY_BYTES := 14

  lemma ReplySpellsItsText()
    ensures |EXPECTED| == 14 && forall i :: 0 <= i < 14 ==> EXPECTED[i] == "NXRV TCP ACK\r\n"[i] as int
  {
  }

  /** The answer to the flow-state query that a state change triggers. */
  datatype StateReply = QueryFailed | RemoteOpen | RemoteClosed

  datatype Kind =
    | Closed
    | StateChanged(open: bool, state: StateReply)
    | InboundTcpStream
    | OtherKind

  /** `tcp` is false for completions of flows of another kind. */
  datatype Completion = Completion(kind: Kind, flow: u64, tcp: bool, offset: u32, size: u32)

  datatype Batch = Batch(completions: seq<Completion>, storage: seq<byte>)

  datatype DrainEnd = QueueEmpty | OtherStatus | CallFailed

  datatype Wake = EventTimedOut | EventFailed | Woken(batches: seq<Batch>, end: DrainEnd)

  datatype Need = Need(open: bool, reply: bool, remoteClosed: bool)

  datatype Verdict = Satisfied | Terminal | ServiceLost | BadStatus | StateQueryFailed | WaitFailed | Expired
    | Malformed | PrematureEof

  datatype Stream = Stream(reply: seq<byte>, open: bool, remoteClosed: bool, malformed: bool)

  datatype Scan = Going(s: Stream) | Done(verdict: Verdict)

  const EMPTY_STREAM := Stream([], false, false, false)

  predicate Ours(flow: u64, c: Completion) {
    c.flow == flow && c.tcp
  }

  predicate IsPiece(flow: u64, c: Completion, storage: seq<byte>) {
    Ours(flow, c) && c.kind == InboundTcpStream && c.offset + c.size <= |storage|
  }

  function PieceOf(c: Completion, storage: seq<byte>): seq<byte>
    requires c.offset + c.size <= |storage|
  {
    storage[c.offset..c.offset + c.size]
  }

  /** One completion. A piece that does not fit any more is dropped and spoils the reply. */
  function Take(flow: u64, c: Completion, storage: seq<byte>, s: Stream): Scan {
    if !Ours(flow, c) then Going(s)
    else match c.kind
      case Closed => Done(Terminal)
      case StateChanged(open, state) =>
        if state == QueryFailed then Done(StateQueryFailed)
        else Going(s.(open := open, remoteClosed := state == RemoteClosed))
      case OtherKind => Going(s)
      case InboundTcpStream =>
        if !IsPiece(flow, c, storage) then Going(s)
        else if |s.reply| + c.size > REPLY_BYTES then Going(s.(malformed := true))
        else Going(s.(reply := s.reply + PieceOf(c, storage)))
  }

  function TakeAll(flow: u64, b: Batch, i: nat, s: Stream): Scan
    requires i <= |b.completions|
    decreases |b.completions| - i
  {
    if i == |b.completions| then Going(s) else
      var r := Take(flow, b.completions[i], b.storage, s);
      if r.Done? then r else TakeAll(flow, b, i + 1, r.s)
  }

  /** The checks made after every batch. */
  function AfterBatch(need: Need, s: Stream): Scan {
    var valid := s.reply == EXPECTED;
    var t := if need.reply && |s.reply| == REPLY_BYTES && !valid then s.(malformed := true) else s;
    if need.reply && t.remoteClosed && !valid then Done(if t.malformed then Malformed else PrematureEof)
    else if t.malformed then Done(Malformed)
    else if (need.open && !t.open) || (need.reply && !valid) || (need.remoteClosed && !t.remoteClosed) then Going(t)
    else Done(Satisfied)
  }

  function BatchStep(flow: u64, need: Need, b: Batch, s: Stream): Scan {
    var r := TakeAll(flow, b, 0, s);
    if r.Done? then r else AfterBatch(need, r.s)
  }

  function Drain(flow: u64, need: Need, batches: seq<Batch>, end: DrainEnd, i: nat, s: Stream): Scan
    requires i <= |batches|
    decreases |batches| - i
  {
    if i == |batches| then
      match end
      case QueueEmpty => Going(s)
      case OtherStatus => Done(BadStatus)
      case CallFailed => Done(ServiceLost)
    else
      var r := BatchStep(flow, need, batches[i], s);
      if r.Done? then r else Drain(flow, need, batches, end, i + 1, r.s)
  }

  function Wakes(flow: u64, need: Need, script: seq<Wake>, i: nat, s: Stream): Verdict
    requires i <= |script|
    decreases |script| - i
  {
    if i == |script| then Expired else
      match script[i]
      case EventTimedOut => Expired
      case EventFailed => WaitFailed
      case Woken(batches, end) =>
        var r := Drain(flow, need, batches, end, 0, s);
        if r.Done? then r.verdict else Wakes(flow, need, script, i + 1, r.s)
  }

  function Outcome(flow: u64, need: Need, script: seq<Wake>): Verdict {
    Wakes(flow, need, script, 0, EMPTY_STREAM)
  }

  /** The state of one wait: the reply buffer and what is known about the flow. */
  class Progress {
    const reply: array<byte>
    var replySize: nat
    var open: bool
    var remoteClosed: bool
    var malformed: bool

    ghost predicate Valid()
      reads this
    {
      reply.Length == REPLY_BYTES && replySize <= REPLY_BYTES
    }

    ghost function View(): Stream
      reads this, reply
      requires Valid()
    {
      Stream(reply[..replySize], open, remoteClosed, malformed)
    }

    constructor ()
      ensures Valid() && fresh(reply) && View() == EMPTY_STREAM
    {
      reply := new byte[REPLY_BYTES](_ => 0);
      replySize, open, remoteClosed, malformed := 0, false, false, false;
    }

    method Append(piece: seq<byte>)
      requires Valid() && replySize + |piece| <= REPLY_BYTES
      modifies this`replySize, reply
      ensures Valid() && View() == old(View()).(reply := old(View()).reply + piece)
    {
      for i := 0 to |piece|
        invariant replySize == old(replySize)
        invariant reply[..replySize] == old(reply[..replySize])
        invariant reply[replySize..replySize + i] == piece[..i]
      {
        reply[replySize + i] := piece[i];
      }
      assert reply[..replySize + |piece|] == reply[..replySize] + reply[replySize..replySize + |piece|];
      replySize := replySize + |piece|;
    }

    method TakeCompletion(flow: u64, c: Completion, storage: seq<byte>) returns (done: bool, verdict: Verdict)
      requires Valid()
      modifies this, reply
      ensures Valid()
      ensures Take(flow, c, storage, old(View())) == if done then Done(verdict) else Going(View())
    {
      done, verdict := false, Expired;
      if c.flow != flow || !c.tcp {
        return;
      }
      match c.kind
      case Closed => return true, Terminal;
      case StateChanged(isOpen, state) =>
        open := isOpen;
        if state == QueryFailed {
          return true, StateQueryFailed;
        }
        remoteClosed := state == RemoteClosed;
      case OtherKind =>
      case InboundTcpStream =>
        if c.offset + c.size > |storage| {
          return;
        }
        if replySize + c.size > REPLY_BYTES {
          malformed := true;
        } else {
          Append(storage[c.offset..c.offset + c.size]);
        }
    }

    method Check(need: Need) returns (done: bool, verdict: Verdict)
      requires Valid()
      modifies this`malformed
      ensures Valid()
      ensures AfterBatch(need, old(View())) == if done then Done(verdict) else Going(View())
    {
      done, verdict := true, Expired;
      var replyValid := reply[..replySize] == EXPECTED;
      if need.reply && replySize == REPLY_BYTES && !replyValid {
        malformed := true;
      }
      if need.reply && remoteClosed && !replyValid {
        return true, if malformed then Malformed else PrematureEof;
      }
      if malformed {
        return true, Malformed;
      }
      if (need.open && !open) || (need.reply && !replyValid) || (need.remoteClosed && !remoteClosed) {
        return false, Expired;
      }
      return true, Satisfied;
    }

    method TakeBatch(flow: u64, need: Need, b: Batch) returns (done: bool, verdict: Verdict)
      requires Valid()
      modifies this, reply
      ensures Valid()
      ensures BatchStep(flow, need, b, old(View())) == if done then Done(verdict) else Going(View())
    {
      for i := 0 to |b.completions|
        invariant Valid()
        invariant TakeAll(flow, b, i, View()) == TakeAll(flow, b, 0, old(View()))
      {
        done, verdict := TakeCompletion(flow, b.completions[i], b.storage);
        if done {
          return;
        }
      }
      done, verdict := Check(need);
    }
  }

  method WaitForTcpProgress(flow: u64, need: Need, script: seq<Wake>) returns (verdict: Verdict)
    ensures verdict == Outcome(flow, need, script)
    ensures Explained(flow, need, Trace(script), verdict)
  {
    OutcomeIsFirstDecision(flow, need, script);
    var p := new Progress();
    for w := 0 to |script|
      invariant p.Valid() && fresh(p) && fresh(p.reply)
      invariant Wakes(flow, need, script, w, p.View()) == Outcome(flow, need, script)
    {
      match script[w]
      case EventTimedOut => return Expired;
      case EventFailed => return WaitFailed;
      case Woken(batches, end) =>
        ghost var before := p.View();
        for i := 0 to |batches|
          invariant p.Valid() && fresh(p) && fresh(p.reply)
          invariant Drain(flow, need, batches, end, i, p.View()) == Drain(flow, need, batches, end, 0, before)
        {
          var done, v := p.TakeBatch(flow, need, batches[i]);
          if done {
            return v;
          }
        }
        match end {
          case CallFailed => return ServiceLost;
          case OtherStatus => return BadStatus;
          case QueueEmpty =>
        }
    }
    return Expired;
  }

  // The script as one line of events, and what they deliver, read without the buffer and its checks.

  datatype Happening = Arrived(batch: Batch) | TimedOut | EventWaitFailed | StatusFailed | ServiceGone

  function EndOf(end: DrainEnd): seq<Happening> {
    match end
    case QueueEmpty => []
    case OtherStatus => [StatusFailed]
    case CallFailed => [ServiceGone]
  }

  /** The batches of one wake from the i-th on, and how receiving ended. */
  function Received(batches: seq<Batch>, end: DrainEnd, i: nat): seq<Happening>
    requires i <= |batches|
    decreases |batches| - i
  {
    if i == |batches| then EndOf(end) else [Arrived(batches[i])] + Received(batches, end, i + 1)
  }

  function Happenings(wake: Wake): seq<Happening> {
    match wake
    case EventTimedOut => [TimedOut]
    case EventFailed => [EventWaitFailed]
    case Woken(batches, end) => Received(batches, end, 0)
  }

  function TraceFrom(script: seq<Wake>, i: nat): seq<Happening>
    requires i <= |script|
    decreases |script| - i
  {
    if i == |script| then [] else Happenings(script[i]) + TraceFrom(script, i + 1)
  }

  /** Everything in the script, in order. */
  function Trace(script: seq<Wake>): seq<Happening> {
    TraceFrom(script, 0)
  }

  /** The pieces of this flow in a batch, joined, from completion `i` on. */
  function Pieces(flow: u64, b: Batch, i: nat): seq<byte>
    requires i <= |b.completions|
    decreases |b.completions| - i
  {
    if i == |b.completions| then [] else
      var c := b.completions[i];
      (if IsPiece(flow, c, b.storage) then PieceOf(c, b.storage) else []) + Pieces(flow, b, i + 1)
  }

  /** What is known of the flow: whether it is open, and whether the remote side has closed. */
  datatype Known = Known(open: bool, eof: bool)

  /** What the last state change of this flow in the batch says, or what was known before. */
  function StateIn(flow: u64, b: Batch, i: nat, before: Known): Known
    requires i <= |b.completions|
    decreases |b.completions| - i
  {
    if i == |b.completions| then before else
      var c := b.completions[i];
      StateIn(flow, b, i + 1,
        if Ours(flow, c) && c.kind.StateChanged? then Known(c.kind.open, c.kind.state == RemoteClosed) else before)
  }

  /** Everything delivered by the first `n` events. */
  function Delivered(flow: u64, t: seq<Happening>, n: nat): seq<byte>
    requires n <= |t|
  {
    if n == 0 then [] else
      Delivered(flow, t, n - 1) + if t[n - 1].Arrived? then Pieces(flow, t[n - 1].batch, 0) else []
  }

  /** What is known of the flow after the first `n` events. */
  function StateAfter(flow: u64, t: seq<Happening>, n: nat): Known
    requires n <= |t|
  {
    if n == 0 then Known(false, false)
    else if t[n - 1].Arrived? then StateIn(flow, t[n - 1].batch, 0, StateAfter(flow, t, n - 1))
    else StateAfter(flow, t, n - 1)
  }

  /** The verdict of the first completion that ends the wait by itself: the flow is closed, or its query fails. */
  function FatalIn(flow: u64, b: Batch, i: nat): (v: Option<Verdict>)
    requires i <= |b.completions|
    ensures v in {None, Some(Terminal), Some(StateQueryFailed)}
    decreases |b.completions| - i
  {
    if i == |b.completions| then None else
      var c := b.completions[i];
      if Ours(flow, c) && c.kind.Closed? then Some(Terminal)
      else if Ours(flow, c) && c.kind.StateChanged? && c.kind.state == QueryFailed then Some(StateQueryFailed)
      else FatalIn(flow, b, i + 1)
  }

  /** The reply can no longer become the expected one, or there is more than the buffer holds. */
  predicate Spoiled(need: Need, reply: seq<byte>) {
    |reply| > REPLY_BYTES || (need.reply && |reply| == REPLY_BYTES && reply != EXPECTED)
  }

  predicate Meets(need: Need, reply: seq<byte>, known: Known) {
    (need.open ==> known.open) && (need.reply ==> reply == EXPECTED) && (need.remoteClosed ==> known.eof)
  }

  /** What the n-th event decides, given all that was delivered and reported up to it. */
  function Decision(flow: u64, need: Need, t: seq<Happening>, n: nat): Option<Verdict>
    requires n < |t|
  {
    match t[n]
    case TimedOut => Some(Expired)
    case EventWaitFailed => Some(WaitFailed)
    case StatusFailed => Some(BadStatus)
    case ServiceGone => Some(ServiceLost)
    case Arrived(b) =>
      var reply, known := Delivered(flow, t, n + 1), StateAfter(flow, t, n + 1);
      if FatalIn(flow, b, 0).Some? then FatalIn(flow, b, 0)
      else if Spoiled(need, reply) then Some(Malformed)
      else if need.reply && known.eof && reply != EXPECTED then Some(PrematureEof)
      else if Meets(need, reply, known) then Some(Satisfied)
      else None
  }

  /** The first `n` events decide nothing. */
  predicate Undecided(flow: u64, need: Need, t: seq<Happening>, n: nat)
    requires n <= |t|
  {
    forall m :: 0 <= m < n ==> Decision(flow, need, t, m) == None
  }

  predicate DecidedAt(flow: u64, need: Need, t: seq<Happening>, n: nat, v: Verdict) {
    n < |t| && Undecided(flow, need, t, n) && Decision(flow, need, t, n) == Some(v)
  }

  /** `v` is the first decision of the events, or the deadline passed without one. */
  ghost predicate Explained(flow: u64, need: Need, t: seq<Happening>, v: Verdict) {
    (exists n: nat :: DecidedAt(flow, need, t, n, v)) || (v == Expired && Undecided(flow, need, t, |t|))
  }

  // The loops, as steps over the events.

  function Step(flow: u64, need: Need, h: Happening, s: Stream): Scan {
    match h
    case TimedOut => Done(Expired)
    case EventWaitFailed => Done(WaitFailed)
    case StatusFailed => Done(BadStatus)
    case ServiceGone => Done(ServiceLost)
    case Arrived(b) => BatchStep(flow, need, b, s)
  }

  function Steps(flow: u64, need: Need, t: seq<Happening>, s: Stream): Scan {
    if t == [] then Going(s) else
      var r := Steps(flow, need, t[..|t| - 1], s);
      if r.Done? then r else Step(flow, need, t[|t| - 1], r.s)
  }

  lemma {:induction false} StepsJoin(flow: u64, need: Need, a: seq<Happening>, b: seq<Happening>, ab: seq<Happening>,
      s: Stream)
    requires ab == a + b
    ensures Steps(flow, need, ab, s)
        == if Steps(flow, need, a, s).Done? then Steps(flow, need, a, s)
           else Steps(flow, need, b, Steps(flow, need, a, s).s)
  {
    if b == [] {
      assert ab == a;
    } else {
      assert ab[..|ab| - 1] == a + b[..|b| - 1];
      StepsJoin(flow, need, a, b[..|b| - 1], ab[..|ab| - 1], s);
    }
  }

  lemma OneStep(flow: u64, need: Need, h: Happening, s: Stream)
    ensures Steps(flow, need, [h], s) == Step(flow, need, h, s)
  {
    assert [h][..0] == [];
  }

  lemma {:induction false} DrainIsSteps(flow: u64, need: Need, batches: seq<Batch>, end: DrainEnd, i: nat, s: Stream)
    requires i <= |batches|
    ensures Drain(flow, need, batches, end, i, s) == Steps(flow, need, Received(batches, end, i), s)
    decreases |batches| - i
  {
    if i == |batches| {
      OneStep(flow, need, StatusFailed, s);
      OneStep(flow, need, ServiceGone, s);
    } else {
      var h, rest := Arrived(batches[i]), Received(batches, end, i + 1);
      OneStep(flow, need, h, s);
      StepsJoin(flow, need, [h], rest, [h] + rest, s);
      var r := BatchStep(flow, need, batches[i], s);
      if r.Going? {
        DrainIsSteps(flow, need, batches, end, i + 1, r.s);
      }
    }
  }

  lemma {:induction false} WakesAreSteps(flow: u64, need: Need, script: seq<Wake>, i: nat, s: Stream)
    requires i <= |script|
    ensures
      var r := Steps(flow, need, TraceFrom(script, i), s);
      Wakes(flow, need, script, i, s) == if r.Done? then r.verdict else Expired
    decreases |script| - i
  {
    if i < |script| {
      var now, later := Happenings(script[i]), TraceFrom(script, i + 1);
      StepsJoin(flow, need, now, later, TraceFrom(script, i), s);
      match script[i]
      case EventTimedOut => OneStep(flow, need, TimedOut, s);
      case EventFailed => OneStep(flow, need, EventWaitFailed, s);
      case Woken(batches, end) =>
        DrainIsSteps(flow, need, batches, end, 0, s);
        var r := Drain(flow, need, batches, end, 0, s);
        if r.Going? {
          WakesAreSteps(flow, need, script, i + 1, r.s);
        }
    }
  }

  lemma JoinPieces(a: seq<byte>, b: seq<byte>, c: seq<byte>)
    ensures (a + b) + c == a + (b + c)
    ensures a + [] == a
  {
  }

  /** Reading a batch: the state is the old one plus what the batch delivers, or the reply is spoiled for size. */
  lemma {:induction false} ReadsPieces(flow: u64, b: Batch, i: nat, s: Stream)
    requires i <= |b.completions| && |s.reply| <= REPLY_BYTES
    ensures
      var r := TakeAll(flow, b, i, s);
      if FatalIn(flow, b, i).Some? then r == Done(FatalIn(flow, b, i).value) else
        && r.Going?
        && Known(r.s.open, r.s.remoteClosed) == StateIn(flow, b, i, Known(s.open, s.remoteClosed))
        && (r.s.malformed <==> s.malformed || |s.reply + Pieces(flow, b, i)| > REPLY_BYTES)
        && (!r.s.malformed ==> r.s.reply == s.reply + Pieces(flow, b, i))
    decreases |b.completions| - i
  {
    if i == |b.completions| {
      assert s.reply + [] == s.reply;
    } else {
      var c := b.completions[i];
      var r := Take(flow, c, b.storage, s);
      if r.Going? {
        ReadsPieces(flow, b, i + 1, r.s);
        JoinPieces(s.reply, if IsPiece(flow, c, b.storage) then PieceOf(c, b.storage) else [], Pieces(flow, b, i + 1));
      }
    }
  }

  /** The stream is what the first `n` events delivered and reported. */
  predicate InStep(flow: u64, t: seq<Happening>, n: nat, s: Stream)
    requires n <= |t|
  {
    && !s.malformed && s.reply == Delivered(flow, t, n) && |s.reply| <= REPLY_BYTES
    && Known(s.open, s.remoteClosed) == StateAfter(flow, t, n)
  }

  lemma StepDecides(flow: u64, need: Need, t: seq<Happening>, n: nat, s: Stream)
    requires n < |t| && InStep(flow, t, n, s)
    ensures
      var r := Step(flow, need, t[n], s);
      match Decision(flow, need, t, n)
      case Some(v) => r == Done(v)
      case None => r.Going? && InStep(flow, t, n + 1, r.s)
  {
    if t[n].Arrived? {
      ReadsPieces(flow, t[n].batch, 0, s);
      assert |EXPECTED| == REPLY_BYTES;
    }
  }

  lemma {:induction false} StepsDecide(flow: u64, need: Need, t: seq<Happening>, n: nat)
    requires n <= |t|
    ensures
      var r := Steps(flow, need, t[..n], EMPTY_STREAM);
      if r.Going? then Undecided(flow, need, t, n) && InStep(flow, t, n, r.s)
      else exists m: nat :: DecidedAt(flow, need, t, m, r.verdict)
  {
    if n > 0 {
      StepsDecide(flow, need, t, n - 1);
      assert t[..n][..n - 1] == t[..n - 1];
      var before := Steps(flow, need, t[..n - 1], EMPTY_STREAM);
      if before.Going? {
        StepDecides(flow, need, t, n - 1, before.s);
        if Decision(flow, need, t, n - 1).Some? {
          assert DecidedAt(flow, need, t, n - 1, Decision(flow, need, t, n - 1).value);
        }
      }
    }
  }

  /**
   * Every wait, whatever it needs and however the completions are batched and interleaved: the verdict is that of
   * the first event at which what was delivered and reported so far decides it.
   */
  lemma OutcomeIsFirstDecision(flow: u64, need: Need, script: seq<Wake>)
    ensures Explained(flow, need, Trace(script), Outcome(flow, need, script))
  {
    var t := Trace(script);
    WakesAreSteps(flow, need, script, 0, EMPTY_STREAM);
    StepsDecide(flow, need, t, |t|);
    assert t[..|t|] == t;
  }

  lemma OneDecision(flow: u64, need: Need, t: seq<Happening>, m: nat, v: Verdict, n: nat, w: Verdict)
    requires DecidedAt(flow, need, t, m, v) && DecidedAt(flow, need, t, n, w)
    ensures v == w
  {
    assert !(m < n) && !(n < m);
  }

  lemma ExplainedOnce(flow: u64, need: Need, t: seq<Happening>, n: nat, w: Verdict, v: Verdict)
    requires DecidedAt(flow, need, t, n, w) && Explained(flow, need, t, v)
    ensures v == w
  {
    assert !Undecided(flow, need, t, |t|);
    var m: nat :| DecidedAt(flow, need, t, m, v);
    OneDecision(flow, need, t, m, v, n, w);
  }

  lemma DecidedBy(flow: u64, need: Need, script: seq<Wake>, n: nat, w: Verdict)
    requires DecidedAt(flow, need, Trace(script), n, w)
    ensures Outcome(flow, need, script) == w
  {
    OutcomeIsFirstDecision(flow, need, script);
    ExplainedOnce(flow, need, Trace(script), n, w, Outcome(flow, need, script));
  }

  /** The exact condition for every verdict; the deadline can pass with the event wait or after the last event. */
  lemma VerdictIff(flow: u64, need: Need, script: seq<Wake>, v: Verdict)
    ensures Outcome(flow, need, script) == v <==> Explained(flow, need, Trace(script), v)
  {
    var t := Trace(script);
    OutcomeIsFirstDecision(flow, need, script);
    if Explained(flow, need, t, v) {
      if n: nat :| DecidedAt(flow, need, t, n, v) {
        DecidedBy(flow, need, script, n, v);
      }
    }
  }

  lemma SatisfiedMeets(flow: u64, need: Need, t: seq<Happening>, n: nat)
    requires n < |t| && Decision(flow, need, t, n) == Some(Satisfied)
    ensures Meets(need, Delivered(flow, t, n + 1), StateAfter(flow, t, n + 1))
  {
  }

  /**
   * If a wait that needs the reply succeeds, the in-bounds pieces of this flow up to some event join to exactly the
   * expected reply, and the end of the stream and the open state were reported if they were needed.
   */
  lemma SuccessMeansTheReply(flow: u64, need: Need, script: seq<Wake>) returns (n: nat)
    requires need.reply && Outcome(flow, need, script) == Satisfied
    ensures n < |Trace(script)| && Delivered(flow, Trace(script), n + 1) == EXPECTED
    ensures need.remoteClosed ==> StateAfter(flow, Trace(script), n + 1).eof
    ensures need.open ==> StateAfter(flow, Trace(script), n + 1).open
  {
    OutcomeIsFirstDecision(flow, need, script);
    n :| DecidedAt(flow, need, Trace(script), n, Satisfied);
    SatisfiedMeets(flow, need, Trace(script), n);
  }

  lemma {:induction false} DeliveredGrows(flow: u64, t: seq<Happening>, m: nat, n: nat)
    requires m <= n <= |t|
    ensures |Delivered(flow, t, m)| <= |Delivered(flow, t, n)|
    ensures Delivered(flow, t, n)[..|Delivered(flow, t, m)|] == Delivered(flow, t, m)
  {
    if m < n {
      DeliveredGrows(flow, t, m, n - 1);
    }
  }

  /** What the reply phase of the exchange waits for. */
  const REPLY_AND_EOF := Need(false, true, true)

  /** Nothing goes wrong up to the n-th event. */
  predicate CalmUpTo(flow: u64, t: seq<Happening>, n: nat)
    requires n < |t|
  {
    forall m :: 0 <= m <= n ==> t[m].Arrived? && FatalIn(flow, t[m].batch, 0) == None
  }

  lemma PrefixIsNotSpoiled(early: seq<byte>, whole: seq<byte>)
    requires whole == EXPECTED && |early| <= |whole| && early == whole[..|early|]
    ensures !Spoiled(REPLY_AND_EOF, early)
  {
    assert |EXPECTED| == REPLY_BYTES;
    assert whole[..|whole|] == whole;
  }

  lemma StillWaiting(flow: u64, t: seq<Happening>, m: nat, reply: seq<byte>, known: Known)
    requires m < |t| && t[m].Arrived? && FatalIn(flow, t[m].batch, 0) == None
    requires reply == Delivered(flow, t, m + 1) && known == StateAfter(flow, t, m + 1)
    requires !Spoiled(REPLY_AND_EOF, reply) && !known.eof
    ensures Decision(flow, REPLY_AND_EOF, t, m) == None
  {
  }

  lemma CalmAt(flow: u64, t: seq<Happening>, n: nat, m: nat)
    requires m <= n < |t| && CalmUpTo(flow, t, n)
    ensures t[m].Arrived? && FatalIn(flow, t[m].batch, 0) == None
  {
  }

  lemma NotSpoiledBefore(flow: u64, t: seq<Happening>, n: nat, m: nat, early: seq<byte>, whole: seq<byte>)
    requires m < n < |t| && early == Delivered(flow, t, m + 1) && whole == Delivered(flow, t, n + 1) && whole == EXPECTED
    ensures !Spoiled(REPLY_AND_EOF, early)
  {
    DeliveredGrows(flow, t, m + 1, n + 1);
    PrefixIsNotSpoiled(early, whole);
  }

  lemma CompleteDecides(flow: u64, t: seq<Happening>, n: nat)
    requires n < |t| && t[n].Arrived? && FatalIn(flow, t[n].batch, 0) == None
    requires Delivered(flow, t, n + 1) == EXPECTED && StateAfter(flow, t, n + 1).eof
    ensures Decision(flow, REPLY_AND_EOF, t, n) == Some(Satisfied)
  {
    assert |EXPECTED| == REPLY_BYTES;
  }

  /** Whatever happens later: every split of the expected reply is accepted if its end of stream comes no earlier. */
  lemma EverySplitIsAccepted(flow: u64, script: seq<Wake>, n: nat)
    requires n < |Trace(script)| && CalmUpTo(flow, Trace(script), n)
    requires Delivered(flow, Trace(script), n + 1) == EXPECTED && StateAfter(flow, Trace(script), n + 1).eof
    requires forall m :: 0 <= m <= n ==> !StateAfter(flow, Trace(script), m).eof
    ensures Outcome(flow, REPLY_AND_EOF, script) == Satisfied
  {
    var t := Trace(script);
    forall m | 0 <= m < n ensures Decision(flow, REPLY_AND_EOF, t, m) == None {
      CalmAt(flow, t, n, m);
      NotSpoiledBefore(flow, t, n, m, Delivered(flow, t, m + 1), Delivered(flow, t, n + 1));
      StillWaiting(flow, t, m, Delivered(flow, t, m + 1), StateAfter(flow, t, m + 1));
    }
    CalmAt(flow, t, n, n);
    CompleteDecides(flow, t, n);
    DecidedBy(flow, REPLY_AND_EOF, script, n, Satisfied);
  }

  /** An end of the stream that is reported before the reply is complete always ends the wait without success. */
  lemma EarlyEofIsRefused(flow: u64, need: Need, script: seq<Wake>, n: nat)
    requires need.reply && n < |Trace(script)| && Undecided(flow, need, Trace(script), n) && Trace(script)[n].Arrived?
    requires StateAfter(flow, Trace(script), n + 1).eof && Delivered(flow, Trace(script), n + 1) != EXPECTED
    ensures Outcome(flow, need, script) in {Terminal, StateQueryFailed, Malformed, PrematureEof}
  {
    var t := Trace(script);
    var w := Decision(flow, need, t, n).value;
    assert DecidedAt(flow, need, t, n, w);
    DecidedBy(flow, need, script, n, w);
  }

  lemma {:induction false} SameBeginning(flow: u64, s: seq<Happening>, t: seq<Happening>, n: nat)
    requires n <= |s| && n <= |t| && s[..n] == t[..n]
    ensures Delivered(flow, s, n) == Delivered(flow, t, n) && StateAfter(flow, s, n) == StateAfter(flow, t, n)
  {
    if n > 0 {
      assert s[..n - 1] == s[..n][..n - 1] == t[..n - 1];
      assert s[n - 1] == s[..n][n - 1] == t[n - 1];
      SameBeginning(flow, s, t, n - 1);
    }
  }

  lemma SameDecision(flow: u64, need: Need, s: seq<Happening>, t: seq<Happening>, m: nat, n: nat)
    requires m < n <= |s| && n <= |t| && s[..n] == t[..n]
    ensures Decision(flow, need, s, m) == Decision(flow, need, t, m)
  {
    assert s[..m + 1] == s[..n][..m + 1] == t[..m + 1];
    assert s[m] == s[..m + 1][m] == t[m];
    SameBeginning(flow, s, t, m + 1);
  }

  /** A wait depends on nothing that happens after its deciding event, however long the service would go on. */
  lemma LaterEventsDoNotMatter(flow: u64, need: Need, a: seq<Wake>, b: seq<Wake>, n: nat, v: Verdict)
    requires DecidedAt(flow, need, Trace(a), n, v) && n < |Trace(b)| && Trace(a)[..n + 1] == Trace(b)[..n + 1]
    ensures Outcome(flow, need, a) == Outcome(flow, need, b) == v
  {
    forall m | 0 <= m <= n ensures Decision(flow, need, Trace(a), m) == Decision(flow, need, Trace(b), m) {
      SameDecision(flow, need, Trace(a), Trace(b), m, n + 1);
    }
    DecidedBy(flow, need, a, n, v);
    DecidedBy(flow, need, b, n, v);
  }
}
