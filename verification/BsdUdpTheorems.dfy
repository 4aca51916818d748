/** When a socket workload succeeds, in terms of what the sockets answered: any runnable workload, any sockets. */
module BsdUdpTheorems {
  import opened Bytes
  import opened BsdUdpSpec
  import opened BsdUdpLaws
  import opened WorkloadPayload

  // One datagram.

  /** The j-th attempt found no room, and room was reported afterwards. */
  predicate RoomAgain(env: Sockets, s: nat, j: nat) {
    env.send(s, j) == Again && Writable(env.pollOut(s, j))
  }

  predicate RoomAgainUpTo(env: Sockets, s: nat, n: nat) {
    forall j: nat :: j < n ==> RoomAgain(env, s, j)
  }

  /** The calls of the attempts before the n-th. */
  function Attempts(env: Sockets, s: nat, fd: nat, payload: seq<byte>, n: nat): (calls: seq<Call>)
    ensures |calls| == 2 * n
  {
    if n == 0 then [] else
      Attempts(env, s, fd, payload, n - 1) + [Send(s, fd, payload, env.send(s, n - 1))] + [PollOut(s, fd, env.pollOut(s, n - 1))]
  }

  /**
   * The n-th attempt is the last: all before it found no room that then came, and it was taken, failed, was not
   * followed by room, or was the 17th.
   */
  predicate SentWith(env: Sockets, s: nat, fd: nat, payload: seq<byte>, n: nat, r: SendRun) {
    var waits := env.send(s, n) == Again && n < MAX_RETRIES;
    && n <= MAX_RETRIES && RoomAgainUpTo(env, s, n) && (n < MAX_RETRIES ==> !RoomAgain(env, s, n))
    && (r.sent <==> env.send(s, n) == SentBytes(|payload|))
    && (r.recovered <==> n > 0)
    && r.retries == n + (if waits then 1 else 0)
    && r.calls == Attempts(env, s, fd, payload, n) + [Send(s, fd, payload, env.send(s, n))]
      + (if waits then [PollOut(s, fd, env.pollOut(s, n))] else [])
  }

  ghost predicate SentSomehow(env: Sockets, s: nat, fd: nat, payload: seq<byte>, r: SendRun) {
    exists n: nat :: SentWith(env, s, fd, payload, n, r)
  }

  lemma {:induction false} SendEndsWith(env: Sockets, s: nat, fd: nat, payload: seq<byte>, k: nat, r: SendRun)
    returns (n: nat)
    requires k <= MAX_RETRIES && RoomAgainUpTo(env, s, k)
    requires r.retries == k && r.calls == Attempts(env, s, fd, payload, k) && (r.recovered <==> k > 0) && !r.sent
    ensures SentWith(env, s, fd, payload, n, SendFrom(env, s, fd, payload, r))
    decreases MAX_RETRIES - k
  {
    n := k;
    if k < MAX_RETRIES && RoomAgain(env, s, k) {
      var next := r.(recovered := true, retries := k + 1,
        calls := r.calls + [Send(s, fd, payload, env.send(s, k))] + [PollOut(s, fd, env.pollOut(s, k))]);
      assert SendFrom(env, s, fd, payload, r) == SendFrom(env, s, fd, payload, next);
      n := SendEndsWith(env, s, fd, payload, k + 1, next);
    }
  }

  /** What the retry loop of one datagram does, in one line of calls, and when it ends how. */
  lemma SendMeans(env: Sockets, s: nat, fd: nat, payload: seq<byte>)
    ensures SentSomehow(env, s, fd, payload, SendOnce(env, s, fd, payload))
  {
    var n := SendEndsWith(env, s, fd, payload, 0, SendRun(false, false, 0, []));
  }

  /** One of the 17 attempts was taken whole, after room came back each time before. */
  ghost predicate Taken(env: Sockets, s: nat, size: nat) {
    exists n: nat :: n <= MAX_RETRIES && RoomAgainUpTo(env, s, n) && env.send(s, n) == SentBytes(size)
  }

  lemma TakenIff(env: Sockets, s: nat, fd: nat, payload: seq<byte>)
    ensures SendOnce(env, s, fd, payload).sent <==> Taken(env, s, |payload|)
    ensures SendOnce(env, s, fd, payload).recovered <==> RoomAgain(env, s, 0)
  {
    var r := SendOnce(env, s, fd, payload);
    SendMeans(env, s, fd, payload);
    var k: nat :| SentWith(env, s, fd, payload, k, r);
    forall n: nat | n <= MAX_RETRIES && RoomAgainUpTo(env, s, n) && env.send(s, n) == SentBytes(|payload|)
      ensures n == k
    {
      assert n < k ==> RoomAgain(env, s, n);
      assert k < n ==> RoomAgain(env, s, k);
    }
    if k > 0 {
      assert RoomAgain(env, s, 0);
    }
  }

  // All datagrams.

  /** Datagram `s` was taken whole and, if echoes are asked for, came back from the remote side as it was sent. */
  ghost predicate Completed(env: Sockets, work: Work, s: nat) {
    Taken(env, s, |work.payload(s)|) && (work.echoReplies ==> EchoMatches(env, s, work.payload(s)))
  }

  ghost predicate CompletedFrom(env: Sockets, work: Work, s: nat) {
    forall t: nat :: s <= t < work.datagrams ==> Completed(env, work, t)
  }

  predicate RecoversFrom(env: Sockets, work: Work, s: nat) {
    exists t: nat :: s <= t < work.datagrams && RoomAgain(env, t, 0)
  }

  lemma DatagramIff(env: Sockets, work: Work, s: nat, p: Progress)
    requires work.fds != [] && !p.failed
    ensures !Datagram(env, work, s, p).failed <==> Completed(env, work, s)
    ensures Datagram(env, work, s, p).recovered <==> p.recovered || RoomAgain(env, s, 0)
  {
    TakenIff(env, s, FdFor(work, s), work.payload(s));
  }

  lemma {:induction false} DatagramsIff(env: Sockets, work: Work, s: nat, p: Progress)
    requires work.fds != [] && s <= work.datagrams && !p.failed
    ensures
      var r := Datagrams(env, work, s, p);
      && (!r.failed <==> CompletedFrom(env, work, s))
      && (!r.failed ==> (r.recovered <==> p.recovered || RecoversFrom(env, work, s)))
    decreases work.datagrams - s
  {
    if s < work.datagrams {
      var next := Datagram(env, work, s, p);
      DatagramIff(env, work, s, p);
      if !next.failed {
        DatagramsIff(env, work, s + 1, next);
        assert CompletedFrom(env, work, s) <==> Completed(env, work, s) && CompletedFrom(env, work, s + 1);
        assert RecoversFrom(env, work, s) <==> RoomAgain(env, s, 0) || RecoversFrom(env, work, s + 1);
      } else {
        assert Datagrams(env, work, s + 1, next) == next;
      }
    }
  }

  lemma EchoSucceedsIff(env: Sockets, c: Workload, work: Work)
    requires work.fds != []
    ensures EchoRun(env, c, work).success <==>
      CompletedFrom(env, work, 0) && (c.requireRecovery ==> RecoversFrom(env, work, 0))
  {
    var start := Progress(0, 0, false, false, []);
    DatagramsIff(env, work, 0, start);
    var done := DatagramsTrack(env, work, 0, start);
  }

  // The run.

  lemma {:induction false} AllAreOpened(env: Sockets, k: nat, n: nat)
    requires k <= n && AllConfigured(env, k, n)
    ensures |Opened(env, k, n)| == n - k
    decreases n - k
  {
    if k < n {
      AllAreOpened(env, k + 1, n);
    }
  }

  /** What each expected outcome asks of the sockets, once all of them are open and configured. */
  ghost predicate Succeeds(env: Sockets, c: Workload)
    requires Runnable(c)
  {
    var work := WorkOf(c, Opened(env, 0, c.flows));
    && Begins(env, c)
    && match c.expected
       case EchoReply => CompletedFrom(env, work, 0) && (c.requireRecovery ==> RecoversFrom(env, work, 0))
       case NoReplyTimeout => Taken(env, 0, c.payloadBytes) && Classify(env.pollIn(0)) == Timeout
       case TerminalClosure =>
         Taken(env, 0, c.payloadBytes) && EchoMatches(env, 0, work.payload(0)) && ClosureConfirmed(env)
  }

  /** Over every run, for every expected outcome: the exact condition for success. */
  lemma RunSucceedsIff(env: Sockets, c: Workload)
    requires Runnable(c)
    ensures Run(env, c).success <==> Succeeds(env, c)
  {
    if Begins(env, c) {
      var work := WorkOf(c, Opened(env, 0, c.flows));
      AllAreOpened(env, 0, c.flows);
      EchoSucceedsIff(env, c, work);
      TakenIff(env, 0, work.fds[0], work.payload(0));
    }
  }

  /** A datagram that finds no room sixteen times, with room reported each time, is sent once more. */
  lemma SeventeenAttempts(env: Sockets, s: nat, fd: nat, payload: seq<byte>)
    requires RoomAgainUpTo(env, s, 16)
    ensures
      var r := SendOnce(env, s, fd, payload);
      && r.calls == Attempts(env, s, fd, payload, 16) + [Send(s, fd, payload, env.send(s, 16))]
      && (r.sent <==> env.send(s, 16) == SentBytes(|payload|))
  {
    SendMeans(env, s, fd, payload);
    var n: nat :| SentWith(env, s, fd, payload, n, SendOnce(env, s, fd, payload));
  }

  // Sends over a whole run.

  function SendsOf(calls: seq<Call>, s: nat): nat {
    if calls == [] then 0 else
      var last := calls[|calls| - 1];
      SendsOf(calls[..|calls| - 1], s) + if last.Send? && last.sequence == s then 1 else 0
  }

  /** A send or a wait about datagram `s`, on `fd`. */
  predicate About(call: Call, s: nat, fd: nat) {
    match call
    case Send(sequence, f, _, _) => sequence == s && f == fd
    case PollOut(sequence, f, _) => sequence == s && f == fd
    case PollIn(sequence, f, _) => sequence == s && f == fd
    case Receive(sequence, f, _) => sequence == s && f == fd
    case _ => false
  }

  /** The call is about one of the datagrams, on the descriptor of its flow, and sends the bytes of that datagram. */
  predicate OwnCall(work: Work, call: Call)
    requires work.fds != []
  {
    match call
    case Send(s, fd, payload, _) => InRange(work, s) && fd == FdFor(work, s) && payload == work.payload(s)
    case PollOut(s, fd, _) => InRange(work, s) && fd == FdFor(work, s)
    case PollIn(s, fd, _) => InRange(work, s) && fd == FdFor(work, s)
    case Receive(s, fd, _) => InRange(work, s) && fd == FdFor(work, s)
    case _ => true
  }

  /** Two of the three outcomes use datagram 0 without looking at the datagram count. */
  predicate InRange(work: Work, s: nat) {
    s == 0 || s < work.datagrams
  }

  predicate OwnCalls(work: Work, calls: seq<Call>)
    requires work.fds != []
  {
    forall i :: 0 <= i < |calls| ==> OwnCall(work, calls[i])
  }

  predicate NoSends(calls: seq<Call>) {
    forall i :: 0 <= i < |calls| ==> !calls[i].Send?
  }

  lemma {:induction false} SendsJoin(a: seq<Call>, b: seq<Call>, ab: seq<Call>, s: nat)
    requires ab == a + b
    ensures SendsOf(ab, s) == SendsOf(a, s) + SendsOf(b, s)
  {
    if b == [] {
      assert ab == a;
    } else {
      assert ab[..|ab| - 1] == a + b[..|b| - 1];
      SendsJoin(a, b[..|b| - 1], ab[..|ab| - 1], s);
    }
  }

  lemma {:induction false} NoSendsCount(calls: seq<Call>, s: nat)
    requires NoSends(calls)
    ensures SendsOf(calls, s) == 0
  {
    if calls == [] {
    } else {
      NoSendsCount(calls[..|calls| - 1], s);
    }
  }

  /** Calls that send nothing add nothing, wherever they stand. */
  lemma SilentEnd(calls: seq<Call>, silent: seq<Call>, all: seq<Call>, s: nat)
    requires all == calls + silent && NoSends(silent)
    ensures SendsOf(all, s) == SendsOf(calls, s)
  {
    SendsJoin(calls, silent, all, s);
    NoSendsCount(silent, s);
  }

  lemma {:induction false} SendsOfOne(calls: seq<Call>, s: nat, t: nat)
    requires forall i :: 0 <= i < |calls| && calls[i].Send? ==> calls[i].sequence == s
    ensures SendsOf(calls, t) == if t == s then CountSends(calls) else 0
  {
    if calls == [] {
    } else {
      SendsOfOne(calls[..|calls| - 1], s, t);
    }
  }

  /** Every call of the retry loop is a send of this payload, or a wait for room, on this descriptor. */
  predicate OneDatagram(calls: seq<Call>, s: nat, fd: nat, payload: seq<byte>) {
    forall i :: 0 <= i < |calls| ==>
      (calls[i].Send? && calls[i] == Send(s, fd, payload, calls[i].sent)) || (calls[i].PollOut? && About(calls[i], s, fd))
  }

  lemma {:induction false} AttemptsAreOwn(env: Sockets, s: nat, fd: nat, payload: seq<byte>, n: nat)
    ensures OneDatagram(Attempts(env, s, fd, payload, n), s, fd, payload)
  {
    if n > 0 {
      AttemptsAreOwn(env, s, fd, payload, n - 1);
    }
  }

  lemma RetriesAreOwn(env: Sockets, s: nat, fd: nat, payload: seq<byte>)
    ensures OneDatagram(SendOnce(env, s, fd, payload).calls, s, fd, payload)
  {
    SendMeans(env, s, fd, payload);
    var n: nat :| SentWith(env, s, fd, payload, n, SendOnce(env, s, fd, payload));
    AttemptsAreOwn(env, s, fd, payload, n);
  }

  lemma OneDatagramSends(work: Work, calls: seq<Call>, s: nat, fd: nat, payload: seq<byte>, t: nat)
    requires work.fds != [] && InRange(work, s) && fd == FdFor(work, s) && payload == work.payload(s)
    requires OneDatagram(calls, s, fd, payload)
    ensures OwnCalls(work, calls) && SendsOf(calls, t) == if t == s then CountSends(calls) else 0
  {
    SendsOfOne(calls, s, t);
  }

  lemma SendOnceSends(env: Sockets, work: Work, s: nat, t: nat)
    requires work.fds != [] && InRange(work, s)
    ensures
      var calls := SendOnce(env, s, FdFor(work, s), work.payload(s)).calls;
      OwnCalls(work, calls) && SendsOf(calls, t) <= if t == s then MAX_RETRIES + 1 else 0
  {
    var fd, payload := FdFor(work, s), work.payload(s);
    RetriesAreOwn(env, s, fd, payload);
    DatagramIsSentInOrder(env, s, fd, payload);
    OneDatagramSends(work, SendOnce(env, s, fd, payload).calls, s, fd, payload, t);
  }

  lemma ThenSilent(work: Work, calls: seq<Call>, silent: seq<Call>, all: seq<Call>, t: nat)
    requires work.fds != [] && OwnCalls(work, calls) && OwnCalls(work, silent) && NoSends(silent) && all == calls + silent
    ensures OwnCalls(work, all) && SendsOf(all, t) == SendsOf(calls, t)
  {
    SilentEnd(calls, silent, all, t);
  }

  lemma EchoIsOwn(env: Sockets, work: Work, s: nat)
    requires work.fds != [] && InRange(work, s)
    ensures OwnCalls(work, EchoCalls(env, s, FdFor(work, s))) && NoSends(EchoCalls(env, s, FdFor(work, s)))
  {
  }

  lemma OwnJoin(work: Work, a: seq<Call>, b: seq<Call>, ab: seq<Call>)
    requires work.fds != [] && OwnCalls(work, a) && OwnCalls(work, b) && ab == a + b
    ensures OwnCalls(work, ab)
  {
  }

  /** The calls of one datagram: its sends, and the wait for the echo if there is one. */
  lemma DatagramCalls(env: Sockets, work: Work, s: nat, p: Progress, sends: seq<Call>)
    requires work.fds != [] && sends == SendOnce(env, s, FdFor(work, s), work.payload(s)).calls
    ensures
      var calls := Datagram(env, work, s, p).calls;
      calls == p.calls + sends || calls == p.calls + sends + EchoCalls(env, s, FdFor(work, s))
  {
  }

  lemma DatagramSends(env: Sockets, work: Work, s: nat, p: Progress, t: nat)
    requires work.fds != [] && s < work.datagrams && OwnCalls(work, p.calls)
    ensures OwnCalls(work, Datagram(env, work, s, p).calls)
    ensures SendsOf(Datagram(env, work, s, p).calls, t) <= SendsOf(p.calls, t) + if t == s then MAX_RETRIES + 1 else 0
  {
    var sends, echo := SendOnce(env, s, FdFor(work, s), work.payload(s)).calls, EchoCalls(env, s, FdFor(work, s));
    SendOnceSends(env, work, s, t);
    SendsJoin(p.calls, sends, p.calls + sends, t);
    OwnJoin(work, p.calls, sends, p.calls + sends);
    EchoIsOwn(env, work, s);
    ThenSilent(work, p.calls + sends, echo, p.calls + sends + echo, t);
    DatagramCalls(env, work, s, p, sends);
  }

  lemma {:induction false} DatagramsSend(env: Sockets, work: Work, s: nat, p: Progress, t: nat)
    requires work.fds != [] && s <= work.datagrams && OwnCalls(work, p.calls)
    requires SendsOf(p.calls, t) <= if t < s then MAX_RETRIES + 1 else 0
    ensures OwnCalls(work, Datagrams(env, work, s, p).calls)
    ensures SendsOf(Datagrams(env, work, s, p).calls, t) <= MAX_RETRIES + 1
    decreases work.datagrams - s
  {
    if s < work.datagrams && !p.failed {
      DatagramSends(env, work, s, p, t);
      DatagramsSend(env, work, s + 1, Datagram(env, work, s, p), t);
    }
  }

  /** The terminal run got as far as trying to send once more on the closed flow. */
  predicate TriesClosedFlow(env: Sockets, work: Work)
    requires work.fds != []
  {
    && SendOnce(env, 0, work.fds[0], work.payload(0)).sent && EchoMatches(env, 0, work.payload(0))
    && Classify(env.closingPoll) == ClosedFlow
  }

  /** What follows the send on the closed flow. */
  function AfterClosedSend(env: Sockets, work: Work): seq<Call>
    requires work.fds != []
  {
    if env.closingSend != Aborted then Closes(work.fds)
    else [Close(work.fds[0])] + Closes(if env.closingClose then work.fds[1..] else work.fds)
  }

  lemma ClosedSend(env: Sockets, work: Work, polled: seq<Call>, all: seq<Call>, t: nat)
    requires work.fds != [] && OwnCalls(work, polled)
    requires all == polled + [Send(0, work.fds[0], work.payload(0), env.closingSend)] + AfterClosedSend(env, work)
    ensures OwnCalls(work, all) && SendsOf(all, t) == SendsOf(polled, t) + if t == 0 then 1 else 0
  {
    var asked := polled + [Send(0, work.fds[0], work.payload(0), env.closingSend)];
    assert asked[..|polled|] == polled;
    ThenSilent(work, asked, AfterClosedSend(env, work), all, t);
  }

  lemma ClosureSends(env: Sockets, work: Work, before: seq<Call>, all: seq<Call>, t: nat)
    requires work.fds != [] && OwnCalls(work, before) && all == before + ClosureCalls(env, work)
    ensures OwnCalls(work, all)
    ensures SendsOf(all, t) == SendsOf(before, t) + if t == 0 && Classify(env.closingPoll) == ClosedFlow then 1 else 0
  {
    var fd, seen := work.fds[0], Classify(env.closingPoll);
    var polled := before + [PollIn(0, fd, seen)];
    ThenSilent(work, before, [PollIn(0, fd, seen)], polled, t);
    if seen != ClosedFlow {
      ThenSilent(work, polled, Closes(work.fds), all, t);
    } else {
      ClosedSend(env, work, polled, all, t);
    }
  }

  lemma FirstFd(work: Work)
    requires work.fds != []
    ensures FdFor(work, 0) == work.fds[0]
  {
  }

  /** The first datagram on the first descriptor. */
  lemma FirstSends(env: Sockets, work: Work, calls: seq<Call>, t: nat)
    requires work.fds != [] && calls == SendOnce(env, 0, work.fds[0], work.payload(0)).calls
    ensures OwnCalls(work, calls) && SendsOf(calls, t) <= if t == 0 then MAX_RETRIES + 1 else 0
  {
    FirstFd(work);
    SendOnceSends(env, work, 0, t);
  }

  lemma TerminalSends(env: Sockets, work: Work, t: nat)
    requires work.fds != []
    ensures OwnCalls(work, TerminalRun(env, work).calls)
    ensures SendsOf(TerminalRun(env, work).calls, t)
      == SendsOf(SendOnce(env, 0, work.fds[0], work.payload(0)).calls, t)
        + if t == 0 && TriesClosedFlow(env, work) then 1 else 0
  {
    var fd := work.fds[0];
    var r, all := SendOnce(env, 0, fd, work.payload(0)), TerminalRun(env, work).calls;
    FirstSends(env, work, r.calls, t);
    var echoed := r.calls + EchoCalls(env, 0, fd);
    if !r.sent {
      ThenSilent(work, r.calls, Closes(work.fds), all, t);
    } else {
      ThenSilent(work, r.calls, EchoCalls(env, 0, fd), echoed, t);
      if !EchoMatches(env, 0, work.payload(0)) {
        ThenSilent(work, echoed, Closes(work.fds), all, t);
      } else {
        ClosureSends(env, work, echoed, all, t);
      }
    }
  }

  lemma SilentTwice(work: Work, calls: seq<Call>, a: seq<Call>, b: seq<Call>, all: seq<Call>, t: nat)
    requires work.fds != [] && OwnCalls(work, calls) && OwnCalls(work, a) && OwnCalls(work, b)
    requires NoSends(a) && NoSends(b) && all == calls + a + b
    ensures OwnCalls(work, all) && SendsOf(all, t) == SendsOf(calls, t)
  {
    ThenSilent(work, calls, a, calls + a, t);
    ThenSilent(work, calls + a, b, all, t);
  }

  lemma TimeoutSends(env: Sockets, work: Work, t: nat)
    requires work.fds != []
    ensures OwnCalls(work, TimeoutRun(env, work).calls)
    ensures SendsOf(TimeoutRun(env, work).calls, t) == SendsOf(SendOnce(env, 0, work.fds[0], work.payload(0)).calls, t)
  {
    var r, all := SendOnce(env, 0, work.fds[0], work.payload(0)), TimeoutRun(env, work).calls;
    FirstSends(env, work, r.calls, t);
    if r.sent {
      SilentTwice(work, r.calls, [PollIn(0, work.fds[0], Classify(env.pollIn(0)))], Closes(work.fds), all, t);
    } else {
      ThenSilent(work, r.calls, Closes(work.fds), all, t);
    }
  }

  lemma ChosenSends(env: Sockets, c: Workload, work: Work, t: nat)
    requires work.fds != []
    ensures OwnCalls(work, Chosen(env, c, work).calls)
    ensures SendsOf(Chosen(env, c, work).calls, t)
      <= MAX_RETRIES + 1 + if t == 0 && c.expected == TerminalClosure && TriesClosedFlow(env, work) then 1 else 0
  {
    match c.expected
    case EchoReply =>
      var start := Progress(0, 0, false, false, []);
      DatagramsSend(env, work, 0, start, t);
      ThenSilent(work, Datagrams(env, work, 0, start).calls, Closes(work.fds), EchoRun(env, c, work).calls, t);
    case NoReplyTimeout =>
      TimeoutSends(env, work, t);
      FirstSends(env, work, SendOnce(env, 0, work.fds[0], work.payload(0)).calls, t);
    case TerminalClosure =>
      TerminalSends(env, work, t);
      FirstSends(env, work, SendOnce(env, 0, work.fds[0], work.payload(0)).calls, t);
  }

  /** The descriptors of a run that sends anything. */
  function WorkIn(env: Sockets, c: Workload): Work
    requires Runnable(c)
  {
    WorkOf(c, Opened(env, 0, c.flows))
  }

  /**
   * Over every run: at most 17 sends of each datagram, except that a terminal run whose flow was reported closed
   * sends datagram 0 once more; all sends of a datagram carry the same bytes on the same descriptor.
   */
  lemma RunSends(env: Sockets, c: Workload, t: nat)
    requires Runnable(c)
    ensures WorkIn(env, c).fds == [] ==> NoSends(Run(env, c).calls)
    ensures WorkIn(env, c).fds != [] ==> OwnCalls(WorkIn(env, c), Run(env, c).calls)
    ensures SendsOf(Run(env, c).calls, t) <= 17 +
      if t == 0 && c.expected == TerminalClosure && WorkIn(env, c).fds != [] && TriesClosedFlow(env, WorkIn(env, c))
      then 1 else 0
  {
    var work, calls := WorkIn(env, c), Run(env, c).calls;
    var opens := SocketCalls(work.fds);
    NoSendsCount(opens, t);
    if !Begins(env, c) || work.fds == [] {
      SilentEnd(opens, Closes(work.fds), calls, t);
    } else {
      ChosenSends(env, c, work, t);
      SendsJoin(opens, Chosen(env, c, work).calls, calls, t);
    }
  }

  // Which descriptor each datagram goes by.

  lemma {:induction false} DescriptorIsOpened(env: Sockets, k: nat, n: nat, i: nat)
    requires k + i < n && AllConfigured(env, k, n)
    ensures Configured(env.socket(k + i)) && i < |Opened(env, k, n)| && Opened(env, k, n)[i] == env.socket(k + i).fd
    decreases n - k
  {
    if i > 0 {
      DescriptorIsOpened(env, k + 1, n, i - 1);
    }
  }

  /**
   * What the log says of datagram `s` on `fd`: the call that opened socket number `s % flows` is there, it returned
   * that descriptor, and the socket was connected, named and made non-blocking.
   */
  predicate OpenedAs(env: Sockets, c: Workload, calls: seq<Call>, s: nat, fd: nat)
    requires Runnable(c)
  {
    var k := s % c.flows;
    && (s == 0 || s < c.datagrams) && k < |calls| && calls[k] == Socket(fd)
    && env.socket(k).SocketOpened? && env.socket(k).fd == fd
    && env.socket(k).connected && env.socket(k).named && env.socket(k).nonBlocking
  }

  /** The payload names the workload, the datagram, and the socket whose descriptor carries it. */
  predicate NamesItsSocket(c: Workload, call: Call) {
    call.Send? ==>
      match ParseWorkloadIdentity(call.payload)
      case Identified(id) =>
        && id.kind == BsdSystem && id.workload == c.id && id.seed == c.seed && id.sequence == call.sequence
        && 0 < c.flows && id.flow == call.sequence % c.flows && |call.payload| == c.payloadBytes
      case _ => false
  }

  ghost predicate OnOwnDescriptor(env: Sockets, c: Workload, calls: seq<Call>, i: nat)
    requires Runnable(c) && i < |calls|
  {
    && (forall s: nat, fd: nat :: About(calls[i], s, fd) ==> OpenedAs(env, c, calls, s, fd))
    && NamesItsSocket(c, calls[i])
  }

  lemma NothingSentWithoutSockets(env: Sockets, c: Workload, i: nat, s: nat, fd: nat)
    requires Runnable(c) && !Begins(env, c) && i < |Run(env, c).calls|
    ensures !About(Run(env, c).calls[i], s, fd) && !Run(env, c).calls[i].Send?
  {
  }

  lemma PayloadNamesDatagram(c: Workload, fds: seq<nat>, s: u32)
    requires Runnable(c)
    ensures
      var payload := WorkOf(c, fds).payload(s);
      && |payload| == c.payloadBytes
      && ParseWorkloadIdentity(payload) == Identified(Identity(BsdSystem, c.id, s % c.flows, s, c.seed))
  {
    IdentityRoundTrip(IdentityOf(c, s), c.payloadBytes);
  }

  lemma OwnPayloadNames(env: Sockets, c: Workload, call: Call)
    requires Runnable(c) && WorkIn(env, c).fds != [] && OwnCall(WorkIn(env, c), call)
    ensures NamesItsSocket(c, call)
  {
    if call.Send? {
      PayloadNamesDatagram(c, WorkIn(env, c).fds, call.sequence);
    }
  }

  lemma CallIsOnOwnDescriptor(env: Sockets, c: Workload, i: nat, s: nat, fd: nat)
    requires Runnable(c) && Begins(env, c) && i < |Run(env, c).calls| && About(Run(env, c).calls[i], s, fd)
    ensures OpenedAs(env, c, Run(env, c).calls, s, fd)
  {
    var work, k := WorkIn(env, c), s % c.flows;
    AllAreOpened(env, 0, c.flows);
    DescriptorIsOpened(env, 0, c.flows, k);
    RunSends(env, c, 0);
    assert OwnCall(work, Run(env, c).calls[i]);
    assert SocketCalls(work.fds)[k] == Socket(work.fds[k]);
  }

  /**
   * Over every run, each send of a datagram, and each wait after it, is on the descriptor that socket number
   * `sequence % flows` returned, which is the socket that the identity in the payload names.
   */
  lemma DatagramsGoByTheirDescriptor(env: Sockets, c: Workload)
    requires Runnable(c)
    ensures forall i :: 0 <= i < |Run(env, c).calls| ==> OnOwnDescriptor(env, c, Run(env, c).calls, i)
  {
    forall i | 0 <= i < |Run(env, c).calls| ensures OnOwnDescriptor(env, c, Run(env, c).calls, i) {
      if Begins(env, c) {
        forall s: nat, fd: nat | About(Run(env, c).calls[i], s, fd) ensures OpenedAs(env, c, Run(env, c).calls, s, fd) {
          CallIsOnOwnDescriptor(env, c, i, s, fd);
        }
        AllAreOpened(env, 0, c.flows);
        RunSends(env, c, 0);
        OwnPayloadNames(env, c, Run(env, c).calls[i]);
      } else {
        forall s: nat, fd: nat ensures !About(Run(env, c).calls[i], s, fd) {
          NothingSentWithoutSockets(env, c, i, s, fd);
        }
        NothingSentWithoutSockets(env, c, i, 0, 0);
      }
    }
  }

  /** What a caller may rely on: success has its reason, and what was opened is closed. */
  ghost predicate Accounted(env: Sockets, c: Workload, r: Report)
    requires Runnable(c)
  {
    var fds := Opened(env, 0, c.flows);
    && (r.success <==> Succeeds(env, c))
    && (forall i :: 0 <= i < |r.calls| ==> OnOwnDescriptor(env, c, r.calls, i))
    && OpenedFds(r.calls) == fds
    && ClosedFds(r.calls) == if Begins(env, c) && fds != [] then ClosedBy(env, c, WorkOf(c, fds)) else fds
  }

  lemma RunIsAccounted(env: Sockets, c: Workload)
    requires Runnable(c)
    ensures Accounted(env, c, Run(env, c))
  {
    RunSucceedsIff(env, c);
    DatagramsGoByTheirDescriptor(env, c);
    EveryDescriptorIsClosed(env, c, Opened(env, 0, c.flows), Run(env, c).calls);
  }
}
