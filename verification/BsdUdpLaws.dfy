/** What every socket workload keeps to, whatever the sockets do. */
module BsdUdpLaws {
  import opened Bytes
  import opened BsdUdpSpec
  import opened WorkloadPayload

  // Closing.

  function ClosedFds(calls: seq<Call>): seq<nat> {
    if calls == [] then [] else
      var last := calls[|calls| - 1];
      ClosedFds(calls[..|calls| - 1]) + if last.Close? then [last.fd] else []
  }

  function OpenedFds(calls: seq<Call>): seq<nat> {
    if calls == [] then [] else
      var last := calls[|calls| - 1];
      OpenedFds(calls[..|calls| - 1]) + if last.Socket? then [last.fd] else []
  }

  lemma {:induction false} FdsJoin(a: seq<Call>, b: seq<Call>, ab: seq<Call>)
    requires ab == a + b
    ensures ClosedFds(ab) == ClosedFds(a) + ClosedFds(b)
    ensures OpenedFds(ab) == OpenedFds(a) + OpenedFds(b)
  {
    if b == [] {
      assert ab == a;
    } else {
      assert ab[..|ab| - 1] == a + b[..|b| - 1];
      FdsJoin(a, b[..|b| - 1], ab[..|ab| - 1]);
    }
  }

  /** Calls that neither open nor close a descriptor. */
  predicate Neutral(calls: seq<Call>) {
    forall i :: 0 <= i < |calls| ==> !calls[i].Socket? && !calls[i].Close?
  }

  lemma {:induction false} NeutralFds(calls: seq<Call>)
    requires Neutral(calls)
    ensures ClosedFds(calls) == [] && OpenedFds(calls) == []
  {
    if calls == [] {
    } else {
      NeutralFds(calls[..|calls| - 1]);
    }
  }

  lemma {:induction false} ClosesFds(fds: seq<nat>)
    ensures ClosedFds(Closes(fds)) == fds && OpenedFds(Closes(fds)) == []
  {
    if fds == [] {
    } else {
      var calls := Closes(fds);
      assert calls[..|calls| - 1] == Closes(fds[..|fds| - 1]);
      ClosesFds(fds[..|fds| - 1]);
    }
  }

  lemma {:induction false} SocketFds(fds: seq<nat>)
    ensures OpenedFds(SocketCalls(fds)) == fds && ClosedFds(SocketCalls(fds)) == []
  {
    if fds == [] {
    } else {
      var calls := SocketCalls(fds);
      assert calls[..|calls| - 1] == SocketCalls(fds[..|fds| - 1]);
      SocketFds(fds[..|fds| - 1]);
    }
  }

  lemma {:induction false} SendIsNeutral(env: Sockets, s: nat, fd: nat, payload: seq<byte>, r: SendRun)
    requires r.retries <= MAX_RETRIES && Neutral(r.calls)
    ensures Neutral(SendFrom(env, s, fd, payload, r).calls)
    decreases MAX_RETRIES - r.retries
  {
    var reply := env.send(s, r.retries);
    if reply == Again && r.retries < MAX_RETRIES && Writable(env.pollOut(s, r.retries)) {
      var asked := r.(calls := r.calls + [Send(s, fd, payload, reply)]);
      SendIsNeutral(env, s, fd, payload, asked.(retries := r.retries + 1,
        calls := asked.calls + [PollOut(s, fd, env.pollOut(s, r.retries))], recovered := true));
    }
  }

  lemma {:induction false} DatagramsAreNeutral(env: Sockets, work: Work, s: nat, p: Progress)
    requires work.fds != [] && s <= work.datagrams && Neutral(p.calls)
    ensures Neutral(Datagrams(env, work, s, p).calls)
    decreases work.datagrams - s
  {
    if s < work.datagrams && !p.failed {
      SendIsNeutral(env, s, FdFor(work, s), work.payload(s), SendRun(false, false, 0, []));
      DatagramsAreNeutral(env, work, s + 1, Datagram(env, work, s, p));
    }
  }

  /** The descriptors closed by neutral calls followed by a closing of `fds`. */
  lemma NeutralThenCloses(calls: seq<Call>, fds: seq<nat>, all: seq<Call>)
    requires Neutral(calls) && all == calls + Closes(fds)
    ensures ClosedFds(all) == fds && OpenedFds(all) == []
  {
    NeutralFds(calls);
    ClosesFds(fds);
    FdsJoin(calls, Closes(fds), all);
  }

  /** The terminal phase closes its descriptor once more only if the first close failed. */
  predicate ClosesTwice(env: Sockets, work: Work)
    requires work.fds != []
  {
    && SendOnce(env, 0, work.fds[0], work.payload(0)).sent && EchoMatches(env, 0, work.payload(0))
    && Classify(env.closingPoll) == ClosedFlow && env.closingSend == Aborted && !env.closingClose
  }

  lemma TerminalCloses(env: Sockets, work: Work)
    requires work.fds != []
    ensures ClosedFds(TerminalRun(env, work).calls) == (if ClosesTwice(env, work) then [work.fds[0]] else []) + work.fds
    ensures OpenedFds(TerminalRun(env, work).calls) == []
  {
    var fd := work.fds[0];
    var r := SendOnce(env, 0, fd, work.payload(0));
    var all := TerminalRun(env, work).calls;
    SendIsNeutral(env, 0, fd, work.payload(0), SendRun(false, false, 0, []));
    if !r.sent {
      NeutralThenCloses(r.calls, work.fds, all);
    } else if !EchoMatches(env, 0, work.payload(0)) {
      NeutralThenCloses(r.calls + EchoCalls(env, 0, fd), work.fds, all);
    } else {
      ClosureCloses(env, work, r.calls + EchoCalls(env, 0, fd), all);
    }
  }

  lemma ClosureCloses(env: Sockets, work: Work, before: seq<Call>, all: seq<Call>)
    requires work.fds != [] && Neutral(before) && all == before + ClosureCalls(env, work)
    ensures OpenedFds(all) == []
    ensures ClosedFds(all)
        == if Classify(env.closingPoll) == ClosedFlow && env.closingSend == Aborted && !env.closingClose
           then [work.fds[0]] + work.fds else work.fds
  {
    var fd, seen := work.fds[0], Classify(env.closingPoll);
    var polled := before + [PollIn(0, fd, seen)];
    var asked := polled + [Send(0, fd, work.payload(0), env.closingSend)];
    if seen != ClosedFlow {
      NeutralThenCloses(polled, work.fds, all);
    } else if env.closingSend != Aborted {
      NeutralThenCloses(asked, work.fds, all);
    } else {
      var rest := if env.closingClose then work.fds[1..] else work.fds;
      var closed := asked + Closes([fd]);
      assert all == closed + Closes(rest);
      NeutralThenCloses(asked, [fd], closed);
      ClosesFds(rest);
      FdsJoin(closed, Closes(rest), all);
    }
  }

  /** What a run that got its descriptors closes, in order. */
  function ClosedBy(env: Sockets, c: Workload, work: Work): seq<nat>
    requires work.fds != []
  {
    if c.expected == TerminalClosure && ClosesTwice(env, work) then [work.fds[0]] + work.fds else work.fds
  }

  lemma EchoCloses(env: Sockets, c: Workload, work: Work)
    requires work.fds != []
    ensures ClosedFds(EchoRun(env, c, work).calls) == work.fds && OpenedFds(EchoRun(env, c, work).calls) == []
  {
    var start := Progress(0, 0, false, false, []);
    DatagramsAreNeutral(env, work, 0, start);
    NeutralThenCloses(Datagrams(env, work, 0, start).calls, work.fds, EchoRun(env, c, work).calls);
  }

  lemma TimeoutCloses(env: Sockets, work: Work)
    requires work.fds != []
    ensures ClosedFds(TimeoutRun(env, work).calls) == work.fds && OpenedFds(TimeoutRun(env, work).calls) == []
  {
    var r := SendOnce(env, 0, work.fds[0], work.payload(0));
    SendIsNeutral(env, 0, work.fds[0], work.payload(0), SendRun(false, false, 0, []));
    if r.sent {
      NeutralThenCloses(r.calls + [PollIn(0, work.fds[0], Classify(env.pollIn(0)))], work.fds, TimeoutRun(env, work).calls);
    } else {
      NeutralThenCloses(r.calls, work.fds, TimeoutRun(env, work).calls);
    }
  }

  lemma ChosenCloses(env: Sockets, c: Workload, work: Work)
    requires work.fds != []
    ensures ClosedFds(Chosen(env, c, work).calls) == ClosedBy(env, c, work)
    ensures OpenedFds(Chosen(env, c, work).calls) == []
  {
    match c.expected
    case EchoReply => EchoCloses(env, c, work);
    case NoReplyTimeout => TimeoutCloses(env, work);
    case TerminalClosure =>
      TerminalCloses(env, work);
      assert [] + work.fds == work.fds;
  }

  lemma SocketsThenRun(fds: seq<nat>, calls: seq<Call>, all: seq<Call>)
    requires all == SocketCalls(fds) + calls && OpenedFds(calls) == []
    ensures OpenedFds(all) == fds && ClosedFds(all) == ClosedFds(calls)
  {
    SocketFds(fds);
    FdsJoin(SocketCalls(fds), calls, all);
    assert fds + [] == fds && [] + ClosedFds(calls) == ClosedFds(calls);
  }

  /**
   * On every path every opened descriptor is closed exactly once, in order, except that the terminal run closes
   * its first descriptor again if and only if the close it checks has failed.
   */
  lemma EveryDescriptorIsClosed(env: Sockets, c: Workload, fds: seq<nat>, calls: seq<Call>)
    requires Runnable(c) && fds == Opened(env, 0, c.flows) && calls == Run(env, c).calls
    ensures OpenedFds(calls) == fds
    ensures ClosedFds(calls) == if Begins(env, c) && fds != [] then ClosedBy(env, c, WorkOf(c, fds)) else fds
  {
    if !Begins(env, c) || fds == [] {
      ClosesFds(fds);
      SocketsThenRun(fds, Closes(fds), calls);
    } else {
      ChosenCloses(env, c, WorkOf(c, fds));
      SocketsThenRun(fds, Chosen(env, c, WorkOf(c, fds)).calls, calls);
    }
  }

  // Sends and resends.

  /** A send that found no room, followed by a poll that reported room on the same descriptor. */
  predicate RecoveryAt(calls: seq<Call>, i: nat) {
    && i + 1 < |calls| && calls[i].Send? && calls[i].sent == Again
    && calls[i + 1].PollOut? && calls[i + 1].fd == calls[i].fd && Writable(calls[i + 1].ready)
  }

  predicate Recovery(calls: seq<Call>) {
    exists i :: 0 <= i < |calls| && RecoveryAt(calls, i)
  }

  /** The send of datagram `s` at position `i`: its first, or one right after room was reported for a refused one. */
  predicate SendAt(calls: seq<Call>, i: nat, s: nat, fd: nat, payload: seq<byte>)
    requires i < |calls|
  {
    calls[i].Send? ==>
      && calls[i] == Send(s, fd, payload, calls[i].sent)
      && (i == 0 || (i >= 2 && RecoveryAt(calls, i - 2)))
  }

  predicate Disciplined(calls: seq<Call>, s: nat, fd: nat, payload: seq<byte>) {
    forall i :: 0 <= i < |calls| ==> SendAt(calls, i, s, fd, payload)
  }

  function CountSends(calls: seq<Call>): nat {
    if calls == [] then 0 else CountSends(calls[..|calls| - 1]) + if calls[|calls| - 1].Send? then 1 else 0
  }

  lemma Extended(calls: seq<Call>, call: Call, longer: seq<Call>, s: nat, fd: nat, payload: seq<byte>)
    requires Disciplined(calls, s, fd, payload) && longer == calls + [call]
    requires SendAt(longer, |calls|, s, fd, payload)
    ensures Disciplined(longer, s, fd, payload)
    ensures CountSends(longer) == CountSends(calls) + if call.Send? then 1 else 0
    ensures forall i :: RecoveryAt(calls, i) ==> RecoveryAt(longer, i)
    ensures Recovery(calls) ==> Recovery(longer)
  {
    assert longer[..|calls|] == calls;
    forall i | 0 <= i < |longer| ensures SendAt(longer, i, s, fd, payload) {
      if i < |calls| {
        assert SendAt(calls, i, s, fd, payload);
        assert i >= 2 && RecoveryAt(calls, i - 2) ==> RecoveryAt(longer, i - 2);
      }
    }
  }

  /** Between two sends of one datagram. */
  predicate Waiting(r: SendRun, s: nat, fd: nat, payload: seq<byte>) {
    && Disciplined(r.calls, s, fd, payload)
    && CountSends(r.calls) == r.retries
    && (if r.calls == [] then !r.recovered else |r.calls| >= 2 && RecoveryAt(r.calls, |r.calls| - 2) && r.recovered)
    && (r.retries == 0 <==> r.calls == [])
    && !r.sent
  }

  predicate Sent(r: SendRun, s: nat, fd: nat, payload: seq<byte>) {
    && Disciplined(r.calls, s, fd, payload)
    && CountSends(r.calls) <= MAX_RETRIES + 1
    && r.calls != []
    && (r.sent ==> r.calls[|r.calls| - 1] == Send(s, fd, payload, SentBytes(|payload|)))
    && (r.recovered <==> Recovery(r.calls))
    && (r.recovered ==> r.retries > 0)
  }

  lemma WaitingAgain(r: SendRun, s: nat, fd: nat, payload: seq<byte>, asked: seq<Call>, polled: SendRun)
    requires Waiting(r, s, fd, payload) && polled.retries == r.retries + 1 && !polled.sent && |polled.calls| >= 2
    requires Disciplined(polled.calls, s, fd, payload) && CountSends(polled.calls) == r.retries + 1
    requires RecoveryAt(polled.calls, |polled.calls| - 2)
    ensures Waiting(polled.(recovered := true), s, fd, payload)
  {
  }

  /** After the send that uses up the retries counted in `r`. */
  function Asked(env: Sockets, s: nat, fd: nat, payload: seq<byte>, r: SendRun): SendRun {
    r.(calls := r.calls + [Send(s, fd, payload, env.send(s, r.retries))])
  }

  /** After that send found no room and the poll that followed. */
  function Polled(env: Sockets, s: nat, fd: nat, payload: seq<byte>, r: SendRun): SendRun {
    Asked(env, s, fd, payload, r).(retries := r.retries + 1,
      calls := Asked(env, s, fd, payload, r).calls + [PollOut(s, fd, env.pollOut(s, r.retries))])
  }

  lemma SendUnfolds(env: Sockets, s: nat, fd: nat, payload: seq<byte>, r: SendRun)
    requires r.retries <= MAX_RETRIES
    ensures !(env.send(s, r.retries) == Again && r.retries < MAX_RETRIES) ==>
      SendFrom(env, s, fd, payload, r)
      == Asked(env, s, fd, payload, r).(sent :=
        if env.send(s, r.retries).SentBytes? then env.send(s, r.retries).n == |payload| else r.sent)
    ensures env.send(s, r.retries) == Again && r.retries < MAX_RETRIES ==>
      SendFrom(env, s, fd, payload, r)
      == if Writable(env.pollOut(s, r.retries))
         then SendFrom(env, s, fd, payload, Polled(env, s, fd, payload, r).(recovered := true))
         else Polled(env, s, fd, payload, r)
  {
  }

  lemma {:induction false} SendsAreDisciplined(env: Sockets, s: nat, fd: nat, payload: seq<byte>, r: SendRun)
    requires r.retries <= MAX_RETRIES && Waiting(r, s, fd, payload)
    ensures Sent(SendFrom(env, s, fd, payload, r), s, fd, payload)
    decreases MAX_RETRIES - r.retries
  {
    var call, asked := Send(s, fd, payload, env.send(s, r.retries)), Asked(env, s, fd, payload, r);
    SendUnfolds(env, s, fd, payload, r);
    AfterSend(r, s, fd, payload, call, asked.calls);
    if call.sent == Again && r.retries < MAX_RETRIES {
      var poll, polled := PollOut(s, fd, env.pollOut(s, r.retries)), Polled(env, s, fd, payload, r);
      AfterPoll(r.calls, s, fd, payload, call, asked.calls, poll, polled.calls);
      if Writable(poll.ready) {
        WaitingAgain(r, s, fd, payload, asked.calls, polled);
        SendsAreDisciplined(env, s, fd, payload, polled.(recovered := true));
      }
    }
  }

  lemma AfterSend(r: SendRun, s: nat, fd: nat, payload: seq<byte>, call: Call, asked: seq<Call>)
    requires Waiting(r, s, fd, payload) && call.Send? && call == Send(s, fd, payload, call.sent)
    requires asked == r.calls + [call]
    ensures Disciplined(asked, s, fd, payload) && CountSends(asked) == r.retries + 1
    ensures r.recovered <==> Recovery(asked)
  {
    if r.calls != [] {
      assert RecoveryAt(asked, |r.calls| - 2);
    }
    Extended(r.calls, call, asked, s, fd, payload);
  }

  lemma AfterPoll(before: seq<Call>, s: nat, fd: nat, payload: seq<byte>, call: Call, asked: seq<Call>, poll: Call,
      polled: seq<Call>)
    requires Disciplined(asked, s, fd, payload) && asked == before + [call] && polled == asked + [poll]
    requires call.Send? && call.sent == Again && call.fd == fd && poll.PollOut? && poll.fd == fd
    requires before == [] || |before| >= 2
    ensures Disciplined(polled, s, fd, payload) && CountSends(polled) == CountSends(asked)
    ensures Writable(poll.ready) ==> RecoveryAt(polled, |polled| - 2)
    ensures Recovery(asked) || Writable(poll.ready) <==> Recovery(polled)
  {
    Extended(asked, poll, polled, s, fd, payload);
    assert polled[|polled| - 2] == call;
    if Recovery(polled) {
      var i :| 0 <= i < |polled| && RecoveryAt(polled, i);
      if i != |polled| - 2 {
        assert polled[i] == asked[i] && polled[i + 1] == asked[i + 1];
        assert RecoveryAt(asked, i);
      }
    }
    if Writable(poll.ready) {
      assert RecoveryAt(polled, |polled| - 2);
    }
  }

  /** One datagram is sent at most 17 times, always the same bytes, and again only when room was reported. */
  lemma DatagramIsSentInOrder(env: Sockets, s: nat, fd: nat, payload: seq<byte>)
    ensures Sent(SendOnce(env, s, fd, payload), s, fd, payload)
  {
    SendsAreDisciplined(env, s, fd, payload, SendRun(false, false, 0, []));
  }

  // Recovery and success.

  lemma RecoveryAtJoin(a: seq<Call>, b: seq<Call>, ab: seq<Call>, i: nat)
    requires ab == a + b && i < |ab|
    requires b == [] || !b[0].PollOut?
    ensures RecoveryAt(ab, i) <==> if i < |a| then RecoveryAt(a, i) else RecoveryAt(b, i - |a|)
  {
    if i + 1 < |ab| {
      assert ab[i] == (if i < |a| then a[i] else b[i - |a|]);
      assert ab[i + 1] == (if i + 1 < |a| then a[i + 1] else b[i + 1 - |a|]);
    }
  }

  lemma RecoveryJoin(a: seq<Call>, b: seq<Call>, ab: seq<Call>)
    requires ab == a + b
    requires b == [] || !b[0].PollOut?
    ensures Recovery(ab) <==> Recovery(a) || Recovery(b)
  {
    forall i | 0 <= i < |ab|
      ensures RecoveryAt(ab, i) <==> if i < |a| then RecoveryAt(a, i) else RecoveryAt(b, i - |a|)
    {
      RecoveryAtJoin(a, b, ab, i);
    }
    if Recovery(b) {
      var i :| 0 <= i < |b| && RecoveryAt(b, i);
      assert RecoveryAt(ab, |a| + i);
    }
  }

  /** The counters kept during the run agree with its calls. */
  predicate Tracks(p: Progress, s: nat, work: Work) {
    && (p.recovered <==> Recovery(p.calls))
    && (p.recovered ==> p.retries > 0)
    && (!p.failed && work.echoReplies ==> p.echoed == s)
  }

  lemma DatagramTracks(env: Sockets, work: Work, s: nat, p: Progress)
    requires work.fds != [] && Tracks(p, s, work) && !p.failed
    ensures Tracks(Datagram(env, work, s, p), s + 1, work)
  {
    var fd := FdFor(work, s);
    var r := SendOnce(env, s, fd, work.payload(s));
    DatagramIsSentInOrder(env, s, fd, work.payload(s));
    assert SendAt(r.calls, 0, s, fd, work.payload(s));
    FirstIsSend(env, s, fd, work.payload(s));
    RecoveryJoin(p.calls, r.calls, p.calls + r.calls);
    if r.sent && work.echoReplies {
      var echo := EchoCalls(env, s, fd);
      assert !Recovery(echo);
      RecoveryJoin(p.calls + r.calls, echo, p.calls + r.calls + echo);
    }
  }

  lemma {:induction false} KeepsFirst(env: Sockets, s: nat, fd: nat, payload: seq<byte>, r: SendRun)
    requires r.retries <= MAX_RETRIES && r.calls != []
    ensures SendFrom(env, s, fd, payload, r).calls != [] && SendFrom(env, s, fd, payload, r).calls[0] == r.calls[0]
    decreases MAX_RETRIES - r.retries
  {
    var reply := env.send(s, r.retries);
    if reply == Again && r.retries < MAX_RETRIES && Writable(env.pollOut(s, r.retries)) {
      var asked := r.(calls := r.calls + [Send(s, fd, payload, reply)]);
      KeepsFirst(env, s, fd, payload, asked.(retries := r.retries + 1,
        calls := asked.calls + [PollOut(s, fd, env.pollOut(s, r.retries))], recovered := true));
    }
  }

  lemma FirstIsSend(env: Sockets, s: nat, fd: nat, payload: seq<byte>)
    ensures SendOnce(env, s, fd, payload).calls != [] && SendOnce(env, s, fd, payload).calls[0].Send?
  {
    var start := SendRun(false, false, 0, []);
    var asked := start.(calls := start.calls + [Send(s, fd, payload, env.send(s, 0))]);
    if env.send(s, 0) == Again && Writable(env.pollOut(s, 0)) {
      KeepsFirst(env, s, fd, payload,
        asked.(retries := 1, calls := asked.calls + [PollOut(s, fd, env.pollOut(s, 0))], recovered := true));
    }
  }

  lemma {:induction false} DatagramsTrack(env: Sockets, work: Work, s: nat, p: Progress) returns (done: nat)
    requires work.fds != [] && s <= work.datagrams && Tracks(p, s, work)
    ensures s <= done <= work.datagrams && Tracks(Datagrams(env, work, s, p), done, work)
    ensures !Datagrams(env, work, s, p).failed ==> done == work.datagrams
    decreases work.datagrams - s
  {
    if s == work.datagrams || p.failed {
      done := s;
    } else {
      DatagramTracks(env, work, s, p);
      done := DatagramsTrack(env, work, s + 1, Datagram(env, work, s, p));
    }
  }

  /**
   * The echo run succeeds exactly when no datagram failed and, if recovery is required, its calls really contain a
   * send without room followed by a report of room.
   */
  lemma EchoRunSucceedsIff(env: Sockets, c: Workload, work: Work)
    requires work.fds != []
    ensures
      var p := Datagrams(env, work, 0, Progress(0, 0, false, false, []));
      EchoRun(env, c, work).success <==> !p.failed && (c.requireRecovery ==> Recovery(p.calls))
  {
    var done := DatagramsTrack(env, work, 0, Progress(0, 0, false, false, []));
  }

  /**
   * A successful terminal run sent its datagram, got the matching echo, saw the flow closed, had a send refused
   * with the flow's end, and closed the descriptor, in this order.
   */
  lemma TerminalRunSucceeds(env: Sockets, work: Work)
    requires work.fds != [] && TerminalRun(env, work).success
    ensures
      var fd, payload := work.fds[0], work.payload(0);
      var sends := SendOnce(env, 0, fd, payload).calls;
      && sends != [] && sends[|sends| - 1] == Send(0, fd, payload, SentBytes(|payload|))
      && TerminalRun(env, work).calls
          == sends + ([PollIn(0, fd, Readable), Receive(0, fd, Received(payload, true))]
            + [PollIn(0, fd, ClosedFlow), Send(0, fd, payload, Aborted), Close(fd)]) + Closes(work.fds[1..])
  {
    var fd, payload := work.fds[0], work.payload(0);
    var sends := SendOnce(env, 0, fd, payload).calls;
    DatagramIsSentInOrder(env, 0, fd, payload);
    var echo := [PollIn(0, fd, Readable), Receive(0, fd, Received(payload, true))];
    var closing := [PollIn(0, fd, ClosedFlow), Send(0, fd, payload, Aborted), Close(fd)];
    var last := Closes(work.fds[1..]);
    MatchedCalls(env, 0, fd, payload, echo);
    ConfirmedCalls(env, work, closing, last);
    JoinFour(sends, echo, closing, last, TerminalRun(env, work).calls);
  }

  lemma MatchedCalls(env: Sockets, s: nat, fd: nat, payload: seq<byte>, echo: seq<Call>)
    requires EchoMatches(env, s, payload)
    requires echo == [PollIn(s, fd, Readable), Receive(s, fd, Received(payload, true))]
    ensures EchoCalls(env, s, fd) == echo
  {
  }

  lemma ConfirmedCalls(env: Sockets, work: Work, closing: seq<Call>, last: seq<Call>)
    requires work.fds != [] && ClosureConfirmed(env) && last == Closes(work.fds[1..])
    requires closing == [PollIn(0, work.fds[0], ClosedFlow), Send(0, work.fds[0], work.payload(0), Aborted), Close(work.fds[0])]
    ensures ClosureCalls(env, work) == closing + last
  {
  }

  lemma JoinFour(a: seq<Call>, b: seq<Call>, c: seq<Call>, d: seq<Call>, all: seq<Call>)
    requires all == a + b + (c + d)
    ensures all == a + (b + c) + d
  {
  }
}
