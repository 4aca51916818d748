/** The loops of the socket workload and its descriptor table, which every path leaves empty. */
module BsdUdpRun {
  import opened Bytes
  import opened BsdUdpSpec
  import opened BsdUdpTheorems
  import opened WorkloadPayload

  // The descriptor table.

  const UNUSED := -1

  /** The descriptors in use, in order. */
  function InUse(table: seq<int>): seq<nat> {
    if table == [] then [] else
      var last := table[|table| - 1];
      InUse(table[..|table| - 1]) + if last >= 0 then [last] else []
  }

  lemma ClosesOneMore(fds: seq<nat>, fd: nat)
    ensures Closes(fds + [fd]) == Closes(fds) + [Close(fd)]
  {
  }

  /** Close whatever is in use and forget it; the results of the closes are not looked at. */
  method CloseDescriptors(descriptors: array<int>) returns (calls: seq<Call>)
    modifies descriptors
    ensures calls == Closes(InUse(old(descriptors[..])))
    ensures forall i :: 0 <= i < descriptors.Length ==> descriptors[i] < 0
  {
    ghost var table := descriptors[..];
    calls := [];
    for i := 0 to descriptors.Length
      invariant calls == Closes(InUse(table[..i]))
      invariant forall k :: 0 <= k < i ==> descriptors[k] < 0
      invariant forall k :: i <= k < descriptors.Length ==> descriptors[k] == table[k]
    {
      assert table[..i + 1][..i] == table[..i];
      if descriptors[i] >= 0 {
        ClosesOneMore(InUse(table[..i]), descriptors[i]);
        calls := calls + [Close(descriptors[i])];
        descriptors[i] := UNUSED;
      }
    }
    assert table[..descriptors.Length] == table;
  }

  /** The retry loop of one datagram: at most 17 attempts, each but the last followed by a report of room. */
  method SendWithWritableRetry(env: Sockets, s: nat, fd: nat, payload: seq<byte>) returns (r: SendRun)
    ensures r == SendOnce(env, s, fd, payload)
    ensures SentSomehow(env, s, fd, payload, r)
  {
    SendMeans(env, s, fd, payload);
    r := SendRun(false, false, 0, []);
    while true
      invariant r.retries <= MAX_RETRIES && !r.sent
      invariant SendFrom(env, s, fd, payload, r) == SendOnce(env, s, fd, payload)
      decreases MAX_RETRIES - r.retries
    {
      var reply := env.send(s, r.retries);
      r := r.(calls := r.calls + [Send(s, fd, payload, reply)]);
      if reply.SentBytes? {
        return r.(sent := reply.n == |payload|);
      }
      if reply != Again || r.retries == MAX_RETRIES {
        return r;
      }
      var ready := env.pollOut(s, r.retries);
      r := r.(retries := r.retries + 1, calls := r.calls + [PollOut(s, fd, ready)]);
      if !ready.PollEvents? || ready.hup || !ready.writable {
        return r;
      }
      r := r.(recovered := true);
    }
  }

  lemma InUseOfPrefix(fds: seq<nat>, table: seq<int>)
    requires |fds| <= |table|
    requires forall i :: 0 <= i < |table| ==> table[i] == if i < |fds| then fds[i] else UNUSED
    ensures InUse(table) == fds
  {
    if table != [] {
      var last := |table| - 1;
      if last < |fds| {
        InUseOfPrefix(fds[..last], table[..last]);
        assert fds == fds[..last] + [fds[last]];
      } else {
        InUseOfPrefix(fds, table[..last]);
      }
    }
  }

  /** The k-th socket opens: it is the next descriptor, and the last one if it cannot be configured. */
  lemma OpensOneMore(env: Sockets, fds: seq<nat>, k: nat, n: nat)
    requires k < n && env.socket(k).SocketOpened?
    ensures fds + Opened(env, k, n)
      == if Configured(env.socket(k)) then (fds + [env.socket(k).fd]) + Opened(env, k + 1, n) else fds + [env.socket(k).fd]
    ensures AllConfigured(env, k, n) == (Configured(env.socket(k)) && AllConfigured(env, k + 1, n))
  {
  }

  /** Open and configure `n` descriptors; one that cannot be configured stays in the table to be closed. */
  method OpenDescriptors(env: Sockets, descriptors: array<int>, n: nat) returns (ok: bool, fds: seq<nat>)
    requires n <= descriptors.Length && forall i :: 0 <= i < descriptors.Length ==> descriptors[i] == UNUSED
    modifies descriptors
    ensures ok <==> AllConfigured(env, 0, n)
    ensures fds == Opened(env, 0, n) && |fds| <= n && (ok ==> |fds| == n)
    ensures forall i :: 0 <= i < descriptors.Length ==> descriptors[i] == if i < |fds| then fds[i] else UNUSED
  {
    fds := [];
    for k := 0 to n
      invariant |fds| == k && fds + Opened(env, k, n) == Opened(env, 0, n)
      invariant AllConfigured(env, 0, n) == AllConfigured(env, k, n)
      invariant forall i :: 0 <= i < descriptors.Length ==> descriptors[i] == if i < k then fds[i] else UNUSED
    {
      var reply := env.socket(k);
      if reply == SocketFailed {
        return false, fds;
      }
      OpensOneMore(env, fds, k, n);
      descriptors[k] := reply.fd;
      fds := fds + [reply.fd];
      if !reply.connected || !reply.named || !reply.nonBlocking {
        return false, fds;
      }
    }
    return true, fds;
  }

  /** What a poll for input shows; the end of the flow goes before data. */
  method Observe(reply: PollReply) returns (seen: Observation)
    ensures seen == Classify(reply)
    ensures seen == ClosedFlow <==> reply.PollEvents? && reply.hup
    ensures seen == Readable <==> reply.PollEvents? && !reply.hup && reply.readable
    ensures seen == Timeout <==> reply == PollTimedOut
    ensures seen == Error <==> reply == PollFailed
  {
    if reply == PollFailed {
      return Error;
    }
    if reply == PollTimedOut {
      return Timeout;
    }
    if reply.hup {
      return ClosedFlow;
    }
    return if reply.readable then Readable else OtherEvents;
  }

  method ReceiveExpectedEcho(env: Sockets, s: nat, fd: nat, payload: seq<byte>) returns (ok: bool, calls: seq<Call>)
    ensures ok <==> EchoMatches(env, s, payload)
    ensures calls == EchoCalls(env, s, fd)
  {
    var seen := Observe(env.pollIn(s));
    calls := [PollIn(s, fd, seen)];
    if seen != Readable {
      return false, calls;
    }
    var got := env.receive(s);
    calls := calls + [Receive(s, fd, got)];
    ok := got.Received? && got.data == payload && got.fromRemote;
  }

  /** One turn of the main loop, with the payload already built. */
  method SendAndReceive(env: Sockets, work: Work, s: nat, payload: array<byte>, before: Progress) returns (p: Progress)
    requires work.fds != [] && payload[..] == work.payload(s)
    ensures p == Datagram(env, work, s, before)
  {
    var fd := work.fds[s % |work.fds|];
    var r := SendWithWritableRetry(env, s, fd, payload[..]);
    p := before.(retries := before.retries + r.retries, recovered := before.recovered || r.recovered, failed := !r.sent,
      calls := before.calls + r.calls);
    if r.sent && work.echoReplies {
      var ok, calls := ReceiveExpectedEcho(env, s, fd, payload[..]);
      p := p.(echoed := if ok then p.echoed + 1 else p.echoed, failed := !ok, calls := p.calls + calls);
    }
  }

  method PreparePayload(c: Workload, work: Work, s: nat, payload: array<byte>)
    requires Runnable(c) && work == WorkOf(c, work.fds) && payload.Length == c.payloadBytes
    modifies payload
    ensures payload[..] == work.payload(s)
  {
    BuildPayload(payload, Identity(BsdSystem, c.id, s % c.flows, s % 0x1_0000_0000, c.seed));
  }

  method SendAll(env: Sockets, c: Workload, work: Work, payload: array<byte>) returns (p: Progress)
    requires Runnable(c) && work.fds != [] && work == WorkOf(c, work.fds) && payload.Length == c.payloadBytes
    modifies payload
    ensures p == Datagrams(env, work, 0, Progress(0, 0, false, false, []))
  {
    p := Progress(0, 0, false, false, []);
    ghost var all := Datagrams(env, work, 0, p);
    var s := 0;
    while s < work.datagrams && !p.failed
      invariant s <= work.datagrams
      invariant Datagrams(env, work, s, p) == all
      decreases work.datagrams - s
    {
      PreparePayload(c, work, s, payload);
      p := SendAndReceive(env, work, s, payload, p);
      s := s + 1;
    }
  }

  /** The terminal phase: the flow must be reported closed, refuse a send, and close without error. */
  method ConfirmClosure(env: Sockets, work: Work, descriptors: array<int>) returns (ok: bool, calls: seq<Call>)
    requires work.fds != [] && descriptors.Length > 0
    requires InUse(descriptors[..]) == work.fds && descriptors[0] == work.fds[0]
    modifies descriptors
    ensures ok <==> ClosureConfirmed(env)
    ensures calls + Closes(InUse(descriptors[..])) == ClosureCalls(env, work)
  {
    var fd := work.fds[0];
    var seen := Observe(env.closingPoll);
    ok, calls := false, [PollIn(0, fd, seen)];
    if seen == ClosedFlow {
      calls := calls + [Send(0, fd, work.payload(0), env.closingSend)];
      if env.closingSend == Aborted {
        calls := calls + [Close(fd)];
        if env.closingClose {
          ok := true;
          FirstInUse(descriptors[..]);
          descriptors[0] := UNUSED;
        }
      }
    }
  }

  /** Forgetting the first descriptor removes it from those in use. */
  lemma FirstInUse(table: seq<int>)
    requires table != [] && table[0] >= 0
    ensures InUse(table) == [table[0]] + InUse(table[0 := UNUSED][..])
    ensures InUse(table[0 := UNUSED]) == InUse(table)[1..]
  {
    var changed := table[0 := UNUSED];
    assert changed[..] == changed;
    if |table| == 1 {
      assert table[..0] == [] && changed[..0] == [];
    } else {
      var n := |table| - 1;
      FirstInUse(table[..n]);
      assert table[..n][0 := UNUSED] == changed[..n];
      assert table[..n][0 := UNUSED][..] == changed[..n];
    }
  }

  method RunEcho(env: Sockets, c: Workload, work: Work, payload: array<byte>, descriptors: array<int>) returns (r: Report)
    requires Runnable(c) && work.fds != [] && work == WorkOf(c, work.fds) && payload.Length == c.payloadBytes
    requires InUse(descriptors[..]) == work.fds
    modifies payload, descriptors
    ensures r == EchoRun(env, c, work)
    ensures forall i :: 0 <= i < descriptors.Length ==> descriptors[i] < 0
  {
    var p := SendAll(env, c, work, payload);
    var closes := CloseDescriptors(descriptors);
    var missing := c.requireRecovery && !(p.retries != 0 && p.recovered);
    r := Report(!p.failed && !missing && (!work.echoReplies || p.echoed == work.datagrams), p.calls + closes);
  }

  method RunTimeout(env: Sockets, c: Workload, work: Work, payload: array<byte>, descriptors: array<int>)
    returns (r: Report)
    requires Runnable(c) && work.fds != [] && work == WorkOf(c, work.fds) && payload.Length == c.payloadBytes
    requires InUse(descriptors[..]) == work.fds
    modifies payload, descriptors
    ensures r == TimeoutRun(env, work)
    ensures forall i :: 0 <= i < descriptors.Length ==> descriptors[i] < 0
  {
    PreparePayload(c, work, 0, payload);
    var sent := SendWithWritableRetry(env, 0, work.fds[0], payload[..]);
    r := Report(false, sent.calls);
    if sent.sent {
      var seen := Observe(env.pollIn(0));
      r := Report(seen == Timeout, r.calls + [PollIn(0, work.fds[0], seen)]);
    }
    var closes := CloseDescriptors(descriptors);
    r := r.(calls := r.calls + closes);
  }

  method RunTerminal(env: Sockets, c: Workload, work: Work, payload: array<byte>, descriptors: array<int>)
    returns (r: Report)
    requires Runnable(c) && work.fds != [] && work == WorkOf(c, work.fds) && payload.Length == c.payloadBytes
    requires InUse(descriptors[..]) == work.fds && descriptors.Length > 0 && descriptors[0] == work.fds[0]
    modifies payload, descriptors
    ensures r == TerminalRun(env, work)
    ensures forall i :: 0 <= i < descriptors.Length ==> descriptors[i] < 0
  {
    PreparePayload(c, work, 0, payload);
    var sent := SendWithWritableRetry(env, 0, work.fds[0], payload[..]);
    r := Report(false, sent.calls);
    if sent.sent {
      var ok, calls := ReceiveExpectedEcho(env, 0, work.fds[0], payload[..]);
      r := Report(false, r.calls + calls);
      if ok {
        var confirmed, closing := ConfirmClosure(env, work, descriptors);
        ghost var before := r.calls;
        r := Report(confirmed, r.calls + closing);
        assert r.calls + Closes(InUse(descriptors[..])) == before + ClosureCalls(env, work);
      }
    }
    var closes := CloseDescriptors(descriptors);
    r := r.(calls := r.calls + closes);
  }

  method RunChosen(env: Sockets, c: Workload, work: Work, descriptors: array<int>) returns (r: Report)
    requires Runnable(c) && work.fds != [] && work == WorkOf(c, work.fds)
    requires InUse(descriptors[..]) == work.fds && descriptors.Length > 0 && descriptors[0] == work.fds[0]
    modifies descriptors
    ensures r == Chosen(env, c, work)
    ensures forall i :: 0 <= i < descriptors.Length ==> descriptors[i] < 0
  {
    var payload := new byte[c.payloadBytes];
    match c.expected
    case EchoReply => r := RunEcho(env, c, work, payload, descriptors);
    case NoReplyTimeout => r := RunTimeout(env, c, work, payload, descriptors);
    case TerminalClosure => r := RunTerminal(env, c, work, payload, descriptors);
  }

  /** Whatever happens, no descriptor is left in the table. */
  method RunBsdSystemUdpWorkload(env: Sockets, c: Workload, descriptors: array<int>) returns (r: Report)
    requires Runnable(c) && c.flows <= descriptors.Length
    requires forall i :: 0 <= i < descriptors.Length ==> descriptors[i] == UNUSED
    modifies descriptors
    ensures r == Run(env, c)
    ensures Accounted(env, c, r)
    ensures forall i :: 0 <= i < descriptors.Length ==> descriptors[i] < 0
  {
    RunIsAccounted(env, c);
    var ok, fds := OpenDescriptors(env, descriptors, c.flows);
    InUseOfPrefix(fds, descriptors[..]);
    if !ok || (c.verifyRejection && !env.rejectsOption) {
      var closes := CloseDescriptors(descriptors);
      r := Report(false, SocketCalls(fds) + closes);
    } else {
      r := RunChosen(env, c, WorkOf(c, fds), descriptors);
      r := Report(r.success, SocketCalls(fds) + r.calls);
    }
  }
}
