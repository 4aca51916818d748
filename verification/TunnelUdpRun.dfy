/**
 * The loops of the UDP workload over the tunnel service. Their contracts name the calls they make, and what those
 * calls amount to.
 */
module TunnelUdpRun {
  import opened Bytes
  import opened TunnelWaits
  import opened TunnelUdpSpec
  import opened TunnelUdpLaws
  import opened TunnelUdpTheorems
  import opened WorkloadPayload

  /** The wait for room after a full queue. */
  method AwaitRoom(env: Service, s: nat, flow: u64, k: nat, before: Progress) returns (verdict: Verdict, p: Progress)
    ensures
      var w := Outcome(WritableOf(flow), env.writable(s, k));
      verdict == w.verdict && p == Counted(before, w, AwaitWritable(s, flow, w)).(queueFull := before.queueFull + 1)
  {
    var w := WaitFor(WritableOf(flow), env.writable(s, k));
    verdict := w.verdict;
    p := before.(queueFull := before.queueFull + 1, ignored := before.ignored + w.ignored,
      wakes := before.wakes + w.wakes, calls := before.calls + [AwaitWritable(s, flow, w)]);
  }

  /** The retry loop of one datagram: at most 17 attempts, each but the last followed by a report of room. */
  method SendDatagram(env: Service, work: Work, s: nat, payload: array<byte>, before: Progress) returns (p: Progress)
    requires work.flows != [] && payload[..] == work.payload(s) && !before.failed && !before.lost
    ensures p == SendFrom(env, work, s, 0, before)
    ensures SentSomehow(env, work, s, before, p)
  {
    SendMeans(env, work, s, before);
    p := before;
    var retries := 0;
    var flow := work.flows[s % |work.flows|];
    while true
      invariant retries <= MAX_RETRIES && !p.failed
      invariant SendFrom(env, work, s, retries, p) == SendFrom(env, work, s, 0, before)
      decreases MAX_RETRIES - retries
    {
      var reply := env.send(s, retries);
      p := p.(calls := p.calls + [Send(s, flow, payload[..], reply)]);
      if reply == SendCallFailed {
        return p.(failed := true, lost := true);
      }
      if reply == Accepted {
        return p;
      }
      if reply != QueueFull || retries == MAX_RETRIES {
        return p.(failed := true);
      }
      var verdict;
      verdict, p := AwaitRoom(env, s, flow, retries, p);
      retries := retries + 1;
      if verdict != Hit {
        return p.(failed := true, lost := verdict == ServiceLost);
      }
    }
  }

  lemma JoinLeft<T>(a: seq<T>, x: T, b: seq<T>)
    ensures a + ([x] + b) == (a + [x]) + b
  {
  }

  lemma FlowsStep(opens: seq<Call>, call: Call, longer: seq<Call>)
    requires longer == opens + [call]
    ensures Flows(longer) == Flows(opens) + if call.OpenFlow? && Usable(call.reply) then [call.reply.flow] else []
  {
    assert longer[..|longer| - 1] == opens;
  }

  method OpenFlows(env: Service, n: nat) returns (calls: seq<Call>, flows: seq<u64>)
    ensures calls == Opens(env, 0, n)
    ensures flows == Flows(calls)
  {
    calls, flows := [], [];
    ghost var all := Opens(env, 0, n);
    while |flows| < n
      invariant |flows| <= n
      invariant calls + Opens(env, |flows|, n) == all
      invariant flows == Flows(calls)
    {
      var reply := env.open(|flows|);
      FlowsStep(calls, OpenFlow(reply), calls + [OpenFlow(reply)]);
      if !reply.Opened? || reply.port == 0 {
        assert Opens(env, |flows|, n) == [OpenFlow(reply)];
        calls := calls + [OpenFlow(reply)];
        return;
      }
      JoinLeft(calls, OpenFlow(reply), Opens(env, |flows| + 1, n));
      calls := calls + [OpenFlow(reply)];
      flows := flows + [reply.flow];
    }
  }

  method AwaitEchoOf(env: Service, work: Work, s: nat, payload: array<byte>, before: Progress) returns (p: Progress)
    requires work.flows != [] && payload[..] == work.payload(s)
    ensures p == AfterAccepted(env, work, s, before)
  {
    p := before.(accepted := before.accepted + 1);
    if work.echoReplies {
      var flow := work.flows[s % |work.flows|];
      var w := WaitFor(EchoOf(flow, payload[..]), env.echo(s));
      p := p.(ignored := p.ignored + w.ignored, wakes := p.wakes + w.wakes, calls := p.calls + [AwaitEcho(s, flow, w)]);
      if w.verdict == Hit {
        p := p.(echoed := p.echoed + 1);
      } else {
        p := p.(failed := true, lost := w.verdict == ServiceLost);
      }
    }
  }

  /** One turn of the workload loop, with the payload already built. */
  method SendAndAwaitEcho(env: Service, work: Work, s: nat, payload: array<byte>, before: Progress)
    returns (p: Progress)
    requires work.flows != [] && payload[..] == work.payload(s) && !before.failed && !before.lost
    ensures p == Datagram(env, work, s, before) && (p.lost ==> p.failed)
  {
    p := SendDatagram(env, work, s, payload, before.(attempted := before.attempted + 1));
    if !p.failed {
      p := AwaitEchoOf(env, work, s, payload, p);
    }
  }

  method PreparePayload(c: Workload, work: Work, s: nat, payload: array<byte>)
    requires Runnable(c) && work == WorkOf(c, work.flows) && s < c.datagrams && payload.Length == c.payloadBytes
    modifies payload
    ensures payload[..] == work.payload(s)
  {
    BuildPayload(payload, Identity(WgnxTun, c.id, s % c.flows, s, c.seed));
  }

  /** The main loop: one datagram after the other until one fails. */
  method SendAll(env: Service, c: Workload, flows: seq<u64>, opens: seq<Call>) returns (p: Progress)
    requires Runnable(c) && flows != []
    ensures p == Datagrams(env, WorkOf(c, flows), 0, Start(opens))
  {
    var work := WorkOf(c, flows);
    var payload := new byte[c.payloadBytes];
    p := Start(opens);
    var s := 0;
    while s < c.datagrams && !p.failed
      invariant s <= c.datagrams && (p.lost ==> p.failed)
      invariant Datagrams(env, work, s, p) == Datagrams(env, work, 0, Start(opens))
      decreases c.datagrams - s
    {
      PreparePayload(c, work, s, payload);
      p := SendAndAwaitEcho(env, work, s, payload, p);
      s := s + 1;
    }
  }

  /** The whole run. It succeeds when nothing failed, and closes what it used unless the service is gone. */
  method RunWgnxTunnelUdpWorkload(env: Service, c: Workload) returns (result: Summary)
    requires Runnable(c)
    ensures result == Run(env, c)
    ensures Accounted(env, c, result)
  {
    RunIsAccounted(env, c);
    var opens, flows := OpenFlows(env, c.flows);
    if |flows| != c.flows {
      return Summary(false, Start(opens).(failed := true, calls := opens + Closes(flows)));
    }
    var p := SendAll(env, c, flows, opens);
    if !p.lost {
      p := p.(calls := p.calls + Closes(flows));
    }
    return Summary(p.accepted == c.datagrams && (!c.echoReplies || p.echoed == p.accepted), p);
  }
}
