/** What holds of every whole run of a tunnel UDP workload: any runnable workload, any behaviour of the service. */
module TunnelUdpTheorems {
  import opened Bytes
  import opened Wrappers
  import opened TunnelWaits
  import opened TunnelUdpSpec
  import opened TunnelUdpLaws
  import opened WorkloadPayload

  // The open phase.

  predicate OnlyOpens(calls: seq<Call>) {
    forall i :: 0 <= i < |calls| ==> calls[i].OpenFlow?
  }

  /** Flows k, k + 1, ... were asked for, up to the n-th or the first reply without a usable flow. */
  predicate OpensInOrder(env: Service, k: nat, n: nat, calls: seq<Call>) {
    && (forall i :: 0 <= i < |calls| ==> calls[i] == OpenFlow(env.open(k + i)))
    && (forall i :: 0 <= i < |calls| - 1 ==> Usable(calls[i].reply))
    && (k + |calls| == n || (calls != [] && !Usable(calls[|calls| - 1].reply)))
  }

  lemma OneMoreOpen(env: Service, k: nat, n: nat, rest: seq<Call>, all: seq<Call>)
    requires Usable(env.open(k)) && OpensInOrder(env, k + 1, n, rest) && all == [OpenFlow(env.open(k))] + rest
    ensures OpensInOrder(env, k, n, all)
  {
    forall i | 0 <= i < |all| ensures all[i] == OpenFlow(env.open(k + i)) {
      if i > 0 {
        assert all[i] == rest[i - 1] == OpenFlow(env.open(k + 1 + (i - 1)));
      }
    }
    forall i | 0 <= i < |all| - 1 ensures Usable(all[i].reply) {
      if i > 0 {
        assert all[i] == rest[i - 1];
      }
    }
  }

  lemma {:induction false} OpensStopAtFirstFailure(env: Service, k: nat, n: nat)
    requires k <= n
    ensures OpensInOrder(env, k, n, Opens(env, k, n)) && OnlyOpens(Opens(env, k, n))
    decreases n - k
  {
    if k < n && Usable(env.open(k)) {
      OpensStopAtFirstFailure(env, k + 1, n);
      OneMoreOpen(env, k, n, Opens(env, k + 1, n), Opens(env, k, n));
    }
  }

  lemma {:induction false} ClosesOnly(flows: seq<u64>)
    ensures forall i :: 0 <= i < |flows| ==> Closes(flows)[i] == CloseFlow(flows[i])
  {
    if flows == [] {
    } else {
      ClosesOnly(flows[..|flows| - 1]);
    }
  }

  lemma {:induction false} OpensAreQuiet(env: Service, work: Work, calls: seq<Call>, r: nat)
    requires OnlyOpens(calls)
    ensures CountTaken(calls) == 0 && CountEchoed(calls) == 0 && CountSends(calls, r) == 0 && ClosedFlows(calls) == []
    ensures work.flows != [] ==> AllDisciplined(env, work, calls)
  {
    if calls == [] {
    } else {
      OpensAreQuiet(env, work, calls[..|calls| - 1], r);
    }
  }

  /** The flows that the run uses, and the open phase that gives it as many as configured. */
  function Used(env: Service, c: Workload): seq<u64> {
    Flows(Opens(env, 0, c.flows))
  }

  predicate Begins(env: Service, c: Workload) {
    |Used(env, c)| == c.flows
  }

  function WorkIn(env: Service, c: Workload): (work: Work)
    requires Runnable(c)
    ensures Begins(env, c) ==> work.flows != []
  {
    WorkOf(c, Used(env, c))
  }

  /** The run up to its closing phase. */
  function Body(env: Service, c: Workload): Progress
    requires Runnable(c)
  {
    var start := Start(Opens(env, 0, c.flows));
    if Begins(env, c) then Datagrams(env, WorkIn(env, c), 0, start) else start.(failed := true)
  }

  lemma RunIsBodyThenCloses(env: Service, c: Workload)
    requires Runnable(c)
    ensures var p := Body(env, c);
      Run(env, c).progress == if p.lost then p else p.(calls := p.calls + Closes(Used(env, c)))
  {
  }

  lemma BodyIsThrough(env: Service, c: Workload) returns (done: nat)
    requires Runnable(c)
    ensures Sound(Body(env, c))
    ensures Begins(env, c) ==> done <= c.datagrams && Through(WorkIn(env, c), done, Body(env, c))
    ensures Begins(env, c) && !Body(env, c).failed ==> done == c.datagrams
  {
    done := 0;
    OpensStopAtFirstFailure(env, 0, c.flows);
    OpensAreQuiet(env, WorkIn(env, c), Opens(env, 0, c.flows), 0);
    if Begins(env, c) {
      done := DatagramsAreSound(env, WorkIn(env, c), 0, Start(Opens(env, 0, c.flows)));
    }
  }

  // The closing phase.

  function ClosedFlows(calls: seq<Call>): seq<u64> {
    if calls == [] then [] else
      var last := calls[|calls| - 1];
      ClosedFlows(calls[..|calls| - 1]) + if last.CloseFlow? then [last.flow] else []
  }

  /** Every flow the service says it opened, with or without a usable endpoint. */
  function OpenedFlows(calls: seq<Call>): seq<u64> {
    if calls == [] then [] else
      var last := calls[|calls| - 1];
      OpenedFlows(calls[..|calls| - 1]) + if last.OpenFlow? && last.reply.Opened? then [last.reply.flow] else []
  }

  lemma {:induction false} ClosesAfter(env: Service, work: Work, calls: seq<Call>, flows: seq<u64>, all: seq<Call>, r: nat)
    requires all == calls + Closes(flows)
    ensures ClosedFlows(all) == ClosedFlows(calls) + flows
    ensures OpenedFlows(all) == OpenedFlows(calls)
    ensures CountTaken(all) == CountTaken(calls) && CountEchoed(all) == CountEchoed(calls)
    ensures CountSends(all, r) == CountSends(calls, r)
    ensures work.flows != [] && AllDisciplined(env, work, calls) ==> AllDisciplined(env, work, all)
    decreases |flows|
  {
    if flows == [] {
      assert all == calls;
    } else {
      var shorter := all[..|all| - 1];
      assert shorter == calls + Closes(flows[..|flows| - 1]);
      ClosesAfter(env, work, calls, flows[..|flows| - 1], shorter, r);
    }
  }

  lemma {:induction false} QuietClosesNothing(calls: seq<Call>)
    requires forall i :: 0 <= i < |calls| ==> !calls[i].CloseFlow?
    ensures ClosedFlows(calls) == []
  {
    if calls == [] {
    } else {
      QuietClosesNothing(calls[..|calls| - 1]);
    }
  }

  // Counters.

  /**
   * Echoed <= accepted <= attempted <= configured; the counters are the accepted sends and the echoes in the log;
   * and success means that nothing failed, which is that every datagram and every echo asked for was completed.
   */
  lemma RunCounts(env: Service, c: Workload)
    requires Runnable(c)
    ensures
      var r := Run(env, c);
      var p := r.progress;
      && p.echoed <= p.accepted <= p.attempted <= c.datagrams
      && p.accepted == CountTaken(p.calls) && p.echoed == CountEchoed(p.calls)
      && (r.success <==> !p.failed)
      && (r.success <==> Begins(env, c) && p.accepted == c.datagrams && (c.echoReplies ==> p.echoed == c.datagrams))
      && (!Begins(env, c) ==> p.attempted == 0)
  {
    var p := Body(env, c);
    var done := BodyIsThrough(env, c);
    RunIsBodyThenCloses(env, c);
    ClosesAfter(env, WorkIn(env, c), p.calls, Used(env, c), p.calls + Closes(Used(env, c)), 0);
  }

  // Sends.

  /** Sends and waits are in order, and there are none unless all flows were opened. */
  ghost predicate KeepsOrder(env: Service, c: Workload, calls: seq<Call>, i: nat)
    requires Runnable(c) && i < |calls|
  {
    calls[i].Send? || calls[i].AwaitWritable? || calls[i].AwaitEcho? ==>
      Begins(env, c) && Disciplined(env, WorkIn(env, c), calls, i)
  }

  lemma RunSendsOf(env: Service, c: Workload, r: nat)
    requires Runnable(c)
    ensures Begins(env, c) ==> AllDisciplined(env, WorkIn(env, c), Run(env, c).progress.calls)
    ensures CountSends(Run(env, c).progress.calls, r) <= MAX_RETRIES + 1
  {
    var p, opens, work := Body(env, c), Opens(env, 0, c.flows), WorkIn(env, c);
    OpensStopAtFirstFailure(env, 0, c.flows);
    OpensAreQuiet(env, work, opens, r);
    if Begins(env, c) {
      DatagramsAreDisciplined(env, work, 0, Start(opens), r);
    }
    RunIsBodyThenCloses(env, c);
    ClosesAfter(env, work, p.calls, Used(env, c), p.calls + Closes(Used(env, c)), r);
  }

  lemma CallsKeepOrder(env: Service, c: Workload, i: nat)
    requires Runnable(c) && i < |Run(env, c).progress.calls|
    ensures KeepsOrder(env, c, Run(env, c).progress.calls, i)
  {
    RunIsBodyThenCloses(env, c);
    RunSendsOf(env, c, 0);
    if Begins(env, c) {
      EachDisciplined(env, WorkIn(env, c), Run(env, c).progress.calls, i);
    } else {
      OpensStopAtFirstFailure(env, 0, c.flows);
      ClosesOnly(Used(env, c));
    }
  }

  /** Every send is a first send in order, or a resend of the same datagram right after room was reported; at most 17. */
  lemma RunSends(env: Service, c: Workload)
    requires Runnable(c)
    ensures forall i :: 0 <= i < |Run(env, c).progress.calls| ==> KeepsOrder(env, c, Run(env, c).progress.calls, i)
    ensures forall s: nat :: CountSends(Run(env, c).progress.calls, s) <= 17
  {
    forall i | 0 <= i < |Run(env, c).progress.calls| ensures KeepsOrder(env, c, Run(env, c).progress.calls, i) {
      CallsKeepOrder(env, c, i);
    }
    forall s: nat ensures CountSends(Run(env, c).progress.calls, s) <= 17 {
      RunSendsOf(env, c, s);
    }
  }

  // Closing.

  /** The run is a sound beginning `p` and then the closing calls, unless the service is lost. */
  lemma RunShape(env: Service, c: Workload) returns (p: Progress)
    requires Runnable(c)
    ensures EndsWell(p.calls, p.lost)
    ensures Run(env, c).progress == if p.lost then p else p.(calls := p.calls + Closes(Used(env, c)))
  {
    p := Body(env, c);
    var done := BodyIsThrough(env, c);
    RunIsBodyThenCloses(env, c);
  }

  lemma EndsWellClosesNothing(calls: seq<Call>, lost: bool)
    requires EndsWell(calls, lost)
    ensures ClosedFlows(calls) == []
  {
    forall i | 0 <= i < |calls| ensures !calls[i].CloseFlow? {
      assert i < |calls| - 1 ==> calls[i] == calls[..|calls| - 1][i];
    }
    QuietClosesNothing(calls);
  }

  lemma ClosedByRun(env: Service, c: Workload)
    requires Runnable(c)
    ensures ClosedFlows(Run(env, c).progress.calls) == if Run(env, c).progress.lost then [] else Used(env, c)
  {
    var used := Used(env, c);
    var p := RunShape(env, c);
    EndsWellClosesNothing(p.calls, p.lost);
    ClosesAfter(env, WorkIn(env, c), p.calls, used, p.calls + Closes(used), 0);
    assert [] + used == used;
  }

  /**
   * A run that loses the service does so with its very last call and closes nothing. Every other run ends by
   * closing the flows it used, each once and in order, and closes nothing before.
   */
  lemma RunCloses(env: Service, c: Workload)
    requires Runnable(c)
    ensures
      var p, used := Run(env, c).progress, Used(env, c);
      var n := |p.calls| - |used|;
      if p.lost then
        p.calls != [] && Loss(p.calls[|p.calls| - 1]) && Quiet(p.calls[..|p.calls| - 1]) && ClosedFlows(p.calls) == []
      else
        0 <= n && Quiet(p.calls[..n]) && p.calls[n..] == Closes(used) && ClosedFlows(p.calls) == used
  {
    var used := Used(env, c);
    var p := RunShape(env, c);
    ClosedByRun(env, c);
    Halves(p.calls, Closes(used), p.calls + Closes(used));
  }

  lemma Halves<T>(a: seq<T>, b: seq<T>, ab: seq<T>)
    requires ab == a + b
    ensures ab[..|a|] == a && ab[|a|..] == b
  {
  }

  predicate Portless(call: Call) {
    call.OpenFlow? && call.reply.Opened? && call.reply.port == 0
  }

  predicate NonePortless(calls: seq<Call>) {
    forall i :: 0 <= i < |calls| ==> !Portless(calls[i])
  }

  lemma {:induction false} FlowsOf(opens: seq<Call>)
    ensures |Flows(opens)| <= |OpenedFlows(opens)|
    ensures if NonePortless(opens) then Flows(opens) == OpenedFlows(opens) else |Flows(opens)| < |OpenedFlows(opens)|
  {
    if opens != [] {
      FlowsOf(opens[..|opens| - 1]);
    }
  }

  /** Only the open phase opens flows. */
  lemma OpenedByRun(env: Service, c: Workload)
    requires Runnable(c)
    ensures
      var calls, opens := Run(env, c).progress.calls, Opens(env, 0, c.flows);
      OpenedFlows(calls) == OpenedFlows(opens) && (NonePortless(calls) <==> NonePortless(opens))
  {
    var p, opens := Body(env, c), Opens(env, 0, c.flows);
    RunIsBodyThenCloses(env, c);
    OpensNoMore(opens, [], opens);
    if Begins(env, c) {
      var more := DatagramsOpenNothing(env, WorkIn(env, c), 0, Start(opens));
      OpensNoMore(opens, more, p.calls);
    }
    if !p.lost {
      ClosesOnly(Used(env, c));
      OpensNoMore(p.calls, Closes(Used(env, c)), p.calls + Closes(Used(env, c)));
    }
  }

  predicate NoOpens(calls: seq<Call>) {
    forall i :: 0 <= i < |calls| ==> !calls[i].OpenFlow?
  }

  lemma {:induction false} OpensNoMore(a: seq<Call>, b: seq<Call>, ab: seq<Call>)
    requires ab == a + b && NoOpens(b)
    ensures OpenedFlows(ab) == OpenedFlows(a) && (NonePortless(ab) <==> NonePortless(a))
  {
    if b == [] {
      assert ab == a;
    } else {
      assert ab[..|ab| - 1] == a + b[..|b| - 1];
      OpensNoMore(a, b[..|b| - 1], ab[..|ab| - 1]);
    }
  }

  lemma {:induction false} SendsOpenNothing(env: Service, work: Work, s: nat, k: nat, p: Progress) returns (more: seq<Call>)
    requires work.flows != [] && k <= MAX_RETRIES
    ensures SendFrom(env, work, s, k, p).calls == p.calls + more && NoOpens(more)
    decreases MAX_RETRIES - k
  {
    SendUnfolds(env, work, s, k, p);
    more := [SendCall(env, work, s, k)];
    if env.send(s, k) == QueueFull && k < MAX_RETRIES {
      more := more + [WaitCall(env, work, s, k)];
      assert AfterRefusal(env, work, s, k, p).calls == p.calls + more;
      if WaitCall(env, work, s, k).result.verdict == Hit {
        var rest := SendsOpenNothing(env, work, s, k + 1, AfterRefusal(env, work, s, k, p));
        assert p.calls + more + rest == p.calls + (more + rest);
        more := more + rest;
      }
    }
  }

  lemma DatagramOpensNothing(env: Service, work: Work, s: nat, p: Progress) returns (more: seq<Call>)
    requires work.flows != []
    ensures Datagram(env, work, s, p).calls == p.calls + more && NoOpens(more)
  {
    more := SendsOpenNothing(env, work, s, 0, p.(attempted := p.attempted + 1));
    var sent := SendFrom(env, work, s, 0, p.(attempted := p.attempted + 1));
    if !sent.failed && work.echoReplies {
      var w := Outcome(EchoOf(FlowFor(work, s), work.payload(s)), env.echo(s));
      var wait := AwaitEcho(s, FlowFor(work, s), w);
      assert p.calls + more + [wait] == p.calls + (more + [wait]);
      more := more + [wait];
    }
  }

  lemma {:induction false} DatagramsOpenNothing(env: Service, work: Work, s: nat, p: Progress) returns (more: seq<Call>)
    requires work.flows != [] && s <= work.datagrams
    ensures Datagrams(env, work, s, p).calls == p.calls + more && NoOpens(more)
    decreases work.datagrams - s
  {
    more := [];
    if s < work.datagrams && !p.failed {
      var first := DatagramOpensNothing(env, work, s, p);
      var rest := DatagramsOpenNothing(env, work, s + 1, Datagram(env, work, s, p));
      assert p.calls + first + rest == p.calls + (first + rest);
      more := first + rest;
    }
  }

  /**
   * Over every run: the flows closed are exactly the flows the service opened if and only if the service was not
   * lost and opened no flow without a local port.
   */
  lemma FlowsClosedIff(env: Service, c: Workload)
    requires Runnable(c)
    ensures
      var p := Run(env, c).progress;
      multiset(ClosedFlows(p.calls)) == multiset(OpenedFlows(p.calls)) <==> !p.lost && NonePortless(p.calls)
  {
    var p, opens := Run(env, c).progress, Opens(env, 0, c.flows);
    ClosedByRun(env, c);
    OpenedByRun(env, c);
    FlowsOf(opens);
    RunIsBodyThenCloses(env, c);
    assert |multiset(ClosedFlows(p.calls))| == |ClosedFlows(p.calls)|;
    assert |multiset(OpenedFlows(p.calls))| == |OpenedFlows(p.calls)|;
  }

  predicate AllUsable(calls: seq<Call>) {
    forall i :: 0 <= i < |calls| ==> calls[i].OpenFlow? && Usable(calls[i].reply)
  }

  lemma {:induction false} UsableFlows(opens: seq<Call>)
    requires AllUsable(opens)
    ensures Flows(opens) == OpenedFlows(opens) && |Flows(opens)| == |opens|
  {
    if opens != [] {
      UsableFlows(opens[..|opens| - 1]);
    }
  }

  lemma PortlessEndsOpens(env: Service, n: nat, k: nat, opens: seq<Call>)
    requires OpensInOrder(env, 0, n, opens) && k < n
    requires forall i: nat :: i < k ==> Usable(env.open(i))
    requires env.open(k).Opened? && env.open(k).port == 0
    ensures |opens| == k + 1 && opens[k] == OpenFlow(env.open(k)) && AllUsable(opens[..k])
  {
    assert opens[|opens| - 1] == OpenFlow(env.open(0 + (|opens| - 1)));
    assert opens[k] == OpenFlow(env.open(0 + k));
    forall i | 0 <= i < k ensures opens[i].OpenFlow? && Usable(opens[i].reply) {
      assert opens[i] == OpenFlow(env.open(0 + i));
    }
  }

  lemma PortlessOpens(env: Service, n: nat, k: nat, flow: u64, opens: seq<Call>)
    requires opens == Opens(env, 0, n) && k < n
    requires forall i: nat :: i < k ==> Usable(env.open(i))
    requires env.open(k) == Opened(flow, 0)
    ensures OpenedFlows(opens) == Flows(opens) + [flow] && |Flows(opens)| == k
  {
    OpensStopAtFirstFailure(env, 0, n);
    PortlessEndsOpens(env, n, k, opens);
    UsableFlows(opens[..k]);
  }

  /**
   * A flow without a local port ends the open phase. The k flows opened before it are closed; it is the one flow
   * that the run leaves open.
   */
  lemma PortlessFlowIsLeftOpen(env: Service, c: Workload, k: nat, flow: u64)
    requires Runnable(c) && k < c.flows
    requires forall i: nat :: i < k ==> Usable(env.open(i))
    requires env.open(k) == Opened(flow, 0)
    ensures !Run(env, c).success && !Run(env, c).progress.lost
    ensures OpenedFlows(Run(env, c).progress.calls) == ClosedFlows(Run(env, c).progress.calls) + [flow]
    ensures |ClosedFlows(Run(env, c).progress.calls)| == k
  {
    PortlessOpens(env, c.flows, k, flow, Opens(env, 0, c.flows));
    FailedOpens(env, c);
    OpenedByRun(env, c);
  }

  /** A run that does not get all its flows fails without losing the service and closes what it got. */
  lemma FailedOpens(env: Service, c: Workload)
    requires Runnable(c) && !Begins(env, c)
    ensures !Run(env, c).success && !Run(env, c).progress.lost
    ensures ClosedFlows(Run(env, c).progress.calls) == Used(env, c)
  {
    ClosedByRun(env, c);
  }

  /** A service that opens flow 7 without a port: the run opens that flow and closes none. */
  function PortlessService(): Service {
    Service(k => Opened(7, 0), (s, k) => Accepted, (s, k) => [], s => [])
  }

  lemma LeftOpenExample(c: Workload)
    requires Runnable(c)
    ensures OpenedFlows(Run(PortlessService(), c).progress.calls) == [7]
    ensures ClosedFlows(Run(PortlessService(), c).progress.calls) == []
  {
    PortlessFlowIsLeftOpen(PortlessService(), c, 0, 7);
  }

  // The figures that the report adds up.

  predicate IsWait(call: Call) {
    call.AwaitWritable? || call.AwaitEcho?
  }

  /** How often the workload waited for room. */
  function RoomWaits(calls: seq<Call>): nat {
    if calls == [] then 0 else RoomWaits(calls[..|calls| - 1]) + if calls[|calls| - 1].AwaitWritable? then 1 else 0
  }

  /** Completions that were ignored, over all waits. */
  function IgnoredIn(calls: seq<Call>): nat {
    if calls == [] then 0 else
      IgnoredIn(calls[..|calls| - 1]) + if IsWait(calls[|calls| - 1]) then calls[|calls| - 1].result.ignored else 0
  }

  /** Wakes of the completion event, over all waits. */
  function WakesIn(calls: seq<Call>): nat {
    if calls == [] then 0 else
      WakesIn(calls[..|calls| - 1]) + if IsWait(calls[|calls| - 1]) then calls[|calls| - 1].result.wakes else 0
  }

  predicate Tallied(p: Progress) {
    p.queueFull == RoomWaits(p.calls) && p.ignored == IgnoredIn(p.calls) && p.wakes == WakesIn(p.calls)
  }

  lemma TallyGrows(calls: seq<Call>, call: Call, longer: seq<Call>)
    requires longer == calls + [call]
    ensures RoomWaits(longer) == RoomWaits(calls) + if call.AwaitWritable? then 1 else 0
    ensures IgnoredIn(longer) == IgnoredIn(calls) + if IsWait(call) then call.result.ignored else 0
    ensures WakesIn(longer) == WakesIn(calls) + if IsWait(call) then call.result.wakes else 0
  {
    assert longer[..|longer| - 1] == calls;
  }

  lemma {:induction false} NothingToTally(calls: seq<Call>)
    requires forall i :: 0 <= i < |calls| ==> !IsWait(calls[i])
    ensures RoomWaits(calls) == 0 && IgnoredIn(calls) == 0 && WakesIn(calls) == 0
  {
    if calls != [] {
      NothingToTally(calls[..|calls| - 1]);
    }
  }

  lemma {:induction false} TallyIgnores(calls: seq<Call>, flows: seq<u64>, all: seq<Call>)
    requires all == calls + Closes(flows)
    ensures RoomWaits(all) == RoomWaits(calls) && IgnoredIn(all) == IgnoredIn(calls) && WakesIn(all) == WakesIn(calls)
    decreases |flows|
  {
    if flows == [] {
      assert all == calls;
    } else {
      var shorter := calls + Closes(flows[..|flows| - 1]);
      TallyIgnores(calls, flows[..|flows| - 1], shorter);
      TallyGrows(shorter, CloseFlow(flows[|flows| - 1]), all);
    }
  }

  /** Same figures and same calls. */
  predicate SameFigures(p: Progress, q: Progress) {
    p.queueFull == q.queueFull && p.ignored == q.ignored && p.wakes == q.wakes && p.calls == q.calls
  }

  lemma SendFigures(env: Service, work: Work, s: nat, k: nat, p: Progress)
    requires work.flows != [] && k <= MAX_RETRIES
    ensures !(env.send(s, k) == QueueFull && k < MAX_RETRIES) ==>
      SameFigures(SendFrom(env, work, s, k, p), Logged(p, SendCall(env, work, s, k)))
    ensures env.send(s, k) == QueueFull && k < MAX_RETRIES && WaitCall(env, work, s, k).result.verdict != Hit ==>
      SameFigures(SendFrom(env, work, s, k, p), AfterRefusal(env, work, s, k, p))
  {
  }

  lemma RefusalTallies(env: Service, work: Work, s: nat, k: nat, p: Progress)
    requires work.flows != [] && Tallied(p)
    ensures Tallied(Logged(p, SendCall(env, work, s, k))) && Tallied(AfterRefusal(env, work, s, k, p))
  {
    var sent := Logged(p, SendCall(env, work, s, k));
    TallyGrows(p.calls, SendCall(env, work, s, k), sent.calls);
    TallyGrows(sent.calls, WaitCall(env, work, s, k), AfterRefusal(env, work, s, k, p).calls);
  }

  lemma {:induction false} SendsTally(env: Service, work: Work, s: nat, k: nat, p: Progress)
    requires work.flows != [] && k <= MAX_RETRIES && Tallied(p)
    ensures Tallied(SendFrom(env, work, s, k, p))
    decreases MAX_RETRIES - k
  {
    RefusalTallies(env, work, s, k, p);
    SendFigures(env, work, s, k, p);
    if env.send(s, k) == QueueFull && k < MAX_RETRIES && WaitCall(env, work, s, k).result.verdict == Hit {
      SendUnfolds(env, work, s, k, p);
      SendsTally(env, work, s, k + 1, AfterRefusal(env, work, s, k, p));
    }
  }

  lemma EchoTallies(env: Service, work: Work, s: nat, sent: Progress)
    requires work.flows != [] && Tallied(sent)
    ensures Tallied(AfterAccepted(env, work, s, sent))
  {
    if work.echoReplies {
      var w := Outcome(EchoOf(FlowFor(work, s), work.payload(s)), env.echo(s));
      TallyGrows(sent.calls, AwaitEcho(s, FlowFor(work, s), w), sent.calls + [AwaitEcho(s, FlowFor(work, s), w)]);
    }
  }

  lemma DatagramTallies(env: Service, work: Work, s: nat, p: Progress)
    requires work.flows != [] && Tallied(p)
    ensures Tallied(Datagram(env, work, s, p))
  {
    var begun := p.(attempted := p.attempted + 1);
    SendsTally(env, work, s, 0, begun);
    EchoTallies(env, work, s, SendFrom(env, work, s, 0, begun));
  }

  lemma {:induction false} DatagramsTally(env: Service, work: Work, s: nat, p: Progress)
    requires work.flows != [] && s <= work.datagrams && Tallied(p)
    ensures Tallied(Datagrams(env, work, s, p))
    decreases work.datagrams - s
  {
    if s < work.datagrams && !p.failed {
      DatagramTallies(env, work, s, p);
      DatagramsTally(env, work, s + 1, Datagram(env, work, s, p));
    }
  }

  /** Over every run, the reported figures are those of the waits in the log. */
  lemma RunTallies(env: Service, c: Workload)
    requires Runnable(c)
    ensures Tallied(Run(env, c).progress)
  {
    var opens := Opens(env, 0, c.flows);
    OpensStopAtFirstFailure(env, 0, c.flows);
    NothingToTally(opens);
    if Begins(env, c) {
      DatagramsTally(env, WorkIn(env, c), 0, Start(opens));
    }
    var p := Body(env, c);
    RunIsBodyThenCloses(env, c);
    TallyIgnores(p.calls, Used(env, c), p.calls + Closes(Used(env, c)));
  }

  /** A datagram that is refused for want of room sixteen times, with room reported each time, is sent once more. */
  lemma SeventeenAttempts(env: Service, work: Work, s: nat, before: Progress)
    requires work.flows != [] && !before.failed && !before.lost && RoomAgainUpTo(env, work, s, 16)
    ensures
      var p := SendFrom(env, work, s, 0, before);
      && p.calls == before.calls + Attempts(env, work, s, 16) + [SendCall(env, work, s, 16)]
      && (p.failed <==> env.send(s, 16) != Accepted)
  {
    SendMeans(env, work, s, before);
    var n: nat :| SentWith(env, work, s, n, before, SendFrom(env, work, s, 0, before));
  }

  // Which flow each datagram goes by.

  lemma {:induction false} FlowsOfUsable(opens: seq<Call>, i: nat)
    requires AllUsable(opens) && i < |opens|
    ensures |Flows(opens)| == |opens| && Flows(opens)[i] == opens[i].reply.flow
  {
    UsableFlows(opens);
    UsableFlows(opens[..|opens| - 1]);
    if i < |opens| - 1 {
      FlowsOfUsable(opens[..|opens| - 1], i);
    }
  }

  /** A run that begins got a usable flow from each of its opens; its i-th flow is the one the i-th open returned. */
  lemma FlowIsOpened(env: Service, c: Workload, i: nat, opens: seq<Call>)
    requires Runnable(c) && Begins(env, c) && i < c.flows && opens == Opens(env, 0, c.flows)
    ensures |opens| == c.flows && opens[i] == OpenFlow(env.open(i))
    ensures Usable(env.open(i)) && Used(env, c)[i] == env.open(i).flow
  {
    OpensStopAtFirstFailure(env, 0, c.flows);
    FewerFlows(opens);
    assert opens[|opens| - 1] == OpenFlow(env.open(0 + (|opens| - 1)));
    forall k | 0 <= k < |opens| ensures opens[k].OpenFlow? && Usable(opens[k].reply) {
      if k == |opens| - 1 {
        LastIsUsable(opens);
      }
    }
    FlowsOfUsable(opens, i);
    assert opens[i] == OpenFlow(env.open(0 + i));
  }

  lemma {:induction false} FewerFlows(opens: seq<Call>)
    ensures |Flows(opens)| <= |opens|
  {
    if opens != [] {
      FewerFlows(opens[..|opens| - 1]);
    }
  }

  lemma LastIsUsable(opens: seq<Call>)
    requires opens != [] && |Flows(opens)| == |opens|
    ensures opens[|opens| - 1].OpenFlow? && Usable(opens[|opens| - 1].reply)
  {
    FewerFlows(opens[..|opens| - 1]);
  }

  /** The flow and the datagram that a send, or a wait after a send, is about. */
  predicate About(call: Call, s: nat, flow: u64) {
    match call
    case Send(sequence, f, _, _) => sequence == s && f == flow
    case AwaitWritable(sequence, f, _) => sequence == s && f == flow
    case AwaitEcho(sequence, f, _) => sequence == s && f == flow
    case _ => false
  }

  /**
   * What the log says of datagram `s` on `flow`: the call that opened flow number `s % flows` is there, it returned
   * that flow with a local port, and it is what the service answered to that open.
   */
  predicate OpenedAs(env: Service, c: Workload, calls: seq<Call>, s: nat, flow: u64)
    requires Runnable(c)
  {
    var k := s % c.flows;
    && s < c.datagrams && k < |calls|
    && calls[k] == OpenFlow(env.open(k)) && env.open(k).Opened? && env.open(k).port != 0 && env.open(k).flow == flow
  }

  /** The payload names the workload, the datagram, and the open whose flow carries it. */
  predicate NamesItsOpen(c: Workload, call: Call) {
    call.Send? ==>
      match ParseWorkloadIdentity(call.payload)
      case Identified(id) =>
        && id.kind == WgnxTun && id.workload == c.id && id.seed == c.seed && id.sequence == call.sequence
        && 0 < c.flows && id.flow == call.sequence % c.flows && |call.payload| == c.payloadBytes
      case _ => false
  }

  ghost predicate OnOwnFlow(env: Service, c: Workload, calls: seq<Call>, i: nat)
    requires Runnable(c) && i < |calls|
  {
    && (forall s: nat, flow: u64 :: About(calls[i], s, flow) ==> OpenedAs(env, c, calls, s, flow))
    && NamesItsOpen(c, calls[i])
  }

  lemma DatagramsExtend(env: Service, work: Work, s: nat, p: Progress, k: nat)
    requires work.flows != [] && s <= work.datagrams && k < |p.calls|
    ensures k < |Datagrams(env, work, s, p).calls| && Datagrams(env, work, s, p).calls[k] == p.calls[k]
  {
    var more := DatagramsOpenNothing(env, work, s, p);
  }

  lemma OpensStandFirst(env: Service, c: Workload, k: nat)
    requires Runnable(c) && k < |Opens(env, 0, c.flows)|
    ensures k < |Run(env, c).progress.calls| && Run(env, c).progress.calls[k] == Opens(env, 0, c.flows)[k]
  {
    var opens := Opens(env, 0, c.flows);
    RunIsBodyThenCloses(env, c);
    if Begins(env, c) {
      DatagramsExtend(env, WorkIn(env, c), 0, Start(opens), k);
    }
  }

  lemma DisciplinedIsAbout(env: Service, work: Work, calls: seq<Call>, i: nat, s: nat, flow: u64)
    requires work.flows != [] && i < |calls| && Disciplined(env, work, calls, i) && About(calls[i], s, flow)
    requires i > 0 && calls[i - 1].Send? ==> Disciplined(env, work, calls, i - 1)
    ensures s < work.datagrams && flow == FlowFor(work, s)
    ensures calls[i].Send? ==> calls[i].payload == work.payload(s)
  {
  }

  lemma CallIsOnOwnFlow(env: Service, c: Workload, i: nat, s: nat, flow: u64)
    requires Runnable(c) && i < |Run(env, c).progress.calls| && About(Run(env, c).progress.calls[i], s, flow)
    ensures OpenedAs(env, c, Run(env, c).progress.calls, s, flow)
    ensures NamesItsOpen(c, Run(env, c).progress.calls[i])
  {
    var calls, k := Run(env, c).progress.calls, s % c.flows;
    CallsKeepOrder(env, c, i);
    if i > 0 {
      CallsKeepOrder(env, c, i - 1);
    }
    DisciplinedIsAbout(env, WorkIn(env, c), calls, i, s, flow);
    FlowIsOpened(env, c, k, Opens(env, 0, c.flows));
    OpensStandFirst(env, c, k);
    PayloadNamesDatagram(env, c, s);
  }

  /**
   * Over every run, each send of a datagram, and each wait after it, is on the flow that open number
   * `sequence % flows` returned, which is the open that the identity in the payload names.
   */
  lemma DatagramsGoByTheirFlow(env: Service, c: Workload)
    requires Runnable(c)
    ensures forall i :: 0 <= i < |Run(env, c).progress.calls| ==> OnOwnFlow(env, c, Run(env, c).progress.calls, i)
  {
    forall i | 0 <= i < |Run(env, c).progress.calls| ensures OnOwnFlow(env, c, Run(env, c).progress.calls, i) {
      var call := Run(env, c).progress.calls[i];
      forall s: nat, flow: u64 | About(call, s, flow)
        ensures OpenedAs(env, c, Run(env, c).progress.calls, s, flow)
      {
        CallIsOnOwnFlow(env, c, i, s, flow);
      }
      if call.Send? {
        CallIsOnOwnFlow(env, c, i, call.sequence, call.flow);
      }
    }
  }

  /** What a caller may rely on: the result is explained by the calls that were made. */
  ghost predicate Accounted(env: Service, c: Workload, r: Summary)
    requires Runnable(c)
  {
    && (r.success <==> !r.progress.failed)
    && (r.success ==> CountTaken(r.progress.calls) == c.datagrams)
    && (r.success && c.echoReplies ==> CountEchoed(r.progress.calls) == c.datagrams)
    && ClosedFlows(r.progress.calls) == (if r.progress.lost then [] else Used(env, c))
    && (forall s: nat :: CountSends(r.progress.calls, s) <= 17)
    && Tallied(r.progress)
    && (forall i :: 0 <= i < |r.progress.calls| ==> KeepsOrder(env, c, r.progress.calls, i))
    && (forall i :: 0 <= i < |r.progress.calls| ==> OnOwnFlow(env, c, r.progress.calls, i))
  }

  lemma RunIsAccounted(env: Service, c: Workload)
    requires Runnable(c)
    ensures Accounted(env, c, Run(env, c))
  {
    RunCounts(env, c);
    RunSends(env, c);
    RunTallies(env, c);
    ClosedByRun(env, c);
    DatagramsGoByTheirFlow(env, c);
  }

  // Late echoes.

  /** The payload of datagram `s` names exactly that datagram. */
  lemma PayloadNamesDatagram(env: Service, c: Workload, s: u32)
    requires Runnable(c)
    ensures ParseWorkloadIdentity(WorkIn(env, c).payload(s)) == Identified(Identity(WgnxTun, c.id, s % c.flows, s, c.seed))
  {
    IdentityRoundTrip(IdentityOf(c, s), c.payloadBytes);
  }

  lemma PayloadsDiffer(c: Workload, flows: seq<u64>, s: nat, t: nat)
    requires Runnable(c) && s < c.datagrams && t < c.datagrams && s != t
    ensures WorkOf(c, flows).payload(s) != WorkOf(c, flows).payload(t)
  {
    assert IdentityOf(c, s).sequence == s && IdentityOf(c, t).sequence == t;
    if Payload(IdentityOf(c, s), c.payloadBytes) == Payload(IdentityOf(c, t), c.payloadBytes) {
      PayloadsAreDistinct(IdentityOf(c, s), c.payloadBytes, IdentityOf(c, t), c.payloadBytes);
    }
  }

  /** A completion that carries another datagram of the run never satisfies the wait for this one. */
  lemma LateEchoIsNotTaken(env: Service, c: Workload, flow: u64, s: nat, t: nat, e: Completion, storage: seq<byte>)
    requires Runnable(c) && s < c.datagrams && t < c.datagrams && s != t
    requires InBounds(e, storage) && PayloadOf(e, storage) == WorkIn(env, c).payload(t)
    ensures !Satisfies(EchoOf(flow, WorkIn(env, c).payload(s)), e, storage)
  {
    PayloadsDiffer(c, Used(env, c), s, t);
  }

  /** The n-th event of the wait for datagram `s` decides it, and is an in-bounds datagram that names `s`. */
  predicate EchoArrived(env: Service, c: Workload, s: nat, flow: u64, n: nat)
    requires Runnable(c)
  {
    var t := Trace(env.echo(s));
    && s < c.datagrams && FirstDecision(EchoOf(flow, WorkIn(env, c).payload(s)), t, n) && t[n].Arrived?
    && t[n].completion.kind == InboundUdpDatagram && t[n].completion.flow == flow
    && InBounds(t[n].completion, t[n].storage)
    && ParseWorkloadIdentity(PayloadOf(t[n].completion, t[n].storage))
      == Identified(Identity(WgnxTun, c.id, s % c.flows, s, c.seed))
  }

  lemma HitArrived(env: Service, c: Workload, s: nat, flow: u64) returns (n: nat)
    requires Runnable(c) && s < c.datagrams
    requires Outcome(EchoOf(flow, WorkIn(env, c).payload(s)), env.echo(s)).verdict == Hit
    ensures EchoArrived(env, c, s, flow, n)
  {
    var rule := EchoOf(flow, WorkIn(env, c).payload(s));
    OutcomeIsFirstDecision(rule, env.echo(s));
    n :| DecidedAt(rule, Trace(env.echo(s)), n, Outcome(rule, env.echo(s)));
    PayloadNamesDatagram(env, c, s);
  }

  lemma EchoWaitIsOutcome(env: Service, c: Workload, i: nat)
    requires Runnable(c) && i < |Run(env, c).progress.calls| && Run(env, c).progress.calls[i].AwaitEcho?
    ensures
      var call := Run(env, c).progress.calls[i];
      && call.sequence < c.datagrams
      && call.result == Outcome(EchoOf(call.flow, WorkIn(env, c).payload(call.sequence)), env.echo(call.sequence))
  {
    CallsKeepOrder(env, c, i);
    CallsKeepOrder(env, c, i - 1);
  }

  /** Whenever a run takes an echo for datagram `s`, what arrived names datagram `s` of this workload. */
  lemma EchoIsCurrent(env: Service, c: Workload, i: nat) returns (n: nat)
    requires Runnable(c) && i < |Run(env, c).progress.calls| && Echoed(Run(env, c).progress.calls[i])
    ensures EchoArrived(env, c, Run(env, c).progress.calls[i].sequence, Run(env, c).progress.calls[i].flow, n)
  {
    EchoWaitIsOutcome(env, c, i);
    n := HitArrived(env, c, Run(env, c).progress.calls[i].sequence, Run(env, c).progress.calls[i].flow);
  }
}
