/** What every tunnel UDP workload keeps to, whatever the service does. */
module TunnelUdpLaws {
  import opened Bytes
  import opened TunnelWaits
  import opened TunnelUdpSpec
  import opened WorkloadPayload

  // Counting what the log shows.

  predicate Took(call: Call) {
    call.Send? && call.sent == Accepted
  }

  predicate Echoed(call: Call) {
    call.AwaitEcho? && call.result.verdict == Hit
  }

  /** The reply that tells the run that the service is gone. */
  predicate Loss(call: Call) {
    match call
    case Send(_, _, _, sent) => sent == SendCallFailed
    case AwaitWritable(_, _, result) => result.verdict == ServiceLost
    case AwaitEcho(_, _, result) => result.verdict == ServiceLost
    case _ => false
  }

  function CountTaken(calls: seq<Call>): nat {
    if calls == [] then 0 else CountTaken(calls[..|calls| - 1]) + if Took(calls[|calls| - 1]) then 1 else 0
  }

  function CountEchoed(calls: seq<Call>): nat {
    if calls == [] then 0 else CountEchoed(calls[..|calls| - 1]) + if Echoed(calls[|calls| - 1]) then 1 else 0
  }

  /** How often datagram `s` was handed to the service. */
  function CountSends(calls: seq<Call>, s: nat): nat {
    if calls == [] then 0 else
      var last := calls[|calls| - 1];
      CountSends(calls[..|calls| - 1], s) + if last.Send? && last.sequence == s then 1 else 0
  }

  lemma Appended(calls: seq<Call>, call: Call, longer: seq<Call>)
    requires longer == calls + [call]
    ensures CountTaken(longer) == CountTaken(calls) + if Took(call) then 1 else 0
    ensures CountEchoed(longer) == CountEchoed(calls) + if Echoed(call) then 1 else 0
  {
    assert longer[..|longer| - 1] == calls;
  }

  lemma SendsAppended(calls: seq<Call>, call: Call, longer: seq<Call>, s: nat)
    requires longer == calls + [call]
    ensures CountSends(longer, s) == CountSends(calls, s) + if call.Send? && call.sequence == s then 1 else 0
  {
    assert longer[..|longer| - 1] == calls;
  }

  // Sends and resends.

  /**
   * Every datagram is sent with its own payload on its own flow. It is either sent for the first time, after all
   * its predecessors, or again after the queue was full and exactly that flow was reported writable. Waits follow
   * the send they are about, and their results are what the completions of that wait decide.
   */
  ghost predicate Disciplined(env: Service, work: Work, calls: seq<Call>, i: nat)
    requires work.flows != [] && i < |calls|
  {
    match calls[i]
    case Send(s, flow, payload, _) =>
      s < work.datagrams && flow == FlowFor(work, s) && payload == work.payload(s) && (First(calls, i) || Resend(calls, i))
    case AwaitWritable(s, flow, result) =>
      i > 0 && calls[i - 1] == Send(s, flow, work.payload(s), QueueFull) && WritableAnswer(env, s, flow, result)
    case AwaitEcho(s, flow, result) =>
      i > 0 && calls[i - 1] == Send(s, flow, work.payload(s), Accepted)
        && result == Outcome(EchoOf(flow, work.payload(s)), env.echo(s))
    case _ => true
  }

  ghost predicate WritableAnswer(env: Service, s: nat, flow: u64, result: Waited) {
    exists k: nat :: k < MAX_RETRIES && result == Outcome(WritableOf(flow), env.writable(s, k))
  }

  predicate First(calls: seq<Call>, i: nat)
    requires i < |calls| && calls[i].Send?
  {
    forall j :: 0 <= j < i && calls[j].Send? ==> calls[j].sequence < calls[i].sequence
  }

  predicate Resend(calls: seq<Call>, i: nat)
    requires i < |calls| && calls[i].Send?
  {
    && i >= 2
    && calls[i - 2] == calls[i].(sent := QueueFull)
    && calls[i - 1].AwaitWritable? && calls[i - 1].sequence == calls[i].sequence
    && calls[i - 1].flow == calls[i].flow && calls[i - 1].result.verdict == Hit
  }

  ghost predicate AllDisciplined(env: Service, work: Work, calls: seq<Call>)
    requires work.flows != []
  {
    calls == [] || (AllDisciplined(env, work, calls[..|calls| - 1]) && Disciplined(env, work, calls, |calls| - 1))
  }

  lemma {:induction false} EachDisciplined(env: Service, work: Work, calls: seq<Call>, i: nat)
    requires work.flows != [] && AllDisciplined(env, work, calls) && i < |calls|
    ensures Disciplined(env, work, calls, i)
  {
    if i < |calls| - 1 {
      var before := calls[..|calls| - 1];
      EachDisciplined(env, work, before, i);
      assert forall j :: 0 <= j <= i ==> before[j] == calls[j];
    }
  }

  predicate SendsBelow(calls: seq<Call>, s: nat) {
    forall i :: 0 <= i < |calls| && calls[i].Send? ==> calls[i].sequence < s
  }

  predicate FewSends(calls: seq<Call>, r: nat) {
    CountSends(calls, r) <= MAX_RETRIES + 1
  }

  lemma {:induction false} NoSendsAbove(calls: seq<Call>, s: nat)
    requires SendsBelow(calls, s)
    ensures CountSends(calls, s) == 0
  {
    if calls == [] {
    } else {
      NoSendsAbove(calls[..|calls| - 1], s);
    }
  }

  /** The last call reported room for datagram `s`, which the call before it could not place. */
  predicate ReadyAgain(work: Work, s: nat, calls: seq<Call>)
    requires work.flows != []
  {
    && |calls| >= 2
    && calls[|calls| - 2] == Send(s, FlowFor(work, s), work.payload(s), QueueFull)
    && calls[|calls| - 1].AwaitWritable? && calls[|calls| - 1].sequence == s
    && calls[|calls| - 1].flow == FlowFor(work, s) && calls[|calls| - 1].result.verdict == Hit
  }

  /** Datagram `s` is about to be sent after `k` refusals for want of room; `r` is any datagram. */
  ghost predicate Retrying(env: Service, work: Work, s: nat, k: nat, calls: seq<Call>, r: nat)
    requires work.flows != []
  {
    && AllDisciplined(env, work, calls)
    && CountSends(calls, s) == k
    && FewSends(calls, r)
    && if k == 0 then SendsBelow(calls, s) else SendsBelow(calls, s + 1) && ReadyAgain(work, s, calls)
  }

  lemma SendIsDisciplined(env: Service, work: Work, s: nat, calls: seq<Call>, call: Call, sent: seq<Call>)
    requires work.flows != [] && s < work.datagrams && AllDisciplined(env, work, calls)
    requires SendsBelow(calls, s) || (SendsBelow(calls, s + 1) && ReadyAgain(work, s, calls))
    requires call.Send? && call == Send(s, FlowFor(work, s), work.payload(s), call.sent) && sent == calls + [call]
    ensures AllDisciplined(env, work, sent) && SendsBelow(sent, s + 1)
  {
    assert sent[..|calls|] == calls;
    if !SendsBelow(calls, s) {
      assert sent[|calls| - 1] == calls[|calls| - 1] && sent[|calls| - 2] == calls[|calls| - 2];
      assert Resend(sent, |calls|);
    }
  }

  /** Calls that send nothing leave the discipline as it was. */
  lemma WaitIsDisciplined(env: Service, work: Work, calls: seq<Call>, call: Call, longer: seq<Call>, s: nat)
    requires work.flows != [] && AllDisciplined(env, work, calls) && SendsBelow(calls, s)
    requires !call.Send? && longer == calls + [call] && Disciplined(env, work, longer, |calls|)
    ensures AllDisciplined(env, work, longer) && SendsBelow(longer, s)
  {
    assert longer[..|calls|] == calls;
  }

  /** Datagram `s` is done with, and every call so far was in order. */
  ghost predicate InOrder(env: Service, work: Work, s: nat, calls: seq<Call>, r: nat)
    requires work.flows != []
  {
    AllDisciplined(env, work, calls) && SendsBelow(calls, s + 1) && FewSends(calls, r)
  }

  lemma AfterSend(env: Service, work: Work, s: nat, k: nat, calls: seq<Call>, call: Call, sent: seq<Call>, r: nat)
    requires work.flows != [] && s < work.datagrams && Retrying(env, work, s, k, calls, r) && k <= MAX_RETRIES
    requires call.Send? && call == Send(s, FlowFor(work, s), work.payload(s), call.sent) && sent == calls + [call]
    ensures InOrder(env, work, s, sent, r)
    ensures CountSends(sent, s) == k + 1
  {
    SendsAppended(calls, call, sent, s);
    SendsAppended(calls, call, sent, r);
    SendIsDisciplined(env, work, s, calls, call, sent);
  }

  lemma AfterOtherCall(env: Service, work: Work, s: nat, calls: seq<Call>, call: Call, longer: seq<Call>, r: nat)
    requires work.flows != [] && InOrder(env, work, s, calls, r) && !call.Send? && longer == calls + [call]
    requires Disciplined(env, work, longer, |calls|)
    ensures InOrder(env, work, s, longer, r)
    ensures CountSends(longer, s) == CountSends(calls, s)
  {
    SendsAppended(calls, call, longer, s);
    SendsAppended(calls, call, longer, r);
    WaitIsDisciplined(env, work, calls, call, longer, s + 1);
  }

  lemma AfterRoom(env: Service, work: Work, s: nat, k: nat, sent: seq<Call>, wait: Call, waited: seq<Call>, r: nat)
    requires work.flows != [] && InOrder(env, work, s, sent, r) && CountSends(sent, s) == k + 1
    requires |sent| > 0 && sent[|sent| - 1] == Send(s, FlowFor(work, s), work.payload(s), QueueFull)
    requires wait.AwaitWritable? && wait.sequence == s && wait.flow == FlowFor(work, s) && waited == sent + [wait]
    requires WritableAnswer(env, s, wait.flow, wait.result)
    ensures InOrder(env, work, s, waited, r)
    ensures wait.result.verdict == Hit ==> Retrying(env, work, s, k + 1, waited, r)
  {
    assert waited[|waited| - 2] == sent[|sent| - 1];
    AfterOtherCall(env, work, s, sent, wait, waited, r);
  }

  /** One unsuccessful send and the wait that follows it. */
  lemma RetryIsDisciplined(env: Service, work: Work, s: nat, k: nat, calls: seq<Call>, call: Call, wait: Call, r: nat)
    requires work.flows != [] && k < MAX_RETRIES && s < work.datagrams && Retrying(env, work, s, k, calls, r)
    requires call == Send(s, FlowFor(work, s), work.payload(s), QueueFull)
    requires wait.AwaitWritable? && wait.sequence == s && wait.flow == FlowFor(work, s)
    requires WritableAnswer(env, s, wait.flow, wait.result)
    ensures InOrder(env, work, s, calls + [call] + [wait], r)
    ensures wait.result.verdict == Hit ==> Retrying(env, work, s, k + 1, calls + [call] + [wait], r)
  {
    AfterSend(env, work, s, k, calls, call, calls + [call], r);
    AfterRoom(env, work, s, k, calls + [call], wait, calls + [call] + [wait], r);
  }

  function SendCall(env: Service, work: Work, s: nat, k: nat): Call
    requires work.flows != []
  {
    Send(s, FlowFor(work, s), work.payload(s), env.send(s, k))
  }

  function WaitCall(env: Service, work: Work, s: nat, k: nat): Call
    requires work.flows != []
  {
    AwaitWritable(s, FlowFor(work, s), Outcome(WritableOf(FlowFor(work, s)), env.writable(s, k)))
  }

  /** The progress after a send without room and the wait for room. */
  function AfterRefusal(env: Service, work: Work, s: nat, k: nat, p: Progress): Progress
    requires work.flows != []
  {
    var w := Outcome(WritableOf(FlowFor(work, s)), env.writable(s, k));
    Counted(Logged(p, SendCall(env, work, s, k)), w, WaitCall(env, work, s, k)).(queueFull := p.queueFull + 1)
  }

  lemma SendUnfolds(env: Service, work: Work, s: nat, k: nat, p: Progress)
    requires work.flows != [] && k <= MAX_RETRIES
    ensures !(env.send(s, k) == QueueFull && k < MAX_RETRIES) ==>
      SendFrom(env, work, s, k, p).calls == p.calls + [SendCall(env, work, s, k)]
    ensures env.send(s, k) == QueueFull && k < MAX_RETRIES ==>
      AfterRefusal(env, work, s, k, p).calls == p.calls + [SendCall(env, work, s, k)] + [WaitCall(env, work, s, k)]
    ensures env.send(s, k) == QueueFull && k < MAX_RETRIES && WaitCall(env, work, s, k).result.verdict == Hit ==>
      SendFrom(env, work, s, k, p) == SendFrom(env, work, s, k + 1, AfterRefusal(env, work, s, k, p))
    ensures env.send(s, k) == QueueFull && k < MAX_RETRIES && WaitCall(env, work, s, k).result.verdict != Hit ==>
      SendFrom(env, work, s, k, p).calls == AfterRefusal(env, work, s, k, p).calls
  {
  }

  // What one datagram's retries amount to.

  /** The j-th attempt found no room, and room was reported afterwards. */
  predicate RoomAgain(env: Service, work: Work, s: nat, j: nat)
    requires work.flows != []
  {
    env.send(s, j) == QueueFull && WaitCall(env, work, s, j).result.verdict == Hit
  }

  predicate RoomAgainUpTo(env: Service, work: Work, s: nat, n: nat)
    requires work.flows != []
  {
    forall j: nat :: j < n ==> RoomAgain(env, work, s, j)
  }

  /** The calls of the attempts before the n-th. */
  function Attempts(env: Service, work: Work, s: nat, n: nat): (calls: seq<Call>)
    requires work.flows != []
    ensures |calls| == 2 * n
  {
    if n == 0 then [] else Attempts(env, work, s, n - 1) + [SendCall(env, work, s, n - 1)] + [WaitCall(env, work, s, n - 1)]
  }

  /**
   * The n-th attempt is the last: all before it were refused for want of room that then came, and it was taken,
   * refused otherwise, not followed by room, or the 17th.
   */
  predicate SentWith(env: Service, work: Work, s: nat, n: nat, before: Progress, p: Progress)
    requires work.flows != []
  {
    var waits := env.send(s, n) == QueueFull && n < MAX_RETRIES;
    && n <= MAX_RETRIES && RoomAgainUpTo(env, work, s, n) && (n < MAX_RETRIES ==> !RoomAgain(env, work, s, n))
    && (p.failed <==> env.send(s, n) != Accepted)
    && (p.lost <==> env.send(s, n) == SendCallFailed || (waits && WaitCall(env, work, s, n).result.verdict == ServiceLost))
    && p.queueFull == before.queueFull + n + (if waits then 1 else 0)
    && p.calls == before.calls + Attempts(env, work, s, n) + [SendCall(env, work, s, n)]
      + (if waits then [WaitCall(env, work, s, n)] else [])
    && p.attempted == before.attempted && p.accepted == before.accepted && p.echoed == before.echoed
  }

  lemma {:induction false} SendEndsWith(env: Service, work: Work, s: nat, k: nat, before: Progress, p: Progress)
    returns (n: nat)
    requires work.flows != [] && k <= MAX_RETRIES && RoomAgainUpTo(env, work, s, k)
    requires p.calls == before.calls + Attempts(env, work, s, k) && p.queueFull == before.queueFull + k
    requires p.attempted == before.attempted && p.accepted == before.accepted && p.echoed == before.echoed
    requires !p.failed && !p.lost
    ensures SentWith(env, work, s, n, before, SendFrom(env, work, s, k, p))
    decreases MAX_RETRIES - k
  {
    n := k;
    if k < MAX_RETRIES && RoomAgain(env, work, s, k) {
      var next := AfterRefusal(env, work, s, k, p);
      SendUnfolds(env, work, s, k, p);
      assert next.calls == before.calls + Attempts(env, work, s, k + 1);
      n := SendEndsWith(env, work, s, k + 1, before, next);
    }
  }

  ghost predicate SentSomehow(env: Service, work: Work, s: nat, before: Progress, p: Progress)
    requires work.flows != []
  {
    exists n: nat :: SentWith(env, work, s, n, before, p)
  }

  /** What the retry loop of one datagram does, in one line of calls, and when it ends how. */
  lemma SendMeans(env: Service, work: Work, s: nat, before: Progress)
    requires work.flows != [] && !before.failed && !before.lost
    ensures SentSomehow(env, work, s, before, SendFrom(env, work, s, 0, before))
  {
    var n := SendEndsWith(env, work, s, 0, before, before);
  }

  // The discipline over all datagrams.

  lemma {:induction false} SendsAreDisciplined(env: Service, work: Work, s: nat, k: nat, p: Progress, r: nat)
    requires work.flows != [] && k <= MAX_RETRIES && s < work.datagrams
    requires Retrying(env, work, s, k, p.calls, r)
    ensures InOrder(env, work, s, SendFrom(env, work, s, k, p).calls, r)
    decreases MAX_RETRIES - k
  {
    var call, wait := SendCall(env, work, s, k), WaitCall(env, work, s, k);
    SendUnfolds(env, work, s, k, p);
    if env.send(s, k) == QueueFull && k < MAX_RETRIES {
      RetryIsDisciplined(env, work, s, k, p.calls, call, wait, r);
      if wait.result.verdict == Hit {
        SendsAreDisciplined(env, work, s, k + 1, AfterRefusal(env, work, s, k, p), r);
      }
    } else {
      AfterSend(env, work, s, k, p.calls, call, p.calls + [call], r);
    }
  }

  lemma {:induction false} LastSendAccepted(env: Service, work: Work, s: nat, k: nat, p: Progress)
    requires work.flows != [] && k <= MAX_RETRIES && !SendFrom(env, work, s, k, p).failed
    ensures
      var calls := SendFrom(env, work, s, k, p).calls;
      calls != [] && calls[|calls| - 1] == Send(s, FlowFor(work, s), work.payload(s), Accepted)
    decreases MAX_RETRIES - k
  {
    SendUnfolds(env, work, s, k, p);
    if env.send(s, k) == QueueFull && k < MAX_RETRIES {
      LastSendAccepted(env, work, s, k + 1, AfterRefusal(env, work, s, k, p));
    }
  }

  lemma EchoIsDisciplined(env: Service, work: Work, s: nat, p: Progress, r: nat)
    requires work.flows != [] && InOrder(env, work, s, p.calls, r)
    requires p.calls != [] && p.calls[|p.calls| - 1] == Send(s, FlowFor(work, s), work.payload(s), Accepted)
    ensures InOrder(env, work, s, AfterAccepted(env, work, s, p).calls, r)
  {
    if work.echoReplies {
      var w := Outcome(EchoOf(FlowFor(work, s), work.payload(s)), env.echo(s));
      var call := AwaitEcho(s, FlowFor(work, s), w);
      AfterOtherCall(env, work, s, p.calls, call, p.calls + [call], r);
    }
  }

  lemma {:induction false} DatagramsAreDisciplined(env: Service, work: Work, s: nat, p: Progress, r: nat)
    requires work.flows != [] && s <= work.datagrams
    requires AllDisciplined(env, work, p.calls) && SendsBelow(p.calls, s) && FewSends(p.calls, r)
    ensures AllDisciplined(env, work, Datagrams(env, work, s, p).calls)
    ensures FewSends(Datagrams(env, work, s, p).calls, r)
    decreases work.datagrams - s
  {
    if s < work.datagrams && !p.failed {
      NoSendsAbove(p.calls, s);
      var begun := p.(attempted := p.attempted + 1);
      SendsAreDisciplined(env, work, s, 0, begun, r);
      var sent := SendFrom(env, work, s, 0, begun);
      if !sent.failed {
        LastSendAccepted(env, work, s, 0, begun);
        EchoIsDisciplined(env, work, s, sent, r);
      }
      DatagramsAreDisciplined(env, work, s + 1, Datagram(env, work, s, p), r);
    }
  }

  // Counters, failure and service loss.

  predicate Quiet(calls: seq<Call>) {
    forall i :: 0 <= i < |calls| ==> !Loss(calls[i]) && !calls[i].CloseFlow?
  }

  /** Nothing has been closed, and only the very last call can have lost the service. */
  predicate EndsWell(calls: seq<Call>, lost: bool) {
    if lost then |calls| > 0 && Loss(calls[|calls| - 1]) && Quiet(calls[..|calls| - 1]) else Quiet(calls)
  }

  /** The counters agree with the log. */
  predicate Sound(p: Progress) {
    (p.lost ==> p.failed) && CountTaken(p.calls) == p.accepted && CountEchoed(p.calls) == p.echoed
    && EndsWell(p.calls, p.lost)
  }

  /** What the log must look like for these counters. */
  predicate LogSays(calls: seq<Call>, taken: nat, echoed: nat, lost: bool) {
    CountTaken(calls) == taken && CountEchoed(calls) == echoed && EndsWell(calls, lost)
  }

  lemma LogGrows(calls: seq<Call>, call: Call, longer: seq<Call>, taken: nat, echoed: nat)
    requires LogSays(calls, taken, echoed, false) && longer == calls + [call] && !call.CloseFlow?
    ensures LogSays(longer, taken + (if Took(call) then 1 else 0), echoed + (if Echoed(call) then 1 else 0), Loss(call))
  {
    Appended(calls, call, longer);
    assert longer[..|longer| - 1] == calls;
  }

  lemma {:induction false} SendsAreSound(env: Service, work: Work, s: nat, k: nat, p: Progress)
    requires work.flows != [] && k <= MAX_RETRIES
    requires !p.failed && !p.lost && LogSays(p.calls, p.accepted, p.echoed, false)
    ensures
      var r := SendFrom(env, work, s, k, p);
      && r.attempted == p.attempted && r.accepted == p.accepted && r.echoed == p.echoed
      && (r.lost ==> r.failed)
      && LogSays(r.calls, p.accepted + (if r.failed then 0 else 1), p.echoed, r.lost)
    decreases MAX_RETRIES - k
  {
    var call := Send(s, FlowFor(work, s), work.payload(s), env.send(s, k));
    var sent := Logged(p, call);
    LogGrows(p.calls, call, sent.calls, p.accepted, p.echoed);
    if env.send(s, k) == QueueFull && k < MAX_RETRIES {
      var w := Outcome(WritableOf(FlowFor(work, s)), env.writable(s, k));
      var wait := AwaitWritable(s, FlowFor(work, s), w);
      var waited := Counted(sent, w, wait).(queueFull := p.queueFull + 1);
      LogGrows(sent.calls, wait, waited.calls, p.accepted, p.echoed);
      if w.verdict == Hit {
        SendsAreSound(env, work, s, k + 1, waited);
      }
    }
  }

  /** Datagrams before `s` are through; the counters say so unless the last one failed. */
  predicate Through(work: Work, s: nat, p: Progress) {
    && Sound(p)
    && p.attempted == s
    && p.echoed <= p.accepted <= p.attempted
    && (!p.failed ==> p.accepted == s && (work.echoReplies ==> p.echoed == s))
    && (p.failed ==> p.accepted < s || (work.echoReplies && p.echoed < p.accepted))
  }

  lemma EchoIsSound(env: Service, work: Work, s: nat, sent: Progress)
    requires work.flows != [] && !sent.failed && !sent.lost
    requires LogSays(sent.calls, s + 1, sent.echoed, false)
    requires sent.attempted == s + 1 && sent.accepted == s && sent.echoed <= s && (work.echoReplies ==> sent.echoed == s)
    ensures Through(work, s + 1, AfterAccepted(env, work, s, sent))
  {
    if work.echoReplies {
      var w := Outcome(EchoOf(FlowFor(work, s), work.payload(s)), env.echo(s));
      var call := AwaitEcho(s, FlowFor(work, s), w);
      LogGrows(sent.calls, call, sent.calls + [call], s + 1, s);
    }
  }

  lemma DatagramIsSound(env: Service, work: Work, s: nat, p: Progress)
    requires work.flows != [] && Through(work, s, p) && !p.failed
    ensures Through(work, s + 1, Datagram(env, work, s, p))
  {
    var begun := p.(attempted := p.attempted + 1);
    SendsAreSound(env, work, s, 0, begun);
    var sent := SendFrom(env, work, s, 0, begun);
    if !sent.failed {
      EchoIsSound(env, work, s, sent);
    }
  }

  lemma {:induction false} DatagramsAreSound(env: Service, work: Work, s: nat, p: Progress) returns (done: nat)
    requires work.flows != [] && s <= work.datagrams && Through(work, s, p)
    ensures s <= done <= work.datagrams && Through(work, done, Datagrams(env, work, s, p))
    ensures !Datagrams(env, work, s, p).failed ==> done == work.datagrams
    decreases work.datagrams - s
  {
    if s == work.datagrams || p.failed {
      done := s;
    } else {
      DatagramIsSound(env, work, s, p);
      done := DatagramsAreSound(env, work, s + 1, Datagram(env, work, s, p));
    }
  }
}
