/**
 * What the same UDP workload does over ordinary sockets of the system's socket service, against any behaviour of the
 * sockets: opening, the retries, and the three outcomes a run can be told to expect.
 */
module BsdUdpSpec {
  import opened Bytes
  import opened WorkloadPayload

  const MAX_RETRIES := 16

  datatype Expected = EchoReply | NoReplyTimeout | TerminalClosure

  datatype Workload = Workload(id: u32, seed: u32, datagrams: u32, flows: nat, payloadBytes: nat, echoReplies: bool,
    expected: Expected, verifyRejection: bool, requireRecovery: bool)

  predicate Runnable(c: Workload) {
    0 < c.flows < 0x1_0000_0000 && c.payloadBytes >= PAYLOAD_HEADER_BYTES
  }

  datatype SocketReply = SocketFailed | SocketOpened(fd: nat, connected: bool, named: bool, nonBlocking: bool)

  /** `Again` covers EAGAIN and EWOULDBLOCK. */
  datatype SendReply = SentBytes(n: nat) | Again | SendFailed | Aborted

  datatype PollReply = PollFailed | PollTimedOut | PollEvents(hup: bool, writable: bool, readable: bool)

  datatype ReceiveReply = ReceiveFailed | Received(data: seq<byte>, fromRemote: bool)

  datatype Observation = Timeout | Readable | ClosedFlow | Error | OtherEvents

  /** What the sockets would do at each point where they are asked. */
  datatype Sockets = Sockets(socket: nat -> SocketReply, rejectsOption: bool, send: (nat, nat) -> SendReply,
    pollOut: (nat, nat) -> PollReply, pollIn: nat -> PollReply, receive: nat -> ReceiveReply,
    closingPoll: PollReply, closingSend: SendReply, closingClose: bool)

  datatype Call =
    | Socket(fd: nat)
    | Send(sequence: nat, fd: nat, payload: seq<byte>, sent: SendReply)
    | PollOut(sequence: nat, fd: nat, ready: PollReply)
    | PollIn(sequence: nat, fd: nat, seen: Observation)
    | Receive(sequence: nat, fd: nat, got: ReceiveReply)
    | Close(fd: nat)

  function Classify(reply: PollReply): Observation {
    match reply
    case PollFailed => Error
    case PollTimedOut => Timeout
    case PollEvents(hup, _, readable) => if hup then ClosedFlow else if readable then Readable else OtherEvents
  }

  /** Room to send was reported, and not the end of the flow. */
  predicate Writable(reply: PollReply) {
    reply.PollEvents? && !reply.hup && reply.writable
  }

  datatype SendRun = SendRun(sent: bool, recovered: bool, retries: nat, calls: seq<Call>)

  /** What is to be sent, once the descriptors are open. */
  datatype Work = Work(datagrams: u32, echoReplies: bool, fds: seq<nat>, payload: nat -> seq<byte>)

  function FdFor(work: Work, s: nat): nat
    requires work.fds != []
  {
    work.fds[s % |work.fds|]
  }

  /** Send datagram `s` on `fd` after the retries counted in `r`. */
  function SendFrom(env: Sockets, s: nat, fd: nat, payload: seq<byte>, r: SendRun): SendRun
    requires r.retries <= MAX_RETRIES
    decreases MAX_RETRIES - r.retries
  {
    var reply := env.send(s, r.retries);
    var asked := r.(calls := r.calls + [Send(s, fd, payload, reply)]);
    if reply.SentBytes? then asked.(sent := reply.n == |payload|)
    else if reply != Again || r.retries == MAX_RETRIES then asked
    else
      var ready := env.pollOut(s, r.retries);
      var polled := asked.(retries := r.retries + 1, calls := asked.calls + [PollOut(s, fd, ready)]);
      if !Writable(ready) then polled else SendFrom(env, s, fd, payload, polled.(recovered := true))
  }

  function SendOnce(env: Sockets, s: nat, fd: nat, payload: seq<byte>): SendRun {
    SendFrom(env, s, fd, payload, SendRun(false, false, 0, []))
  }

  /** Poll for input and, if there is any, receive. */
  function EchoCalls(env: Sockets, s: nat, fd: nat): seq<Call> {
    var seen := Classify(env.pollIn(s));
    [PollIn(s, fd, seen)] + if seen == Readable then [Receive(s, fd, env.receive(s))] else []
  }

  predicate EchoMatches(env: Sockets, s: nat, payload: seq<byte>) {
    && Classify(env.pollIn(s)) == Readable
    && env.receive(s).Received? && env.receive(s).data == payload && env.receive(s).fromRemote
  }

  datatype Progress = Progress(echoed: nat, retries: nat, recovered: bool, failed: bool, calls: seq<Call>)

  function Datagram(env: Sockets, work: Work, s: nat, p: Progress): Progress
    requires work.fds != []
  {
    var fd := FdFor(work, s);
    var r := SendOnce(env, s, fd, work.payload(s));
    var sent := p.(retries := p.retries + r.retries, recovered := p.recovered || r.recovered, failed := !r.sent,
      calls := p.calls + r.calls);
    if !r.sent || !work.echoReplies then sent
    else if EchoMatches(env, s, work.payload(s)) then
      sent.(echoed := p.echoed + 1, calls := sent.calls + EchoCalls(env, s, fd))
    else sent.(failed := true, calls := sent.calls + EchoCalls(env, s, fd))
  }

  function Datagrams(env: Sockets, work: Work, s: nat, p: Progress): Progress
    requires work.fds != [] && s <= work.datagrams
    decreases work.datagrams - s
  {
    if s == work.datagrams || p.failed then p else Datagrams(env, work, s + 1, Datagram(env, work, s, p))
  }

  predicate Configured(reply: SocketReply) {
    reply.SocketOpened? && reply.connected && reply.named && reply.nonBlocking
  }

  /** The descriptors opened from the k-th on, the last of which may not be usable. */
  function Opened(env: Sockets, k: nat, n: nat): (fds: seq<nat>)
    requires k <= n
    ensures |fds| <= n - k
    decreases n - k
  {
    if k == n || env.socket(k) == SocketFailed then [] else
      [env.socket(k).fd] + if Configured(env.socket(k)) then Opened(env, k + 1, n) else []
  }

  predicate AllConfigured(env: Sockets, k: nat, n: nat)
    requires k <= n
    decreases n - k
  {
    k == n || (Configured(env.socket(k)) && AllConfigured(env, k + 1, n))
  }

  function SocketCalls(fds: seq<nat>): (calls: seq<Call>)
    ensures |calls| == |fds|
  {
    seq(|fds|, i requires 0 <= i < |fds| => Socket(fds[i]))
  }

  function Closes(fds: seq<nat>): (calls: seq<Call>)
    ensures |calls| == |fds|
  {
    seq(|fds|, i requires 0 <= i < |fds| => Close(fds[i]))
  }

  datatype Report = Report(success: bool, calls: seq<Call>)

  function IdentityOf(c: Workload, s: nat): Identity
    requires Runnable(c)
  {
    Identity(BsdSystem, c.id, s % c.flows, s % 0x1_0000_0000, c.seed)
  }

  function WorkOf(c: Workload, fds: seq<nat>): Work
    requires Runnable(c)
  {
    Work(c.datagrams, c.echoReplies, fds, s => Payload(IdentityOf(c, s), c.payloadBytes))
  }

  function EchoRun(env: Sockets, c: Workload, work: Work): Report
    requires work.fds != []
  {
    var p := Datagrams(env, work, 0, Progress(0, 0, false, false, []));
    Report(!p.failed && (c.requireRecovery ==> p.retries != 0 && p.recovered)
        && (work.echoReplies ==> p.echoed == work.datagrams),
      p.calls + Closes(work.fds))
  }

  function TimeoutRun(env: Sockets, work: Work): Report
    requires work.fds != []
  {
    var r := SendOnce(env, 0, work.fds[0], work.payload(0));
    var seen := Classify(env.pollIn(0));
    if !r.sent then Report(false, r.calls + Closes(work.fds))
    else Report(seen == Timeout, r.calls + [PollIn(0, work.fds[0], seen)] + Closes(work.fds))
  }

  /** The closing phase after the echo; the first descriptor is closed for its result before the others. */
  function ClosureCalls(env: Sockets, work: Work): seq<Call>
    requires work.fds != []
  {
    var fd, seen := work.fds[0], Classify(env.closingPoll);
    [PollIn(0, fd, seen)] +
      if seen != ClosedFlow then Closes(work.fds) else
        [Send(0, fd, work.payload(0), env.closingSend)] +
          if env.closingSend != Aborted then Closes(work.fds)
          else [Close(fd)] + Closes(if env.closingClose then work.fds[1..] else work.fds)
  }

  predicate ClosureConfirmed(env: Sockets) {
    Classify(env.closingPoll) == ClosedFlow && env.closingSend == Aborted && env.closingClose
  }

  function TerminalRun(env: Sockets, work: Work): Report
    requires work.fds != []
  {
    var fd := work.fds[0];
    var r := SendOnce(env, 0, fd, work.payload(0));
    if !r.sent then Report(false, r.calls + Closes(work.fds))
    else if !EchoMatches(env, 0, work.payload(0)) then Report(false, r.calls + EchoCalls(env, 0, fd) + Closes(work.fds))
    else Report(ClosureConfirmed(env), r.calls + EchoCalls(env, 0, fd) + ClosureCalls(env, work))
  }

  predicate Begins(env: Sockets, c: Workload) {
    AllConfigured(env, 0, c.flows) && (c.verifyRejection ==> env.rejectsOption)
  }

  function Run(env: Sockets, c: Workload): Report
    requires Runnable(c)
  {
    var fds := Opened(env, 0, c.flows);
    if !Begins(env, c) || fds == [] then Report(false, SocketCalls(fds) + Closes(fds)) else
      var r := Chosen(env, c, WorkOf(c, fds));
      Report(r.success, SocketCalls(fds) + r.calls)
  }

  function Chosen(env: Sockets, c: Workload, work: Work): Report
    requires work.fds != []
  {
    match c.expected
    case EchoReply => EchoRun(env, c, work)
    case NoReplyTimeout => TimeoutRun(env, work)
    case TerminalClosure => TerminalRun(env, work)
  }
}
