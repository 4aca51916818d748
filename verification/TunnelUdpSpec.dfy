/**
 * What one UDP workload over the tunnel service does, against any behaviour of the service: open the flows, send
 * every datagram with bounded retries, wait for its echo, close the flows.
 */
module TunnelUdpSpec {
  import opened Bytes
  import opened TunnelWaits
  import opened WorkloadPayload

  const MAX_RETRIES := 16

  datatype Workload = Workload(id: u32, seed: u32, datagrams: u32, flows: nat, payloadBytes: nat, echoReplies: bool)

  predicate Runnable(c: Workload) {
    0 < c.flows < 0x1_0000_0000 && c.payloadBytes >= PAYLOAD_HEADER_BYTES
  }

  datatype OpenReply = OpenCallFailed | OpenRefused | Opened(flow: u64, port: u16)

  datatype SendReply = SendCallFailed | Accepted | QueueFull | Refused

  /** What the service would do at each point where it is asked: the k-th open, the k-th send of datagram s, ... */
  datatype Service = Service(open: nat -> OpenReply, send: (nat, nat) -> SendReply,
    writable: (nat, nat) -> seq<Wake>, echo: nat -> seq<Wake>)

  /** The calls of one run in order, each with its outcome. */
  datatype Call =
    | OpenFlow(reply: OpenReply)
    | Send(sequence: nat, flow: u64, payload: seq<byte>, sent: SendReply)
    | AwaitWritable(sequence: nat, flow: u64, result: Waited)
    | AwaitEcho(sequence: nat, flow: u64, result: Waited)
    | CloseFlow(flow: u64)

  /** `failed` means that a failure has been described; `lost` that the service is gone. */
  datatype Progress = Progress(attempted: nat, accepted: nat, echoed: nat, queueFull: nat, ignored: nat, wakes: nat,
    failed: bool, lost: bool, calls: seq<Call>)

  datatype Summary = Summary(success: bool, progress: Progress)

  /** What is to be sent, once the flows are open. */
  datatype Work = Work(datagrams: u32, echoReplies: bool, flows: seq<u64>, payload: nat -> seq<byte>)

  predicate Usable(reply: OpenReply) {
    reply.Opened? && reply.port != 0
  }

  function FlowFor(work: Work, s: nat): u64
    requires work.flows != []
  {
    work.flows[s % |work.flows|]
  }

  function Logged(p: Progress, call: Call): Progress {
    p.(calls := p.calls + [call])
  }

  function Counted(p: Progress, w: Waited, call: Call): Progress {
    p.(ignored := p.ignored + w.ignored, wakes := p.wakes + w.wakes, calls := p.calls + [call])
  }

  /** Send datagram `s` after `k` retries. */
  function SendFrom(env: Service, work: Work, s: nat, k: nat, p: Progress): Progress
    requires work.flows != [] && k <= MAX_RETRIES
    decreases |work.flows|, MAX_RETRIES - k
  {
    var flow := FlowFor(work, s);
    var sent := Logged(p, Send(s, flow, work.payload(s), env.send(s, k)));
    match env.send(s, k)
    case SendCallFailed => sent.(failed := true, lost := true)
    case Accepted => sent
    case Refused => sent.(failed := true)
    case QueueFull =>
      if k == MAX_RETRIES then sent.(failed := true) else
        var w := Outcome(WritableOf(flow), env.writable(s, k));
        var waited := Counted(sent, w, AwaitWritable(s, flow, w)).(queueFull := p.queueFull + 1);
        if w.verdict == Hit then SendFrom(env, work, s, k + 1, waited)
        else waited.(failed := true, lost := w.verdict == ServiceLost)
  }

  function AfterAccepted(env: Service, work: Work, s: nat, p: Progress): Progress
    requires work.flows != []
  {
    var accepted := p.(accepted := p.accepted + 1);
    if !work.echoReplies then accepted else
      var flow := FlowFor(work, s);
      var w := Outcome(EchoOf(flow, work.payload(s)), env.echo(s));
      var waited := Counted(accepted, w, AwaitEcho(s, flow, w));
      if w.verdict == Hit then waited.(echoed := p.echoed + 1)
      else waited.(failed := true, lost := w.verdict == ServiceLost)
  }

  function Datagram(env: Service, work: Work, s: nat, p: Progress): Progress
    requires work.flows != []
  {
    var sent := SendFrom(env, work, s, 0, p.(attempted := p.attempted + 1));
    if sent.failed then sent else AfterAccepted(env, work, s, sent)
  }

  /** Datagrams `s`, `s + 1`, ... until one fails. */
  function Datagrams(env: Service, work: Work, s: nat, p: Progress): Progress
    requires work.flows != [] && s <= work.datagrams
    decreases work.datagrams - s
  {
    if s == work.datagrams || p.failed then p else Datagrams(env, work, s + 1, Datagram(env, work, s, p))
  }

  /** The open calls from the k-th on, up to the first one that fails. */
  function Opens(env: Service, k: nat, n: nat): (calls: seq<Call>)
    requires k <= n
    ensures |calls| <= n - k
    decreases n - k
  {
    if k == n then [] else
      [OpenFlow(env.open(k))] + if Usable(env.open(k)) then Opens(env, k + 1, n) else []
  }

  /** The flows those opens leave behind for the run to use. */
  function Flows(opens: seq<Call>): seq<u64> {
    if opens == [] then [] else
      var last := opens[|opens| - 1];
      Flows(opens[..|opens| - 1]) + if last.OpenFlow? && Usable(last.reply) then [last.reply.flow] else []
  }

  function Closes(flows: seq<u64>): (calls: seq<Call>)
    ensures |calls| == |flows|
  {
    if flows == [] then [] else Closes(flows[..|flows| - 1]) + [CloseFlow(flows[|flows| - 1])]
  }

  function Start(opens: seq<Call>): Progress {
    Progress(0, 0, 0, 0, 0, 0, false, false, opens)
  }

  function IdentityOf(c: Workload, s: nat): Identity
    requires Runnable(c)
  {
    Identity(WgnxTun, c.id, s % c.flows, s % 0x1_0000_0000, c.seed)
  }

  function WorkOf(c: Workload, flows: seq<u64>): Work
    requires Runnable(c)
  {
    Work(c.datagrams, c.echoReplies, flows, s => Payload(IdentityOf(c, s), c.payloadBytes))
  }

  function Finish(p: Progress, work: Work): Summary {
    var done := if p.lost then p else p.(calls := p.calls + Closes(work.flows));
    Summary(done.accepted == work.datagrams && (!work.echoReplies || done.echoed == done.accepted), done)
  }

  function Run(env: Service, c: Workload): Summary
    requires Runnable(c)
  {
    var opens := Opens(env, 0, c.flows);
    var flows := Flows(opens);
    if |flows| != c.flows then Summary(false, Start(opens).(failed := true, calls := opens + Closes(flows)))
    else Finish(Datagrams(env, WorkOf(c, flows), 0, Start(opens)), WorkOf(c, flows))
  }
}
