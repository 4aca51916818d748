/**
 * The harness' account of the workload datagrams it receives: counters, sets and windows per flow, kept up to date
 * one datagram at a time, and what they say about everything that arrived.
 */
module HarnessStats {
  import opened Bytes
  import opened WorkloadPayload
  import opened Wrappers

  datatype Key = Key(kind: Kind, workload: u32, flow: u32)

  /** One datagram: what it identifies itself as, its size and sender, whether it was sent back, and the clock then. */
  datatype Arrival = Arrival(parsed: Parsed, size: nat, source: string, echoed: bool, now: nat)

  /** A datagram that names the kind, the workload and the flow of this key. */
  predicate Names(parsed: Parsed, key: Key) {
    parsed.Identified? && parsed.id.kind == key.kind && parsed.id.workload == key.workload && parsed.id.flow == key.flow
  }

  predicate Counts(a: Arrival, key: Key) {
    Names(a.parsed, key)
  }

  /** Its flow is among the keys. */
  predicate Listed(a: Arrival, keys: seq<Key>) {
    exists i :: 0 <= i < |keys| && Counts(a, keys[i])
  }

  lemma ListedUnder(a: Arrival, keys: seq<Key>, key: Key)
    requires Counts(a, key)
    ensures Listed(a, keys) <==> key in keys
  {
    forall k: Key | Counts(a, k) ensures k == key {
    }
  }

  function SequenceOf(a: Arrival): nat {
    if a.parsed.Identified? then a.parsed.id.sequence else 0
  }

  function Count(m: map<Key, nat>, key: Key): nat {
    if key in m then m[key] else 0
  }

  function Members<T>(m: map<Key, set<T>>, key: Key): set<T> {
    if key in m then m[key] else {}
  }

  function Look(m: map<Key, nat>, key: Key): Option<nat> {
    if key in m then Some(m[key]) else None
  }

  function Bump(m: map<Key, nat>, key: Key, n: nat): map<Key, nat> {
    m[key := Count(m, key) + n]
  }

  /** Everything the account knows about one flow. */
  datatype Flow = Flow(received: nat, bytes: nat, echoed: nat, bytesEchoed: nat, sources: set<string>,
    sequences: set<nat>, highest: Option<nat>, duplicates: nat, reordered: nat, first: Option<nat>, last: Option<nat>)

  const NO_FLOW := Flow(0, 0, 0, 0, {}, {}, None, 0, 0, None, None)

  function Received(f: Flow, a: Arrival): Flow {
    f.(received := f.received + 1, bytes := f.bytes + a.size)
  }

  function Seen(f: Flow, a: Arrival): Flow {
    f.(sources := f.sources + {a.source}, first := if f.first == None then Some(a.now) else f.first, last := Some(a.now))
  }

  function Collected(f: Flow, s: nat): Flow {
    f.(duplicates := if s in f.sequences then f.duplicates + 1 else f.duplicates, sequences := f.sequences + {s})
  }

  function Ordered(f: Flow, s: nat): Flow {
    f.(reordered := if f.highest.Some? && s < f.highest.value then f.reordered + 1 else f.reordered,
       highest := if f.highest.Some? && f.highest.value > s then f.highest else Some(s))
  }

  function SentBack(f: Flow, a: Arrival): Flow {
    if a.echoed then f.(echoed := f.echoed + 1, bytesEchoed := f.bytesEchoed + a.size) else f
  }

  function Noted(f: Flow, a: Arrival, key: Key): Flow {
    if Counts(a, key) then SentBack(Ordered(Collected(Seen(Received(f, a), a), SequenceOf(a)), SequenceOf(a)), a) else f
  }

  /** What one datagram does to the figures of its flow. */
  predicate GoesUp(f: Flow, g: Flow, s: nat, size: nat, source: string, isEchoed: bool, now: nat) {
    && g.received == f.received + 1 && g.bytes == f.bytes + size
    && g.echoed == f.echoed + (if isEchoed then 1 else 0) && g.bytesEchoed == f.bytesEchoed + (if isEchoed then size else 0)
    && g.sources == f.sources + {source} && g.sequences == f.sequences + {s}
    && g.duplicates == f.duplicates + (if s in f.sequences then 1 else 0)
    && g.reordered == f.reordered + (if f.highest.Some? && f.highest.value > s then 1 else 0)
    && g.highest.Some? && g.highest.value >= s
    && g.last == Some(now) && g.first == (if f.first.Some? then f.first else Some(now))
  }

  lemma NotedGoesUp(f: Flow, a: Arrival, key: Key)
    ensures Counts(a, key) ==> GoesUp(f, Noted(f, a, key), SequenceOf(a), a.size, a.source, a.echoed, a.now)
    ensures !Counts(a, key) ==> Noted(f, a, key) == f
  {
  }

  /** One flow's account after all arrivals. */
  function Replay(h: seq<Arrival>, key: Key): Flow {
    if h == [] then NO_FLOW else Noted(Replay(h[..|h| - 1], key), h[|h| - 1], key)
  }

  // What the account is supposed to say, read off the whole history of arrivals.

  function Total(h: seq<Arrival>, f: Arrival -> nat): nat {
    if h == [] then 0 else Total(h[..|h| - 1], f) + f(h[|h| - 1])
  }

  function If(c: bool, n: nat): nat {
    if c then n else 0
  }

  /** What the datagrams of one flow add up to. */
  function FlowTotal(h: seq<Arrival>, key: Key, f: Arrival -> nat): nat {
    if h == [] then 0 else FlowTotal(h[..|h| - 1], key, f) + If(Counts(h[|h| - 1], key), f(h[|h| - 1]))
  }

  function Unit(a: Arrival): nat {
    1
  }

  function Size(a: Arrival): nat {
    a.size
  }

  function EchoUnit(a: Arrival): nat {
    If(a.echoed, 1)
  }

  function EchoSize(a: Arrival): nat {
    If(a.echoed, a.size)
  }

  function SequencesOf(h: seq<Arrival>, key: Key): set<nat> {
    set i | 0 <= i < |h| && Counts(h[i], key) :: SequenceOf(h[i])
  }

  function SourcesOf(h: seq<Arrival>, key: Key): set<string> {
    set i | 0 <= i < |h| && Counts(h[i], key) :: h[i].source
  }

  function TimesOf(h: seq<Arrival>, key: Key): set<nat> {
    set i | 0 <= i < |h| && Counts(h[i], key) :: h[i].now
  }

  /** An earlier datagram of the flow had a higher sequence number. */
  predicate Late(h: seq<Arrival>, i: nat, key: Key)
    requires i < |h|
  {
    Counts(h[i], key) && exists j :: 0 <= j < i && Counts(h[j], key) && SequenceOf(h[j]) > SequenceOf(h[i])
  }

  function LateOf(h: seq<Arrival>, key: Key, upto: nat): nat
    requires upto <= |h|
  {
    if upto == 0 then 0 else LateOf(h, key, upto - 1) + if Late(h, upto - 1, key) then 1 else 0
  }

  function UnexpectedOf(h: seq<Arrival>): nat {
    Total(h, (a: Arrival) => If(a.parsed == Unexpected, 1))
  }

  function MalformedOf(h: seq<Arrival>): nat {
    Total(h, (a: Arrival) => If(a.parsed == Malformed, 1))
  }

  datatype Row = Row(received: nat, bytes: nat, echoed: nat, bytesEchoed: nat, unique: nat, duplicates: nat,
    reordered: nat, first: nat, last: nat, sources: set<string>)

  function SumUnique(keys: seq<Key>, h: seq<Arrival>): nat {
    if keys == [] then 0 else SumUnique(keys[..|keys| - 1], h) + |SequencesOf(h, keys[|keys| - 1])|
  }

  function SumLate(keys: seq<Key>, h: seq<Arrival>): nat {
    if keys == [] then 0 else SumLate(keys[..|keys| - 1], h) + LateOf(h, keys[|keys| - 1], |h|)
  }

  function AllSources(keys: seq<Key>, h: seq<Arrival>): set<string> {
    if keys == [] then {} else AllSources(keys[..|keys| - 1], h) + SourcesOf(h, keys[|keys| - 1])
  }

  /** The figures of a row that are sums over flows. */
  predicate Sums(row: Row, keys: seq<Key>, h: seq<Arrival>) {
    && row.received == SumFlows(keys, h, Unit) && row.bytes == SumFlows(keys, h, Size)
    && row.echoed == SumFlows(keys, h, EchoUnit) && row.bytesEchoed == SumFlows(keys, h, EchoSize)
    && row.unique == SumUnique(keys, h) && row.reordered == SumLate(keys, h)
    && row.unique + row.duplicates == row.received
    && row.sources == AllSources(keys, h)
  }

  /** The figures of one flow. */
  predicate Tells(row: Row, key: Key, h: seq<Arrival>) {
    && row.received == FlowTotal(h, key, Unit) && row.bytes == FlowTotal(h, key, Size)
    && row.echoed == FlowTotal(h, key, EchoUnit) && row.bytesEchoed == FlowTotal(h, key, EchoSize)
    && row.unique == |SequencesOf(h, key)| && row.reordered == LateOf(h, key, |h|)
    && row.unique + row.duplicates == row.received
    && row.sources == SourcesOf(h, key)
  }

  /** A row with one more flow added in; its window reaches from the earliest first to the latest last datagram. */
  function Added(row: Row, flow: Row): Row {
    Row(row.received + flow.received, row.bytes + flow.bytes, row.echoed + flow.echoed,
      row.bytesEchoed + flow.bytesEchoed, row.unique + flow.unique, row.duplicates + flow.duplicates,
      row.reordered + flow.reordered, if flow.first < row.first then flow.first else row.first,
      if flow.last > row.last then flow.last else row.last, row.sources + flow.sources)
  }

  lemma AddedSums(row: Row, flow: Row, keys: seq<Key>, key: Key, longer: seq<Key>, h: seq<Arrival>)
    requires Sums(row, keys, h) && Tells(flow, key, h) && longer == keys + [key]
    ensures Sums(Added(row, flow), longer, h)
  {
    assert longer[..|longer| - 1] == keys;
  }

  predicate NoZeros(m: map<Key, nat>) {
    forall key :: key in m ==> m[key] > 0
  }

  lemma BumpLeavesNoZeros(m: map<Key, nat>, key: Key)
    requires NoZeros(m)
    ensures NoZeros(Bump(m, key, 1))
  {
  }

  function SumCounts(m: map<Key, nat>, keys: seq<Key>): nat {
    if keys == [] then 0 else SumCounts(m, keys[..|keys| - 1]) + Count(m, keys[|keys| - 1])
  }

  lemma ReplayStep(h: seq<Arrival>, a: Arrival, longer: seq<Arrival>)
    requires longer == h + [a]
    ensures forall key: Key :: Replay(longer, key) == Noted(Replay(h, key), a, key)
    ensures UnexpectedOf(longer) == UnexpectedOf(h) + If(a.parsed == Unexpected, 1)
    ensures MalformedOf(longer) == MalformedOf(h) + If(a.parsed == Malformed, 1)
  {
    assert longer[..|longer| - 1] == h;
  }

  /** The dictionaries themselves, one entry per flow in each. */
  class UdpWorkloadStats {
    var received: map<Key, nat>
    var echoed: map<Key, nat>
    var bytesReceived: map<Key, nat>
    var bytesEchoed: map<Key, nat>
    var sources: map<Key, set<string>>
    var sequences: map<Key, set<nat>>
    var lastSequence: map<Key, nat>
    var duplicates: map<Key, nat>
    var reordered: map<Key, nat>
    var firstReceived: map<Key, nat>
    var lastReceived: map<Key, nat>
    var unexpected: nat
    var malformed: nat
    ghost var history: seq<Arrival>

    ghost function FlowAt(key: Key): Flow
      reads this
    {
      Flow(Count(received, key), Count(bytesReceived, key), Count(echoed, key), Count(bytesEchoed, key),
        Members(sources, key), Members(sequences, key), Look(lastSequence, key), Count(duplicates, key),
        Count(reordered, key), Look(firstReceived, key), Look(lastReceived, key))
    }

    ghost predicate Valid()
      reads this
    {
      && (forall key: Key :: FlowAt(key) == Replay(history, key))
      && unexpected == UnexpectedOf(history) && malformed == MalformedOf(history)
      && NoZeros(received) && NoZeros(echoed)
    }

    /** The keys of all flows, each once, as a summary collects them. */
    ghost predicate Lists(keys: seq<Key>)
      reads this
    {
      Distinct(keys) && forall key: Key :: key in keys <==> key in received || key in echoed
    }

    constructor ()
      ensures Valid() && history == []
    {
      received, echoed, bytesReceived, bytesEchoed := map[], map[], map[], map[];
      sources, sequences, lastSequence := map[], map[], map[];
      duplicates, reordered, firstReceived, lastReceived := map[], map[], map[], map[];
      unexpected, malformed, history := 0, 0, [];
    }

    method NoteReceived(key: Key, a: Arrival)
      modifies this`received, this`bytesReceived
      ensures received == Bump(old(received), key, 1)
      ensures forall k: Key :: FlowAt(k) == if k == key then Received(old(FlowAt(k)), a) else old(FlowAt(k))
    {
      received := Bump(received, key, 1);
      bytesReceived := Bump(bytesReceived, key, a.size);
    }

    method NoteSeen(key: Key, a: Arrival)
      modifies this`firstReceived, this`lastReceived, this`sources
      ensures forall k: Key :: FlowAt(k) == if k == key then Seen(old(FlowAt(k)), a) else old(FlowAt(k))
    {
      if key !in firstReceived {
        firstReceived := firstReceived[key := a.now];
      }
      lastReceived := lastReceived[key := a.now];
      sources := sources[key := Members(sources, key) + {a.source}];
    }

    method NoteCollected(key: Key, s: nat)
      modifies this`duplicates, this`sequences
      ensures forall k: Key :: FlowAt(k) == if k == key then Collected(old(FlowAt(k)), s) else old(FlowAt(k))
    {
      if s in Members(sequences, key) {
        duplicates := Bump(duplicates, key, 1);
      }
      sequences := sequences[key := Members(sequences, key) + {s}];
    }

    method NoteOrdered(key: Key, s: nat)
      modifies this`reordered, this`lastSequence
      ensures forall k: Key :: FlowAt(k) == if k == key then Ordered(old(FlowAt(k)), s) else old(FlowAt(k))
    {
      if key in lastSequence && s < lastSequence[key] {
        reordered := Bump(reordered, key, 1);
      }
      lastSequence := lastSequence[key :=
        if key in lastSequence && lastSequence[key] > s then lastSequence[key] else s];
    }

    method NoteEcho(key: Key, a: Arrival)
      modifies this`echoed, this`bytesEchoed
      ensures echoed == if a.echoed then Bump(old(echoed), key, 1) else old(echoed)
      ensures forall k: Key :: FlowAt(k) == if k == key then SentBack(old(FlowAt(k)), a) else old(FlowAt(k))
    {
      if a.echoed {
        echoed := Bump(echoed, key, 1);
        bytesEchoed := Bump(bytesEchoed, key, a.size);
      }
    }

    /** Record one datagram and say what it identified itself as. */
    method Record(data: seq<byte>, source: string, isEchoed: bool, now: nat) returns (parsed: Parsed)
      requires Valid()
      modifies this
      ensures Valid()
      ensures parsed == ParseWorkloadIdentity(data)
      ensures history == old(history) + [Arrival(parsed, |data|, source, isEchoed, now)]
      ensures forall k: Key :: !Names(parsed, k) ==> FlowAt(k) == old(FlowAt(k))
      ensures forall k: Key :: Names(parsed, k) ==>
        GoesUp(old(FlowAt(k)), FlowAt(k), parsed.id.sequence, |data|, source, isEchoed, now)
      ensures unexpected == old(unexpected) + (if parsed == Unexpected then 1 else 0)
      ensures malformed == old(malformed) + (if parsed == Malformed then 1 else 0)
    {
      parsed := ParseWorkloadIdentity(data);
      var a := Arrival(parsed, |data|, source, isEchoed, now);
      ReplayStep(history, a, history + [a]);
      Note(a);
      forall k: Key
        ensures Names(parsed, k) ==> GoesUp(old(FlowAt(k)), FlowAt(k), SequenceOf(a), |data|, source, isEchoed, now)
        ensures !Names(parsed, k) ==> FlowAt(k) == old(FlowAt(k))
      {
        NotedGoesUp(old(FlowAt(k)), a, k);
      }
      history := history + [a];
    }

    method Note(a: Arrival)
      requires NoZeros(received) && NoZeros(echoed)
      modifies this
      ensures NoZeros(received) && NoZeros(echoed) && history == old(history)
      ensures forall k: Key :: FlowAt(k) == Noted(old(FlowAt(k)), a, k)
      ensures unexpected == old(unexpected) + (if a.parsed == Unexpected then 1 else 0)
      ensures malformed == old(malformed) + (if a.parsed == Malformed then 1 else 0)
    {
      match a.parsed
      case Malformed => malformed := malformed + 1;
      case Unexpected => unexpected := unexpected + 1;
      case Identified(id) => NoteDatagram(Key(id.kind, id.workload, id.flow), id.sequence, a);
    }

    method NoteDatagram(key: Key, s: nat, a: Arrival)
      requires Counts(a, key) && s == SequenceOf(a) && NoZeros(received) && NoZeros(echoed)
      modifies this
      ensures NoZeros(received) && NoZeros(echoed)
      ensures forall k: Key :: FlowAt(k) == Noted(old(FlowAt(k)), a, k)
      ensures history == old(history) && unexpected == old(unexpected) && malformed == old(malformed)
    {
      BumpLeavesNoZeros(received, key);
      BumpLeavesNoZeros(echoed, key);
      NoteReceived(key, a);
      NoteSeen(key, a);
      NoteCollected(key, s);
      NoteOrdered(key, s);
      NoteEcho(key, a);
    }

    /** Every flow in the counters has a window. */
    lemma ListedHasWindow(key: Key)
      requires Valid() && (key in received || key in echoed)
      ensures key in received && key in firstReceived && key in lastReceived
    {
      assert FlowAt(key) == Replay(history, key);
      SeenMeansReceived(history, key);
    }

    ghost function KeyAt(i: nat): Key
      requires i < |history| && history[i].parsed.Identified?
      reads this
    {
      Key(history[i].parsed.id.kind, history[i].parsed.id.workload, history[i].parsed.id.flow)
    }

    /** What has arrived is in the counters, under the workload and the flow it named. */
    lemma ArrivalIsCounted(i: nat)
      requires Valid() && i < |history| && history[i].parsed.Identified?
      ensures KeyAt(i) in received && Counts(history[i], KeyAt(i))
    {
      assert FlowAt(KeyAt(i)) == Replay(history, KeyAt(i));
      ArrivalIsReceived(history, i, KeyAt(i));
    }

    /** Every datagram is counted once: in `received` of some flow, in `unexpected`, or in `malformed`. */
    lemma EveryDatagramIsInACounter(keys: seq<Key>)
      requires Valid() && Lists(keys)
      ensures SumCounts(received, keys) + unexpected + malformed == |history|
    {
      forall i | 0 <= i < |history| && history[i].parsed.Identified? ensures Listed(history[i], keys) {
        ArrivalIsCounted(i);
        ListedUnder(history[i], keys, KeyAt(i));
      }
      EveryDatagramCountsOnce(keys, history);
      ReceivedAddsUp(keys);
    }

    lemma {:induction false} ReceivedAddsUp(keys: seq<Key>)
      requires Valid()
      ensures SumCounts(received, keys) == SumFlows(keys, history, Unit)
      decreases |keys|
    {
      if keys == [] {
      } else {
        var key := keys[|keys| - 1];
        ReceivedAddsUp(keys[..|keys| - 1]);
        assert FlowAt(key) == Replay(history, key);
        CountersCount(history, key);
      }
    }

    /** The figures of one flow, as its own summary row shows them. */
    method SummarizeFlow(key: Key) returns (row: Row)
      requires Valid() && (key in received || key in echoed)
      ensures Tells(row, key, history)
      ensures key in firstReceived && key in lastReceived
      ensures row.first == firstReceived[key] && row.last == lastReceived[key]
    {
      ListedHasWindow(key);
      row := Row(Count(received, key), Count(bytesReceived, key), Count(echoed, key), Count(bytesEchoed, key),
        |Members(sequences, key)|, Count(duplicates, key), Count(reordered, key), firstReceived[key], lastReceived[key],
        Members(sources, key));
      assert FlowAt(key) == Replay(history, key);
      CountersCount(history, key);
      SetsCollect(history, key);
      UniquePlusDuplicates(history, key);
      ReorderedCountsLate(history, key);
    }

    /** The keys of one workload, in the order of the list. */
    method GroupKeys(keys: seq<Key>, kind: Kind, workload: u32) returns (grouped: seq<Key>)
      requires Valid() && Lists(keys)
      ensures Groups(grouped, history, kind, workload)
      ensures forall key :: key in grouped ==> key in received
      ensures forall key :: key in keys && key.kind == kind && key.workload == workload ==> key in grouped
    {
      grouped := [];
      for i := 0 to |keys|
        invariant Distinct(grouped)
        invariant forall key :: key in grouped <==> key in keys[..i] && key.kind == kind && key.workload == workload
      {
        if keys[i].kind == kind && keys[i].workload == workload {
          assert keys[i] !in keys[..i];
          grouped := grouped + [keys[i]];
        }
        assert keys[..i + 1] == keys[..i] + [keys[i]];
      }
      assert keys[..|keys|] == keys;
      forall i | 0 <= i < |history| && InWorkload(history[i], kind, workload) ensures Listed(history[i], grouped) {
        ArrivalIsCounted(i);
        ListedUnder(history[i], grouped, KeyAt(i));
      }
      forall key | key in grouped ensures key in received {
        ListedHasWindow(key);
      }
    }

    /** The totals of a workload's flows; its window reaches from the earliest first to the latest last datagram. */
    method SummarizeWorkload(keys: seq<Key>) returns (row: Row)
      requires Valid() && keys != []
      requires forall key :: key in keys ==> key in received || key in echoed
      ensures Sums(row, keys, history)
      ensures forall key :: key in keys ==> key in firstReceived && key in lastReceived
      ensures forall key :: key in keys ==> row.first <= firstReceived[key] && lastReceived[key] <= row.last
      ensures exists key :: key in keys && row.first == firstReceived[key]
      ensures exists key :: key in keys && row.last == lastReceived[key]
    {
      forall key | key in keys ensures key in firstReceived && key in lastReceived {
        ListedHasWindow(key);
      }
      row := Row(0, 0, 0, 0, 0, 0, 0, firstReceived[keys[0]], lastReceived[keys[0]], {});
      for i := 0 to |keys|
        invariant Sums(row, keys[..i], history)
        invariant forall k :: 0 <= k < i ==> row.first <= firstReceived[keys[k]] && lastReceived[keys[k]] <= row.last
        invariant exists key :: key in keys && row.first == firstReceived[key]
        invariant exists key :: key in keys && row.last == lastReceived[key]
      {
        var flow := SummarizeFlow(keys[i]);
        AddedSums(row, flow, keys[..i], keys[i], keys[..i + 1], history);
        row := Added(row, flow);
      }
      assert keys[..|keys|] == keys;
    }
  }

  /** A flow with anything to show has received something, and its window has both ends. */
  lemma {:induction false} SeenMeansReceived(h: seq<Arrival>, key: Key)
    ensures
      var f := Replay(h, key);
      && (f.received > 0 <==> f.first.Some?) && (f.received > 0 <==> f.last.Some?)
      && f.echoed <= f.received
  {
    if h == [] {
    } else {
      SeenMeansReceived(h[..|h| - 1], key);
    }
  }

  lemma {:induction false} ArrivalIsReceived(h: seq<Arrival>, i: nat, key: Key)
    requires i < |h| && Counts(h[i], key)
    ensures Replay(h, key).received > 0
  {
    if i < |h| - 1 {
      ArrivalIsReceived(h[..|h| - 1], i, key);
    }
  }

  // The account is what the history says.

  lemma {:induction false} CountersCount(h: seq<Arrival>, key: Key)
    ensures
      var f := Replay(h, key);
      && f.received == FlowTotal(h, key, Unit)
      && f.bytes == FlowTotal(h, key, Size)
      && f.echoed == FlowTotal(h, key, EchoUnit)
      && f.bytesEchoed == FlowTotal(h, key, EchoSize)
  {
    if h == [] {
    } else {
      CountersCount(h[..|h| - 1], key);
    }
  }

  lemma SetsGrow(h: seq<Arrival>, a: Arrival, longer: seq<Arrival>, key: Key)
    requires longer == h + [a]
    ensures SequencesOf(longer, key) == SequencesOf(h, key) + if Counts(a, key) then {SequenceOf(a)} else {}
    ensures SourcesOf(longer, key) == SourcesOf(h, key) + if Counts(a, key) then {a.source} else {}
    ensures TimesOf(longer, key) == TimesOf(h, key) + if Counts(a, key) then {a.now} else {}
  {
    assert forall i :: 0 <= i < |h| ==> longer[i] == h[i];
    assert longer[|h|] == a;
  }

  lemma {:induction false} SetsCollect(h: seq<Arrival>, key: Key)
    ensures Replay(h, key).sequences == SequencesOf(h, key)
    ensures Replay(h, key).sources == SourcesOf(h, key)
  {
    if h == [] {
    } else {
      SetsCollect(h[..|h| - 1], key);
      SetsGrow(h[..|h| - 1], h[|h| - 1], h, key);
    }
  }

  /** Every datagram of a flow is new or a duplicate. */
  lemma {:induction false} UniquePlusDuplicates(h: seq<Arrival>, key: Key)
    ensures FlowTotal(h, key, Unit) == |SequencesOf(h, key)| + Replay(h, key).duplicates
  {
    if h == [] {
    } else {
      var before, a := h[..|h| - 1], h[|h| - 1];
      UniquePlusDuplicates(before, key);
      SetsCollect(before, key);
      SetsGrow(before, a, h, key);
      if Counts(a, key) && SequenceOf(a) !in SequencesOf(before, key) {
        assert |SequencesOf(before, key) + {SequenceOf(a)}| == |SequencesOf(before, key)| + 1;
      } else {
        assert SequencesOf(h, key) == SequencesOf(before, key);
      }
    }
  }

  /** The running maximum: an upper bound of the flow's sequence numbers that one of them reaches. */
  lemma {:induction false} LastIsMaximum(h: seq<Arrival>, key: Key)
    ensures Replay(h, key).highest.Some? <==> SequencesOf(h, key) != {}
    ensures Replay(h, key).highest.Some? ==>
      && Replay(h, key).highest.value in SequencesOf(h, key)
      && forall s :: s in SequencesOf(h, key) ==> s <= Replay(h, key).highest.value
  {
    if h == [] {
    } else {
      LastIsMaximum(h[..|h| - 1], key);
      SetsGrow(h[..|h| - 1], h[|h| - 1], h, key);
    }
  }

  lemma {:induction false} LateOfPrefix(h: seq<Arrival>, longer: seq<Arrival>, key: Key, upto: nat)
    requires upto <= |h| <= |longer| && longer[..|h|] == h
    ensures LateOf(longer, key, upto) == LateOf(h, key, upto)
  {
    if upto > 0 {
      LateOfPrefix(h, longer, key, upto - 1);
      assert forall k :: 0 <= k < upto ==> longer[k] == longer[..|h|][k];
    }
  }

  lemma LateMeansBelowMaximum(before: seq<Arrival>, a: Arrival, h: seq<Arrival>, key: Key)
    requires h == before + [a] && Counts(a, key)
    ensures Late(h, |before|, key)
        <==> Replay(before, key).highest.Some? && SequenceOf(a) < Replay(before, key).highest.value
  {
    LastIsMaximum(before, key);
    if Replay(before, key).highest.Some? && SequenceOf(a) < Replay(before, key).highest.value {
      var j :| 0 <= j < |before| && Counts(before[j], key) && SequenceOf(before[j]) == Replay(before, key).highest.value;
      assert h[j] == before[j];
    }
    if Late(h, |before|, key) {
      var j :| 0 <= j < |before| && Counts(h[j], key) && SequenceOf(h[j]) > SequenceOf(h[|before|]);
      assert h[j] == before[j] && SequenceOf(before[j]) in SequencesOf(before, key);
    }
  }

  /** The reordered counter counts exactly the datagrams that came after a higher sequence number of their flow. */
  lemma {:induction false} ReorderedCountsLate(h: seq<Arrival>, key: Key)
    ensures Replay(h, key).reordered == LateOf(h, key, |h|)
  {
    if h == [] {
    } else {
      var before, a := h[..|h| - 1], h[|h| - 1];
      assert h == before + [a];
      ReorderedCountsLate(before, key);
      LateOfPrefix(before, h, key, |before|);
      assert LateOf(h, key, |h|) == LateOf(h, key, |before|) + if Late(h, |before|, key) then 1 else 0;
      assert Replay(h, key) == Noted(Replay(before, key), a, key);
      if Counts(a, key) {
        LateMeansBelowMaximum(before, a, h, key);
      } else {
        assert !Late(h, |before|, key);
      }
    }
  }

  predicate ClockRuns(h: seq<Arrival>) {
    forall i, j :: 0 <= i < j < |h| ==> h[i].now <= h[j].now
  }

  predicate WindowOf(f: Flow, times: set<nat>) {
    && (f.first.Some? <==> f.received > 0) && (f.last.Some? <==> f.received > 0)
    && (f.received > 0 ==> f.first.value in times && f.last.value in times)
    && (f.received > 0 ==> forall t :: t in times ==> f.first.value <= t <= f.last.value)
    && (f.received == 0 ==> times == {})
  }

  lemma WindowStep(f: Flow, times: set<nat>, a: Arrival, key: Key)
    requires WindowOf(f, times) && Counts(a, key) && forall t :: t in times ==> t <= a.now
    ensures WindowOf(Noted(f, a, key), times + {a.now})
  {
  }

  /** A flow's window runs from its first datagram to its last: every datagram lies in it, both ends are datagrams. */
  lemma {:induction false} WindowCovers(h: seq<Arrival>, key: Key)
    requires ClockRuns(h)
    ensures WindowOf(Replay(h, key), TimesOf(h, key))
  {
    if h == [] {
    } else {
      var before, a := h[..|h| - 1], h[|h| - 1];
      assert forall i :: 0 <= i < |before| ==> h[i] == before[i];
      WindowCovers(before, key);
      SetsGrow(before, a, h, key);
      if Counts(a, key) {
        assert forall t :: t in TimesOf(before, key) ==> t <= a.now;
        WindowStep(Replay(before, key), TimesOf(before, key), a, key);
      }
    }
  }

  // Nothing is counted twice and nothing is lost.

  predicate InWorkload(a: Arrival, kind: Kind, workload: u32) {
    a.parsed.Identified? && a.parsed.id.kind == kind && a.parsed.id.workload == workload
  }

  function WorkloadTotal(h: seq<Arrival>, kind: Kind, workload: u32, f: Arrival -> nat): nat {
    if h == [] then 0 else
      WorkloadTotal(h[..|h| - 1], kind, workload, f) + If(InWorkload(h[|h| - 1], kind, workload), f(h[|h| - 1]))
  }

  function SumFlows(keys: seq<Key>, h: seq<Arrival>, f: Arrival -> nat): nat {
    if keys == [] then 0 else SumFlows(keys[..|keys| - 1], h, f) + FlowTotal(h, keys[|keys| - 1], f)
  }

  predicate Distinct(keys: seq<Key>) {
    forall i, j :: 0 <= i < j < |keys| ==> keys[i] != keys[j]
  }

  lemma ListedOneMore(a: Arrival, rest: seq<Key>, last: Key, keys: seq<Key>)
    requires keys == rest + [last] && last !in rest
    ensures Listed(a, keys) <==> Listed(a, rest) || Counts(a, last)
    ensures !(Listed(a, rest) && Counts(a, last))
  {
    if Counts(a, last) {
      ListedUnder(a, keys, last);
      ListedUnder(a, rest, last);
    } else if Listed(a, rest) {
      var i :| 0 <= i < |rest| && Counts(a, rest[i]);
      assert keys[i] == rest[i];
    }
  }

  /** One more datagram adds to the sum exactly if its flow is listed, and then once. */
  lemma {:induction false} SumFlowsStep(keys: seq<Key>, before: seq<Arrival>, a: Arrival, h: seq<Arrival>, f: Arrival -> nat)
    requires Distinct(keys) && h == before + [a]
    ensures SumFlows(keys, h, f)
        == SumFlows(keys, before, f) + If(Listed(a, keys), f(a))
  {
    assert h[..|h| - 1] == before;
    if keys == [] {
    } else {
      var rest, last := keys[..|keys| - 1], keys[|keys| - 1];
      SumFlowsStep(rest, before, a, h, f);
      assert keys == rest + [last];
      ListedOneMore(a, rest, last, keys);
    }
  }

  /** The keys list every flow that received anything, each once. */
  predicate Covers(keys: seq<Key>, h: seq<Arrival>) {
    Distinct(keys) && forall i :: 0 <= i < |h| && h[i].parsed.Identified? ==> Listed(h[i], keys)
  }

  /** Every arrival is counted once: as received by its flow, as unexpected, or as malformed. */
  lemma {:induction false} EveryDatagramCountsOnce(keys: seq<Key>, h: seq<Arrival>)
    requires Covers(keys, h)
    ensures SumFlows(keys, h, Unit) + UnexpectedOf(h) + MalformedOf(h) == |h|
  {
    if h == [] {
      NothingToSum(keys, Unit);
    } else {
      var before, a := h[..|h| - 1], h[|h| - 1];
      assert forall i :: 0 <= i < |before| ==> h[i] == before[i];
      EveryDatagramCountsOnce(keys, before);
      SumFlowsStep(keys, before, a, h, Unit);
      assert a.parsed.Identified? ==> Listed(h[|before|], keys);
    }
  }

  /** The keys grouped into a workload row: the flows of that workload that received anything, each once. */
  predicate Groups(keys: seq<Key>, h: seq<Arrival>, kind: Kind, workload: u32) {
    && Distinct(keys)
    && (forall key :: key in keys ==> key.kind == kind && key.workload == workload)
    && (forall i :: 0 <= i < |h| && InWorkload(h[i], kind, workload) ==> Listed(h[i], keys))
  }

  /** A workload row adds up its flow rows, which is all that arrived for the workload. */
  lemma {:induction false} WorkloadRowsAddUp(keys: seq<Key>, h: seq<Arrival>, kind: Kind, workload: u32, f: Arrival -> nat)
    requires Groups(keys, h, kind, workload)
    ensures SumFlows(keys, h, f) == WorkloadTotal(h, kind, workload, f)
  {
    if h == [] {
      NothingToSum(keys, f);
    } else {
      var before, a := h[..|h| - 1], h[|h| - 1];
      assert h == before + [a];
      assert forall i :: 0 <= i < |before| ==> h[i] == before[i];
      WorkloadRowsAddUp(keys, before, kind, workload, f);
      SumFlowsStep(keys, before, a, h, f);
      assert InWorkload(a, kind, workload) <==> Listed(h[|before|], keys);
    }
  }

  lemma {:induction false} NothingToSum(keys: seq<Key>, f: Arrival -> nat)
    ensures SumFlows(keys, [], f) == 0
  {
    if keys != [] {
      NothingToSum(keys[..|keys| - 1], f);
    }
  }

  // The order of arrival matters to the reordered counter only.

  lemma {:induction false} TotalJoin(a: seq<Arrival>, b: seq<Arrival>, ab: seq<Arrival>, f: Arrival -> nat)
    requires ab == a + b
    ensures Total(ab, f) == Total(a, f) + Total(b, f)
  {
    if b == [] {
      assert ab == a;
    } else {
      assert ab[..|ab| - 1] == a + b[..|b| - 1];
      TotalJoin(a, b[..|b| - 1], ab[..|ab| - 1], f);
    }
  }

  lemma RemoveOne<T>(front: seq<T>, x: T, back: seq<T>, all: seq<T>)
    requires all == front + [x] + back
    ensures multiset(front + back) == multiset(all) - multiset{x}
  {
    assert multiset(all) == multiset(front) + multiset{x} + multiset(back);
  }

  lemma TotalWithout(front: seq<Arrival>, x: Arrival, back: seq<Arrival>, all: seq<Arrival>, f: Arrival -> nat)
    requires all == front + [x] + back
    ensures Total(all, f) == Total(front + back, f) + f(x)
  {
    TotalJoin(front, back, front + back, f);
    TotalJoin(front + [x], back, all, f);
    assert (front + [x])[..|front|] == front;
  }

  lemma SplitAround(g: seq<Arrival>, h: seq<Arrival>, a: Arrival) returns (front: seq<Arrival>, back: seq<Arrival>)
    requires multiset(h) == multiset(g) && a in h
    ensures g == front + [a] + back
  {
    assert a in multiset(g);
    var i :| 0 <= i < |g| && g[i] == a;
    front, back := g[..i], g[i + 1..];
  }

  lemma {:induction false} TotalPermutes(h: seq<Arrival>, g: seq<Arrival>, f: Arrival -> nat)
    requires multiset(h) == multiset(g)
    ensures Total(h, f) == Total(g, f)
    decreases |h|
  {
    if h == [] {
      assert |multiset(g)| == 0;
    } else {
      var before, a := h[..|h| - 1], h[|h| - 1];
      var front, back := SplitAround(g, h, a);
      WithoutLast(h, before, a);
      RemoveOne(front, a, back, g);
      TotalPermutes(before, front + back, f);
      TotalWithout(front, a, back, g, f);
    }
  }

  lemma WithoutLast(h: seq<Arrival>, before: seq<Arrival>, a: Arrival)
    requires h != [] && before == h[..|h| - 1] && a == h[|h| - 1]
    ensures multiset(before) == multiset(h) - multiset{a}
  {
    assert h == before + [a] + [];
    assert before + [] == before;
    RemoveOne(before, a, [], h);
  }

  lemma {:induction false} FlowTotalIsTotal(h: seq<Arrival>, key: Key, f: Arrival -> nat, g: Arrival -> nat)
    requires forall a :: g(a) == If(Counts(a, key), f(a))
    ensures FlowTotal(h, key, f) == Total(h, g)
  {
    if h == [] {
    } else {
      FlowTotalIsTotal(h[..|h| - 1], key, f, g);
    }
  }

  lemma FlowTotalPermutes(h: seq<Arrival>, g: seq<Arrival>, key: Key, f: Arrival -> nat)
    requires multiset(h) == multiset(g)
    ensures FlowTotal(h, key, f) == FlowTotal(g, key, f)
  {
    var counted := (a: Arrival) => If(Counts(a, key), f(a));
    FlowTotalIsTotal(h, key, f, counted);
    FlowTotalIsTotal(g, key, f, counted);
    TotalPermutes(h, g, counted);
  }

  lemma SameMembers(h: seq<Arrival>, g: seq<Arrival>, key: Key)
    requires multiset(h) == multiset(g)
    ensures SequencesOf(h, key) <= SequencesOf(g, key) && SourcesOf(h, key) <= SourcesOf(g, key)
  {
    forall i | 0 <= i < |h| ensures exists j :: 0 <= j < |g| && g[j] == h[i] {
      assert h[i] in multiset(g);
    }
  }

  /** The arrival without its clock reading: what the datagram is, whenever it comes. */
  function Undated(a: Arrival): Arrival {
    a.(now := 0)
  }

  function AllUndated(h: seq<Arrival>): (u: seq<Arrival>)
    ensures |u| == |h|
  {
    seq(|h|, i requires 0 <= i < |h| => Undated(h[i]))
  }

  /** Clock readings matter to the window of a flow only. */
  lemma {:induction false} OnlyTheWindowIsDated(h: seq<Arrival>, key: Key)
    ensures
      var x, y := Replay(h, key), Replay(AllUndated(h), key);
      x == y.(first := x.first, last := x.last)
    ensures UnexpectedOf(h) == UnexpectedOf(AllUndated(h)) && MalformedOf(h) == MalformedOf(AllUndated(h))
  {
    if h == [] {
    } else {
      var before := h[..|h| - 1];
      assert AllUndated(h)[..|h| - 1] == AllUndated(before);
      OnlyTheWindowIsDated(before, key);
    }
  }

  predicate SameCounts(x: Flow, y: Flow) {
    && x.received == y.received && x.bytes == y.bytes && x.echoed == y.echoed && x.bytesEchoed == y.bytesEchoed
    && x.sequences == y.sequences && x.sources == y.sources && x.duplicates == y.duplicates
  }

  lemma ReorderingKeepsCounts(h: seq<Arrival>, g: seq<Arrival>, key: Key)
    requires multiset(h) == multiset(g)
    ensures SameCounts(Replay(h, key), Replay(g, key))
    ensures UnexpectedOf(h) == UnexpectedOf(g) && MalformedOf(h) == MalformedOf(g)
  {
    CountersCount(h, key);
    CountersCount(g, key);
    FlowTotalPermutes(h, g, key, Unit);
    FlowTotalPermutes(h, g, key, Size);
    FlowTotalPermutes(h, g, key, EchoUnit);
    FlowTotalPermutes(h, g, key, EchoSize);
    SetsCollect(h, key);
    SetsCollect(g, key);
    SameMembers(h, g, key);
    SameMembers(g, h, key);
    UniquePlusDuplicates(h, key);
    UniquePlusDuplicates(g, key);
    TotalPermutes(h, g, (a: Arrival) => If(a.parsed == Unexpected, 1));
    TotalPermutes(h, g, (a: Arrival) => If(a.parsed == Malformed, 1));
  }

  /**
   * The same datagrams in another order, each stamped with the clock when it comes: every counter is the same, for
   * every flow, except the reordered one, and so are the counts of unexpected and malformed datagrams.
   */
  lemma ArrivalOrderDoesNotMatter(h: seq<Arrival>, g: seq<Arrival>, key: Key)
    requires multiset(AllUndated(h)) == multiset(AllUndated(g))
    ensures SameCounts(Replay(h, key), Replay(g, key))
    ensures UnexpectedOf(h) == UnexpectedOf(g) && MalformedOf(h) == MalformedOf(g)
  {
    OnlyTheWindowIsDated(h, key);
    OnlyTheWindowIsDated(g, key);
    ReorderingKeepsCounts(AllUndated(h), AllUndated(g), key);
  }

  function Told(sequence: u32, now: nat): Arrival {
    Arrival(Identified(Identity(WgnxTun, 0, 0, sequence, 0)), 24, "", false, now)
  }

  /** The reordered counter is different: datagrams 1, 0 count one, datagrams 0, 1 none. */
  lemma ReorderedDependsOnOrder()
    ensures
      var h, g := [Told(1, 0), Told(0, 1)], [Told(0, 0), Told(1, 1)];
      && multiset(AllUndated(h)) == multiset(AllUndated(g))
      && Replay(h, Key(WgnxTun, 0, 0)).reordered == 1 && Replay(g, Key(WgnxTun, 0, 0)).reordered == 0
  {
    var key := Key(WgnxTun, 0, 0);
    var h, g := [Told(1, 0), Told(0, 1)], [Told(0, 0), Told(1, 1)];
    assert h[..1] == [Told(1, 0)] && g[..1] == [Told(0, 0)];
    assert [Told(1, 0)][..0] == [] && [Told(0, 0)][..0] == [];
    assert AllUndated(h) == [Told(1, 0), Told(0, 0)] && AllUndated(g) == [Told(0, 0), Told(1, 0)];
    assert Replay([Told(1, 0)], key).highest == Some(1) && Replay([Told(0, 0)], key).highest == Some(0);
  }
}
