/**
 * The five bounded queues of the logger: one ring for text lines and four for binary records, each dropping
 * its oldest entry when full. The rings are arrays changed in place; `Ring` is what they mean.
 */
module LogRings {
  import opened Bytes
  import opened Wrappers

  const RINGS := 5
  const LINES := 0
  const GENERIC := 1
  const MAX_PATH := 95
  const MAX_LINE := 2047
  const MAX_BLOB := 2048

  datatype Entry = Entry(path: string, data: seq<byte>)

  /** The entries waiting, oldest first, and the drops not reported yet. */
  datatype Ring = Ring(pending: seq<Entry>, dropped: u64)

  function Capacity(ring: nat): (c: nat)
    ensures c > 0
  {
    if ring == LINES then 896 else 96
  }

  function BatchSize(ring: nat): (n: nat)
    ensures n > 0
  {
    if ring == LINES then 16 else 8
  }

  function Clamp<T>(s: seq<T>, limit: nat): seq<T> {
    if |s| <= limit then s else s[..limit]
  }

  predicate OccursAt(text: string, part: string, at: nat) {
    at + |part| <= |text| && text[at..at + |part|] == part
  }

  predicate Contains(text: string, part: string)
  {
    exists at :: 0 <= at <= |text| && OccursAt(text, part, at)
  }

  /** The ring a record goes to is decided by its path alone; the first family that matches wins. */
  function RingOf(path: string): (ring: nat)
    ensures GENERIC <= ring < RINGS
  {
    if Contains(path, "probe-mitm-" + "nifm.bin") then 2
    else if Contains(path, "probe-mitm-" + "bsd.bin") then 3
    else if Contains(path, "probe-mitm-" + "ssl.bin") then 4
    else GENERIC
  }

  function CountDrop(dropped: u64): u64 {
    (dropped + 1) % 0x1_0000_0000_0000_0000
  }

  function Put(r: Ring, capacity: nat, e: Entry): Ring
    requires capacity > 0
  {
    if |r.pending| == capacity then Ring(r.pending[1..] + [e], CountDrop(r.dropped))
    else Ring(r.pending + [e], r.dropped)
  }

  /** What one pass of the flush thread removes from a ring. */
  function Taken(r: Ring, limit: nat): seq<Entry> {
    r.pending[..if |r.pending| <= limit then |r.pending| else limit]
  }

  function Rest(r: Ring, limit: nat): Ring {
    Ring(r.pending[if |r.pending| <= limit then |r.pending| else limit..], r.dropped)
  }

  lemma MoveOne(batch: seq<Entry>, r: Ring, e: Entry)
    requires r.pending != [] && e == r.pending[0]
    ensures batch + r.pending == batch + [e] + Rest(r, 1).pending
  {
  }

  lemma SplitAtLimit(r: Ring, batch: seq<Entry>, rest: seq<Entry>, limit: nat)
    requires r.pending == batch + rest
    requires |batch| <= limit && (|batch| == limit || rest == [])
    ensures batch == Taken(r, limit) && rest == Rest(r, limit).pending
  {
  }

  function QueueLine(rings: seq<Ring>, path: string, line: seq<byte>): seq<Ring>
    requires |rings| == RINGS
  {
    if path == [] || line == [] then rings
    else rings[LINES := Put(rings[LINES], Capacity(LINES), Entry(Clamp(path, MAX_PATH), Clamp(line, MAX_LINE)))]
  }

  /** A record too large for a slot is refused and counted against the generic ring, whatever its path. */
  function QueueBlob(rings: seq<Ring>, path: string, data: seq<byte>): seq<Ring>
    requires |rings| == RINGS
  {
    if path == [] || data == [] || |data| > MAX_BLOB then
      rings[GENERIC := rings[GENERIC].(dropped := CountDrop(rings[GENERIC].dropped))]
    else
      var ring := RingOf(path);
      rings[ring := Put(rings[ring], Capacity(ring), Entry(Clamp(path, MAX_PATH), data))]
  }

  /** The ring with one entry more: it keeps all it has as long as there is room, and loses its oldest and counts it if not. */
  predicate TakesIn(before: Ring, after: Ring, room: nat, e: Entry) {
    if |before.pending| >= room && before.pending != [] then
      && after.pending == before.pending[1..] + [e] && after.dropped == (before.dropped + 1) % 0x1_0000_0000_0000_0000
    else after.pending == before.pending + [e] && after.dropped == before.dropped
  }

  /** In numbers: 896 lines wait before one is dropped, each cut to 2047 bytes and its path to 95. */
  lemma LinesThatWait(rings: seq<Ring>, path: string, line: seq<byte>)
    requires |rings| == 5 && path != [] && line != [] && |rings[0].pending| <= 896
    ensures
      var after := QueueLine(rings, path, line);
      && |after| == 5 && after[1..] == rings[1..] && |after[0].pending| <= 896
      && TakesIn(rings[0], after[0], 896,
           Entry(if |path| > 95 then path[..95] else path, if |line| > 2047 then line[..2047] else line))
  {
  }

  /** The place of a file name among the rings of records: nifm before bsd before ssl before all others. */
  predicate GoesTo(path: string, ring: nat) {
    match ring
    case 1 =>
      !Contains(path, "probe-mitm-" + "nifm.bin") && !Contains(path, "probe-mitm-" + "bsd.bin")
      && !Contains(path, "probe-mitm-" + "ssl.bin")
    case 2 => Contains(path, "probe-mitm-" + "nifm.bin")
    case 3 => !Contains(path, "probe-mitm-" + "nifm.bin") && Contains(path, "probe-mitm-" + "bsd.bin")
    case 4 =>
      !Contains(path, "probe-mitm-" + "nifm.bin") && !Contains(path, "probe-mitm-" + "bsd.bin")
      && Contains(path, "probe-mitm-" + "ssl.bin")
    case _ => false
  }

  /** In numbers: 96 records wait in each ring before one is dropped; up to 2048 bytes are kept whole. */
  lemma RecordsThatWait(rings: seq<Ring>, path: string, data: seq<byte>, ring: nat)
    requires |rings| == 5 && path != [] && 0 < |data| <= 2048 && GoesTo(path, ring) && |rings[ring].pending| <= 96
    ensures
      var after := QueueBlob(rings, path, data);
      && |after| == 5 && (forall i :: 0 <= i < 5 && i != ring ==> after[i] == rings[i]) && |after[ring].pending| <= 96
      && TakesIn(rings[ring], after[ring], 96, Entry(if |path| > 95 then path[..95] else path, data))
  {
  }

  /** In numbers: one pass takes at most 16 lines and at most 8 records of each ring, the oldest ones. */
  lemma PassTakes(rings: seq<Ring>, ring: nat)
    requires |rings| == 5 && ring < 5
    ensures
      var most := if ring == 0 then 16 else 8;
      var taken := Taken(rings[ring], BatchSize(ring));
      && taken + Collected(rings)[ring].pending == rings[ring].pending && Collected(rings)[ring].dropped == 0
      && (|taken| == most || (|taken| < most && Collected(rings)[ring].pending == []))
  {
  }

  function Wrap(i: nat, size: nat): nat
    requires i < 2 * size
  {
    if i < size then i else i - size
  }

  lemma WrapIsModulo(i: nat, size: nat)
    requires i < 2 * size
    ensures i % size == Wrap(i, size)
  {
    var q := i / size;
    assert i == q * size + i % size;
    if q >= 2 {
      AtLeastTwice(q, size);
      assert false;
    }
  }

  lemma AtLeastTwice(q: nat, size: nat)
    requires q >= 2
    ensures q * size >= 2 * size
  {
  }

  /** The `n` entries starting at slot `tail`, wrapping around. */
  function Window(slots: seq<Entry>, tail: nat, n: nat): (w: seq<Entry>)
    requires tail < |slots| && n <= |slots|
    ensures |w| == n
    ensures forall i :: 0 <= i < n ==> w[i] == slots[Wrap(tail + i, |slots|)]
  {
    seq(n, i requires 0 <= i < n => slots[Wrap(tail + i, |slots|)])
  }

  lemma WindowPop(slots: seq<Entry>, tail: nat, n: nat)
    requires tail < |slots| && 0 < n <= |slots|
    ensures Window(slots, tail, n)[0] == slots[tail]
    ensures Window(slots, Wrap(tail + 1, |slots|), n - 1) == Window(slots, tail, n)[1..]
  {
    var all := Window(slots, tail, n);
    var later := Window(slots, Wrap(tail + 1, |slots|), n - 1);
    forall i | 0 <= i < n - 1 ensures later[i] == all[1..][i] {
      assert all[1..][i] == all[i + 1] == slots[Wrap(tail + 1 + i, |slots|)];
    }
    assert later == all[1..];
  }

  lemma WindowPut(slots: seq<Entry>, tail: nat, n: nat, e: Entry)
    requires tail < |slots| && n < |slots|
    ensures Window(slots[Wrap(tail + n, |slots|) := e], tail, n + 1) == Window(slots, tail, n) + [e]
  {
    var after := slots[Wrap(tail + n, |slots|) := e];
    var was, now := Window(slots, tail, n), Window(after, tail, n + 1);
    forall i | 0 <= i < n ensures now[i] == was[i] {
      assert Wrap(tail + i, |slots|) != Wrap(tail + n, |slots|);
    }
    assert now == was + [e];
  }

  /** One ring buffer: `count` entries starting at slot `tail` and wrapping around. */
  class RingBuffer {
    const slots: array<Entry>
    var head: nat
    var tail: nat
    var count: nat
    var dropped: u64

    ghost predicate Valid()
      reads this
    {
      && tail < slots.Length
      && count <= slots.Length
      && head == Wrap(tail + count, slots.Length)
    }

    ghost function View(): Ring
      reads this, slots
      requires Valid()
    {
      Ring(Window(slots[..], tail, count), dropped)
    }

    constructor (capacity: nat)
      requires capacity > 0
      ensures Valid() && fresh(slots) && slots.Length == capacity
      ensures View() == Ring([], 0)
    {
      slots := new Entry[capacity](_ => Entry([], []));
      head, tail, count, dropped := 0, 0, 0, 0;
    }

    method DropOldest()
      requires Valid() && count > 0
      modifies this
      ensures Valid() && head == old(head) && count == old(count) - 1 && dropped == old(dropped)
      ensures View().pending == old(View()).pending[1..]
    {
      WrapIsModulo(tail + 1, slots.Length);
      WindowPop(slots[..], tail, count);
      tail := (tail + 1) % slots.Length;
      count := count - 1;
    }

    method Queue(e: Entry)
      requires Valid()
      modifies this, slots
      ensures Valid()
      ensures View() == Put(old(View()), slots.Length, e)
    {
      var at := head;
      if count == slots.Length {
        DropOldest();
        dropped := CountDrop(dropped);
      }
      WindowPut(slots[..], tail, count, e);
      ghost var was := slots[..];
      slots[at] := e;
      assert slots[..] == was[at := e];
      WrapIsModulo(head + 1, slots.Length);
      head := (head + 1) % slots.Length;
      count := count + 1;
    }

    method Pop() returns (out: Option<Entry>)
      requires Valid()
      modifies this
      ensures Valid()
      ensures out == (if old(View()).pending == [] then None else Some(old(View()).pending[0]))
      ensures View() == Rest(old(View()), 1)
    {
      if count == 0 {
        return None;
      }
      WindowPop(slots[..], tail, count);
      out := Some(slots[tail]);
      DropOldest();
    }

    /** Up to `limit` entries, oldest first, stopping early when the ring runs dry. */
    method PopBatch(limit: nat) returns (batch: seq<Entry>)
      requires Valid()
      modifies this
      ensures Valid() && dropped == old(dropped)
      ensures batch == Taken(old(View()), limit)
      ensures View() == Rest(old(View()), limit)
    {
      batch := [];
      while |batch| < limit
        invariant Valid() && |batch| <= limit
        invariant batch + View().pending == old(View()).pending
        invariant dropped == old(dropped)
      {
        ghost var before := View();
        var next := Pop();
        if next == None {
          break;
        }
        MoveOne(batch, before, next.value);
        batch := batch + [next.value];
      }
      SplitAtLimit(old(View()), batch, View().pending, limit);
    }
  }

  /** What the flush thread does outside the lock: report drops and hand entries to the file writer. */
  datatype Output = Dropped(ring: nat, n: nat) | Wrote(ring: nat, entry: Entry)

  function Warnings(rings: seq<Ring>, upto: nat): seq<Output>
    requires upto <= |rings|
  {
    if upto == 0 then [] else
      var dropped := rings[upto - 1].dropped;
      Warnings(rings, upto - 1) + if dropped == 0 then [] else [Dropped(upto - 1, dropped)]
  }

  function Writes(ring: nat, entries: seq<Entry>): (w: seq<Output>)
    ensures |w| == |entries|
  {
    seq(|entries|, i requires 0 <= i < |entries| => Wrote(ring, entries[i]))
  }

  function Batches(rings: seq<Ring>, upto: nat): seq<Output>
    requires upto <= |rings|
  {
    if upto == 0 then [] else
      Batches(rings, upto - 1) + Writes(upto - 1, Taken(rings[upto - 1], BatchSize(upto - 1)))
  }

  lemma SameBatches(a: seq<Ring>, b: seq<Ring>, upto: nat)
    requires upto <= |a| && upto <= |b|
    requires forall i :: 0 <= i < upto ==> a[i].pending == b[i].pending
    ensures Batches(a, upto) == Batches(b, upto)
  {
  }

  function Emptied(r: Ring, limit: nat): Ring {
    Rest(r, limit).(dropped := 0)
  }

  function Forgiven(rings: seq<Ring>, upto: nat): (r: seq<Ring>)
    requires upto <= |rings|
    ensures |r| == |rings|
    ensures forall i :: 0 <= i < |r| ==> r[i] == if i < upto then rings[i].(dropped := 0) else rings[i]
  {
    if upto == 0 then rings else
      Forgiven(rings, upto - 1)[upto - 1 := rings[upto - 1].(dropped := 0)]
  }

  function Drained(rings: seq<Ring>, upto: nat): (r: seq<Ring>)
    requires upto <= |rings|
    ensures |r| == |rings|
    ensures forall i :: 0 <= i < |r| ==> r[i] == if i < upto then Rest(rings[i], BatchSize(i)) else rings[i]
  {
    if upto == 0 then rings else
      Drained(rings, upto - 1)[upto - 1 := Rest(rings[upto - 1], BatchSize(upto - 1))]
  }

  function Collected(rings: seq<Ring>): (r: seq<Ring>)
    ensures |r| == |rings|
  {
    seq(|rings|, i requires 0 <= i < |rings| => Emptied(rings[i], BatchSize(i)))
  }

  function NoEntries(): seq<Ring> {
    [Ring([], 0), Ring([], 0), Ring([], 0), Ring([], 0), Ring([], 0)]
  }

  method SelectRing(path: string) returns (ring: nat)
    ensures ring == RingOf(path) && GoesTo(path, ring)
  {
    if Contains(path, "probe-mitm-" + "nifm.bin") {
      return 2;
    }
    if Contains(path, "probe-mitm-" + "bsd.bin") {
      return 3;
    }
    if Contains(path, "probe-mitm-" + "ssl.bin") {
      return 4;
    }
    return GENERIC;
  }

  /** The five rings under the logger's lock. */
  class LogQueues {
    const rings: seq<RingBuffer>

    ghost predicate Valid()
      reads this, rings
    {
      && |rings| == RINGS
      && (forall i :: 0 <= i < RINGS ==> rings[i].Valid() && rings[i].slots.Length == Capacity(i))
      && (forall i, j :: 0 <= i < j < RINGS ==> rings[i] != rings[j] && rings[i].slots != rings[j].slots)
    }

    ghost function Slots(): set<object>
      reads this
    {
      set i | 0 <= i < |rings| :: rings[i].slots
    }

    ghost function View(): (v: seq<Ring>)
      reads this, rings, Slots()
      requires Valid()
      ensures |v| == RINGS
      ensures forall i :: 0 <= i < RINGS ==> v[i] == rings[i].View()
    {
      seq(RINGS, i requires 0 <= i < RINGS && Valid() reads this, rings, Slots() => rings[i].View())
    }

    constructor ()
      ensures Valid()
      ensures fresh(rings) && fresh(Slots())
      ensures forall i :: 0 <= i < RINGS ==> View()[i] == Ring([], 0)
    {
      var made: seq<RingBuffer> := [];
      for i := 0 to RINGS
        invariant |made| == i
        invariant forall j :: 0 <= j < i ==> fresh(made[j]) && fresh(made[j].slots)
        invariant forall j :: 0 <= j < i ==> made[j].Valid() && made[j].slots.Length == Capacity(j)
        invariant forall j :: 0 <= j < i ==> made[j].View() == Ring([], 0)
        invariant forall j, k :: 0 <= j < k < i ==> made[j] != made[k] && made[j].slots != made[k].slots
      {
        var ring := new RingBuffer(Capacity(i));
        made := made + [ring];
      }
      rings := made;
    }

    method Append(ring: nat, e: Entry)
      requires Valid() && ring < RINGS
      modifies rings[ring], rings[ring].slots
      ensures Valid()
      ensures View() == old(View())[ring := Put(old(View())[ring], Capacity(ring), e)]
    {
      rings[ring].Queue(e);
      assert View() == old(View())[ring := Put(old(View())[ring], Capacity(ring), e)];
    }

    method QueueLineLocked(path: string, line: seq<byte>) returns (ok: bool)
      requires Valid()
      modifies rings, Slots()
      ensures Valid()
      ensures ok <==> path != [] && line != []
      ensures View() == QueueLine(old(View()), path, line)
    {
      if path == [] || line == [] {
        return false;
      }
      Append(LINES, Entry(Clamp(path, MAX_PATH), Clamp(line, MAX_LINE)));
      return true;
    }

    method QueueBlobLocked(path: string, data: seq<byte>) returns (ok: bool)
      requires Valid()
      modifies rings, Slots()
      ensures Valid()
      ensures ok <==> path != [] && 0 < |data| <= MAX_BLOB
      ensures View() == QueueBlob(old(View()), path, data)
    {
      if path == [] || data == [] || |data| > MAX_BLOB {
        rings[GENERIC].dropped := CountDrop(rings[GENERIC].dropped);
        assert View() == QueueBlob(old(View()), path, data);
        return false;
      }
      var ring := SelectRing(path);
      Append(ring, Entry(Clamp(path, MAX_PATH), data));
      return true;
    }

    method TakeDrops(i: nat) returns (n: nat)
      requires Valid() && i < RINGS
      modifies rings[i]
      ensures Valid()
      ensures n == old(View())[i].dropped
      ensures View() == old(View())[i := old(View())[i].(dropped := 0)]
    {
      n := rings[i].dropped;
      rings[i].dropped := 0;
      assert View() == old(View())[i := old(View())[i].(dropped := 0)];
    }

    method TakeBatch(i: nat) returns (batch: seq<Entry>)
      requires Valid() && i < RINGS
      modifies rings[i]
      ensures Valid()
      ensures batch == Taken(old(View())[i], BatchSize(i))
      ensures View() == old(View())[i := Rest(old(View())[i], BatchSize(i))]
    {
      ghost var before := View();
      batch := rings[i].PopBatch(BatchSize(i));
      forall j | 0 <= j < RINGS ensures View()[j] == before[i := Rest(before[i], BatchSize(i))][j] {
        if j != i {
          assert rings[j].View() == old(rings[j].View());
        }
      }
      assert View() == old(View())[i := Rest(old(View())[i], BatchSize(i))];
    }

    method CollectDrops() returns (warnings: seq<Output>)
      requires Valid()
      modifies rings
      ensures Valid()
      ensures warnings == Warnings(old(View()), RINGS)
      ensures View() == Forgiven(old(View()), RINGS)
    {
      ghost var before := View();
      warnings := [];
      for i := 0 to RINGS
        invariant Valid()
        invariant View() == Forgiven(before, i)
        invariant warnings == Warnings(before, i)
      {
        var n := TakeDrops(i);
        if n != 0 {
          warnings := warnings + [Dropped(i, n)];
        }
      }
    }

    method CollectEntries() returns (writes: seq<Output>)
      requires Valid()
      modifies rings
      ensures Valid()
      ensures writes == Batches(old(View()), RINGS)
      ensures View() == Drained(old(View()), RINGS)
    {
      ghost var before := View();
      writes := [];
      for i := 0 to RINGS
        invariant Valid()
        invariant View() == Drained(before, i)
        invariant writes == Batches(before, i)
      {
        var batch := TakeBatch(i);
        writes := writes + Writes(i, batch);
      }
    }

    /** The locked part of one flush pass: take the drop counters and one batch from every ring. */
    method Collect() returns (warnings: seq<Output>, writes: seq<Output>)
      requires Valid()
      modifies rings
      ensures Valid()
      ensures warnings == Warnings(old(View()), RINGS)
      ensures writes == Batches(old(View()), RINGS)
      ensures View() == Collected(old(View()))
    {
      ghost var before := View();
      warnings := CollectDrops();
      ghost var middle := View();
      writes := CollectEntries();
      SameBatches(before, middle, RINGS);
      assert View() == Collected(before);
    }
  }
}
