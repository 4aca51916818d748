/**
 * The fixed arrays the trace keeps its sessions, handles and object paths in. Entries are found by a linear
 * search on their key; a new key takes the first free slot, and slot 0 when there is none.
 */
module SlotTable {
  import opened Bytes
  import opened Wrappers

  /** `id` is the handle or object id; the session table itself always uses 0. */
  datatype Key = Key(session: u64, id: int)

  datatype Slot<+V> = Free | Used(key: Key, value: V)

  type Table<V> = seq<Slot<V>>

  predicate Holds<V>(slot: Slot<V>, key: Key) {
    slot.Used? && slot.key == key
  }

  /** Index of the first entry with this key at or after `from`, or |t|. */
  function FindKey<V>(t: Table<V>, key: Key, from: nat): (i: nat)
    requires from <= |t|
    ensures from <= i <= |t|
    ensures i < |t| ==> Holds(t[i], key)
    ensures forall k :: from <= k < i ==> !Holds(t[k], key)
    decreases |t| - from
  {
    if from == |t| || Holds(t[from], key) then from else FindKey(t, key, from + 1)
  }

  function FindFree<V>(t: Table<V>, from: nat): (i: nat)
    requires from <= |t|
    ensures from <= i <= |t|
    ensures i < |t| ==> t[i].Free?
    ensures forall k :: from <= k < i ==> t[k].Used?
    decreases |t| - from
  {
    if from == |t| || t[from].Free? then from else FindFree(t, from + 1)
  }

  function Lookup<V>(t: Table<V>, key: Key): (v: Option<V>)
    ensures v == None <==> forall k :: 0 <= k < |t| ==> !Holds(t[k], key)
  {
    var i := FindKey(t, key, 0);
    if i < |t| then Some(t[i].value) else None
  }

  /** The slot an entry with this key goes to. */
  function Place<V>(t: Table<V>, key: Key): (i: nat)
    requires |t| > 0
    ensures i < |t|
  {
    var held := FindKey(t, key, 0);
    var vacant := FindFree(t, 0);
    if held < |t| then held else if vacant < |t| then vacant else 0
  }

  function Store<V>(t: Table<V>, key: Key, value: V): (r: Table<V>)
    requires |t| > 0
    ensures |r| == |t|
  {
    t[Place(t, key) := Used(key, value)]
  }

  function EraseSlot<V>(slot: Slot<V>, session: u64): Slot<V> {
    if slot.Used? && slot.key.session == session then Free else slot
  }

  /** Forget every entry of one session. */
  function Erase<V>(t: Table<V>, session: u64): (r: Table<V>)
    ensures |r| == |t|
  {
    seq(|t|, i requires 0 <= i < |t| => EraseSlot(t[i], session))
  }

  predicate Unique<V>(t: Table<V>) {
    forall i, j :: 0 <= i < j < |t| && t[i].Used? && t[j].Used? ==> t[i].key != t[j].key
  }

  predicate Full<V>(t: Table<V>) {
    forall i :: 0 <= i < |t| ==> t[i].Used?
  }

  /** A store for this key would push out the entry in slot 0. */
  predicate Evicts<V>(t: Table<V>, key: Key) {
    Full(t) && Lookup(t, key) == None
  }

  function Keys<V>(t: Table<V>): set<Key> {
    set i | 0 <= i < |t| && t[i].Used? :: t[i].key
  }

  function CountUsed<V>(t: Table<V>): nat {
    if t == [] then 0 else CountUsed(t[..|t| - 1]) + if t[|t| - 1].Used? then 1 else 0
  }

  /** The map the table stands for. */
  function Contents<V>(t: Table<V>): (m: map<Key, V>)
    ensures m.Keys == Keys(t)
    ensures forall k :: k in m ==> Lookup(t, k) == Some(m[k])
  {
    map k | k in Keys(t) :: Lookup(t, k).value
  }

  lemma LookupContents<V>(t: Table<V>, key: Key)
    ensures Lookup(t, key) == if key in Contents(t) then Some(Contents(t)[key]) else None
  {
    var i := FindKey(t, key, 0);
    if i < |t| {
      assert t[i].key in Keys(t);
    }
  }

  lemma FindUnique<V>(t: Table<V>, i: nat)
    requires Unique(t) && i < |t| && t[i].Used?
    ensures FindKey(t, t[i].key, 0) == i
    ensures Lookup(t, t[i].key) == Some(t[i].value)
  {
    var j := FindKey(t, t[i].key, 0);
    assert !(j < i) && !(i < j);
  }

  lemma StoreIsUnique<V>(t: Table<V>, key: Key, value: V)
    requires Unique(t) && |t| > 0
    ensures Unique(Store(t, key, value))
  {
    var at := Place(t, key);
    var held := FindKey(t, key, 0);
    if held < |t| {
      FindUnique(t, held);
    }
    forall i | 0 <= i < |t| && i != at && t[i].Used? ensures t[i].key != key {
      assert !Holds(t[i], key) by {
        if Holds(t[i], key) {
          FindUnique(t, i);
        }
      }
    }
  }

  /** What every lookup says after a store: the new value, the old ones, and nothing for an evicted key. */
  lemma LookupStored<V>(t: Table<V>, key: Key, value: V, other: Key)
    requires Unique(t) && |t| > 0
    ensures Lookup(Store(t, key, value), other)
        == if other == key then Some(value)
           else if Evicts(t, key) && other == t[0].key then None
           else Lookup(t, other)
  {
    var r := Store(t, key, value);
    var at := Place(t, key);
    StoreIsUnique(t, key, value);
    if other == key {
      FindUnique(r, at);
    } else {
      var i := FindKey(t, other, 0);
      if i < |t| && i != at {
        FindUnique(r, i);
      } else if i < |t| {
        assert t[at].key != key;
        assert Evicts(t, key) && at == 0;
        forall k | 0 <= k < |r| ensures !Holds(r[k], other) {
          assert k != 0 ==> t[k].key != t[0].key;
        }
      } else {
        assert forall k :: 0 <= k < |r| ==> !Holds(r[k], other);
        if Evicts(t, key) {
          assert Holds(t[0], t[0].key);
        }
      }
    }
  }

  lemma EraseIsUnique<V>(t: Table<V>, session: u64)
    requires Unique(t)
    ensures Unique(Erase(t, session))
  {
  }

  lemma LookupErased<V>(t: Table<V>, session: u64, key: Key)
    requires Unique(t)
    ensures Lookup(Erase(t, session), key) == if key.session == session then None else Lookup(t, key)
  {
    var r := Erase(t, session);
    EraseIsUnique(t, session);
    var i := FindKey(t, key, 0);
    if i < |t| && key.session != session {
      assert r[i] == t[i];
      FindUnique(r, i);
    } else {
      assert forall k :: 0 <= k < |r| ==> !Holds(r[k], key);
    }
  }

  lemma {:induction false} CountIsCardinality<V>(t: Table<V>)
    requires Unique(t)
    ensures CountUsed(t) == |Keys(t)|
  {
    if t == [] {
      assert Keys(t) == {};
    } else {
      var shorter := t[..|t| - 1];
      var last := t[|t| - 1];
      CountIsCardinality(shorter);
      if last.Used? {
        assert last.key !in Keys(shorter);
        assert Keys(t) == Keys(shorter) + {last.key};
      } else {
        assert Keys(t) == Keys(shorter);
      }
    }
  }

  lemma {:induction false} FullByCount<V>(t: Table<V>)
    ensures CountUsed(t) <= |t|
    ensures Full(t) <==> CountUsed(t) == |t|
  {
    if t == [] {
    } else {
      var shorter := t[..|t| - 1];
      FullByCount(shorter);
      assert t == shorter + [t[|t| - 1]];
    }
  }

  /** Until the table is full, storing an entry is exactly updating the map. */
  lemma StoreUpdatesTheMap<V>(t: Table<V>, key: Key, value: V)
    requires Unique(t) && |t| > 0 && !Evicts(t, key)
    ensures Contents(Store(t, key, value)) == Contents(t)[key := value]
  {
    var r := Store(t, key, value);
    forall k ensures k in Contents(r) <==> k in Contents(t)[key := value]
      ensures k in Contents(r) ==> Contents(r)[k] == Contents(t)[key := value][k]
    {
      LookupStored(t, key, value, k);
      LookupContents(r, k);
      LookupContents(t, k);
    }
  }

  /** A store that evicts is a removal of the entry in slot 0 followed by the update. */
  lemma EvictionUpdatesTheMap<V>(t: Table<V>, key: Key, value: V)
    requires Unique(t) && |t| > 0 && Evicts(t, key)
    ensures t[0].Used? && t[0].key in Contents(t)
    ensures Contents(Store(t, key, value)) == (Contents(t) - {t[0].key})[key := value]
  {
    var r := Store(t, key, value);
    forall k ensures k in Contents(r) <==> k in (Contents(t) - {t[0].key})[key := value]
      ensures k in Contents(r) ==> Contents(r)[k] == (Contents(t) - {t[0].key})[key := value][k]
    {
      LookupStored(t, key, value, k);
      LookupContents(r, k);
      LookupContents(t, k);
    }
  }

  lemma EraseUpdatesTheMap<V>(t: Table<V>, session: u64)
    requires Unique(t)
    ensures Contents(Erase(t, session)) == map k | k in Contents(t) && k.session != session :: Contents(t)[k]
  {
    var r := Erase(t, session);
    var m := map k | k in Contents(t) && k.session != session :: Contents(t)[k];
    forall k ensures k in Contents(r) <==> k in m
      ensures k in Contents(r) ==> Contents(r)[k] == m[k]
    {
      LookupErased(t, session, k);
      LookupContents(r, k);
      LookupContents(t, k);
    }
  }

  /** Clear the first entry with this key. */
  function Remove<V>(t: Table<V>, key: Key): (r: Table<V>)
    ensures |r| == |t|
  {
    var i := FindKey(t, key, 0);
    if i < |t| then t[i := Free] else t
  }

  lemma LookupRemoved<V>(t: Table<V>, key: Key, other: Key)
    requires Unique(t)
    ensures Unique(Remove(t, key))
    ensures Lookup(Remove(t, key), other) == if other == key then None else Lookup(t, other)
  {
    var r := Remove(t, key);
    var i := FindKey(t, other, 0);
    if i < |t| && other != key {
      assert r[i] == t[i];
      FindUnique(r, i);
    } else {
      assert forall k :: 0 <= k < |r| ==> !Holds(r[k], other);
    }
  }

  /** The store that looks before it writes: the new value may depend on the one already there. */
  function Upsert<V>(t: Table<V>, key: Key, f: Option<V> -> V): (r: Table<V>)
    requires |t| > 0
    ensures |r| == |t|
  {
    Store(t, key, f(Lookup(t, key)))
  }

  function CountIf<V>(t: Table<V>, p: Slot<V> -> bool): nat {
    if t == [] then 0 else CountIf(t[..|t| - 1], p) + if p(t[|t| - 1]) then 1 else 0
  }

  lemma {:induction false} CountIfZero<V>(t: Table<V>, p: Slot<V> -> bool)
    ensures CountIf(t, p) == 0 <==> forall i :: 0 <= i < |t| ==> !p(t[i])
  {
    if t == [] {
    } else {
      CountIfZero(t[..|t| - 1], p);
    }
  }

  // The loops over the arrays.

  method FindSlot<V>(slots: array<Slot<V>>, key: Key) returns (at: nat, found: bool)
    requires slots.Length > 0
    ensures at == Place(slots[..], key)
    ensures found <==> Lookup(slots[..], key) != None
  {
    var spare: nat := slots.Length;
    for i := 0 to slots.Length
      invariant 0 <= spare <= slots.Length && (spare < slots.Length ==> spare < i && slots[spare].Free?)
      invariant forall k :: 0 <= k < i && k < spare ==> slots[k].Used?
      invariant forall k :: 0 <= k < i ==> !Holds(slots[..][k], key)
    {
      if slots[i].Used? && slots[i].key == key {
        FirstIs(slots[..], key, i);
        return i, true;
      }
      if slots[i].Free? && spare == slots.Length {
        spare := i;
      }
    }
    FirstFreeIs(slots[..], spare);
    return if spare < slots.Length then spare else 0, false;
  }

  lemma FirstIs<V>(t: Table<V>, key: Key, i: nat)
    requires i < |t| && Holds(t[i], key)
    requires forall k :: 0 <= k < i ==> !Holds(t[k], key)
    ensures FindKey(t, key, 0) == i
  {
    var j := FindKey(t, key, 0);
    assert !(j < i) && !(i < j);
  }

  lemma FirstFreeIs<V>(t: Table<V>, i: nat)
    requires i <= |t| && (i < |t| ==> t[i].Free?)
    requires forall k :: 0 <= k < i ==> t[k].Used?
    ensures FindFree(t, 0) == i
  {
    var j := FindFree(t, 0);
    assert !(j < i) && !(i < j);
  }

  method ForgetSessionIn<V>(slots: array<Slot<V>>, session: u64)
    modifies slots
    ensures slots[..] == Erase(old(slots[..]), session)
  {
    for i := 0 to slots.Length
      invariant forall k :: 0 <= k < i ==> slots[k] == EraseSlot(old(slots[..])[k], session)
      invariant forall k :: i <= k < slots.Length ==> slots[k] == old(slots[..])[k]
    {
      if slots[i].Used? && slots[i].key.session == session {
        slots[i] := Free;
      }
    }
  }

  method CountSlots<V>(slots: array<Slot<V>>, p: Slot<V> -> bool) returns (n: nat)
    ensures n == CountIf(slots[..], p)
  {
    n := 0;
    for i := 0 to slots.Length
      invariant n == CountIf(slots[..i], p)
    {
      assert slots[..i + 1][..i] == slots[..i];
      if p(slots[i]) {
        n := n + 1;
      }
    }
    assert slots[..] == slots[..slots.Length];
  }
}
