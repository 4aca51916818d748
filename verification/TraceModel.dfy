/**
 * The trace tables as unbounded maps. As long as no table overflows, every run of the tables is a run of the maps;
 * what the fixed capacity adds is only eviction.
 */
module TraceModel {
  import opened Bytes
  import opened SlotTable
  import opened TraceTables
  import opened TraceRun
  import opened Wrappers
  import ObjectPath
  import Text

  datatype Maps = Maps(sessions: map<Key, SessionInfo>, handles: map<Key, SessionHandle>,
    clones: map<Key, CloneHandle>, paths: map<Key, DomainPath>)

  function Get<V>(m: map<Key, V>, key: Key): Option<V> {
    if key in m then Some(m[key]) else None
  }

  function Put<V>(m: map<Key, V>, key: Key, f: Option<V> -> V): map<Key, V> {
    m[key := f(Get(m, key))]
  }

  /** Apply `f` to the entry if there is one. */
  function Adjust<V>(m: map<Key, V>, key: Key, f: V -> V): map<Key, V> {
    if key in m then m[key := f(m[key])] else m
  }

  function Without<V>(m: map<Key, V>, session: u64): map<Key, V> {
    map k | k in m && k.session != session :: m[k]
  }

  predicate Room<V>(m: map<Key, V>, key: Key, capacity: nat) {
    key in m || |m| < capacity
  }

  function ModelPath(m: Maps, session: u64, object_: u32): string {
    if object_ == 0 then "root"
    else if Key(session, object_) in m.paths then m.paths[Key(session, object_)].path
    else "obj" + Text.Decimal(object_)
  }

  function ModelRemember(m: Maps, session: u64, object_: u32, path: string, parent: u32, creator: u32, now: u64): Maps {
    if object_ == 0 || path == [] then m
    else m.(paths := Put(m.paths, Key(session, object_), p => PathSeen(p, path, parent, creator, now)))
  }

  function ModelChildren(m: Maps, e: Event, parentPath: string, from: nat): Maps
    requires e.ObjectsReturned? && from <= |e.objects| < 0x1_0000_0000
    decreases |e.objects| - from
  {
    if from == |e.objects| then m else
      var o := e.objects[from];
      var path := Clip(ObjectPath.Child(parentPath, e.command, from));
      ModelChildren(ModelRemember(m, e.session, o.object_, path, e.parent, e.command, o.now), e, parentPath, from + 1)
  }

  /** The open clones a closing server handle may stand for. */
  predicate Candidate(m: Maps, session: u64, server: int, key: Key) {
    key in m.clones && key.session == session && m.clones[key].server == server && !m.clones[key].closed
  }

  /** Closing a handle closes one open clone with that server handle, if the session has any. */
  predicate Victim(m: Maps, e: Event, victim: Option<Key>) {
    e.HandleClosed? ==>
      match victim
      case Some(key) => Candidate(m, e.session, e.handle, key)
      case None => forall key :: key in m.clones ==> !Candidate(m, e.session, e.handle, key)
  }

  function ModelStep(m: Maps, e: Event, victim: Option<Key>): Maps
    requires Possible(e) && Victim(m, e, victim)
  {
    match e
    case Connected(session, info) => m.(sessions := m.sessions[SessionKey(session) := info])
    case Accepted(session, handle, peer, forward, now) =>
      m.(handles := Put(m.handles, Key(session, handle), h => HandleSeen(h, peer, forward, false, now)))
    case CloneRequested(session, handle, manager, now) =>
      m.(clones := Put(m.clones, Key(session, handle), c => CloneSeen(c, manager, now)))
    case CloneAccepted(session, handle, peer, forward, now) =>
      m.(handles := Put(m.handles, Key(session, handle), h => HandleSeen(h, peer, forward, true, now)),
         clones := Put(m.clones, Key(session, peer),
           (c: Option<CloneHandle>) =>
             CloneRegistered(if c.Some? then c.value else CloneSeen(None, 0, now), handle, forward)))
    case HandleClosed(session, handle, now) =>
      m.(handles := Adjust(m.handles, Key(session, handle), (h: SessionHandle) => h.(closed := true, closeSeen := now)),
         clones := if victim == None then m.clones else
           Adjust(m.clones, victim.value, (c: CloneHandle) => c.(closed := true, closeSeen := now)))
    case Disconnected(session) =>
      Maps(m.sessions - {SessionKey(session)}, Without(m.handles, session), Without(m.clones, session),
        Without(m.paths, session))
    case ObjectsReturned(session, parent, _, _) => ModelChildren(m, e, ModelPath(m, session, parent), 0)
    case RootConverted(session, object_, parent, now) => ModelRemember(m, session, object_, "root", parent, 0, now)
    case ObjectClosed(session, object_, now) =>
      if object_ == 0 then m
      else m.(paths := Adjust(m.paths, Key(session, object_), (p: DomainPath) => p.(closed := true, closeSeen := now)))
  }

  predicate ChildrenFit(m: Maps, e: Event, parentPath: string, from: nat)
    requires e.ObjectsReturned? && from <= |e.objects| < 0x1_0000_0000
    decreases |e.objects| - from
  {
    from == |e.objects| ||
      var o := e.objects[from];
      var path := Clip(ObjectPath.Child(parentPath, e.command, from));
      (o.object_ != 0 ==> Room(m.paths, Key(e.session, o.object_), MAX_DOMAIN_PATHS))
      && ChildrenFit(ModelRemember(m, e.session, o.object_, path, e.parent, e.command, o.now), e, parentPath, from + 1)
  }

  /** The event needs no entry beyond the capacity of any table. */
  predicate Fits(m: Maps, e: Event)
    requires Possible(e)
  {
    match e
    case Connected(session, _) => Room(m.sessions, SessionKey(session), MAX_SESSIONS)
    case Accepted(session, handle, _, _, _) => Room(m.handles, Key(session, handle), MAX_SESSION_HANDLES)
    case CloneRequested(session, handle, _, _) => Room(m.clones, Key(session, handle), MAX_CLONE_HANDLES)
    case CloneAccepted(session, handle, peer, _, _) =>
      && Room(m.handles, Key(session, handle), MAX_SESSION_HANDLES)
      && Room(m.clones, Key(session, peer), MAX_CLONE_HANDLES)
    case ObjectsReturned(session, parent, _, _) => ChildrenFit(m, e, ModelPath(m, session, parent), 0)
    case RootConverted(session, object_, _, _) =>
      object_ != 0 ==> Room(m.paths, Key(session, object_), MAX_DOMAIN_PATHS)
    case _ => true
  }

  function Meaning(t: Tables): Maps {
    Maps(Contents(t.sessions), Contents(t.handles), Contents(t.clones), Contents(t.paths))
  }

  lemma RoomMeansNoEviction<V>(t: Table<V>, key: Key)
    requires Unique(t)
    ensures Room(Contents(t), key, |t|) <==> !Evicts(t, key)
  {
    CountIsContents(t);
    FullByCount(t);
    LookupContents(t, key);
  }

  lemma UpsertIsPut<V>(t: Table<V>, key: Key, f: Option<V> -> V)
    requires Unique(t) && |t| > 0 && Room(Contents(t), key, |t|)
    ensures Unique(Upsert(t, key, f))
    ensures Contents(Upsert(t, key, f)) == Put(Contents(t), key, f)
  {
    RoomMeansNoEviction(t, key);
    LookupContents(t, key);
    StoreIsUnique(t, key, f(Lookup(t, key)));
    StoreUpdatesTheMap(t, key, f(Lookup(t, key)));
  }

  lemma StoreIsAdjust<V>(t: Table<V>, key: Key, f: V -> V)
    requires Unique(t) && |t| > 0 && Lookup(t, key).Some?
    ensures Contents(Store(t, key, f(Lookup(t, key).value))) == Adjust(Contents(t), key, f)
  {
    LookupContents(t, key);
    StoreUpdatesTheMap(t, key, f(Lookup(t, key).value));
  }

  lemma RemoveIsRemoval<V>(t: Table<V>, key: Key)
    requires Unique(t)
    ensures Contents(Remove(t, key)) == Contents(t) - {key}
  {
    var r := Remove(t, key);
    forall k ensures k in Contents(r) <==> k in Contents(t) - {key}
      ensures k in Contents(r) ==> Contents(r)[k] == (Contents(t) - {key})[k]
    {
      LookupRemoved(t, key, k);
      LookupContents(r, k);
      LookupContents(t, k);
    }
  }

  lemma RelativePathAgrees(t: Tables, session: u64, object_: u32)
    requires Shaped(t)
    ensures RelativePath(t, session, object_) == ModelPath(Meaning(t), session, object_)
  {
    LookupContents(t.paths, Key(session, object_));
  }

  lemma RememberAgrees(t: Tables, session: u64, object_: u32, path: string, parent: u32, creator: u32, now: u64)
    requires Shaped(t) && KeysUnique(t)
    requires object_ != 0 ==> Room(Contents(t.paths), Key(session, object_), MAX_DOMAIN_PATHS)
    ensures Meaning(RememberPath(t, session, object_, path, parent, creator, now))
        == ModelRemember(Meaning(t), session, object_, path, parent, creator, now)
  {
    if object_ != 0 && path != [] {
      UpsertIsPut(t.paths, Key(session, object_), p => PathSeen(p, path, parent, creator, now));
    }
  }

  lemma {:induction false} ChildrenAgree(t: Tables, e: Event, parentPath: string, from: nat)
    requires Shaped(t) && KeysUnique(t) && e.ObjectsReturned? && from <= |e.objects| < 0x1_0000_0000
    requires ChildrenFit(Meaning(t), e, parentPath, from)
    ensures Meaning(RememberChildren(t, e, parentPath, from)) == ModelChildren(Meaning(t), e, parentPath, from)
    decreases |e.objects| - from
  {
    if from < |e.objects| {
      var o := e.objects[from];
      var path := Clip(ObjectPath.Child(parentPath, e.command, from));
      RememberAgrees(t, e.session, o.object_, path, e.parent, e.command, o.now);
      PathKeepsKeys(t, e.session, o.object_, path, e.parent, e.command, o.now);
      ChildrenAgree(RememberPath(t, e.session, o.object_, path, e.parent, e.command, o.now), e, parentPath, from + 1);
    }
  }

  lemma ForgetAgrees(t: Tables, session: u64)
    requires Shaped(t) && KeysUnique(t)
    ensures Meaning(Step(t, Disconnected(session))) == ModelStep(Meaning(t), Disconnected(session), None)
  {
    RemoveIsRemoval(t.sessions, SessionKey(session));
    EraseUpdatesTheMap(t.handles, session);
    EraseUpdatesTheMap(t.clones, session);
    EraseUpdatesTheMap(t.paths, session);
  }

  lemma UpdateTwice<V>(m: map<Key, V>, key: Key, first: V, second: V)
    ensures m[key := first][key := second] == m[key := second]
  {
  }

  lemma StoreTwice<V>(t: Table<V>, key: Key, first: V, second: V, once: Table<V>)
    requires Unique(t) && |t| > 0 && !Evicts(t, key) && once == Store(t, key, first)
    ensures Lookup(once, key) == Some(first)
    ensures Contents(Store(once, key, second)) == Contents(t)[key := second]
  {
    StoreIsUnique(t, key, first);
    LookupStored(t, key, first, key);
    StoreUpdatesTheMap(t, key, first);
    StoreUpdatesTheMap(once, key, second);
    UpdateTwice(Contents(t), key, first, second);
  }

  function NotedClone(m: map<Key, CloneHandle>, key: Key, server: int, forward: Forward, now: u64): CloneHandle {
    CloneRegistered(if key in m then m[key] else CloneSeen(None, 0, now), server, forward)
  }

  lemma CloneAgrees(t: Tables, session: u64, handle: int, server: int, forward: Forward, now: u64)
    requires Shaped(t) && KeysUnique(t)
    requires Room(Contents(t.clones), Key(session, handle), MAX_CLONE_HANDLES)
    ensures Contents(NoteClone(t, session, handle, server, forward, now).clones)
        == Contents(t.clones)[Key(session, handle) :=
             NotedClone(Contents(t.clones), Key(session, handle), server, forward, now)]
  {
    var key := Key(session, handle);
    LookupContents(t.clones, key);
    RoomMeansNoEviction(t.clones, key);
    if CloneMissing(t, session, handle) {
      var first := CloneSeen(None, 0, now);
      var second := CloneRegistered(first, server, forward);
      var once := RememberClone(t, session, handle, 0, now).clones;
      StoreTwice(t.clones, key, first, second, once);
      assert NoteClone(t, session, handle, server, forward, now).clones == Store(once, key, second);
    } else {
      StoreUpdatesTheMap(t.clones, key, CloneRegistered(Lookup(t.clones, key).value, server, forward));
    }
  }

  lemma AcceptedCloneAgrees(t: Tables, e: Event)
    requires Shaped(t) && KeysUnique(t) && e.CloneAccepted? && Fits(Meaning(t), e)
    ensures Meaning(Step(t, e)) == ModelStep(Meaning(t), e, None)
  {
    var key := Key(e.session, e.handle);
    UpsertIsPut(t.handles, key, h => HandleSeen(h, e.peer, e.forward, true, e.now));
    var next := RememberHandle(t, e.session, e.handle, e.peer, e.forward, true, e.now);
    CloneAgrees(next, e.session, e.peer, e.handle, e.forward, e.now);
  }

  lemma ConnectAgrees(t: Tables, e: Event)
    requires Shaped(t) && KeysUnique(t) && e.Connected? && Fits(Meaning(t), e)
    ensures Meaning(Step(t, e)) == ModelStep(Meaning(t), e, None)
  {
    RoomMeansNoEviction(t.sessions, SessionKey(e.session));
    StoreUpdatesTheMap(t.sessions, SessionKey(e.session), e.info);
  }

  /** Closing a clone in place is an adjustment of its entry in the map. */
  lemma MarkCloneAgrees(t: Tables, session: u64, server: int, now: u64) returns (victim: Option<Key>)
    requires Shaped(t) && KeysUnique(t)
    ensures Victim(Meaning(t), HandleClosed(session, server, now), victim)
    ensures Contents(MarkCloneClosed(t, session, server, now).clones)
        == if victim == None then Contents(t.clones) else
             Adjust(Contents(t.clones), victim.value, (c: CloneHandle) => c.(closed := true, closeSeen := now))
  {
    var i := FindOpenClone(t.clones, session, server, 0);
    if i == |t.clones| {
      victim := None;
      forall key | key in Contents(t.clones) ensures !Candidate(Meaning(t), session, server, key) {
        var at := FindKey(t.clones, key, 0);
        assert t.clones[at] == Used(key, Contents(t.clones)[key]);
      }
    } else {
      var key := t.clones[i].key;
      victim := Some(key);
      FindUnique(t.clones, i);
      LookupContents(t.clones, key);
      StoreIsAdjust(t.clones, key, (c: CloneHandle) => c.(closed := true, closeSeen := now));
    }
  }

  lemma CloseAgrees(t: Tables, e: Event) returns (victim: Option<Key>)
    requires Shaped(t) && KeysUnique(t) && e.HandleClosed?
    ensures Victim(Meaning(t), e, victim)
    ensures Meaning(Step(t, e)) == ModelStep(Meaning(t), e, victim)
  {
    var key := Key(e.session, e.handle);
    var marked := MarkHandleClosed(t, e.session, e.handle, e.now);
    CloseKeepsKeys(t, e.session, e.handle, e.now);
    LookupContents(t.handles, key);
    if Lookup(t.handles, key).Some? {
      StoreIsAdjust(t.handles, key, (h: SessionHandle) => h.(closed := true, closeSeen := e.now));
    }
    victim := MarkCloneAgrees(marked, e.session, e.handle, e.now);
  }

  lemma ObjectCloseAgrees(t: Tables, e: Event)
    requires Shaped(t) && KeysUnique(t) && e.ObjectClosed?
    ensures Meaning(Step(t, e)) == ModelStep(Meaning(t), e, None)
  {
    var key := Key(e.session, e.object_);
    LookupContents(t.paths, key);
    if Lookup(t.paths, key).Some? {
      StoreIsAdjust(t.paths, key, (p: DomainPath) => p.(closed := true, closeSeen := e.now));
    }
  }

  /** One step of the tables that needs no eviction is one step of the maps. */
  lemma StepAgrees(t: Tables, e: Event) returns (victim: Option<Key>)
    requires Shaped(t) && Possible(e) && KeysUnique(t) && Fits(Meaning(t), e)
    ensures Victim(Meaning(t), e, victim)
    ensures Meaning(Step(t, e)) == ModelStep(Meaning(t), e, victim)
  {
    victim := None;
    match e
    case Connected(_, _) => ConnectAgrees(t, e);
    case Accepted(session, handle, peer, forward, now) =>
      UpsertIsPut(t.handles, Key(session, handle), h => HandleSeen(h, peer, forward, false, now));
    case CloneRequested(session, handle, manager, now) =>
      UpsertIsPut(t.clones, Key(session, handle), c => CloneSeen(c, manager, now));
    case CloneAccepted(_, _, _, _, _) => AcceptedCloneAgrees(t, e);
    case HandleClosed(_, _, _) => victim := CloseAgrees(t, e);
    case Disconnected(session) => ForgetAgrees(t, session);
    case ObjectsReturned(session, parent, _, _) =>
      RelativePathAgrees(t, session, parent);
      ChildrenAgree(t, e, RelativePath(t, session, parent), 0);
    case RootConverted(session, object_, parent, now) =>
      RememberAgrees(t, session, object_, "root", parent, 0, now);
    case ObjectClosed(_, _, _) => ObjectCloseAgrees(t, e);
  }

  predicate ModelGoes(m: Maps, e: Event, victim: Option<Key>, next: Maps)
    requires Possible(e)
  {
    Victim(m, e, victim) && next == ModelStep(m, e, victim)
  }

  /** `m` is a state the maps can be in after these events. */
  ghost predicate ModelReaches(events: seq<Event>, m: Maps)
    requires AllPossible(events)
    decreases |events|, 0
  {
    if events == [] then m == Maps(map[], map[], map[], map[])
    else ModelArrives(events[..|events| - 1], events[|events| - 1], m)
  }

  ghost predicate ModelArrives(events: seq<Event>, e: Event, m: Maps)
    requires AllPossible(events) && Possible(e)
    decreases |events|, 1
  {
    exists before: Maps, victim: Option<Key> :: ModelReaches(events, before) && ModelGoes(before, e, victim, m)
  }

  /** At no point of the run does a table have to evict. */
  predicate NeverOverflows(events: seq<Event>)
    requires AllPossible(events)
  {
    events == [] ||
      (NeverOverflows(events[..|events| - 1]) && Fits(Meaning(Run(events[..|events| - 1])), events[|events| - 1]))
  }

  /** Below capacity the four tables are their maps, over every run. */
  lemma {:induction false} TablesRefineMaps(events: seq<Event>)
    requires AllPossible(events) && NeverOverflows(events)
    ensures ModelReaches(events, Meaning(Run(events)))
  {
    if events == [] {
      var t := Initial();
      assert Keys(t.sessions) == {} && Keys(t.handles) == {} && Keys(t.clones) == {} && Keys(t.paths) == {};
      assert Meaning(t) == Maps(map[], map[], map[], map[]);
    } else {
      var before := events[..|events| - 1];
      TablesRefineMaps(before);
      KeysAlwaysUnique(before);
      var victim := StepAgrees(Run(before), events[|events| - 1]);
      var e := events[|events| - 1];
      assert ModelGoes(Meaning(Run(before)), e, victim, Meaning(Run(events)));
      assert ModelArrives(before, e, Meaning(Run(events)));
    }
  }
}
