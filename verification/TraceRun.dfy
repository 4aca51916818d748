/**
 * The trace tables over whole runs: any sequence of trace events, starting from empty tables.
 */
module TraceRun {
  import opened Bytes
  import opened SlotTable
  import opened TraceTables
  import opened Wrappers
  import ObjectPath
  import Text

  /** An object id in a response, with the clock reading its entry would be stamped with. */
  datatype Returned = Returned(object_: u32, now: u64)

  /** A close is two separate locked sections: marking the handle, and forgetting the session if none is left. */
  datatype Event =
    | Connected(session: u64, info: SessionInfo)
    | Accepted(session: u64, handle: int, peer: int, forward: Forward, now: u64)
    | CloneRequested(session: u64, handle: int, manager: u32, now: u64)
    | CloneAccepted(session: u64, handle: int, peer: int, forward: Forward, now: u64)
    | HandleClosed(session: u64, handle: int, now: u64)
    | Disconnected(session: u64)
    | ObjectsReturned(session: u64, parent: u32, command: u32, objects: seq<Returned>)
    | RootConverted(session: u64, object_: u32, parent: u32, now: u64)
    | ObjectClosed(session: u64, object_: u32, now: u64)

  function RelativePath(t: Tables, session: u64, object_: u32): string {
    if object_ == 0 then "root" else
      match Lookup(t.paths, Key(session, object_))
      case Some(p) => p.path
      case None => "obj" + Text.Decimal(object_)
  }

  /** Children `from`, `from + 1`, ... of one response; all their paths extend the path the parent had before. */
  function RememberChildren(t: Tables, e: Event, parentPath: string, from: nat): (r: Tables)
    requires Shaped(t) && e.ObjectsReturned? && from <= |e.objects| < 0x1_0000_0000
    ensures Shaped(r)
    decreases |e.objects| - from
  {
    if from == |e.objects| then t else
      var o := e.objects[from];
      var path := Clip(ObjectPath.Child(parentPath, e.command, from));
      RememberChildren(RememberPath(t, e.session, o.object_, path, e.parent, e.command, o.now), e, parentPath, from + 1)
  }

  /** Responses carry at most eight object ids. */
  predicate Possible(e: Event) {
    e.ObjectsReturned? ==> |e.objects| <= 8
  }

  function Step(t: Tables, e: Event): (r: Tables)
    requires Shaped(t) && Possible(e)
    ensures Shaped(r)
  {
    match e
    case Connected(session, info) => RememberSession(t, session, info)
    case Accepted(session, handle, peer, forward, now) => RememberHandle(t, session, handle, peer, forward, false, now)
    case CloneRequested(session, handle, manager, now) => RememberClone(t, session, handle, manager, now)
    case CloneAccepted(session, handle, peer, forward, now) =>
      NoteClone(RememberHandle(t, session, handle, peer, forward, true, now), session, peer, handle, forward, now)
    case HandleClosed(session, handle, now) =>
      MarkCloneClosed(MarkHandleClosed(t, session, handle, now), session, handle, now)
    case Disconnected(session) => ForgetSession(t, session)
    case ObjectsReturned(session, parent, _, _) => RememberChildren(t, e, RelativePath(t, session, parent), 0)
    case RootConverted(session, object_, parent, now) => RememberPath(t, session, object_, "root", parent, 0, now)
    case ObjectClosed(session, object_, now) => MarkPathClosed(t, session, object_, now)
  }

  function Blank<V>(n: nat): (t: Table<V>)
    ensures |t| == n && forall i :: 0 <= i < n ==> t[i] == Free
  {
    seq(n, _ => Free)
  }

  function Initial(): (t: Tables)
    ensures Shaped(t)
  {
    Tables(Blank(MAX_SESSIONS), Blank(MAX_SESSION_HANDLES), Blank(MAX_CLONE_HANDLES), Blank(MAX_DOMAIN_PATHS))
  }

  predicate AllPossible(events: seq<Event>) {
    forall e :: e in events ==> Possible(e)
  }

  function Run(events: seq<Event>): (t: Tables)
    requires AllPossible(events)
    ensures Shaped(t)
  {
    if events == [] then Initial() else Step(Run(events[..|events| - 1]), events[|events| - 1])
  }

  lemma {:induction false} ChildrenTouchPathsOnly(t: Tables, e: Event, parentPath: string, from: nat)
    requires Shaped(t) && e.ObjectsReturned? && from <= |e.objects| < 0x1_0000_0000
    ensures
      var r := RememberChildren(t, e, parentPath, from);
      r.sessions == t.sessions && r.handles == t.handles && r.clones == t.clones
    decreases |e.objects| - from
  {
    if from < |e.objects| {
      var o := e.objects[from];
      var path := Clip(ObjectPath.Child(parentPath, e.command, from));
      ChildrenTouchPathsOnly(RememberPath(t, e.session, o.object_, path, e.parent, e.command, o.now), e, parentPath, from + 1);
    }
  }

  // Keys stay unique and counts are cardinalities.

  predicate KeysUnique(t: Tables) {
    && Unique(t.sessions) && Unique(t.handles) && Unique(t.clones) && Unique(t.paths)
    && forall i :: 0 <= i < |t.sessions| && t.sessions[i].Used? ==> t.sessions[i].key.id == 0
  }

  lemma {:induction false} ChildrenKeepKeys(t: Tables, e: Event, parentPath: string, from: nat)
    requires Shaped(t) && e.ObjectsReturned? && from <= |e.objects| < 0x1_0000_0000
    requires KeysUnique(t)
    ensures KeysUnique(RememberChildren(t, e, parentPath, from))
    decreases |e.objects| - from
  {
    if from < |e.objects| {
      var o := e.objects[from];
      var path := Clip(ObjectPath.Child(parentPath, e.command, from));
      var next := RememberPath(t, e.session, o.object_, path, e.parent, e.command, o.now);
      PathKeepsKeys(t, e.session, o.object_, path, e.parent, e.command, o.now);
      ChildrenKeepKeys(next, e, parentPath, from + 1);
    }
  }

  lemma PathKeepsKeys(t: Tables, session: u64, object_: u32, path: string, parent: u32, creator: u32, now: u64)
    requires Shaped(t) && KeysUnique(t)
    ensures KeysUnique(RememberPath(t, session, object_, path, parent, creator, now))
  {
    var key := Key(session, object_);
    StoreIsUnique(t.paths, key, PathSeen(Lookup(t.paths, key), path, parent, creator, now));
  }

  lemma CloneKeepsKeys(t: Tables, session: u64, handle: int, server: int, forward: Forward, now: u64)
    requires Shaped(t) && KeysUnique(t)
    ensures KeysUnique(NoteClone(t, session, handle, server, forward, now))
  {
    var key := Key(session, handle);
    StoreIsUnique(t.clones, key, CloneSeen(Lookup(t.clones, key), 0, now));
    var known := if CloneMissing(t, session, handle) then RememberClone(t, session, handle, 0, now) else t;
    match Lookup(known.clones, key)
    case None =>
    case Some(c) => StoreIsUnique(known.clones, key, CloneRegistered(c, server, forward));
  }

  lemma ForgetKeepsKeys(t: Tables, session: u64)
    requires Shaped(t) && KeysUnique(t)
    ensures KeysUnique(ForgetDetails(t, session))
  {
    EraseIsUnique(t.paths, session);
    EraseIsUnique(t.handles, session);
    EraseIsUnique(t.clones, session);
  }

  lemma CloseKeepsKeys(t: Tables, session: u64, id: int, now: u64)
    requires Shaped(t) && KeysUnique(t)
    ensures KeysUnique(MarkHandleClosed(t, session, id, now))
    ensures KeysUnique(MarkCloneClosed(t, session, id, now))
    ensures 0 <= id < 0x1_0000_0000 ==> KeysUnique(MarkPathClosed(t, session, id, now))
  {
    var key := Key(session, id);
    if Lookup(t.handles, key).Some? {
      StoreIsUnique(t.handles, key, Lookup(t.handles, key).value.(closed := true, closeSeen := now));
    }
    if Lookup(t.paths, key).Some? {
      StoreIsUnique(t.paths, key, Lookup(t.paths, key).value.(closed := true, closeSeen := now));
    }
  }

  lemma StepKeepsKeys(t: Tables, e: Event)
    requires Shaped(t) && Possible(e) && KeysUnique(t)
    ensures KeysUnique(Step(t, e))
  {
    match e
    case Connected(session, info) =>
      if Evicts(t.sessions, SessionKey(session)) {
        ForgetKeepsKeys(t, t.sessions[0].key.session);
      }
      StoreIsUnique(t.sessions, SessionKey(session), info);
    case Accepted(session, handle, peer, forward, now) =>
      var key := Key(session, handle);
      StoreIsUnique(t.handles, key, HandleSeen(Lookup(t.handles, key), peer, forward, false, now));
    case CloneRequested(session, handle, manager, now) =>
      var key := Key(session, handle);
      StoreIsUnique(t.clones, key, CloneSeen(Lookup(t.clones, key), manager, now));
    case CloneAccepted(session, handle, peer, forward, now) =>
      var key := Key(session, handle);
      StoreIsUnique(t.handles, key, HandleSeen(Lookup(t.handles, key), peer, forward, true, now));
      CloneKeepsKeys(RememberHandle(t, session, handle, peer, forward, true, now), session, peer, handle, forward, now);
    case HandleClosed(session, handle, now) =>
      CloseKeepsKeys(t, session, handle, now);
      CloseKeepsKeys(MarkHandleClosed(t, session, handle, now), session, handle, now);
    case Disconnected(session) =>
      ForgetKeepsKeys(t, session);
      LookupRemoved(t.sessions, SessionKey(session), SessionKey(session));
    case ObjectsReturned(session, parent, _, _) => ChildrenKeepKeys(t, e, RelativePath(t, session, parent), 0);
    case RootConverted(session, object_, parent, now) => PathKeepsKeys(t, session, object_, "root", parent, 0, now);
    case ObjectClosed(session, object_, now) => CloseKeepsKeys(t, session, object_, now);
  }

  /** Over every sequence of events no table holds two entries for one key, so each count is a cardinality. */
  lemma {:induction false} KeysAlwaysUnique(events: seq<Event>)
    requires AllPossible(events)
    ensures KeysUnique(Run(events))
    ensures CountUsed(Run(events).sessions) == |Contents(Run(events).sessions)|
    ensures CountUsed(Run(events).handles) == |Contents(Run(events).handles)|
    ensures CountUsed(Run(events).clones) == |Contents(Run(events).clones)|
    ensures CountUsed(Run(events).paths) == |Contents(Run(events).paths)|
  {
    if events == [] {
    } else {
      KeysAlwaysUnique(events[..|events| - 1]);
      StepKeepsKeys(Run(events[..|events| - 1]), events[|events| - 1]);
    }
    CountIsContents(Run(events).sessions);
    CountIsContents(Run(events).handles);
    CountIsContents(Run(events).clones);
    CountIsContents(Run(events).paths);
  }

  lemma CountIsContents<V>(t: Table<V>)
    requires Unique(t)
    ensures CountUsed(t) == |Contents(t)|
  {
    CountIsCardinality(t);
    assert |Contents(t)| == |Contents(t).Keys|;
  }

  // Closing handles and forgetting sessions.

  predicate OpenHandleOf(slot: Slot<SessionHandle>, session: u64) {
    slot.Used? && slot.key.session == session && !slot.value.closed
  }

  /** The active handle count of a session; a close that leaves it at zero is final. */
  function OpenHandles(t: Tables, session: u64): nat {
    CountIf(t.handles, (slot: Slot<SessionHandle>) => OpenHandleOf(slot, session))
  }

  predicate IsOpen(t: Tables, session: u64, handle: int) {
    Lookup(t.handles, Key(session, handle)).Some? && !Lookup(t.handles, Key(session, handle)).value.closed
  }

  lemma OpenHandlesZero(t: Tables, session: u64)
    requires Unique(t.handles)
    ensures OpenHandles(t, session) == 0 <==> forall h: int :: !IsOpen(t, session, h)
  {
    CountIfZero(t.handles, (slot: Slot<SessionHandle>) => OpenHandleOf(slot, session));
    forall i | 0 <= i < |t.handles| && OpenHandleOf(t.handles[i], session)
      ensures IsOpen(t, session, t.handles[i].key.id)
    {
      FindUnique(t.handles, i);
    }
    forall h: int | IsOpen(t, session, h)
      ensures exists i :: 0 <= i < |t.handles| && OpenHandleOf(t.handles[i], session)
    {
      assert OpenHandleOf(t.handles[FindKey(t.handles, Key(session, h), 0)], session);
    }
  }

  lemma MarkedHandles(t: Tables, session: u64, handle: int, now: u64, h: int)
    requires Shaped(t) && Unique(t.handles)
    ensures IsOpen(MarkHandleClosed(t, session, handle, now), session, h) <==> IsOpen(t, session, h) && h != handle
  {
    var key := Key(session, handle);
    if Lookup(t.handles, key).Some? {
      LookupStored(t.handles, key, Lookup(t.handles, key).value.(closed := true, closeSeen := now), Key(session, h));
    }
  }

  /** A close is final exactly when no other tracked handle of the session is open. */
  lemma FinalClose(t: Tables, session: u64, handle: int, now: u64)
    requires Shaped(t) && KeysUnique(t)
    ensures OpenHandles(Step(t, HandleClosed(session, handle, now)), session) == 0
        <==> forall h: int :: h != handle ==> !IsOpen(t, session, h)
  {
    var marked := MarkHandleClosed(t, session, handle, now);
    CloseKeepsKeys(t, session, handle, now);
    OpenHandlesZero(marked, session);
    forall h: int
      ensures IsOpen(marked, session, h) <==> IsOpen(t, session, h) && h != handle
    {
      MarkedHandles(t, session, handle, now, h);
    }
    assert Step(t, HandleClosed(session, handle, now)).handles == marked.handles;
  }

  /** No table says anything about a session. */
  ghost predicate Unmentioned(t: Tables, session: u64) {
    && Lookup(t.sessions, SessionKey(session)) == None
    && forall id: int ::
      && Lookup(t.handles, Key(session, id)) == None
      && Lookup(t.clones, Key(session, id)) == None
      && Lookup(t.paths, Key(session, id)) == None
  }

  /** Two states say the same about one session. */
  ghost predicate SameAbout(t: Tables, r: Tables, session: u64) {
    && Lookup(t.sessions, SessionKey(session)) == Lookup(r.sessions, SessionKey(session))
    && forall id: int ::
      && Lookup(t.handles, Key(session, id)) == Lookup(r.handles, Key(session, id))
      && Lookup(t.clones, Key(session, id)) == Lookup(r.clones, Key(session, id))
      && Lookup(t.paths, Key(session, id)) == Lookup(r.paths, Key(session, id))
  }

  lemma ForgottenDetails(t: Tables, session: u64, other: u64, id: int)
    requires Shaped(t) && KeysUnique(t)
    ensures
      var r := ForgetDetails(t, session);
      var key := Key(other, id);
      && Lookup(r.handles, key) == (if other == session then None else Lookup(t.handles, key))
      && Lookup(r.clones, key) == (if other == session then None else Lookup(t.clones, key))
      && Lookup(r.paths, key) == (if other == session then None else Lookup(t.paths, key))
  {
    LookupErased(t.handles, session, Key(other, id));
    LookupErased(t.clones, session, Key(other, id));
    LookupErased(t.paths, session, Key(other, id));
  }

  /** After the final close no table mentions the session, and every other session is untouched. */
  lemma DisconnectForgetsOneSession(t: Tables, session: u64, other: u64)
    requires Shaped(t) && KeysUnique(t)
    ensures Unmentioned(Step(t, Disconnected(session)), session)
    ensures other != session ==> SameAbout(t, Step(t, Disconnected(session)), other)
  {
    forall s: u64, id: int
      ensures
        var r := ForgetDetails(t, session);
        var key := Key(s, id);
        && Lookup(r.handles, key) == (if s == session then None else Lookup(t.handles, key))
        && Lookup(r.clones, key) == (if s == session then None else Lookup(t.clones, key))
        && Lookup(r.paths, key) == (if s == session then None else Lookup(t.paths, key))
    {
      ForgottenDetails(t, session, s, id);
    }
    LookupRemoved(t.sessions, SessionKey(session), SessionKey(session));
    LookupRemoved(t.sessions, SessionKey(session), SessionKey(other));
  }

  /** A session pushed out of a full table leaves nothing behind; all sessions but these two are untouched. */
  lemma EvictionForgetsOneSession(t: Tables, session: u64, info: SessionInfo, other: u64)
    requires Shaped(t) && KeysUnique(t) && Evicts(t.sessions, SessionKey(session))
    ensures
      var evicted := t.sessions[0].key.session;
      var r := Step(t, Connected(session, info));
      && Unmentioned(r, evicted)
      && Lookup(r.sessions, SessionKey(session)) == Some(info)
      && (other != session && other != evicted ==> SameAbout(t, r, other))
  {
    var evicted := t.sessions[0].key.session;
    forall s: u64, id: int
      ensures
        var r := ForgetDetails(t, evicted);
        var key := Key(s, id);
        && Lookup(r.handles, key) == (if s == evicted then None else Lookup(t.handles, key))
        && Lookup(r.clones, key) == (if s == evicted then None else Lookup(t.clones, key))
        && Lookup(r.paths, key) == (if s == evicted then None else Lookup(t.paths, key))
    {
      ForgottenDetails(t, evicted, s, id);
    }
    LookupStored(t.sessions, SessionKey(session), info, SessionKey(evicted));
    LookupStored(t.sessions, SessionKey(session), info, SessionKey(session));
    LookupStored(t.sessions, SessionKey(session), info, SessionKey(other));
  }

  /** The clone is tracked, open, and registered with these handles. */
  predicate RegisteredAs(t: Tables, key: Key, server: int, forward: Forward) {
    match Lookup(t.clones, key)
    case None => false
    case Some(c) => c.server == server && c.forward == forward && c.registered && !c.closed && c.closeSeen == 0
  }

  /** What a registration leaves as it was: the manager's command and the time of creation, if there was an entry. */
  predicate KeepsOrigin(before: Option<CloneHandle>, after: Option<CloneHandle>, now: u64) {
    && after.Some?
    && after.value.manager == (if before.Some? then before.value.manager else 0)
    && after.value.created == (if before.Some? then before.value.created else now)
  }

  lemma RegisteredEntry(t: Tables, session: u64, handle: int, server: int, forward: Forward, now: u64)
    requires Shaped(t) && KeysUnique(t)
    ensures
      var r := NoteClone(t, session, handle, server, forward, now);
      && RegisteredAs(r, Key(session, handle), server, forward)
      && KeepsOrigin(Lookup(t.clones, Key(session, handle)), Lookup(r.clones, Key(session, handle)), now)
  {
    var key := Key(session, handle);
    LookupStored(t.clones, key, CloneSeen(Lookup(t.clones, key), 0, now), key);
    StoreIsUnique(t.clones, key, CloneSeen(Lookup(t.clones, key), 0, now));
    var known := if CloneMissing(t, session, handle) then RememberClone(t, session, handle, 0, now) else t;
    LookupStored(known.clones, key, CloneRegistered(Lookup(known.clones, key).value, server, forward), key);
  }

  /** Some tracked clone of the session is open and has this server handle. */
  predicate OpenClone(t: Tables, found: Key, session: u64, server: int) {
    && found.session == session && Lookup(t.clones, found).Some?
    && Lookup(t.clones, found).value.server == server && !Lookup(t.clones, found).value.closed
  }

  /** A registered clone is found by its server handle: closing that handle closes an open clone that has it. */
  lemma ServerHandleFindsClone(t: Tables, key: Key, server: int, forward: Forward, now: u64) returns (found: Key)
    requires Shaped(t) && KeysUnique(t) && RegisteredAs(t, key, server, forward)
    ensures OpenClone(t, found, key.session, server)
    ensures
      var r := Step(t, HandleClosed(key.session, server, now));
      Lookup(r.clones, found) == Some(Lookup(t.clones, found).value.(closed := true, closeSeen := now))
  {
    var at := FindKey(t.clones, key, 0);
    assert OpenCloneOf(t.clones[at], key.session, server);
    var i := FindOpenClone(t.clones, key.session, server, 0);
    found := t.clones[i].key;
    FindUnique(t.clones, i);
    var r := Step(t, HandleClosed(key.session, server, now));
    StepKeepsKeys(t, HandleClosed(key.session, server, now));
    assert r.clones[i] == Used(found, t.clones[i].value.(closed := true, closeSeen := now));
    FindUnique(r.clones, i);
  }

  /**
   * Registering a clone always finds or makes its entry, so the failure branch is never taken: the entry holds the
   * handles that were given and is open, and the close of that server handle, coming next, closes a clone that has it.
   */
  lemma CloneRegistrationSucceeds(t: Tables, session: u64, handle: int, server: int, forward: Forward, now: u64, later: u64)
    returns (found: Key)
    requires Shaped(t) && KeysUnique(t)
    ensures
      var r := NoteClone(t, session, handle, server, forward, now);
      var closed := Step(r, HandleClosed(session, server, later));
      && RegisteredAs(r, Key(session, handle), server, forward)
      && KeepsOrigin(Lookup(t.clones, Key(session, handle)), Lookup(r.clones, Key(session, handle)), now)
      && OpenClone(r, found, session, server)
      && Lookup(closed.clones, found) == Some(Lookup(r.clones, found).value.(closed := true, closeSeen := later))
  {
    RegisteredEntry(t, session, handle, server, forward, now);
    CloneKeepsKeys(t, session, handle, server, forward, now);
    var r := NoteClone(t, session, handle, server, forward, now);
    found := ServerHandleFindsClone(r, Key(session, handle), server, forward, later);
  }

  /** Seeing a handle again reopens it; seeing a domain object again does not. */
  lemma OnlyHandlesReopen(t: Tables, session: u64, id: int, now: u64, info: DomainPath)
    requires Shaped(t) && KeysUnique(t) && 0 < id < 0x1_0000_0000 && info.path != []
    ensures IsOpen(RememberHandle(t, session, id, 0, NoForward, false, now), session, id)
    ensures
      var r := RememberPath(t, session, id, info.path, info.parent, info.creator, now);
      var before := Lookup(t.paths, Key(session, id));
      Lookup(r.paths, Key(session, id)).Some?
      && (Lookup(r.paths, Key(session, id)).value.closed <==> before.Some? && before.value.closed)
  {
    var key := Key(session, id);
    LookupStored(t.handles, key, HandleSeen(Lookup(t.handles, key), 0, NoForward, false, now), key);
    LookupStored(t.paths, key, PathSeen(Lookup(t.paths, key), info.path, info.parent, info.creator, now), key);
  }

  // Where the paths of tracked objects come from.

  predicate BornAt(events: seq<Event>, key: Key, p: DomainPath, n: nat, index: u32)
    requires AllPossible(events)
  {
    && n < |events|
    && events[n].ObjectsReturned? && events[n].session == key.session
    && events[n].parent == p.parent && events[n].command == p.creator
    && p.path == Clip(ObjectPath.Child(RelativePath(Run(events[..n]), key.session, p.parent), p.creator, index))
  }

  /** The entry is a converted root, or was returned by a command of its parent, whose path at that moment it extends. */
  ghost predicate Born(events: seq<Event>, key: Key, p: DomainPath)
    requires AllPossible(events)
  {
    || (p.path == "root" && p.creator == 0)
    || exists n: nat, index: u32 :: BornAt(events, key, p, n, index)
  }

  ghost predicate AllBorn(events: seq<Event>, t: Table<DomainPath>)
    requires AllPossible(events)
  {
    forall i :: 0 <= i < |t| && t[i].Used? ==> Born(events, t[i].key, t[i].value)
  }

  lemma BornStays(events: seq<Event>, e: Event, longer: seq<Event>, key: Key, p: DomainPath)
    requires AllPossible(events) && Possible(e) && longer == events + [e]
    requires Born(events, key, p)
    ensures AllPossible(longer) && Born(longer, key, p)
  {
    if !(p.path == "root" && p.creator == 0) {
      var n: nat, index: u32 :| BornAt(events, key, p, n, index);
      assert longer[..n] == events[..n];
      assert BornAt(longer, key, p, n, index);
    }
  }

  lemma ClipTwice(path: string)
    ensures Clip(Clip(path)) == Clip(path)
  {
  }

  /** The entries of a response, each an old entry or a child born now. */
  lemma {:induction false} ChildrenAreBorn(events: seq<Event>, t: Tables, parentPath: string, from: nat, e: Event)
    requires AllPossible(events) && |events| > 0 && e == events[|events| - 1] && Possible(e) && e.ObjectsReturned?
    requires parentPath == RelativePath(Run(events[..|events| - 1]), e.session, e.parent)
    requires Shaped(t) && from <= |e.objects| && AllBorn(events, t.paths)
    ensures AllBorn(events, RememberChildren(t, e, parentPath, from).paths)
    decreases |e.objects| - from
  {
    if from < |e.objects| {
      var o := e.objects[from];
      var path := Clip(ObjectPath.Child(parentPath, e.command, from));
      var next := RememberPath(t, e.session, o.object_, path, e.parent, e.command, o.now);
      if o.object_ != 0 && path != [] {
        var key := Key(e.session, o.object_);
        var value := PathSeen(Lookup(t.paths, key), path, e.parent, e.command, o.now);
        ClipTwice(ObjectPath.Child(parentPath, e.command, from));
        assert BornAt(events, key, value, |events| - 1, from);
        assert next.paths == t.paths[Place(t.paths, key) := Used(key, value)];
      }
      ChildrenAreBorn(events, next, parentPath, from + 1, e);
    }
  }

  /** In every run each tracked object is a root or was returned by a command of its parent. */
  lemma {:induction false} EveryPathIsBorn(events: seq<Event>)
    requires AllPossible(events)
    ensures AllBorn(events, Run(events).paths)
  {
    if events == [] {
    } else {
      var before, e := events[..|events| - 1], events[|events| - 1];
      var t := Run(before);
      EveryPathIsBorn(before);
      assert events == before + [e];
      forall i | 0 <= i < |t.paths| && t.paths[i].Used?
        ensures Born(events, t.paths[i].key, t.paths[i].value)
      {
        BornStays(before, e, events, t.paths[i].key, t.paths[i].value);
      }
      match e
      case ObjectsReturned(session, parent, _, _) =>
        ChildrenAreBorn(events, t, RelativePath(t, session, parent), 0, e);
      case ObjectClosed(session, object_, now) => CloseKeepsBorn(events, t, session, object_, now);
      case _ => SessionEventsKeepBorn(events, t, e);
    }
  }

  lemma CloseKeepsBorn(events: seq<Event>, t: Tables, session: u64, object_: u32, now: u64)
    requires AllPossible(events) && Shaped(t) && AllBorn(events, t.paths)
    ensures AllBorn(events, MarkPathClosed(t, session, object_, now).paths)
  {
    var key := Key(session, object_);
    var at := FindKey(t.paths, key, 0);
    if object_ != 0 && at < |t.paths| {
      var p := t.paths[at].value;
      var q := p.(closed := true, closeSeen := now);
      if !(p.path == "root" && p.creator == 0) {
        var n: nat, index: u32 :| BornAt(events, key, p, n, index);
        assert BornAt(events, key, q, n, index);
      }
      assert Born(events, key, q);
    }
  }

  lemma SessionEventsKeepBorn(events: seq<Event>, t: Tables, e: Event)
    requires AllPossible(events) && Shaped(t) && AllBorn(events, t.paths)
    requires !e.ObjectsReturned? && !e.ObjectClosed?
    ensures AllBorn(events, Step(t, e).paths)
  {
    if e.RootConverted? && e.object_ != 0 {
      var key := Key(e.session, e.object_);
      var value := PathSeen(Lookup(t.paths, key), "root", e.parent, 0, e.now);
      assert value.path == "root";
      assert Born(events, key, value);
    }
  }

  /** The child's path, when the whole of it fits: one segment more than its parent's, naming its creator. */
  lemma PathsEncodeAncestry(parentPath: string, creator: u32, index: u32, path: string, service: string, full: string)
    requires path == Clip(ObjectPath.Child(parentPath, creator, index))
    requires full == (service + ".") + path
    requires |ObjectPath.Child(parentPath, creator, index)| <= MAX_PATH_LENGTH
    ensures ObjectPath.CountMarks(path, 0) == ObjectPath.CountMarks(parentPath, 0) + 1
    ensures ObjectPath.LastCreator(full) == creator <==> creator < ObjectPath.INT_LIMIT
  {
    ObjectPath.ChildAddsASegment(parentPath, creator, index);
    ObjectPath.CreatorReadsBack(service + ".", path, parentPath, creator, index, full);
  }

  /**
   * In every run: a tracked object that is not a root was returned when its parent had some path, and if the whole
   * path of the child fits the buffer, it has one segment more and names its creating command.
   */
  lemma TrackedPathsEncodeAncestry(events: seq<Event>, key: Key, p: DomainPath, service: string, full: string)
    returns (n: nat, index: u32)
    requires AllPossible(events)
    requires Lookup(Run(events).paths, key) == Some(p) && !(p.path == "root" && p.creator == 0)
    requires full == (service + ".") + p.path
    ensures BornAt(events, key, p, n, index)
    ensures
      var parent := RelativePath(Run(events[..n]), key.session, p.parent);
      |ObjectPath.Child(parent, p.creator, index)| <= MAX_PATH_LENGTH ==>
        && ObjectPath.CountMarks(p.path, 0) == ObjectPath.CountMarks(parent, 0) + 1
        && (ObjectPath.LastCreator(full) == p.creator <==> p.creator < ObjectPath.INT_LIMIT)
  {
    EveryPathIsBorn(events);
    var at := FindKey(Run(events).paths, key, 0);
    assert Born(events, key, p);
    n, index :| BornAt(events, key, p, n, index);
    var parent := RelativePath(Run(events[..n]), key.session, p.parent);
    if |ObjectPath.Child(parent, p.creator, index)| <= MAX_PATH_LENGTH {
      PathsEncodeAncestry(parent, p.creator, index, p.path, service, full);
    }
  }
}
