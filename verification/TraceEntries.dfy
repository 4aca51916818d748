/**
 * What the tables say in every run, whatever has been evicted: a tracked handle is as it was last handed out and closed,
 * and a tracked session as it was last connected.
 */
module TraceEntries {
  import opened Bytes
  import opened SlotTable
  import opened TraceTables
  import opened TraceRun
  import opened Wrappers

  /** What an observer of the events alone knows of a handle since it was last handed out. */
  datatype Told = Told(peer: int, forward: Forward, isClone: bool, closedAt: Option<u64>)

  function ToldNext(told: Option<Told>, e: Event, key: Key): Option<Told> {
    match e
    case Accepted(session, handle, peer, forward, _) =>
      if Key(session, handle) == key then Some(Told(peer, forward, false, None)) else told
    case CloneAccepted(session, handle, peer, forward, _) =>
      if Key(session, handle) == key then Some(Told(peer, forward, true, None)) else told
    case HandleClosed(session, handle, now) =>
      if Key(session, handle) == key && told.Some? then Some(told.value.(closedAt := Some(now))) else told
    case _ => told
  }

  function LastTold(events: seq<Event>, key: Key): Option<Told> {
    if events == [] then None else ToldNext(LastTold(events[..|events| - 1], key), events[|events| - 1], key)
  }

  function LastInfo(events: seq<Event>, session: u64): Option<SessionInfo> {
    if events == [] then None else
      var e := events[|events| - 1];
      if e.Connected? && e.session == session then Some(e.info) else LastInfo(events[..|events| - 1], session)
  }

  /** If the handle is tracked, its entry says what was told. */
  predicate Says(entry: Option<SessionHandle>, told: Option<Told>) {
    match entry
    case None => true
    case Some(h) => told == Some(Told(h.peer, h.forward, h.isClone, if h.closed then Some(h.closeSeen) else None))
  }

  lemma HandedOut(t: Tables, at: Key, seen: SessionHandle, key: Key, told: Option<Told>)
    requires Shaped(t) && KeysUnique(t) && Says(Lookup(t.handles, key), told) && !seen.closed
    ensures Says(Lookup(Store(t.handles, at, seen), key),
      if at == key then Some(Told(seen.peer, seen.forward, seen.isClone, None)) else told)
  {
    LookupStored(t.handles, at, seen, key);
  }

  lemma CloseSays(t: Tables, e: Event, key: Key, told: Option<Told>)
    requires Shaped(t) && KeysUnique(t) && e.HandleClosed? && Says(Lookup(t.handles, key), told)
    ensures Says(Lookup(Step(t, e).handles, key), ToldNext(told, e, key))
  {
    var at := Key(e.session, e.handle);
    match Lookup(t.handles, at)
    case None =>
    case Some(h) => LookupStored(t.handles, at, h.(closed := true, closeSeen := e.now), key);
  }

  lemma StepSays(t: Tables, e: Event, key: Key, told: Option<Told>)
    requires Shaped(t) && KeysUnique(t) && Possible(e) && Says(Lookup(t.handles, key), told)
    ensures Says(Lookup(Step(t, e).handles, key), ToldNext(told, e, key))
  {
    match e
    case Connected(_, _) =>
      if Evicts(t.sessions, SessionKey(e.session)) {
        LookupErased(t.handles, t.sessions[0].key.session, key);
      }
    case Disconnected(session) => LookupErased(t.handles, session, key);
    case Accepted(session, handle, peer, forward, now) =>
      HandedOut(t, Key(session, handle), HandleSeen(Lookup(t.handles, Key(session, handle)), peer, forward, false, now), key, told);
    case CloneAccepted(session, handle, peer, forward, now) =>
      HandedOut(t, Key(session, handle), HandleSeen(Lookup(t.handles, Key(session, handle)), peer, forward, true, now), key, told);
    case HandleClosed(_, _, _) => CloseSays(t, e, key, told);
    case ObjectsReturned(session, parent, _, _) => ChildrenTouchPathsOnly(t, e, RelativePath(t, session, parent), 0);
    case _ =>
  }

  /**
   * In every run, evictions and forgotten sessions included: a tracked handle has the peer, the forward handle and the
   * kind it was last handed out with, and is closed exactly if it was closed since, with the time of the last close.
   */
  lemma {:induction false} TrackedHandlesSayWhatHappened(events: seq<Event>, key: Key)
    requires AllPossible(events)
    ensures Says(Lookup(Run(events).handles, key), LastTold(events, key))
  {
    if events == [] {
      assert FindKey(Initial().handles, key, 0) == |Initial().handles|;
    } else {
      var before := events[..|events| - 1];
      TrackedHandlesSayWhatHappened(before, key);
      KeysAlwaysUnique(before);
      StepSays(Run(before), events[|events| - 1], key, LastTold(before, key));
    }
  }

  lemma StepKeepsInfo(t: Tables, e: Event, session: u64)
    requires Shaped(t) && KeysUnique(t) && Possible(e) && Lookup(Step(t, e).sessions, SessionKey(session)).Some?
    ensures Lookup(Step(t, e).sessions, SessionKey(session)) ==
      if e.Connected? && e.session == session then Some(e.info) else Lookup(t.sessions, SessionKey(session))
  {
    match e
    case Connected(other, info) => LookupStored(t.sessions, SessionKey(other), info, SessionKey(session));
    case Disconnected(other) => LookupRemoved(t.sessions, SessionKey(other), SessionKey(session));
    case ObjectsReturned(other, parent, _, _) => ChildrenTouchPathsOnly(t, e, RelativePath(t, other, parent), 0);
    case _ =>
  }

  /** In every run a tracked session has the service and the client it was last connected with. */
  lemma {:induction false} TrackedSessionsSayWhatHappened(events: seq<Event>, session: u64)
    requires AllPossible(events)
    ensures
      var info := Lookup(Run(events).sessions, SessionKey(session));
      info.Some? ==> info == LastInfo(events, session)
  {
    if events == [] {
      assert FindKey(Initial().sessions, SessionKey(session), 0) == |Initial().sessions|;
    } else {
      var before := events[..|events| - 1];
      TrackedSessionsSayWhatHappened(before, session);
      KeysAlwaysUnique(before);
      if Lookup(Run(events).sessions, SessionKey(session)).Some? {
        StepKeepsInfo(Run(before), events[|events| - 1], session);
      }
    }
  }
}
