/**
 * Clone handles over whole runs: a clone that was registered keeps its handles until its server handle is closed or
 * its entry is forgotten, and as long as it does, closing that server handle finds it.
 */
module TraceClones {
  import opened Bytes
  import opened SlotTable
  import opened TraceTables
  import opened TraceRun
  import opened Wrappers
  import ObjectPath

  /** The event hands out the clone `key`. */
  predicate Registers(e: Event, key: Key) {
    e.CloneAccepted? && Key(e.session, e.peer) == key
  }

  predicate ClosesServer(e: Event, session: u64, server: int) {
    e.HandleClosed? && e.session == session && e.handle == server
  }

  /**
   * The clone was last handed out with these two handles, has been tracked ever since, and its server handle has
   * not been closed since.
   */
  predicate StillRegistered(events: seq<Event>, key: Key, server: int, forward: Forward)
    requires AllPossible(events)
  {
    if events == [] then false else
      var before, e := events[..|events| - 1], events[|events| - 1];
      && Lookup(Run(events).clones, key).Some?
      && if Registers(e, key) then e.handle == server && e.forward == forward
         else !ClosesServer(e, key.session, server) && StillRegistered(before, key, server, forward)
  }

  lemma ForgottenOrKept(t: Tables, session: u64, key: Key)
    requires Shaped(t) && KeysUnique(t)
    ensures Lookup(ForgetDetails(t, session).clones, key).Some? ==>
      Lookup(ForgetDetails(t, session).clones, key) == Lookup(t.clones, key)
  {
    LookupErased(t.clones, session, key);
  }

  lemma StoredOrKept(t: Table<CloneHandle>, at: Key, value: CloneHandle, key: Key)
    requires Unique(t) && |t| > 0 && key != at && Lookup(Store(t, at, value), key).Some?
    ensures Lookup(Store(t, at, value), key) == Lookup(t, key)
  {
    LookupStored(t, at, value, key);
  }

  lemma OtherRegistration(t: Tables, e: Event, key: Key)
    requires Shaped(t) && KeysUnique(t) && e.CloneAccepted? && !Registers(e, key)
    requires Lookup(Step(t, e).clones, key).Some?
    ensures Lookup(Step(t, e).clones, key) == Lookup(t.clones, key)
  {
    var at := Key(e.session, e.peer);
    var first := CloneSeen(Lookup(t.clones, at), 0, e.now);
    StoreIsUnique(t.clones, at, first);
    LookupStored(t.clones, at, first, at);
    var known := if Lookup(t.clones, at) == None then Store(t.clones, at, first) else t.clones;
    var second := CloneRegistered(Lookup(known, at).value, e.handle, e.forward);
    assert Step(t, e).clones == Store(known, at, second);
    StoredOrKept(known, at, second, key);
    if Lookup(t.clones, at) == None {
      StoredOrKept(t.clones, at, first, key);
    }
  }

  lemma Requested(t: Tables, e: Event, key: Key, server: int, forward: Forward)
    requires Shaped(t) && KeysUnique(t) && e.CloneRequested? && RegisteredAs(t, key, server, forward)
    requires Lookup(Step(t, e).clones, key).Some?
    ensures RegisteredAs(Step(t, e), key, server, forward)
  {
    var at := Key(e.session, e.handle);
    LookupStored(t.clones, at, CloneSeen(Lookup(t.clones, at), e.manager, e.now), key);
  }

  lemma OtherClose(t: Tables, e: Event, key: Key, server: int, forward: Forward)
    requires Shaped(t) && KeysUnique(t) && e.HandleClosed? && RegisteredAs(t, key, server, forward)
    requires !ClosesServer(e, key.session, server)
    ensures RegisteredAs(Step(t, e), key, server, forward)
  {
    var i := FindOpenClone(t.clones, e.session, e.handle, 0);
    var at := FindKey(t.clones, key, 0);
    FindUnique(t.clones, at);
    StepKeepsKeys(t, e);
    assert Step(t, e).clones[at] == t.clones[at];
    FindUnique(Step(t, e).clones, at);
  }

  /** No other event changes a registered clone that it does not forget. */
  lemma StaysRegistered(t: Tables, e: Event, key: Key, server: int, forward: Forward)
    requires Shaped(t) && KeysUnique(t) && Possible(e) && RegisteredAs(t, key, server, forward)
    requires Lookup(Step(t, e).clones, key).Some? && !Registers(e, key) && !ClosesServer(e, key.session, server)
    ensures RegisteredAs(Step(t, e), key, server, forward)
  {
    match e
    case Connected(session, _) =>
      if Evicts(t.sessions, SessionKey(session)) {
        ForgottenOrKept(t, t.sessions[0].key.session, key);
      }
    case Disconnected(session) => ForgottenOrKept(t, session, key);
    case CloneAccepted(_, _, _, _, _) => OtherRegistration(t, e, key);
    case CloneRequested(_, _, _, _) => Requested(t, e, key, server, forward);
    case HandleClosed(_, _, _) => OtherClose(t, e, key, server, forward);
    case ObjectsReturned(session, parent, _, _) => ChildrenTouchPathsOnly(t, e, RelativePath(t, session, parent), 0);
    case _ =>
  }

  lemma NowRegistered(t: Tables, e: Event, key: Key)
    requires Shaped(t) && KeysUnique(t) && Registers(e, key)
    ensures RegisteredAs(Step(t, e), key, e.handle, e.forward)
  {
    var handle := Key(e.session, e.handle);
    var seen := RememberHandle(t, e.session, e.handle, e.peer, e.forward, true, e.now);
    StoreIsUnique(t.handles, handle, HandleSeen(Lookup(t.handles, handle), e.peer, e.forward, true, e.now));
    RegisteredEntry(seen, e.session, e.peer, e.handle, e.forward, e.now);
  }

  /** In every run: a clone that was registered and neither closed nor forgotten since has the handles it was given. */
  lemma {:induction false} RegisteredClonesKeepTheirHandles(events: seq<Event>, key: Key, server: int, forward: Forward)
    requires AllPossible(events) && StillRegistered(events, key, server, forward)
    ensures RegisteredAs(Run(events), key, server, forward)
  {
    var before, e := events[..|events| - 1], events[|events| - 1];
    KeysAlwaysUnique(before);
    if Registers(e, key) {
      NowRegistered(Run(before), e, key);
    } else {
      RegisteredClonesKeepTheirHandles(before, key, server, forward);
      StaysRegistered(Run(before), e, key, server, forward);
    }
  }

  /** In every run such a clone is found by its server handle: the close of that handle closes an open clone that has it. */
  lemma ServerHandleAlwaysFindsClone(events: seq<Event>, key: Key, server: int, forward: Forward, now: u64)
    returns (found: Key)
    requires AllPossible(events) && StillRegistered(events, key, server, forward)
    ensures OpenClone(Run(events), found, key.session, server)
    ensures
      var r := Step(Run(events), HandleClosed(key.session, server, now));
      Lookup(r.clones, found) == Some(Lookup(Run(events).clones, found).value.(closed := true, closeSeen := now))
  {
    RegisteredClonesKeepTheirHandles(events, key, server, forward);
    KeysAlwaysUnique(events);
    found := ServerHandleFindsClone(Run(events), key, server, forward, now);
  }
}
