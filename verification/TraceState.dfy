/** The four arrays themselves, changed in place; every method does what the table operation of the same event says. */
module TraceState {
  import opened Bytes
  import opened SlotTable
  import opened TraceTables
  import opened TraceRun
  import opened Wrappers
  import ObjectPath
  import Text

  class State {
    const sessions: array<Slot<SessionInfo>>
    const handles: array<Slot<SessionHandle>>
    const clones: array<Slot<CloneHandle>>
    const paths: array<Slot<DomainPath>>

    ghost predicate Valid() {
      && sessions.Length == MAX_SESSIONS
      && handles.Length == MAX_SESSION_HANDLES
      && clones.Length == MAX_CLONE_HANDLES
      && paths.Length == MAX_DOMAIN_PATHS
    }

    ghost function View(): (t: Tables)
      reads sessions, handles, clones, paths
      requires Valid()
      ensures Shaped(t)
    {
      Tables(sessions[..], handles[..], clones[..], paths[..])
    }

    constructor ()
      ensures Valid() && View() == Initial()
      ensures fresh(sessions) && fresh(handles) && fresh(clones) && fresh(paths)
    {
      sessions := new Slot<SessionInfo>[MAX_SESSIONS](_ => Free);
      handles := new Slot<SessionHandle>[MAX_SESSION_HANDLES](_ => Free);
      clones := new Slot<CloneHandle>[MAX_CLONE_HANDLES](_ => Free);
      paths := new Slot<DomainPath>[MAX_DOMAIN_PATHS](_ => Free);
      new;
      assert View().sessions == Initial().sessions;
      assert View().handles == Initial().handles;
      assert View().clones == Initial().clones;
      assert View().paths == Initial().paths;
    }

    method ForgetDetailsOf(session: u64)
      requires Valid()
      modifies handles, clones, paths
      ensures View() == ForgetDetails(old(View()), session)
    {
      ForgetSessionIn(paths, session);
      ForgetSessionIn(handles, session);
      ForgetSessionIn(clones, session);
    }

    method RememberSessionLocked(session: u64, info: SessionInfo) returns (count: nat)
      requires Valid()
      modifies sessions, handles, clones, paths
      ensures View() == RememberSession(old(View()), session, info)
      ensures count == CountIf(View().sessions, (slot: Slot<SessionInfo>) => slot.Used?)
    {
      var key := SessionKey(session);
      var at, found := FindSlot(sessions, key);
      if !found && sessions[at].Used? {
        PlaceUsedMeansFull(sessions[..], key);
        ForgetDetailsOf(sessions[at].key.session);
      }
      sessions[at] := Used(key, info);
      count := CountSlots(sessions, (slot: Slot<SessionInfo>) => slot.Used?);
    }

    method ForgetSessionLocked(session: u64) returns (found: bool, remaining: nat)
      requires Valid()
      modifies sessions, handles, clones, paths
      ensures View() == ForgetSession(old(View()), session)
      ensures found <==> Lookup(old(View()).sessions, SessionKey(session)).Some?
      ensures remaining == CountIf(View().sessions, (slot: Slot<SessionInfo>) => slot.Used?)
    {
      var at;
      at, found := FindSlot(sessions, SessionKey(session));
      if found {
        sessions[at] := Free;
      }
      ForgetDetailsOf(session);
      remaining := CountSlots(sessions, (slot: Slot<SessionInfo>) => slot.Used?);
    }

    method RememberSessionHandleLocked(session: u64, handle: int, peer: int, forward: Forward, isClone: bool, now: u64)
      requires Valid()
      modifies handles
      ensures View() == RememberHandle(old(View()), session, handle, peer, forward, isClone, now)
    {
      var at, found := FindSlot(handles, Key(session, handle));
      if found {
        handles[at] := Used(Key(session, handle),
          SessionHandle(peer, forward, isClone, if handles[at].value.created == 0 then now else handles[at].value.created, 0, false));
      } else {
        handles[at] := Used(Key(session, handle), SessionHandle(peer, forward, isClone, now, 0, false));
      }
    }

    method RememberCloneHandleLocked(session: u64, handle: int, manager: u32, now: u64)
      requires Valid()
      modifies clones
      ensures View() == RememberClone(old(View()), session, handle, manager, now)
    {
      var at, found := FindSlot(clones, Key(session, handle));
      if found {
        var c := clones[at].value;
        clones[at] := Used(Key(session, handle),
          c.(manager := manager, created := if c.created == 0 then now else c.created, closed := false, closeSeen := 0));
      } else {
        clones[at] := Used(Key(session, handle), CloneHandle(-1, NoForward, false, manager, now, 0, false));
      }
    }

    /** `false` would mean that the entry just remembered cannot be found again. */
    method NoteCloneRegisteredLocked(session: u64, handle: int, server: int, forward: Forward, now: u64)
      returns (ok: bool)
      requires Valid() && KeysUnique(View())
      modifies clones
      ensures View() == NoteClone(old(View()), session, handle, server, forward, now)
      ensures ok && RegisteredAs(View(), Key(session, handle), server, forward)
    {
      RegisteredEntry(View(), session, handle, server, forward, now);
      ghost var before := View();
      var key := Key(session, handle);
      var at, found := FindSlot(clones, key);
      if !found {
        RememberCloneHandleLocked(session, handle, 0, now);
        at, found := FindSlot(clones, key);
        LookupStored(before.clones, key, CloneSeen(None, 0, now), key);
      }
      if !found {
        return false;
      }
      clones[at] := Used(key, clones[at].value.(
        server := server, forward := forward, registered := true, closed := false, closeSeen := 0));
      return true;
    }

    method CountOpenHandles(session: u64) returns (active: nat)
      requires Valid()
      ensures active == OpenHandles(View(), session)
    {
      ghost var open := (slot: Slot<SessionHandle>) => OpenHandleOf(slot, session);
      active := 0;
      for i := 0 to handles.Length
        invariant active == CountIf(handles[..i], open)
      {
        assert handles[..i + 1][..i] == handles[..i];
        if handles[i].Used? && handles[i].key.session == session && !handles[i].value.closed {
          active := active + 1;
        }
      }
      assert handles[..handles.Length] == handles[..];
    }

    method MarkSessionHandleCloseObservedLocked(session: u64, handle: int, now: u64)
      returns (found: bool, active: nat)
      requires Valid()
      modifies handles
      ensures View() == MarkHandleClosed(old(View()), session, handle, now)
      ensures found <==> Lookup(old(View()).handles, Key(session, handle)).Some?
      ensures active == OpenHandles(View(), session)
    {
      var at;
      at, found := FindSlot(handles, Key(session, handle));
      if found {
        handles[at] := Used(Key(session, handle), handles[at].value.(closed := true, closeSeen := now));
      }
      active := CountOpenHandles(session);
    }

    method MarkCloneClosedByServerHandleLocked(session: u64, server: int, now: u64) returns (found: bool)
      requires Valid()
      modifies clones
      ensures View() == MarkCloneClosed(old(View()), session, server, now)
      ensures found <==> exists i :: 0 <= i < |old(View()).clones| && OpenCloneOf(old(View()).clones[i], session, server)
    {
      for i := 0 to clones.Length
        invariant unchanged(clones)
        invariant forall k :: 0 <= k < i ==> !OpenCloneOf(clones[..][k], session, server)
      {
        if clones[i].Used? && clones[i].key.session == session && clones[i].value.server == server
          && !clones[i].value.closed {
          FirstOpenIs(clones[..], session, server, i);
          clones[i] := Used(clones[i].key, clones[i].value.(closed := true, closeSeen := now));
          return true;
        }
      }
      FirstOpenIs(clones[..], session, server, clones.Length);
      return false;
    }

    /** A client handle is closed; `final` says that it was the session's last and the session was forgotten. */
    method LogClose(session: u64, handle: int, now: u64) returns (final: bool)
      requires Valid() && KeysUnique(View())
      modifies sessions, handles, clones, paths
      ensures final <==> forall h: int :: h != handle ==> !IsOpen(old(View()), session, h)
      ensures
        var marked := Step(old(View()), HandleClosed(session, handle, now));
        View() == if final then Step(marked, Disconnected(session)) else marked
    {
      FinalClose(View(), session, handle, now);
      var found, active := MarkSessionHandleCloseObservedLocked(session, handle, now);
      var cloneFound := MarkCloneClosedByServerHandleLocked(session, handle, now);
      final := active == 0;
      if final {
        var known, remaining := ForgetSessionLocked(session);
      }
    }

    method RememberDomainPath(session: u64, object_: u32, path: string, parent: u32, creator: u32, now: u64)
      requires Valid()
      modifies paths
      ensures View() == RememberPath(old(View()), session, object_, path, parent, creator, now)
    {
      if object_ == 0 || path == [] {
        return;
      }
      var key := Key(session, object_);
      var at, found := FindSlot(paths, key);
      if found {
        var p := paths[at].value;
        paths[at] := Used(key,
          p.(path := Clip(path), parent := parent, creator := creator, created := if p.created == 0 then now else p.created));
      } else {
        paths[at] := Used(key, DomainPath(Clip(path), parent, creator, now, 0, false));
      }
    }

    method GetRelativeDomainPath(session: u64, object_: u32) returns (path: string)
      requires Valid()
      ensures path == RelativePath(View(), session, object_)
    {
      if object_ == 0 {
        return "root";
      }
      var at, found := FindSlot(paths, Key(session, object_));
      return if found then paths[at].value.path else "obj" + Text.Decimal(object_);
    }

    method RememberReturnedDomainObjects(e: Event)
      requires Valid() && e.ObjectsReturned? && Possible(e)
      modifies paths
      ensures View() == Step(old(View()), e)
    {
      var parentPath := GetRelativeDomainPath(e.session, e.parent);
      for i := 0 to |e.objects|
        invariant RememberChildren(View(), e, parentPath, i) == RememberChildren(old(View()), e, parentPath, 0)
      {
        var o := e.objects[i];
        if o.object_ != 0 {
          RememberDomainPath(e.session, o.object_, Clip(ObjectPath.Child(parentPath, e.command, i)), e.parent, e.command,
            o.now);
        }
      }
    }

    method MarkDomainPathCloseObserved(session: u64, object_: u32, now: u64) returns (found: bool)
      requires Valid()
      modifies paths
      ensures View() == MarkPathClosed(old(View()), session, object_, now)
      ensures found <==> object_ != 0 && Lookup(old(View()).paths, Key(session, object_)).Some?
    {
      if object_ == 0 {
        return false;
      }
      var at;
      at, found := FindSlot(paths, Key(session, object_));
      if found {
        paths[at] := Used(Key(session, object_), paths[at].value.(closed := true, closeSeen := now));
      }
    }
  }

  lemma PlaceUsedMeansFull<V>(t: Table<V>, key: Key)
    requires |t| > 0 && Lookup(t, key) == None && t[Place(t, key)].Used?
    ensures Evicts(t, key) && Place(t, key) == 0
  {
  }

  lemma FirstOpenIs(t: Table<CloneHandle>, session: u64, server: int, i: nat)
    requires i <= |t| && (i < |t| ==> OpenCloneOf(t[i], session, server))
    requires forall k :: 0 <= k < i ==> !OpenCloneOf(t[k], session, server)
    ensures FindOpenClone(t, session, server, 0) == i
  {
    var j := FindOpenClone(t, session, server, 0);
    assert !(j < i) && !(i < j);
  }
}
