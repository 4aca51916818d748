/**
 * What the tracer remembers: sessions, their handles, handles handed out by clone requests, and domain objects.
 * Every operation is given the clock reading it stamps its entry with.
 */
module TraceTables {
  import opened Bytes
  import opened SlotTable
  import opened Wrappers

  const MAX_SESSIONS := 64
  const MAX_SESSION_HANDLES := 128
  const MAX_CLONE_HANDLES := 128
  const MAX_DOMAIN_PATHS := 256
  const MAX_PATH_LENGTH := 95

  datatype SessionInfo = SessionInfo(service: string, client: u64)

  datatype Forward = NoForward | ForwardTo(handle: int)

  datatype SessionHandle = SessionHandle(peer: int, forward: Forward, isClone: bool,
    created: u64, closeSeen: u64, closed: bool)

  datatype CloneHandle = CloneHandle(server: int, forward: Forward, registered: bool, manager: u32,
    created: u64, closeSeen: u64, closed: bool)

  datatype DomainPath = DomainPath(path: string, parent: u32, creator: u32,
    created: u64, closeSeen: u64, closed: bool)

  datatype Tables = Tables(sessions: Table<SessionInfo>, handles: Table<SessionHandle>,
    clones: Table<CloneHandle>, paths: Table<DomainPath>)

  predicate Shaped(t: Tables) {
    && |t.sessions| == MAX_SESSIONS
    && |t.handles| == MAX_SESSION_HANDLES
    && |t.clones| == MAX_CLONE_HANDLES
    && |t.paths| == MAX_DOMAIN_PATHS
  }

  function SessionKey(session: u64): Key {
    Key(session, 0)
  }

  function Stamp(created: u64, now: u64): u64 {
    if created == 0 then now else created
  }

  function ForgetDetails(t: Tables, session: u64): (r: Tables)
    requires Shaped(t)
    ensures Shaped(r)
  {
    t.(paths := Erase(t.paths, session), handles := Erase(t.handles, session), clones := Erase(t.clones, session))
  }

  /** A new session that evicts slot 0 takes everything known about the evicted session with it. */
  function RememberSession(t: Tables, session: u64, info: SessionInfo): (r: Tables)
    requires Shaped(t)
    ensures Shaped(r)
  {
    var key := SessionKey(session);
    var kept := if Evicts(t.sessions, key) then ForgetDetails(t, t.sessions[0].key.session) else t;
    kept.(sessions := Store(t.sessions, key, info))
  }

  function ForgetSession(t: Tables, session: u64): (r: Tables)
    requires Shaped(t)
    ensures Shaped(r)
  {
    ForgetDetails(t, session).(sessions := Remove(t.sessions, SessionKey(session)))
  }

  function HandleSeen(old_: Option<SessionHandle>, peer: int, forward: Forward, isClone: bool, now: u64): SessionHandle {
    SessionHandle(peer, forward, isClone, if old_.Some? then Stamp(old_.value.created, now) else now, 0, false)
  }

  function RememberHandle(t: Tables, session: u64, handle: int, peer: int, forward: Forward, isClone: bool, now: u64): (r: Tables)
    requires Shaped(t)
    ensures Shaped(r)
  {
    t.(handles := Upsert(t.handles, Key(session, handle), h => HandleSeen(h, peer, forward, isClone, now)))
  }

  function CloneSeen(c: Option<CloneHandle>, manager: u32, now: u64): CloneHandle {
    match c
    case None => CloneHandle(-1, NoForward, false, manager, now, 0, false)
    case Some(c) => c.(manager := manager, created := Stamp(c.created, now), closed := false, closeSeen := 0)
  }

  function RememberClone(t: Tables, session: u64, handle: int, manager: u32, now: u64): (r: Tables)
    requires Shaped(t)
    ensures Shaped(r)
  {
    t.(clones := Upsert(t.clones, Key(session, handle), c => CloneSeen(c, manager, now)))
  }

  /** The registration found no entry to write to. */
  predicate CloneMissing(t: Tables, session: u64, handle: int) {
    Lookup(t.clones, Key(session, handle)) == None
  }

  function CloneRegistered(c: CloneHandle, server: int, forward: Forward): CloneHandle {
    c.(server := server, forward := forward, registered := true, closed := false, closeSeen := 0)
  }

  /** A registration for an unknown handle first remembers it, with no manager command. */
  function NoteClone(t: Tables, session: u64, handle: int, server: int, forward: Forward, now: u64): (r: Tables)
    requires Shaped(t)
    ensures Shaped(r)
  {
    var key := Key(session, handle);
    var known := if CloneMissing(t, session, handle) then RememberClone(t, session, handle, 0, now) else t;
    match Lookup(known.clones, key)
    case None => known
    case Some(c) => known.(clones := Store(known.clones, key, CloneRegistered(c, server, forward)))
  }

  function MarkHandleClosed(t: Tables, session: u64, handle: int, now: u64): (r: Tables)
    requires Shaped(t)
    ensures Shaped(r)
  {
    var key := Key(session, handle);
    match Lookup(t.handles, key)
    case None => t
    case Some(h) => t.(handles := Store(t.handles, key, h.(closed := true, closeSeen := now)))
  }

  predicate OpenCloneOf(slot: Slot<CloneHandle>, session: u64, server: int) {
    slot.Used? && slot.key.session == session && slot.value.server == server && !slot.value.closed
  }

  function FindOpenClone(t: Table<CloneHandle>, session: u64, server: int, from: nat): (i: nat)
    requires from <= |t|
    ensures from <= i <= |t|
    ensures i < |t| ==> OpenCloneOf(t[i], session, server)
    ensures forall k :: from <= k < i ==> !OpenCloneOf(t[k], session, server)
    decreases |t| - from
  {
    if from == |t| || OpenCloneOf(t[from], session, server) then from
    else FindOpenClone(t, session, server, from + 1)
  }

  function MarkCloneClosed(t: Tables, session: u64, server: int, now: u64): (r: Tables)
    requires Shaped(t)
    ensures Shaped(r)
  {
    var i := FindOpenClone(t.clones, session, server, 0);
    if i == |t.clones| then t
    else t.(clones := t.clones[i := Used(t.clones[i].key, t.clones[i].value.(closed := true, closeSeen := now))])
  }

  function Clip(path: string): string {
    if |path| <= MAX_PATH_LENGTH then path else path[..MAX_PATH_LENGTH]
  }

  /** An object seen again keeps its close mark, unlike a handle seen again. */
  function PathSeen(p: Option<DomainPath>, path: string, parent: u32, creator: u32, now: u64): DomainPath {
    match p
    case None => DomainPath(Clip(path), parent, creator, now, 0, false)
    case Some(p) => p.(path := Clip(path), parent := parent, creator := creator, created := Stamp(p.created, now))
  }

  function RememberPath(t: Tables, session: u64, object_: u32, path: string, parent: u32, creator: u32, now: u64): (r: Tables)
    requires Shaped(t)
    ensures Shaped(r)
  {
    if object_ == 0 || path == [] then t
    else t.(paths := Upsert(t.paths, Key(session, object_), p => PathSeen(p, path, parent, creator, now)))
  }

  function MarkPathClosed(t: Tables, session: u64, object_: u32, now: u64): (r: Tables)
    requires Shaped(t)
    ensures Shaped(r)
  {
    var key := Key(session, object_);
    if object_ == 0 then t else
      match Lookup(t.paths, key)
      case None => t
      case Some(p) => t.(paths := Store(t.paths, key, p.(closed := true, closeSeen := now)))
  }
}
