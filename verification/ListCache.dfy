/** The versioned list cache as a step system: lookups, strict loads and evictions run as threads that
    interleave at every lock, every cache access and every file operation, while files are replaced,
    removed and rewritten underneath. Times are left out: a throttled answer may come at any moment. */
module ListCache {
  import opened Bytes
  import opened Options
  import opened IpPrefix
  import opened SnapshotGuard

  const MAX_FILE_BYTES := 67108864

  type Path = nat
  type Inode = nat
  type Thread = nat
  type LockId = nat

  /** The strict parser with aggregation; None for any refused file. */
  type Parser = seq<Byte> -> Option<seq<Prefix>>

  datatype Shape = Shape(mtime: int, size: nat)
  datatype Version = Version(mtime: int, bytes: seq<Byte>)

  /** ipListFileState; id is the pointer, inode and version record what was read. */
  datatype Entry = Entry(id: nat, shape: Shape, sets: seq<Prefix>, inode: Inode, version: nat)

  /** ipListLoadLock */
  datatype Lock = Lock(path: Path, refs: nat, holder: Option<Thread>)

  /** Evaluate's lookup, the strict load of a build, and EvictIPListCache for one path. */
  datatype Kind = Lookup | Fresh | Evict

  /** Where a thread stands: before the action of that name. */
  datatype Pc =
    | Resolve | Stat | Check(info: Shape) | FailedStat
    | Acquire(info: Shape) | Wait(info: Shape) | Held(info: Shape)
    | Open | Opened(fd: Inode) | Reading(fd: Inode, shape: Shape, at: nat, got: seq<Byte>)
    | Commit(entry: Entry) | FailedLoad
    | Unlock(result: Option<Entry>) | Release(result: Option<Entry>) | Done(result: Option<Entry>)

  /** missed: at some moment since the start the path had no cached set. */
  datatype Job = Job(path: Path, kind: Kind, pc: Pc, lock: LockId, cached: Option<Entry>, missed: bool)

  datatype State = State(
    names: map<Path, Inode>, files: map<Inode, seq<Version>>, named: set<(Path, Inode)>,
    cache: map<Path, Entry>, table: map<Path, LockId>, locks: map<LockId, Lock>,
    jobs: map<Thread, Job>, nextInode: Inode, nextLock: LockId, nextEntry: nat)

  /** ok and n are the outcome of the call a thread makes: success, bytes read, or a throttled answer. */
  datatype Event =
    | Start(t: Thread, path: Path, kind: Kind)
    | Act(t: Thread, ok: bool, n: nat)
    | Forget(t: Thread)
    | Replace(path: Path, v: Version)
    | Remove(path: Path)
    | Rewrite(inode: Inode, v: Version)

  // ---- Files ----

  function ShapeOf(v: Version): Shape {
    Shape(v.mtime, |v.bytes|)
  }

  function Current(s: State, i: Inode): Version
    requires i in s.files && s.files[i] != []
  {
    s.files[i][|s.files[i]| - 1]
  }

  predicate CanOpen(s: State, p: Path) {
    p in s.names && s.names[p] in s.files && s.files[s.names[p]] != []
  }

  predicate Readable(s: State, i: Inode) {
    i in s.files && s.files[i] != []
  }

  /** A rename puts a new inode under the path. */
  function ReplaceFile(s: State, p: Path, v: Version): State {
    s.(names := s.names[p := s.nextInode], files := s.files[s.nextInode := [v]],
       named := s.named + {(p, s.nextInode)}, nextInode := s.nextInode + 1)
  }

  predicate FreshShape(history: seq<Version>, v: Version) {
    forall k :: 0 <= k < |history| ==> ShapeOf(history[k]) != ShapeOf(v)
  }

  /** A rewrite in place; one that reuses an earlier (mtime, size) of the inode is outside the design. */
  function RewriteFile(s: State, i: Inode, v: Version): State {
    if i in s.files && FreshShape(s.files[i], v) then s.(files := s.files[i := s.files[i] + [v]]) else s
  }

  // ---- Cache and locks ----

  function Find(cache: map<Path, Entry>, p: Path): Option<Entry> {
    if p in cache then Some(cache[p]) else None
  }

  /** The cached set was read from a file of this shape. */
  predicate Hit(cache: map<Path, Entry>, p: Path, info: Shape) {
    p in cache && cache[p].shape == info
  }

  function GenOf(shape: Shape): Generation {
    Generation(shape.mtime, shape.size, None)
  }

  /** The double check and the generation guard: the new cache and the set to serve. */
  function Publish(cache: map<Path, Entry>, p: Path, e: Entry, cached: Option<Entry>): (map<Path, Entry>, Entry) {
    if p in cache && cache[p].shape == e.shape && Find(cache, p) != cached then (cache, cache[p])
    else if p in cache && Stale(GenOf(e.shape), GenOf(cache[p].shape)) then (cache, cache[p])
    else (cache[p := e], e)
  }

  /** staleOrError */
  function StaleOrError(cache: map<Path, Entry>, p: Path, cached: Option<Entry>, kind: Kind): Option<Entry> {
    var old' := if cached.None? then Find(cache, p) else cached;
    if kind != Fresh then old' else None
  }

  /** Every thread on the path has now seen it without a set. */
  function MarkMissed(jobs: map<Thread, Job>, p: Path): map<Thread, Job> {
    map t | t in jobs :: if jobs[t].path == p then jobs[t].(missed := true) else jobs[t]
  }

  function At(s: State, t: Thread, pc: Pc): State
    requires t in s.jobs
  {
    s.(jobs := s.jobs[t := s.jobs[t].(pc := pc)])
  }

  // ---- Thread actions ----

  /** The two unlocked looks and the lookup's first read. */
  function OutsidePc(s: State, j: Job, ok: bool): Pc {
    match j.pc
    case Resolve => if j.path in s.cache && ok then Done(Some(s.cache[j.path])) else Stat
    case Stat =>
      if ok && CanOpen(s, j.path) && |Current(s, s.names[j.path]).bytes| <= MAX_FILE_BYTES
      then Check(ShapeOf(Current(s, s.names[j.path])))
      else FailedStat
    case Check(info) => if Hit(s.cache, j.path, info) then Done(Some(s.cache[j.path])) else Acquire(info)
    case FailedStat => Done(StaleOrError(s.cache, j.path, None, j.kind))
    case _ => j.pc
  }

  /** lockIPListLoad up to the wait: take or create the lock object and count the user. */
  function AcquireLock(s: State, t: Thread): State
    requires t in s.jobs && s.jobs[t].pc.Acquire?
  {
    var j := s.jobs[t];
    var known := j.path in s.table && s.table[j.path] in s.locks;
    var l := if known then s.table[j.path] else s.nextLock;
    var lock := if known then s.locks[l].(refs := s.locks[l].refs + 1) else Lock(j.path, 1, None);
    s.(table := s.table[j.path := l], locks := s.locks[l := lock],
       nextLock := if known then s.nextLock else s.nextLock + 1,
       jobs := s.jobs[t := j.(pc := Wait(j.pc.info), lock := l)])
  }

  function GrabLock(s: State, t: Thread): State
    requires t in s.jobs && s.jobs[t].pc.Wait?
  {
    var j := s.jobs[t];
    if j.lock in s.locks && s.locks[j.lock].holder.None? then
      At(s.(locks := s.locks[j.lock := s.locks[j.lock].(holder := Some(t))]), t, Held(j.pc.info))
    else s
  }

  function DropLock(s: State, t: Thread): State
    requires t in s.jobs && s.jobs[t].pc.Unlock?
  {
    var j := s.jobs[t];
    if j.lock in s.locks then
      At(s.(locks := s.locks[j.lock := s.locks[j.lock].(holder := None)]), t, Release(j.pc.result))
    else s
  }

  /** The last user retires the lock object from the table. */
  function ReleaseLock(s: State, t: Thread): State
    requires t in s.jobs && s.jobs[t].pc.Release?
  {
    var j := s.jobs[t];
    if j.lock in s.locks && s.locks[j.lock].refs > 0 then
      var refs := s.locks[j.lock].refs - 1;
      var retire := refs == 0 && j.path in s.table && s.table[j.path] == j.lock;
      At(s.(locks := s.locks[j.lock := s.locks[j.lock].(refs := refs)],
            table := if retire then s.table - {j.path} else s.table), t, Done(j.pc.result))
    else s
  }

  /** Under the lock: an eviction deletes; a load looks again. */
  function ActHeld(s: State, t: Thread): State
    requires t in s.jobs && s.jobs[t].pc.Held?
  {
    var j := s.jobs[t];
    if j.kind == Evict then
      At(s.(cache := s.cache - {j.path}, jobs := MarkMissed(s.jobs, j.path)), t, Unlock(None))
    else
      var k := j.(cached := Find(s.cache, j.path));
      s.(jobs := s.jobs[t := k.(pc := if Hit(s.cache, j.path, j.pc.info) then Unlock(k.cached) else Open)])
  }

  function MinOf(a: nat, b: nat): nat {
    if a <= b then a else b
  }

  /** Reading a fixed length from the open inode, then looking at its shape once more. */
  function ReadingPc(s: State, pc: Pc, ok: bool, n: nat, parse: Parser): Pc
    requires pc.Reading?
  {
    if !ok || !Readable(s, pc.fd) then FailedLoad
    else
      var bytes := Current(s, pc.fd).bytes;
      if |pc.got| < pc.shape.size then
        if |bytes| <= |pc.got| then FailedLoad
        else pc.(got := pc.got + bytes[|pc.got|..MinOf(MinOf(|bytes|, |pc.got| + 1 + n), pc.shape.size)])
      else if ShapeOf(Current(s, pc.fd)) != pc.shape then FailedLoad
      else
        match parse(pc.got)
        case None => FailedLoad
        case Some(sets) => Commit(Entry(s.nextEntry, pc.shape, sets, pc.fd, pc.at))
  }

  /** The load itself, under the lock. */
  function LoadPc(s: State, j: Job, ok: bool, n: nat, parse: Parser): Pc {
    match j.pc
    case Open => if ok && CanOpen(s, j.path) then Opened(s.names[j.path]) else FailedLoad
    case Opened(fd) =>
      if ok && Readable(s, fd) && |Current(s, fd).bytes| <= MAX_FILE_BYTES
      then Reading(fd, ShapeOf(Current(s, fd)), |s.files[fd]| - 1, [])
      else FailedLoad
    case Reading(_, _, _, _) => ReadingPc(s, j.pc, ok, n, parse)
    case Commit(e) => Unlock(Some(Publish(s.cache, j.path, e, j.cached).1))
    case FailedLoad => Unlock(StaleOrError(s.cache, j.path, j.cached, j.kind))
    case _ => j.pc
  }

  function ActLoad(s: State, t: Thread, ok: bool, n: nat, parse: Parser): State
    requires t in s.jobs
  {
    var j := s.jobs[t];
    var cache := if j.pc.Commit? then Publish(s.cache, j.path, j.pc.entry, j.cached).0 else s.cache;
    At(s.(cache := cache, nextEntry := s.nextEntry + 1), t, LoadPc(s, j, ok, n, parse))
  }

  function ActThread(s: State, t: Thread, ok: bool, n: nat, parse: Parser): State
    requires t in s.jobs
  {
    var pc := s.jobs[t].pc;
    if pc.Acquire? then AcquireLock(s, t)
    else if pc.Wait? then GrabLock(s, t)
    else if pc.Held? then ActHeld(s, t)
    else if pc.Unlock? then DropLock(s, t)
    else if pc.Release? then ReleaseLock(s, t)
    else if Loading(pc) then ActLoad(s, t, ok, n, parse)
    else At(s, t, OutsidePc(s, s.jobs[t], ok))
  }

  function StartJob(s: State, t: Thread, p: Path, kind: Kind): State {
    if t in s.jobs then s
    else
      var pc := match kind case Lookup => Resolve case Fresh => Stat case Evict => Acquire(Shape(0, 0));
      s.(jobs := s.jobs[t := Job(p, kind, pc, 0, None, p !in s.cache)])
  }

  function ForgetJob(s: State, t: Thread): State {
    if t in s.jobs && s.jobs[t].pc.Done? then s.(jobs := s.jobs - {t}) else s
  }

  function Step(s: State, ev: Event, parse: Parser): State {
    match ev
    case Start(t, p, kind) => StartJob(s, t, p, kind)
    case Act(t, ok, n) => if t in s.jobs then ActThread(s, t, ok, n, parse) else s
    case Forget(t) => ForgetJob(s, t)
    case Replace(p, v) => ReplaceFile(s, p, v)
    case Remove(p) => s.(names := s.names - {p})
    case Rewrite(i, v) => RewriteFile(s, i, v)
  }

  function Run(s: State, evs: seq<Event>, parse: Parser): State {
    if evs == [] then s else Step(Run(s, evs[..|evs| - 1], parse), evs[|evs| - 1], parse)
  }

  /** The process starts with an empty cache and no threads; files come by Replace events. */
  predicate Initial(s: State) {
    && s.cache == map[] && s.table == map[] && s.locks == map[] && s.jobs == map[]
    && s.files == map[] && s.names == map[]
  }

  // ---- Which threads use and hold locks ----

  /** Between open and publication. */
  predicate Loading(pc: Pc) {
    pc.Open? || pc.Opened? || pc.Reading? || pc.Commit? || pc.FailedLoad?
  }

  predicate Holds(pc: Pc) {
    pc.Held? || Loading(pc) || pc.Unlock?
  }

  predicate Uses(pc: Pc) {
    pc.Wait? || Holds(pc) || pc.Release?
  }

  function Users(jobs: map<Thread, Job>, l: LockId): set<Thread> {
    set t | t in jobs && Uses(jobs[t].pc) && jobs[t].lock == l
  }

  /** A user's lock is the one its path has in the table; a holder is the one the lock records. */
  ghost predicate JobLockOk(s: State, t: Thread, j: Job) {
    && (Uses(j.pc) ==> j.path in s.table && s.table[j.path] == j.lock && j.lock in s.locks)
    && (Holds(j.pc) ==> j.lock in s.locks && s.locks[j.lock].holder == Some(t))
  }

  /** The count is the number of users, and a holder holds. */
  ghost predicate LockObjectOk(s: State, l: LockId, lock: Lock) {
    && lock.refs == |Users(s.jobs, l)|
    && (lock.holder.Some? ==> lock.holder.value in Users(s.jobs, l) && Holds(s.jobs[lock.holder.value].pc))
    && l < s.nextLock
  }

  ghost predicate LockOk(s: State) {
    && (forall t :: t in s.jobs ==> JobLockOk(s, t, s.jobs[t]))
    && (forall l :: l in s.locks ==> LockObjectOk(s, l, s.locks[l]))
    && (forall p :: p in s.table ==>
          s.table[p] in s.locks && s.locks[s.table[p]].path == p && s.locks[s.table[p]].refs > 0)
  }

  /** The two job tables agree on who uses and who holds which lock. */
  ghost predicate SameUsers(jobs: map<Thread, Job>, jobs': map<Thread, Job>) {
    forall t :: if t in jobs && Uses(jobs[t].pc) then t in jobs' && SameUse(jobs[t], jobs'[t])
                else t in jobs' ==> !Uses(jobs'[t].pc)
  }

  predicate SameUse(j: Job, k: Job) {
    j.path == k.path && j.lock == k.lock && Uses(j.pc) == Uses(k.pc) && Holds(j.pc) == Holds(k.pc)
  }

  lemma LockFrame(s: State, s': State)
    requires LockOk(s) && SameUsers(s.jobs, s'.jobs)
    requires s'.locks == s.locks && s'.table == s.table && s'.nextLock == s.nextLock
    ensures LockOk(s')
  {
    forall l | l in s'.locks ensures LockObjectOk(s', l, s'.locks[l]) {
      assert Users(s'.jobs, l) == Users(s.jobs, l);
      assert LockObjectOk(s, l, s.locks[l]);
    }
    forall t | t in s'.jobs ensures JobLockOk(s', t, s'.jobs[t]) {
      assert t in s.jobs ==> JobLockOk(s, t, s.jobs[t]);
    }
  }

  lemma UsersGrow(jobs: map<Thread, Job>, t: Thread, j: Job, l: LockId)
    requires Uses(j.pc) && j.lock == l && t !in Users(jobs, l)
    ensures Users(jobs[t := j], l) == Users(jobs, l) + {t} && |Users(jobs[t := j], l)| == |Users(jobs, l)| + 1
  {
    assert Users(jobs[t := j], l) == Users(jobs, l) + {t};
  }

  lemma UsersShrink(jobs: map<Thread, Job>, t: Thread, j: Job, l: LockId)
    requires !Uses(j.pc) && t in Users(jobs, l)
    ensures Users(jobs[t := j], l) == Users(jobs, l) - {t} && |Users(jobs[t := j], l)| == |Users(jobs, l)| - 1
  {
    assert Users(jobs[t := j], l) == Users(jobs, l) - {t};
  }

  /** A job that neither used nor uses l leaves l's users alone. */
  lemma UsersElsewhere(jobs: map<Thread, Job>, t: Thread, j: Job, l: LockId)
    requires t !in Users(jobs, l) && (Uses(j.pc) ==> j.lock != l)
    ensures Users(jobs[t := j], l) == Users(jobs, l)
  {
  }

  /** A lock object that is not in the table has no users, so a retired one is never waited for. */
  lemma NewLockUnused(s: State, l: LockId)
    requires LockOk(s) && l !in s.locks
    ensures Users(s.jobs, l) == {}
  {
    forall t | t in s.jobs ensures t !in Users(s.jobs, l) {
      assert JobLockOk(s, t, s.jobs[t]);
    }
  }

  lemma NoUser(jobs: map<Thread, Job>, t: Thread)
    requires t in jobs && !Uses(jobs[t].pc)
    ensures forall l :: t !in Users(jobs, l)
  {
  }

  lemma AcquireCounts(s: State, t: Thread)
    requires LockOk(s) && t in s.jobs && s.jobs[t].pc.Acquire?
    ensures var s' := AcquireLock(s, t); var l := s'.jobs[t].lock;
            forall m :: m in s'.locks ==> LockObjectOk(s', m, s'.locks[m])
  {
    hide Users, JobLockOk;
    var s' := AcquireLock(s, t);
    var l := s'.jobs[t].lock;
    if l !in s.locks {
      NewLockUnused(s, l);
    } else {
      assert LockObjectOk(s, l, s.locks[l]);
    }
    NoUser(s.jobs, t);
    UsersGrow(s.jobs, t, s'.jobs[t], l);
    forall m | m in s'.locks ensures LockObjectOk(s', m, s'.locks[m]) {
      if m != l {
        assert LockObjectOk(s, m, s.locks[m]);
        UsersElsewhere(s.jobs, t, s'.jobs[t], m);
      }
    }
  }

  lemma AcquireKeeps(s: State, t: Thread)
    requires LockOk(s) && t in s.jobs && s.jobs[t].pc.Acquire?
    ensures LockOk(AcquireLock(s, t))
  {
    hide Users;
    AcquireCounts(s, t);
    var s' := AcquireLock(s, t);
    forall u | u in s'.jobs ensures JobLockOk(s', u, s'.jobs[u]) {
      assert JobLockOk(s, u, s.jobs[u]);
    }
  }

  /** Only a holder's own record and its lock's holder change. */
  lemma HolderKeeps(s: State, s': State, t: Thread)
    requires LockOk(s) && t in s.jobs && Uses(s.jobs[t].pc) && t in s'.jobs && Uses(s'.jobs[t].pc)
    requires s'.jobs == s.jobs[t := s'.jobs[t]] && s'.jobs[t].path == s.jobs[t].path &&
             s'.jobs[t].lock == s.jobs[t].lock
    requires var l := s.jobs[t].lock;
             && l in s.locks &&
                s'.locks == s.locks[l := s.locks[l].(holder := if Holds(s'.jobs[t].pc) then Some(t) else None)]
             && (s.locks[l].holder.Some? ==> s.locks[l].holder == Some(t))
    requires s'.table == s.table && s'.nextLock == s.nextLock
    ensures LockOk(s')
  {
    var l := s.jobs[t].lock;
    forall m | m in s'.locks ensures LockObjectOk(s', m, s'.locks[m]) {
      assert Users(s'.jobs, m) == Users(s.jobs, m);
      assert LockObjectOk(s, m, s.locks[m]);
    }
    forall u | u in s'.jobs ensures JobLockOk(s', u, s'.jobs[u]) {
      assert JobLockOk(s, u, s.jobs[u]);
    }
  }

  lemma GrabKeeps(s: State, t: Thread)
    requires LockOk(s) && t in s.jobs && s.jobs[t].pc.Wait?
    ensures LockOk(GrabLock(s, t))
  {
    assert JobLockOk(s, t, s.jobs[t]);
    if s.locks[s.jobs[t].lock].holder.None? {
      HolderKeeps(s, GrabLock(s, t), t);
    }
  }

  lemma DropKeeps(s: State, t: Thread)
    requires LockOk(s) && t in s.jobs && s.jobs[t].pc.Unlock?
    ensures LockOk(DropLock(s, t))
  {
    assert JobLockOk(s, t, s.jobs[t]);
    HolderKeeps(s, DropLock(s, t), t);
  }

  lemma ReleaseKeeps(s: State, t: Thread)
    requires LockOk(s) && t in s.jobs && s.jobs[t].pc.Release?
    ensures LockOk(ReleaseLock(s, t))
  {
    var j, s' := s.jobs[t], ReleaseLock(s, t);
    var l := j.lock;
    assert JobLockOk(s, t, j) && LockObjectOk(s, l, s.locks[l]);
    assert t in Users(s.jobs, l);
    UsersShrink(s.jobs, t, s'.jobs[t], l);
    forall m | m in s'.locks ensures LockObjectOk(s', m, s'.locks[m]) {
      assert LockObjectOk(s, m, s.locks[m]);
      if m != l {
        UsersElsewhere(s.jobs, t, s'.jobs[t], m);
      }
    }
    forall u | u in s'.jobs ensures JobLockOk(s', u, s'.jobs[u]) {
      assert JobLockOk(s, u, s.jobs[u]);
      if u != t && Uses(s.jobs[u].pc) && s.jobs[u].path == j.path {
        assert u in Users(s'.jobs, l);
      }
    }
  }

  /** Only thread t moved, and neither locks nor files changed. */
  predicate OwnMove(s: State, s': State, t: Thread) {
    && t in s.jobs && t in s'.jobs && s'.jobs == s.jobs[t := s'.jobs[t]]
    && s'.locks == s.locks && s'.table == s.table && s'.nextLock == s.nextLock
    && s'.files == s.files && s'.names == s.names && s'.named == s.named && s'.nextInode == s.nextInode
    && var j, k := s.jobs[t], s'.jobs[t];
       k.path == j.path && k.kind == j.kind && k.lock == j.lock && k.missed == j.missed
  }

  lemma OutsideMoves(s: State, t: Thread, ok: bool)
    requires t in s.jobs && !Uses(s.jobs[t].pc)
    ensures OwnMove(s, At(s, t, OutsidePc(s, s.jobs[t], ok)), t) && !Uses(OutsidePc(s, s.jobs[t], ok))
  {
  }

  lemma LoadPcHolds(s: State, j: Job, ok: bool, n: nat, parse: Parser)
    requires Loading(j.pc)
    ensures Holds(LoadPc(s, j, ok, n, parse))
  {
    hide Publish, StaleOrError;
  }

  lemma LoadMoves(s: State, t: Thread, ok: bool, n: nat, parse: Parser)
    requires t in s.jobs && Loading(s.jobs[t].pc)
    ensures var s' := ActLoad(s, t, ok, n, parse);
            OwnMove(s, s', t) && Holds(s'.jobs[t].pc) && (s.jobs[t].pc.Commit? || s'.cache == s.cache)
  {
    hide Publish, LoadPc;
    LoadPcHolds(s, s.jobs[t], ok, n, parse);
  }

  lemma LookMoves(s: State, t: Thread)
    requires t in s.jobs && s.jobs[t].pc.Held? && s.jobs[t].kind != Evict
    ensures var s' := ActHeld(s, t); OwnMove(s, s', t) && Holds(s'.jobs[t].pc) && s'.cache == s.cache
  {
  }

  lemma MoveSameUsers(s: State, s': State, t: Thread)
    requires OwnMove(s, s', t)
    requires Uses(s'.jobs[t].pc) == Uses(s.jobs[t].pc) && Holds(s'.jobs[t].pc) == Holds(s.jobs[t].pc)
    ensures SameUsers(s.jobs, s'.jobs)
  {
  }

  lemma EvictSameUsers(s: State, t: Thread)
    requires t in s.jobs && s.jobs[t].pc.Held? && s.jobs[t].kind == Evict
    ensures SameUsers(s.jobs, ActHeld(s, t).jobs)
  {
  }

  /** The actions that leave the locks alone. */
  lemma ActLockOk(s: State, t: Thread, ok: bool, n: nat, parse: Parser)
    requires LockOk(s) && t in s.jobs
    ensures LockOk(ActThread(s, t, ok, n, parse))
  {
    hide OutsidePc, ActLoad, ActHeld, AcquireLock, GrabLock, DropLock, ReleaseLock, LockOk, SameUsers;
    var pc, s' := s.jobs[t].pc, ActThread(s, t, ok, n, parse);
    if pc.Acquire? {
      AcquireKeeps(s, t);
    } else if pc.Wait? {
      GrabKeeps(s, t);
    } else if pc.Unlock? {
      DropKeeps(s, t);
    } else if pc.Release? {
      ReleaseKeeps(s, t);
    } else if pc.Held? {
      HeldLockOk(s, t);
    } else {
      if Loading(pc) {
        LoadMoves(s, t, ok, n, parse);
      } else {
        OutsideMoves(s, t, ok);
      }
      MoveSameUsers(s, s', t);
      LockFrame(s, s');
    }
  }

  lemma HeldLockOk(s: State, t: Thread)
    requires LockOk(s) && t in s.jobs && s.jobs[t].pc.Held?
    ensures LockOk(ActHeld(s, t))
  {
    hide LockOk, SameUsers;
    if s.jobs[t].kind == Evict {
      EvictSameUsers(s, t);
    } else {
      LookMoves(s, t);
      MoveSameUsers(s, ActHeld(s, t), t);
    }
    LockFrame(s, ActHeld(s, t));
  }

  lemma StartSameUsers(s: State, t: Thread, p: Path, kind: Kind)
    ensures SameUsers(s.jobs, StartJob(s, t, p, kind).jobs)
  {
  }

  lemma ForgetSameUsers(s: State, t: Thread)
    ensures SameUsers(s.jobs, ForgetJob(s, t).jobs)
  {
  }

  lemma FileEventsKeepJobs(s: State, ev: Event, parse: Parser)
    requires ev.Replace? || ev.Remove? || ev.Rewrite?
    ensures var s' := Step(s, ev, parse);
            s'.jobs == s.jobs && s'.locks == s.locks && s'.table == s.table && s'.nextLock == s.nextLock
    ensures SameUsers(s.jobs, s.jobs)
  {
  }

  lemma StepLockOk(s: State, ev: Event, parse: Parser)
    requires LockOk(s)
    ensures LockOk(Step(s, ev, parse))
  {
    hide ActThread, LockOk, SameUsers;
    match ev
    case Act(t, ok, n) => if t in s.jobs { ActLockOk(s, t, ok, n, parse); }
    case Start(t, p, kind) =>
      StartSameUsers(s, t, p, kind);
      LockFrame(s, StartJob(s, t, p, kind));
    case Forget(t) =>
      ForgetSameUsers(s, t);
      LockFrame(s, ForgetJob(s, t));
    case _ =>
      FileEventsKeepJobs(s, ev, parse);
      LockFrame(s, Step(s, ev, parse));
  }

  /** Two holders on one path are one thread. */
  lemma OneHolder(s: State, t: Thread, u: Thread)
    requires LockOk(s) && t in s.jobs && u in s.jobs
    requires Holds(s.jobs[t].pc) && Holds(s.jobs[u].pc) && s.jobs[t].path == s.jobs[u].path
    ensures t == u
  {
    assert JobLockOk(s, t, s.jobs[t]) && JobLockOk(s, u, s.jobs[u]);
  }

  // ---- Where sets come from ----

  type Files = map<Inode, seq<Version>>
  type Names = set<(Path, Inode)>

  predicate DistinctShapes(history: seq<Version>) {
    forall k, l :: 0 <= k < l < |history| ==> ShapeOf(history[k]) != ShapeOf(history[l])
  }

  ghost predicate FilesOk(s: State) {
    && (forall i :: i in s.files ==> i < s.nextInode && s.files[i] != [] && DistinctShapes(s.files[i]))
    && (forall p :: p in s.names ==> s.names[p] in s.files && (p, s.names[p]) in s.named)
  }

  /** The set is the parse of one complete version of a file that stood under the path. */
  ghost predicate EntryOk(files: Files, named: Names, parse: Parser, p: Path, e: Entry) {
    && (p, e.inode) in named && e.inode in files && e.version < |files[e.inode]|
    && ShapeOf(files[e.inode][e.version]) == e.shape
    && parse(files[e.inode][e.version].bytes) == Some(e.sets) && e.shape.size <= MAX_FILE_BYTES
  }

  ghost predicate MaybeEntryOk(files: Files, named: Names, parse: Parser, p: Path, e: Option<Entry>) {
    e.Some? ==> EntryOk(files, named, parse, p, e.value)
  }

  ghost predicate CacheOk(files: Files, named: Names, parse: Parser, cache: map<Path, Entry>) {
    forall p :: p in cache ==> EntryOk(files, named, parse, p, cache[p])
  }

  /** While the version that was current at the first look still is, the bytes read are its prefix. */
  ghost predicate ReadOk(files: Files, fd: Inode, shape: Shape, at: nat, got: seq<Byte>) {
    && fd in files && at < |files[fd]| && ShapeOf(files[fd][at]) == shape && |got| <= shape.size
    && shape.size <= MAX_FILE_BYTES
    && (at == |files[fd]| - 1 ==> got == files[fd][at].bytes[..|got|])
  }

  ghost predicate PcOk(files: Files, named: Names, parse: Parser, p: Path, pc: Pc) {
    match pc
    case Opened(fd) => fd in files && (p, fd) in named
    case Reading(fd, shape, at, got) => (p, fd) in named && ReadOk(files, fd, shape, at, got)
    case Commit(e) => EntryOk(files, named, parse, p, e)
    case Unlock(r) => MaybeEntryOk(files, named, parse, p, r)
    case Release(r) => MaybeEntryOk(files, named, parse, p, r)
    case Done(r) => MaybeEntryOk(files, named, parse, p, r)
    case _ => true
  }

  predicate EmptyHanded(pc: Pc) {
    (pc.Unlock? || pc.Release? || pc.Done?) && pc.result.None?
  }

  /** What a load found under the lock still stands, and a lookup that never missed has a set. */
  ghost predicate JobOk(files: Files, named: Names, cache: map<Path, Entry>, parse: Parser, j: Job) {
    && PcOk(files, named, parse, j.path, j.pc)
    && (Loading(j.pc) ==> j.cached == Find(cache, j.path))
    && (j.kind == Lookup && !j.missed ==> j.path in cache && !EmptyHanded(j.pc))
  }

  ghost predicate JobsOk(s: State, parse: Parser) {
    forall t :: t in s.jobs ==> JobOk(s.files, s.named, s.cache, parse, s.jobs[t])
  }

  ghost predicate Inv(s: State, parse: Parser) {
    LockOk(s) && FilesOk(s) && CacheOk(s.files, s.named, parse, s.cache) && JobsOk(s, parse)
  }

  // ---- The actions keep it ----

  lemma OutsideOk(s: State, j: Job, ok: bool, parse: Parser)
    requires FilesOk(s) && CacheOk(s.files, s.named, parse, s.cache)
    requires JobOk(s.files, s.named, s.cache, parse, j) && !Uses(j.pc)
    ensures JobOk(s.files, s.named, s.cache, parse, j.(pc := OutsidePc(s, j, ok)))
  {
    hide EntryOk, ReadOk, FilesOk, DistinctShapes;
    assert j.path in s.cache ==> EntryOk(s.files, s.named, parse, j.path, s.cache[j.path]);
  }

  /** Equal shapes mean equal versions, so a read whose second look agrees has the whole version. */
  lemma ReadComplete(s: State, pc: Pc)
    requires FilesOk(s) && pc.Reading? && ReadOk(s.files, pc.fd, pc.shape, pc.at, pc.got)
    requires |pc.got| == pc.shape.size && ShapeOf(Current(s, pc.fd)) == pc.shape
    ensures pc.got == s.files[pc.fd][pc.at].bytes
  {
    var last := |s.files[pc.fd]| - 1;
    assert DistinctShapes(s.files[pc.fd]);
    assert pc.at == last;
  }

  lemma ReadGrows(s: State, pc: Pc, n: nat)
    requires pc.Reading? && ReadOk(s.files, pc.fd, pc.shape, pc.at, pc.got) && Readable(s, pc.fd)
    requires var bytes := Current(s, pc.fd).bytes; |pc.got| < pc.shape.size && |pc.got| < |bytes|
    ensures var bytes := Current(s, pc.fd).bytes;
            var got := pc.got + bytes[|pc.got|..MinOf(MinOf(|bytes|, |pc.got| + 1 + n), pc.shape.size)];
            ReadOk(s.files, pc.fd, pc.shape, pc.at, got)
  {
    var bytes := Current(s, pc.fd).bytes;
    var hi := MinOf(MinOf(|bytes|, |pc.got| + 1 + n), pc.shape.size);
    assert bytes[..hi] == bytes[..|pc.got|] + bytes[|pc.got|..hi];
  }

  lemma ReadingOk(s: State, j: Job, ok: bool, n: nat, parse: Parser)
    requires FilesOk(s) && JobOk(s.files, s.named, s.cache, parse, j) && j.pc.Reading?
    ensures JobOk(s.files, s.named, s.cache, parse, j.(pc := ReadingPc(s, j.pc, ok, n, parse)))
  {
    hide FilesOk, DistinctShapes, ReadOk;
    var pc := j.pc;
    if ok && Readable(s, pc.fd) {
      var bytes := Current(s, pc.fd).bytes;
      if |pc.got| < pc.shape.size {
        if |pc.got| < |bytes| {
          ReadGrows(s, pc, n);
        }
      } else if ShapeOf(Current(s, pc.fd)) == pc.shape && parse(pc.got).Some? {
        assert |pc.got| == pc.shape.size <= MAX_FILE_BYTES && pc.at < |s.files[pc.fd]|
               && ShapeOf(s.files[pc.fd][pc.at]) == pc.shape by {
          ReadOkParts(s.files, pc);
        }
        ReadComplete(s, pc);
      }
    }
  }

  lemma ReadOkParts(files: Files, pc: Pc)
    requires pc.Reading? && ReadOk(files, pc.fd, pc.shape, pc.at, pc.got)
    ensures |pc.got| <= pc.shape.size <= MAX_FILE_BYTES && pc.fd in files && pc.at < |files[pc.fd]| &&
            ShapeOf(files[pc.fd][pc.at]) == pc.shape
  {
  }

  lemma OpenedOk(s: State, j: Job, ok: bool, n: nat, parse: Parser)
    requires FilesOk(s) && JobOk(s.files, s.named, s.cache, parse, j) && (j.pc.Open? || j.pc.Opened?)
    ensures JobOk(s.files, s.named, s.cache, parse, j.(pc := LoadPc(s, j, ok, n, parse)))
  {
    hide EntryOk, DistinctShapes;
  }

  lemma FailedOk(s: State, j: Job, ok: bool, n: nat, parse: Parser)
    requires CacheOk(s.files, s.named, parse, s.cache)
    requires JobOk(s.files, s.named, s.cache, parse, j) && j.pc.FailedLoad?
    ensures JobOk(s.files, s.named, s.cache, parse, j.(pc := LoadPc(s, j, ok, n, parse)))
  {
    hide EntryOk;
  }

  /** Under the lock the cached set is the one the load saw: the branch for a different one of the same
      shape is never taken. */
  lemma PublishOk(s: State, j: Job, parse: Parser)
    requires CacheOk(s.files, s.named, parse, s.cache)
    requires JobOk(s.files, s.named, s.cache, parse, j) && j.pc.Commit?
    ensures Find(s.cache, j.path) == j.cached
    ensures var (cache, served) := Publish(s.cache, j.path, j.pc.entry, j.cached);
            && CacheOk(s.files, s.named, parse, cache)
            && JobOk(s.files, s.named, cache, parse, j.(pc := Unlock(Some(served))))
  {
    hide EntryOk;
  }

  lemma LoadOk(s: State, j: Job, ok: bool, n: nat, parse: Parser)
    requires FilesOk(s) && CacheOk(s.files, s.named, parse, s.cache)
    requires JobOk(s.files, s.named, s.cache, parse, j) && Loading(j.pc) && !j.pc.Commit?
    ensures JobOk(s.files, s.named, s.cache, parse, j.(pc := LoadPc(s, j, ok, n, parse)))
  {
    if j.pc.Reading? {
      hide JobOk, FilesOk, CacheOk, ReadingPc;
      ReadingOk(s, j, ok, n, parse);
    } else if j.pc.FailedLoad? {
      FailedOk(s, j, ok, n, parse);
    } else {
      OpenedOk(s, j, ok, n, parse);
    }
  }

  /** One thread moves; cache and files stay. */
  lemma OneMoved(s: State, s': State, t: Thread, parse: Parser)
    requires Inv(s, parse) && LockOk(s') && t in s'.jobs && s'.jobs == s.jobs[t := s'.jobs[t]]
    requires s'.files == s.files && s'.names == s.names && s'.named == s.named && s'.nextInode == s.nextInode &&
             s'.cache == s.cache
    requires JobOk(s.files, s.named, s.cache, parse, s'.jobs[t])
    ensures Inv(s', parse)
  {
    hide JobOk, EntryOk, LockOk;
  }

  /** A new cache for one path, whose lock only thread t holds. */
  lemma CacheMoved(s: State, s': State, t: Thread, parse: Parser)
    requires Inv(s, parse) && LockOk(s') && t in s.jobs && t in s'.jobs && Holds(s.jobs[t].pc)
    requires s'.files == s.files && s'.names == s.names && s'.named == s.named && s'.nextInode == s.nextInode
    requires forall p :: p != s.jobs[t].path ==> Find(s'.cache, p) == Find(s.cache, p)
    requires CacheOk(s.files, s.named, parse, s'.cache)
    requires JobOk(s.files, s.named, s'.cache, parse, s'.jobs[t])
    requires s'.jobs.Keys == s.jobs.Keys
    requires forall u :: u in s.jobs && u != t ==>
               s'.jobs[u] == if s.jobs[t].path in s'.cache || s.jobs[u].path != s.jobs[t].path then s.jobs[u]
                 else s.jobs[u].(missed := true)
    ensures Inv(s', parse)
  {
    forall u | u in s'.jobs ensures JobOk(s'.files, s'.named, s'.cache, parse, s'.jobs[u]) {
      if u != t {
        assert JobOk(s.files, s.named, s.cache, parse, s.jobs[u]);
        OtherJobOk(s, s', t, u, parse);
      }
    }
  }

  lemma OtherJobOk(s: State, s': State, t: Thread, u: Thread, parse: Parser)
    requires LockOk(s) && t in s.jobs && u in s.jobs && u != t && Holds(s.jobs[t].pc)
    requires u in s'.jobs && JobOk(s.files, s.named, s.cache, parse, s.jobs[u])
    requires forall p :: p != s.jobs[t].path ==> Find(s'.cache, p) == Find(s.cache, p)
    requires s'.jobs[u] ==
             if s.jobs[t].path in s'.cache || s.jobs[u].path != s.jobs[t].path then s.jobs[u]
             else s.jobs[u].(missed := true)
    ensures JobOk(s.files, s.named, s'.cache, parse, s'.jobs[u])
  {
    hide LockOk, PcOk;
    if Loading(s.jobs[u].pc) && s.jobs[u].path == s.jobs[t].path {
      OneHolder(s, t, u);
    }
    assert s.jobs[u].path != s.jobs[t].path ==> Find(s'.cache, s.jobs[u].path) == Find(s.cache, s.jobs[u].path);
  }

  lemma HeldInv(s: State, t: Thread, parse: Parser)
    requires Inv(s, parse) && t in s.jobs && s.jobs[t].pc.Held?
    ensures Inv(ActHeld(s, t), parse)
  {
    hide LockOk, EntryOk, FilesOk, ReadOk;
    HeldLockOk(s, t);
    var j, s' := s.jobs[t], ActHeld(s, t);
    assert JobOk(s.files, s.named, s.cache, parse, j);
    if j.kind == Evict {
      CacheMoved(s, s', t, parse);
    } else {
      assert j.path in s.cache ==> EntryOk(s.files, s.named, parse, j.path, s.cache[j.path]);
      OneMoved(s, s', t, parse);
    }
  }

  lemma LoadInv(s: State, t: Thread, ok: bool, n: nat, parse: Parser)
    requires Inv(s, parse) && t in s.jobs && Loading(s.jobs[t].pc)
    ensures Inv(ActLoad(s, t, ok, n, parse), parse)
  {
    hide LockOk, EntryOk, FilesOk, ReadOk, LoadPc, JobOk;
    var j, s' := s.jobs[t], ActLoad(s, t, ok, n, parse);
    assert JobOk(s.files, s.named, s.cache, parse, j);
    LoadMoves(s, t, ok, n, parse);
    assert LockOk(s') by {
      MoveSameUsers(s, s', t);
      LockFrame(s, s');
    }
    if j.pc.Commit? {
      PublishOk(s, j, parse);
      assert s'.jobs[t] == j.(pc := LoadPc(s, j, ok, n, parse));
      CommitPc(s, j, ok, n, parse);
      CacheMoved(s, s', t, parse);
    } else {
      LoadOk(s, j, ok, n, parse);
      OneMoved(s, s', t, parse);
    }
  }

  lemma CommitPc(s: State, j: Job, ok: bool, n: nat, parse: Parser)
    requires j.pc.Commit?
    ensures LoadPc(s, j, ok, n, parse) == Unlock(Some(Publish(s.cache, j.path, j.pc.entry, j.cached).1))
  {
  }

  lemma LockingInv(s: State, t: Thread, ok: bool, n: nat, parse: Parser)
    requires Inv(s, parse) && t in s.jobs
    requires var pc := s.jobs[t].pc; pc.Acquire? || pc.Wait? || pc.Unlock? || pc.Release?
    ensures Inv(ActThread(s, t, ok, n, parse), parse)
  {
    hide LockOk, EntryOk, FilesOk, CacheOk;
    ActLockOk(s, t, ok, n, parse);
    var s' := ActThread(s, t, ok, n, parse);
    assert JobOk(s.files, s.named, s.cache, parse, s.jobs[t]);
    assert JobOk(s.files, s.named, s.cache, parse, s'.jobs[t]);
    OneMoved(s, s', t, parse);
  }

  lemma ActInv(s: State, t: Thread, ok: bool, n: nat, parse: Parser)
    requires Inv(s, parse) && t in s.jobs
    ensures Inv(ActThread(s, t, ok, n, parse), parse)
  {
    hide LockOk, FilesOk, CacheOk, JobOk, OutsidePc, ActHeld, ActLoad, AcquireLock, GrabLock, DropLock, ReleaseLock;
    var pc := s.jobs[t].pc;
    if pc.Acquire? || pc.Wait? || pc.Unlock? || pc.Release? {
      LockingInv(s, t, ok, n, parse);
    } else if pc.Held? {
      HeldInv(s, t, parse);
    } else if Loading(pc) {
      LoadInv(s, t, ok, n, parse);
    } else {
      ActLockOk(s, t, ok, n, parse);
      OutsideOk(s, s.jobs[t], ok, parse);
      OneMoved(s, ActThread(s, t, ok, n, parse), t, parse);
    }
  }

  // ---- The world keeps it ----

  ghost predicate Extends(s: State, s': State) {
    && s.named <= s'.named && s'.cache == s.cache && s'.jobs == s.jobs
    && (forall i :: i in s.files ==> i in s'.files && s.files[i] <= s'.files[i])
  }

  lemma EntryStays(s: State, s': State, parse: Parser, p: Path, e: Entry)
    requires Extends(s, s') && EntryOk(s.files, s.named, parse, p, e)
    ensures EntryOk(s'.files, s'.named, parse, p, e)
  {
    assert s.files[e.inode] <= s'.files[e.inode];
  }

  lemma JobStays(s: State, s': State, parse: Parser, j: Job)
    requires Extends(s, s') && JobOk(s.files, s.named, s.cache, parse, j)
    ensures JobOk(s'.files, s'.named, s'.cache, parse, j)
  {
    match j.pc
    case Commit(e) => EntryStays(s, s', parse, j.path, e);
    case Unlock(Some(e)) => EntryStays(s, s', parse, j.path, e);
    case Release(Some(e)) => EntryStays(s, s', parse, j.path, e);
    case Done(Some(e)) => EntryStays(s, s', parse, j.path, e);
    case Reading(fd, shape, at, got) => assert s.files[fd] <= s'.files[fd];
    case _ =>
  }

  lemma WorldInv(s: State, s': State, parse: Parser)
    requires Inv(s, parse) && Extends(s, s') && FilesOk(s') && LockOk(s')
    ensures Inv(s', parse)
  {
    hide LockOk, FilesOk, Extends, EntryOk, JobOk;
    assert s'.cache == s.cache && s'.jobs == s.jobs by { ExtendsSame(s, s'); }
    forall p | p in s'.cache ensures EntryOk(s'.files, s'.named, parse, p, s'.cache[p]) {
      EntryStays(s, s', parse, p, s.cache[p]);
    }
    forall t | t in s'.jobs ensures JobOk(s'.files, s'.named, s'.cache, parse, s'.jobs[t]) {
      JobStays(s, s', parse, s.jobs[t]);
    }
  }

  lemma ExtendsSame(s: State, s': State)
    requires Extends(s, s')
    ensures s'.cache == s.cache && s'.jobs == s.jobs
  {
  }

  lemma Rewrites(s: State, i: Inode, v: Version)
    requires FilesOk(s)
    ensures FilesOk(RewriteFile(s, i, v)) && Extends(s, RewriteFile(s, i, v))
  {
  }

  lemma Replaces(s: State, p: Path, v: Version)
    requires FilesOk(s)
    ensures FilesOk(ReplaceFile(s, p, v)) && Extends(s, ReplaceFile(s, p, v))
  {
  }

  lemma FileEvents(s: State, ev: Event, parse: Parser)
    requires FilesOk(s) && (ev.Replace? || ev.Remove? || ev.Rewrite?)
    ensures FilesOk(Step(s, ev, parse)) && Extends(s, Step(s, ev, parse))
  {
    hide ActThread, RewriteFile, ReplaceFile, DistinctShapes;
    match ev
    case Replace(p, v) => Replaces(s, p, v);
    case Rewrite(i, v) => Rewrites(s, i, v);
    case Remove(p) =>
  }

  lemma StartInv(s: State, t: Thread, p: Path, kind: Kind, parse: Parser)
    requires Inv(s, parse) && LockOk(StartJob(s, t, p, kind))
    ensures Inv(StartJob(s, t, p, kind), parse)
  {
    hide LockOk, FilesOk, CacheOk;
    if t !in s.jobs {
      OneMoved(s, StartJob(s, t, p, kind), t, parse);
    }
  }

  lemma ForgetInv(s: State, t: Thread, parse: Parser)
    requires Inv(s, parse) && LockOk(ForgetJob(s, t))
    ensures Inv(ForgetJob(s, t), parse)
  {
    hide LockOk, CacheOk, JobOk;
  }

  lemma StepInv(s: State, ev: Event, parse: Parser)
    requires Inv(s, parse)
    ensures Inv(Step(s, ev, parse), parse)
  {
    hide LockOk, FilesOk, CacheOk, JobOk, ActThread, StartJob, ForgetJob;
    StepLockOk(s, ev, parse);
    match ev
    case Start(t, p, kind) => StartInv(s, t, p, kind, parse);
    case Act(t, ok, n) => if t in s.jobs { ActInv(s, t, ok, n, parse); }
    case Forget(t) => ForgetInv(s, t, parse);
    case _ =>
      FileEvents(s, ev, parse);
      WorldInv(s, Step(s, ev, parse), parse);
  }

  lemma InitialInv(s: State, parse: Parser)
    requires Initial(s)
    ensures Inv(s, parse)
  {
  }

  lemma {:induction false} RunInv(s: State, evs: seq<Event>, parse: Parser)
    requires Initial(s)
    ensures Inv(Run(s, evs, parse), parse)
  {
    hide Inv, Step;
    if evs == [] {
      InitialInv(s, parse);
    } else {
      RunInv(s, evs[..|evs| - 1], parse);
      StepInv(Run(s, evs[..|evs| - 1], parse), evs[|evs| - 1], parse);
    }
  }
}
