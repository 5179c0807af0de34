/** What a caller of the list cache gets: how fresh a strict load is, when it fails, and what an eviction does. */
module ListCacheCalls {
  import opened Bytes
  import opened Options
  import opened IpPrefix
  import SnapshotGuard
  import opened ListCache

  // ---- Other threads ----

  /** The thread keeps its job, except that it may be marked. */
  ghost predicate SameJob(s: State, s': State, t: Thread) {
    && (t in s.jobs <==> t in s'.jobs)
    && (t in s.jobs ==> s'.jobs[t].(missed := s.jobs[t].missed) == s.jobs[t])
  }

  lemma LockSameJob(s: State, u: Thread, t: Thread)
    requires u in s.jobs && u != t
    ensures s.jobs[u].pc.Acquire? ==> SameJob(s, AcquireLock(s, u), t)
    ensures s.jobs[u].pc.Wait? ==> SameJob(s, GrabLock(s, u), t)
    ensures s.jobs[u].pc.Unlock? ==> SameJob(s, DropLock(s, u), t)
    ensures s.jobs[u].pc.Release? ==> SameJob(s, ReleaseLock(s, u), t)
  {
  }

  lemma LoadSameJob(s: State, u: Thread, ok: bool, n: nat, parse: Parser, t: Thread)
    requires u in s.jobs && u != t
    ensures SameJob(s, ActLoad(s, u, ok, n, parse), t)
    ensures s.jobs[u].pc.Held? ==> SameJob(s, ActHeld(s, u), t)
  {
    hide LoadPc, Publish, Hit;
  }

  lemma ActSameJob(s: State, u: Thread, ok: bool, n: nat, parse: Parser, t: Thread)
    requires u in s.jobs && u != t
    ensures SameJob(s, ActThread(s, u, ok, n, parse), t)
  {
    hide OutsidePc, AcquireLock, GrabLock, DropLock, ReleaseLock, ActLoad, ActHeld;
    LockSameJob(s, u, t);
    LoadSameJob(s, u, ok, n, parse, t);
  }

  lemma StepSameJob(s: State, ev: Event, parse: Parser, t: Thread)
    requires (ev.Act? || ev.Start? || ev.Forget?) ==> ev.t != t
    ensures SameJob(s, Step(s, ev, parse), t)
  {
    hide ActThread;
    if ev.Act? && ev.t in s.jobs {
      ActSameJob(s, ev.t, ev.ok, ev.n, parse, t);
    }
  }

  // ---- The thread's own steps ----

  /** Where the thread stands after its own step. */
  function NextPc(s: State, j: Job, ok: bool, n: nat, parse: Parser): Pc {
    match j.pc
    case Acquire(info) => Wait(info)
    case Held(info) =>
      if j.kind == Evict then Unlock(None)
      else if Hit(s.cache, j.path, info) then Unlock(Find(s.cache, j.path)) else Open
    case Unlock(r) => Release(r)
    case Release(r) => Done(r)
    case Wait(info) => Held(info)
    case _ =>
      if Loading(j.pc) then LoadPc(s, j, ok, n, parse) else OutsidePc(s, j, ok)
  }

  /** It stays, or goes to that place; path and kind do not change. */
  ghost predicate OwnMove(s: State, s': State, t: Thread, ok: bool, n: nat, parse: Parser) {
    && t in s.jobs && t in s'.jobs
    && s'.jobs[t].path == s.jobs[t].path && s'.jobs[t].kind == s.jobs[t].kind
    && (s'.jobs[t].pc == s.jobs[t].pc || s'.jobs[t].pc == NextPc(s, s.jobs[t], ok, n, parse))
    && (s.jobs[t].pc.Held? && s.jobs[t].kind == Evict ==> s'.cache == s.cache - {s.jobs[t].path})
  }

  lemma LockMove(s: State, t: Thread, ok: bool, n: nat, parse: Parser)
    requires t in s.jobs
    ensures s.jobs[t].pc.Acquire? ==> OwnMove(s, AcquireLock(s, t), t, ok, n, parse)
    ensures s.jobs[t].pc.Wait? ==> OwnMove(s, GrabLock(s, t), t, ok, n, parse)
    ensures s.jobs[t].pc.Unlock? ==> OwnMove(s, DropLock(s, t), t, ok, n, parse)
    ensures s.jobs[t].pc.Release? ==> OwnMove(s, ReleaseLock(s, t), t, ok, n, parse)
  {
    hide LoadPc, OutsidePc;
  }

  lemma HeldMove(s: State, t: Thread, ok: bool, n: nat, parse: Parser)
    requires t in s.jobs && s.jobs[t].pc.Held?
    ensures OwnMove(s, ActHeld(s, t), t, ok, n, parse)
  {
    hide LoadPc, OutsidePc, Hit;
  }

  lemma LoadMove(s: State, t: Thread, ok: bool, n: nat, parse: Parser)
    requires t in s.jobs && Loading(s.jobs[t].pc)
    ensures OwnMove(s, ActLoad(s, t, ok, n, parse), t, ok, n, parse)
  {
    hide LoadPc, Publish, OutsidePc;
  }

  lemma ActMove(s: State, t: Thread, ok: bool, n: nat, parse: Parser)
    requires t in s.jobs
    ensures OwnMove(s, ActThread(s, t, ok, n, parse), t, ok, n, parse)
  {
    hide OutsidePc, AcquireLock, GrabLock, DropLock, ReleaseLock, ActLoad, ActHeld, LoadPc;
    LockMove(s, t, ok, n, parse);
    if s.jobs[t].pc.Held? {
      HeldMove(s, t, ok, n, parse);
    } else if Loading(s.jobs[t].pc) {
      LoadMove(s, t, ok, n, parse);
    }
  }

  // ---- What was seen since ----

  /** The file that stood under the path in the first state had this shape in the second. */
  predicate StoodThen(q: State, r: State, p: Path, shape: Shape) {
    p in q.names && Readable(r, q.names[p]) && ShapeOf(Current(r, q.names[p])) == shape
  }

  function After(m: State, evs: seq<Event>, k: nat, parse: Parser): State
    requires k <= |evs|
  {
    Run(m, evs[..k], parse)
  }

  /** At some moment a file stood under the path, and then or later it had this shape. */
  ghost predicate Seen(m: State, evs: seq<Event>, parse: Parser, p: Path, shape: Shape) {
    exists k: nat, l: nat :: k <= l <= |evs| && StoodThen(After(m, evs, k, parse), After(m, evs, l, parse), p, shape)
  }

  ghost predicate StoodUnder(m: State, evs: seq<Event>, parse: Parser, p: Path, i: Inode) {
    exists k: nat :: k <= |evs| && p in After(m, evs, k, parse).names && After(m, evs, k, parse).names[p] == i
  }

  predicate AtLeast(e: Entry, shape: Shape) {
    e.shape == shape || SnapshotGuard.Stale(GenOf(shape), GenOf(e.shape))
  }

  /** The set is of a version seen since, or newer than one. */
  ghost predicate IsFresh(m: State, evs: seq<Event>, parse: Parser, p: Path, r: Option<Entry>) {
    r.Some? ==> exists shape :: Seen(m, evs, parse, p, shape) && AtLeast(r.value, shape)
  }

  /** What a strict load knows at each point. */
  ghost predicate FreshPc(m: State, evs: seq<Event>, parse: Parser, p: Path, pc: Pc) {
    match pc
    case Resolve => false
    case Check(info) => Seen(m, evs, parse, p, info)
    case Acquire(info) => Seen(m, evs, parse, p, info)
    case Wait(info) => Seen(m, evs, parse, p, info)
    case Held(info) => Seen(m, evs, parse, p, info)
    case Opened(fd) => StoodUnder(m, evs, parse, p, fd)
    case Reading(_, shape, _, _) => Seen(m, evs, parse, p, shape)
    case Commit(e) => Seen(m, evs, parse, p, e.shape)
    case Unlock(r) => IsFresh(m, evs, parse, p, r)
    case Release(r) => IsFresh(m, evs, parse, p, r)
    case Done(r) => IsFresh(m, evs, parse, p, r)
    case _ => true
  }

  lemma AfterInit(m: State, evs: seq<Event>, k: nat, parse: Parser)
    requires evs != [] && k < |evs|
    ensures After(m, evs, k, parse) == After(m, evs[..|evs| - 1], k, parse)
  {
    assert evs[..|evs| - 1][..k] == evs[..k];
  }

  lemma AfterEnds(m: State, evs: seq<Event>, parse: Parser)
    requires evs != []
    ensures var n := |evs| - 1;
            && After(m, evs, n, parse) == Run(m, evs[..n], parse)
            && After(m, evs, n + 1, parse) == Run(m, evs, parse) == Step(Run(m, evs[..n], parse), evs[n], parse)
  {
    assert evs[..|evs|] == evs;
  }

  lemma SeenGrows(m: State, evs: seq<Event>, parse: Parser, p: Path, shape: Shape)
    requires evs != [] && Seen(m, evs[..|evs| - 1], parse, p, shape)
    ensures Seen(m, evs, parse, p, shape)
  {
    hide After, StoodThen;
    var init := evs[..|evs| - 1];
    var k: nat, l: nat :| k <= l <= |init| && StoodThen(After(m, init, k, parse), After(m, init, l, parse), p, shape);
    AfterInit(m, evs, k, parse);
    AfterInit(m, evs, l, parse);
  }

  lemma StoodGrows(m: State, evs: seq<Event>, parse: Parser, p: Path, i: Inode)
    requires evs != [] && StoodUnder(m, evs[..|evs| - 1], parse, p, i)
    ensures StoodUnder(m, evs, parse, p, i)
  {
    hide After;
    var init := evs[..|evs| - 1];
    var k: nat :| k <= |init| && p in After(m, init, k, parse).names && After(m, init, k, parse).names[p] == i;
    AfterInit(m, evs, k, parse);
  }

  lemma FreshGrows(m: State, evs: seq<Event>, parse: Parser, p: Path, r: Option<Entry>)
    requires evs != [] && IsFresh(m, evs[..|evs| - 1], parse, p, r)
    ensures IsFresh(m, evs, parse, p, r)
  {
    hide Seen;
    if r.Some? {
      var shape :| Seen(m, evs[..|evs| - 1], parse, p, shape) && AtLeast(r.value, shape);
      SeenGrows(m, evs, parse, p, shape);
    }
  }

  lemma PcGrows(m: State, evs: seq<Event>, parse: Parser, p: Path, pc: Pc)
    requires evs != [] && FreshPc(m, evs[..|evs| - 1], parse, p, pc)
    ensures FreshPc(m, evs, parse, p, pc)
  {
    hide Seen, StoodUnder, IsFresh;
    match pc
    case Check(info) => SeenGrows(m, evs, parse, p, info);
    case Acquire(info) => SeenGrows(m, evs, parse, p, info);
    case Wait(info) => SeenGrows(m, evs, parse, p, info);
    case Held(info) => SeenGrows(m, evs, parse, p, info);
    case Opened(fd) => StoodGrows(m, evs, parse, p, fd);
    case Reading(_, shape, _, _) => SeenGrows(m, evs, parse, p, shape);
    case Commit(e) => SeenGrows(m, evs, parse, p, e.shape);
    case Unlock(r) => FreshGrows(m, evs, parse, p, r);
    case Release(r) => FreshGrows(m, evs, parse, p, r);
    case Done(r) => FreshGrows(m, evs, parse, p, r);
    case _ =>
  }

  /** What the thread looks at in the last state was seen. */
  lemma SeenNow(m: State, evs: seq<Event>, parse: Parser, p: Path, i: Inode)
    requires StoodUnder(m, evs, parse, p, i) && Readable(Run(m, evs, parse), i)
    ensures Seen(m, evs, parse, p, ShapeOf(Current(Run(m, evs, parse), i)))
  {
    var k: nat :| k <= |evs| && p in After(m, evs, k, parse).names && After(m, evs, k, parse).names[p] == i;
    assert evs[..|evs|] == evs;
    assert After(m, evs, |evs|, parse) == Run(m, evs, parse);
    assert StoodThen(After(m, evs, k, parse), After(m, evs, |evs|, parse), p, ShapeOf(Current(Run(m, evs, parse), i)));
  }

  lemma StandsNow(m: State, evs: seq<Event>, parse: Parser, p: Path)
    requires p in Run(m, evs, parse).names
    ensures StoodUnder(m, evs, parse, p, Run(m, evs, parse).names[p])
  {
    assert evs[..|evs|] == evs;
    assert After(m, evs, |evs|, parse) == Run(m, evs, parse);
  }

  lemma EqualIsFresh(m: State, evs: seq<Event>, parse: Parser, p: Path, e: Entry, shape: Shape)
    requires Seen(m, evs, parse, p, shape) && AtLeast(e, shape)
    ensures IsFresh(m, evs, parse, p, Some(e))
  {
  }

  /** The thread's own steps keep what it knows; the new place is judged in the state before the step. */
  lemma NextIsFresh(m: State, evs: seq<Event>, parse: Parser, j: Job, ok: bool, n: nat)
    requires j.kind == Fresh && FreshPc(m, evs, parse, j.path, j.pc)
    ensures FreshPc(m, evs, parse, j.path, NextPc(Run(m, evs, parse), j, ok, n, parse))
  {
    var q := Run(m, evs, parse);
    hide Seen, StoodUnder, IsFresh, Run;
    match j.pc
    case Stat =>
      if CanOpen(q, j.path) {
        StandsNow(m, evs, parse, j.path);
        SeenNow(m, evs, parse, j.path, q.names[j.path]);
      }
    case Check(info) =>
      if Hit(q.cache, j.path, info) {
        EqualIsFresh(m, evs, parse, j.path, q.cache[j.path], info);
      }
    case Held(info) =>
      if Hit(q.cache, j.path, info) {
        EqualIsFresh(m, evs, parse, j.path, q.cache[j.path], info);
      }
    case Open =>
      if CanOpen(q, j.path) {
        StandsNow(m, evs, parse, j.path);
      }
    case Opened(fd) =>
      if Readable(q, fd) {
        SeenNow(m, evs, parse, j.path, fd);
      }
    case Commit(e) =>
      EqualIsFresh(m, evs, parse, j.path, Publish(q.cache, j.path, e, j.cached).1, e.shape);
    case FailedStat => NothingIsFresh(m, evs, parse, j.path);
    case FailedLoad => NothingIsFresh(m, evs, parse, j.path);
    case _ =>
  }

  lemma NothingIsFresh(m: State, evs: seq<Event>, parse: Parser, p: Path)
    ensures IsFresh(m, evs, parse, p, None)
  {
  }

  ghost predicate FreshJob(m: State, evs: seq<Event>, parse: Parser, t: Thread) {
    var q := Run(m, evs, parse);
    t in q.jobs && q.jobs[t].kind == Fresh ==> FreshPc(m, evs, parse, q.jobs[t].path, q.jobs[t].pc)
  }

  lemma StepIsFresh(m: State, evs: seq<Event>, parse: Parser, t: Thread)
    requires evs != [] && FreshJob(m, evs[..|evs| - 1], parse, t)
    ensures FreshJob(m, evs, parse, t)
  {
    hide Run, ActThread, FreshPc, NextPc;
    var init, ev := evs[..|evs| - 1], evs[|evs| - 1];
    var q := Run(m, init, parse);
    AfterEnds(m, evs, parse);
    if ev.Act? && ev.t == t {
      if t in q.jobs {
        var j := q.jobs[t];
        ActMove(q, t, ev.ok, ev.n, parse);
        if j.kind == Fresh {
          NextIsFresh(m, init, parse, j, ev.ok, ev.n);
          PcGrows(m, evs, parse, j.path, NextPc(q, j, ev.ok, ev.n, parse));
          PcGrows(m, evs, parse, j.path, j.pc);
        }
      }
    } else if ev.Start? && ev.t == t {
      assert FreshPc(m, evs, parse, ev.path, Stat) by { StatIsFresh(m, evs, parse, ev.path); }
      if t in q.jobs && q.jobs[t].kind == Fresh {
        PcGrows(m, evs, parse, q.jobs[t].path, q.jobs[t].pc);
      }
    } else {
      if !(ev.Forget? && ev.t == t) {
        StepSameJob(q, ev, parse, t);
      }
      if t in q.jobs && q.jobs[t].kind == Fresh {
        PcGrows(m, evs, parse, q.jobs[t].path, q.jobs[t].pc);
      }
    }
  }

  lemma StatIsFresh(m: State, evs: seq<Event>, parse: Parser, p: Path)
    ensures FreshPc(m, evs, parse, p, Stat)
  {
  }

  lemma {:induction false} RunIsFresh(m: State, evs: seq<Event>, parse: Parser, t: Thread)
    requires t !in m.jobs
    ensures FreshJob(m, evs, parse, t)
  {
    hide FreshPc, Step;
    if evs != [] {
      RunIsFresh(m, evs[..|evs| - 1], parse, t);
      StepIsFresh(m, evs, parse, t);
    }
  }

  /** A strict load that returns a set returns one at least as new as some version that a file under the path
      had since the load began: never the set of a file that was replaced before. */
  lemma FreshLoadIsFresh(m: State, evs: seq<Event>, parse: Parser, t: Thread) returns (k: nat, l: nat, i: Inode)
    requires t !in m.jobs
    requires var r := Run(m, evs, parse);
             t in r.jobs && r.jobs[t].kind == Fresh && r.jobs[t].pc.Done? && r.jobs[t].pc.result.Some?
    ensures k <= l <= |evs|
    ensures var j, q, q' := Run(m, evs, parse).jobs[t], Run(m, evs[..k], parse), Run(m, evs[..l], parse);
            && j.path in q.names && i == q.names[j.path] && i in q'.files && q'.files[i] != []
            && var v, e := q'.files[i][|q'.files[i]| - 1], j.pc.result.value;
               (e.shape.mtime == v.mtime && e.shape.size == |v.bytes|)
               || e.shape.mtime > v.mtime || (e.shape.mtime == v.mtime && e.shape.size > |v.bytes|)
  {
    hide Run;
    RunIsFresh(m, evs, parse, t);
    var j := Run(m, evs, parse).jobs[t];
    var shape :| Seen(m, evs, parse, j.path, shape) && AtLeast(j.pc.result.value, shape);
    k, l :| k <= l <= |evs| && StoodThen(After(m, evs, k, parse), After(m, evs, l, parse), j.path, shape);
    i := After(m, evs, k, parse).names[j.path];
  }

  // ---- Failure ----

  predicate EndsEmpty(j: Job) {
    j.kind == Fresh && (j.pc.FailedStat? || j.pc.FailedLoad? || EmptyHanded(j.pc))
  }

  lemma EmptyStep(s: State, t: Thread, ok: bool, n: nat, parse: Parser)
    requires t in s.jobs && EndsEmpty(s.jobs[t])
    ensures var s' := ActThread(s, t, ok, n, parse); t in s'.jobs && EndsEmpty(s'.jobs[t])
  {
    hide ActThread;
    ActMove(s, t, ok, n, parse);
  }

  /** Fail closed: a strict load that could not stat, open, read or parse returns no set. */
  lemma {:induction false} FailedLoadHasNone(m: State, evs: seq<Event>, parse: Parser, t: Thread)
    requires t in m.jobs && m.jobs[t].kind == Fresh && (m.jobs[t].pc.FailedStat? || m.jobs[t].pc.FailedLoad?)
    requires Forget(t) !in evs
    ensures var r := Run(m, evs, parse);
            t in r.jobs && EndsEmpty(r.jobs[t]) && (r.jobs[t].pc.Done? ==> r.jobs[t].pc.result.None?)
  {
    hide Step;
    if evs != [] {
      var init, ev := evs[..|evs| - 1], evs[|evs| - 1];
      assert Forget(t) !in init && ev != Forget(t);
      FailedLoadHasNone(m, init, parse, t);
      var q := Run(m, init, parse);
      EmptyEvent(q, ev, parse, t);
    }
  }

  lemma EmptyEvent(q: State, ev: Event, parse: Parser, t: Thread)
    requires t in q.jobs && EndsEmpty(q.jobs[t]) && ev != Forget(t)
    ensures var r := Step(q, ev, parse); t in r.jobs && EndsEmpty(r.jobs[t])
  {
    hide ActThread, EndsEmpty;
    if ev.Act? && ev.t == t {
      EmptyStep(q, t, ev.ok, ev.n, parse);
    } else if !(ev.Start? && ev.t == t) {
      StepSameJob(q, ev, parse, t);
      SameEnd(q.jobs[t], Step(q, ev, parse).jobs[t]);
    }
  }

  lemma SameEnd(j: Job, k: Job)
    requires EndsEmpty(j) && k.(missed := j.missed) == j
    ensures EndsEmpty(k)
  {
  }

  // ---- Success ----

  /** The file under the path is this version of this inode. */
  predicate Standing(s: State, p: Path, i: Inode, v: Version) {
    p in s.names && s.names[p] == i && Readable(s, i) && Current(s, i) == v
  }

  /** The file under the path stays the same, and every call the thread makes succeeds. */
  ghost predicate Undisturbed(m: State, evs: seq<Event>, parse: Parser, t: Thread, p: Path, i: Inode, v: Version) {
    && (forall k: nat :: k <= |evs| ==> Standing(After(m, evs, k, parse), p, i, v))
    && (forall k :: 0 <= k < |evs| && evs[k].Act? && evs[k].t == t ==> evs[k].ok)
  }

  /** A load of that file that has not failed. */
  predicate GoesWell(j: Job, i: Inode, v: Version) {
    match j.pc
    case FailedStat => false
    case FailedLoad => false
    case Opened(fd) => fd == i
    case Reading(fd, shape, _, got) => fd == i && shape == ShapeOf(v) && |got| <= |v.bytes| && got == v.bytes[..|got|]
    case Unlock(r) => r.Some?
    case Release(r) => r.Some?
    case Done(r) => r.Some?
    case _ => true
  }

  lemma NextGoesWell(s: State, j: Job, n: nat, parse: Parser, i: Inode, v: Version)
    requires Standing(s, j.path, i, v) && |v.bytes| <= MAX_FILE_BYTES && parse(v.bytes).Some?
    requires j.kind != Evict && GoesWell(j, i, v)
    ensures GoesWell(j.(pc := NextPc(s, j, true, n, parse)), i, v)
  {
    match j.pc
    case Reading(fd, shape, at, got) => ReadingGoesWell(s, j, n, parse, i, v);
    case _ =>
  }

  lemma ReadingGoesWell(s: State, j: Job, n: nat, parse: Parser, i: Inode, v: Version)
    requires Standing(s, j.path, i, v) && parse(v.bytes).Some? && j.pc.Reading? && GoesWell(j, i, v)
    ensures GoesWell(j.(pc := ReadingPc(s, j.pc, true, n, parse)), i, v)
  {
    var got, b := j.pc.got, v.bytes;
    if |got| < |b| {
      var hi := MinOf(MinOf(|b|, |got| + 1 + n), |b|);
      assert got + b[|got|..hi] == b[..hi];
    } else {
      assert got == b;
    }
  }

  ghost predicate JobGoesWell(s: State, t: Thread, p: Path, i: Inode, v: Version) {
    t in s.jobs && s.jobs[t].path == p && s.jobs[t].kind != Evict ==> GoesWell(s.jobs[t], i, v)
  }

  lemma StepGoesWell(s: State, ev: Event, parse: Parser, t: Thread, p: Path, i: Inode, v: Version)
    requires Standing(s, p, i, v) && |v.bytes| <= MAX_FILE_BYTES && parse(v.bytes).Some?
    requires JobGoesWell(s, t, p, i, v) && (ev.Act? && ev.t == t ==> ev.ok)
    ensures JobGoesWell(Step(s, ev, parse), t, p, i, v)
  {
    hide ActThread, NextPc, Standing;
    if ev.Act? && ev.t == t {
      if t in s.jobs {
        ActMove(s, t, true, ev.n, parse);
        if s.jobs[t].path == p && s.jobs[t].kind != Evict {
          NextGoesWell(s, s.jobs[t], ev.n, parse, i, v);
        }
      }
    } else if !((ev.Start? || ev.Forget?) && ev.t == t) {
      StepSameJob(s, ev, parse, t);
    }
  }

  lemma {:induction false} RunGoesWell(m: State, evs: seq<Event>, parse: Parser, t: Thread, p: Path, i: Inode,
                                       v: Version)
    requires t !in m.jobs && |v.bytes| <= MAX_FILE_BYTES && parse(v.bytes).Some?
    requires Undisturbed(m, evs, parse, t, p, i, v)
    ensures JobGoesWell(Run(m, evs, parse), t, p, i, v)
  {
    hide Step, Standing, JobGoesWell;
    if evs == [] {
      NoJob(m, t, p, i, v);
    } else {
      var init := evs[..|evs| - 1];
      forall k: nat | k <= |init| ensures Standing(After(m, init, k, parse), p, i, v) {
        AfterInit(m, evs, k, parse);
      }
      RunGoesWell(m, init, parse, t, p, i, v);
      AfterEnds(m, evs, parse);
      StepGoesWell(Run(m, init, parse), evs[|evs| - 1], parse, t, p, i, v);
    }
  }

  lemma NoJob(m: State, t: Thread, p: Path, i: Inode, v: Version)
    requires t !in m.jobs
    ensures JobGoesWell(m, t, p, i, v)
  {
  }

  /** If the file under the path stays as it is, parses, and no call fails, every lookup and every strict load
      that returns has a set; a strict load one at least as new as the file. */
  lemma UndisturbedLoadSucceeds(m: State, evs: seq<Event>, parse: Parser, t: Thread, i: Inode, v: Version)
    requires t !in m.jobs && |v.bytes| <= MAX_FILE_BYTES && parse(v.bytes).Some?
    requires var r := Run(m, evs, parse);
             && t in r.jobs && r.jobs[t].kind != Evict && r.jobs[t].pc.Done?
             && Undisturbed(m, evs, parse, t, r.jobs[t].path, i, v)
    ensures var j := Run(m, evs, parse).jobs[t];
            j.pc.result.Some? && (j.kind == Fresh ==> AtLeast(j.pc.result.value, ShapeOf(v)))
  {
    hide Run;
    var j := Run(m, evs, parse).jobs[t];
    RunGoesWell(m, evs, parse, t, j.path, i, v);
    if j.kind == Fresh {
      RunIsFresh(m, evs, parse, t);
      var shape :| Seen(m, evs, parse, j.path, shape) && AtLeast(j.pc.result.value, shape);
      var k: nat, l: nat :| k <= l <= |evs|
                            && StoodThen(After(m, evs, k, parse), After(m, evs, l, parse), j.path, shape);
      assert Standing(After(m, evs, k, parse), j.path, i, v) && Standing(After(m, evs, l, parse), j.path, i, v);
    }
  }

  /** What a load publishes is what it serves, and it is cached at that moment. */
  lemma PublishedIsCached(s: State, t: Thread, ok: bool, n: nat, parse: Parser)
    requires t in s.jobs && s.jobs[t].pc.Commit?
    ensures var s' := ActThread(s, t, ok, n, parse); var p := s.jobs[t].path;
            && t in s'.jobs && p in s'.cache && s'.jobs[t].pc == Unlock(Some(s'.cache[p]))
            && AtLeast(s'.cache[p], s.jobs[t].pc.entry.shape)
  {
  }

  // ---- Loads are not repeated ----

  /** A load that has seen this shape and has not opened the file, or is through. */
  predicate NeverOpened(j: Job, p: Path, info: Shape) {
    && j.path == p && j.kind != Evict
    && match j.pc
       case Check(i) => i == info
       case Acquire(i) => i == info
       case Wait(i) => i == info
       case Held(i) => i == info
       case Unlock(_) => true
       case Release(_) => true
       case Done(_) => true
       case _ => false
  }

  lemma NextNeverOpens(s: State, j: Job, ok: bool, n: nat, parse: Parser, info: Shape)
    requires NeverOpened(j, j.path, info) && j.path in s.cache && s.cache[j.path].shape == info
    ensures NeverOpened(j.(pc := NextPc(s, j, ok, n, parse)), j.path, info)
  {
  }

  lemma EventNeverOpens(s: State, ev: Event, parse: Parser, t: Thread, p: Path, info: Shape)
    requires t in s.jobs && NeverOpened(s.jobs[t], p, info) && ev != Forget(t)
    requires p in s.cache && s.cache[p].shape == info
    ensures var r := Step(s, ev, parse); t in r.jobs && NeverOpened(r.jobs[t], p, info)
  {
    hide ActThread, NextPc;
    if ev.Act? && ev.t == t {
      ActMove(s, t, ev.ok, ev.n, parse);
      NextNeverOpens(s, s.jobs[t], ev.ok, ev.n, parse, info);
    } else if !(ev.Start? && ev.t == t) {
      StepSameJob(s, ev, parse, t);
    }
  }

  /** Loads of one path share the work: a load that waits for the lock while another one puts the set of the file
      it looked at into the cache does not open the file again, as long as that set stays there. */
  lemma {:induction false} SharedLoadNeverOpens(m: State, evs: seq<Event>, parse: Parser, t: Thread, p: Path,
                                                info: Shape)
    requires t in m.jobs && NeverOpened(m.jobs[t], p, info) && Forget(t) !in evs
    requires forall k: nat :: k < |evs| ==> HasShape(After(m, evs, k, parse), p, info)
    ensures var r := Run(m, evs, parse); t in r.jobs && NeverOpened(r.jobs[t], p, info)
  {
    hide Step, NeverOpened, HasShape;
    if evs != [] {
      var init, ev := evs[..|evs| - 1], evs[|evs| - 1];
      assert Forget(t) !in init && ev != Forget(t);
      forall k: nat | k < |init| ensures HasShape(After(m, init, k, parse), p, info) {
        AfterInit(m, evs, k, parse);
      }
      SharedLoadNeverOpens(m, init, parse, t, p, info);
      assert After(m, evs, |init|, parse) == Run(m, init, parse);
      ShapeThere(Run(m, init, parse), p, info);
      EventNeverOpens(Run(m, init, parse), ev, parse, t, p, info);
    }
  }

  predicate HasShape(s: State, p: Path, info: Shape) {
    p in s.cache && s.cache[p].shape == info
  }

  lemma ShapeThere(s: State, p: Path, info: Shape)
    requires HasShape(s, p, info)
    ensures p in s.cache && s.cache[p].shape == info
  {
  }

  // ---- Eviction ----

  ghost predicate SeenEmpty(m: State, evs: seq<Event>, parse: Parser, p: Path) {
    exists k: nat :: k <= |evs| && p !in After(m, evs, k, parse).cache
  }

  /** An eviction past its critical section has seen the path without a set. */
  ghost predicate EvictOk(m: State, evs: seq<Event>, parse: Parser, t: Thread) {
    var q := Run(m, evs, parse);
    t in q.jobs && q.jobs[t].kind == Evict ==>
      var pc := q.jobs[t].pc;
      || pc.Acquire? || pc.Wait? || pc.Held?
      || ((pc.Unlock? || pc.Release? || pc.Done?) && SeenEmpty(m, evs, parse, q.jobs[t].path))
  }

  lemma EmptyGrows(m: State, evs: seq<Event>, parse: Parser, p: Path)
    requires evs != [] && SeenEmpty(m, evs[..|evs| - 1], parse, p)
    ensures SeenEmpty(m, evs, parse, p)
  {
    hide After;
    var init := evs[..|evs| - 1];
    var k: nat :| k <= |init| && p !in After(m, init, k, parse).cache;
    AfterInit(m, evs, k, parse);
  }

  lemma StepEvicts(m: State, evs: seq<Event>, parse: Parser, t: Thread)
    requires evs != [] && EvictOk(m, evs[..|evs| - 1], parse, t)
    ensures EvictOk(m, evs, parse, t)
  {
    hide Run, ActThread, SeenEmpty;
    var init, ev := evs[..|evs| - 1], evs[|evs| - 1];
    var q, r := Run(m, init, parse), Run(m, evs, parse);
    AfterEnds(m, evs, parse);
    if t in q.jobs && SeenEmpty(m, init, parse, q.jobs[t].path) {
      EmptyGrows(m, evs, parse, q.jobs[t].path);
    }
    if ev.Act? && ev.t == t {
      if t in q.jobs {
        ActMove(q, t, ev.ok, ev.n, parse);
        if q.jobs[t].kind == Evict && q.jobs[t].pc.Held? {
          EmptyNow(m, evs, parse, q.jobs[t].path);
        }
      }
    } else if !((ev.Start? || ev.Forget?) && ev.t == t) {
      StepSameJob(q, ev, parse, t);
    }
  }

  lemma EmptyNow(m: State, evs: seq<Event>, parse: Parser, p: Path)
    requires p !in Run(m, evs, parse).cache
    ensures SeenEmpty(m, evs, parse, p)
  {
    assert evs[..|evs|] == evs;
    assert After(m, evs, |evs|, parse) == Run(m, evs, parse);
  }

  lemma {:induction false} RunEvicts(m: State, evs: seq<Event>, parse: Parser, t: Thread)
    requires t !in m.jobs
    ensures EvictOk(m, evs, parse, t)
  {
    hide Step, SeenEmpty;
    if evs != [] {
      RunEvicts(m, evs[..|evs| - 1], parse, t);
      StepEvicts(m, evs, parse, t);
    }
  }

  /** When an eviction has returned, the path was without a set at some moment since it began. */
  lemma EvictionRemoves(m: State, evs: seq<Event>, parse: Parser, t: Thread) returns (k: nat)
    requires t !in m.jobs
    requires var r := Run(m, evs, parse); t in r.jobs && r.jobs[t].kind == Evict && r.jobs[t].pc.Done?
    ensures k <= |evs| && Run(m, evs, parse).jobs[t].path !in Run(m, evs[..k], parse).cache
  {
    hide Run;
    RunEvicts(m, evs, parse, t);
    k :| k <= |evs| && Run(m, evs, parse).jobs[t].path !in After(m, evs, k, parse).cache;
  }
}
