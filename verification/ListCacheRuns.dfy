/** What holds over every run of the list cache: exclusion, monotone generations, complete sets, service. */
module ListCacheRuns {
  import opened Bytes
  import opened Options
  import opened IpPrefix
  import SnapshotGuard
  import opened ListCache
  import Aggregate
  import Entries = Entry
  import ListFile

  // ---- What holds over every run ----

  /** Although lock objects come and go, no two threads are ever between open and publication, or in any
      other part under the lock, for the same path. */
  lemma ParsesNeverOverlap(s: State, evs: seq<Event>, parse: Parser, t: Thread, u: Thread)
    requires Initial(s)
    requires var r := Run(s, evs, parse); t in r.jobs && u in r.jobs && r.jobs[t].path == r.jobs[u].path
    requires var r := Run(s, evs, parse); Holds(r.jobs[t].pc) && Holds(r.jobs[u].pc)
    ensures t == u
  {
    RunInv(s, evs, parse);
    OneHolder(Run(s, evs, parse), t, u);
  }

  /** The lock table holds exactly the locks in use: an idle process has none. */
  lemma TableIsExactlyInUse(s: State, evs: seq<Event>, parse: Parser, p: Path)
    requires Initial(s)
    ensures var r := Run(s, evs, parse);
            p in r.table <==> exists t :: t in r.jobs && r.jobs[t].path == p && Uses(r.jobs[t].pc)
  {
    hide Run;
    RunInv(s, evs, parse);
    var r := Run(s, evs, parse);
    if p in r.table {
      var l := r.table[p];
      assert LockObjectOk(r, l, r.locks[l]);
      assert Users(r.jobs, l) != {};
      var t :| t in Users(r.jobs, l);
      assert JobLockOk(r, t, r.jobs[t]);
    }
    forall t | t in r.jobs && r.jobs[t].path == p && Uses(r.jobs[t].pc) ensures p in r.table {
      assert JobLockOk(r, t, r.jobs[t]);
    }
  }

  /** Every set a thread was served is the parse of one complete version, of at most 64 MiB, of a file that stood
      under its path. */
  lemma ServedIsOneGeneration(s: State, evs: seq<Event>, parse: Parser, t: Thread)
    requires Initial(s)
    requires var r := Run(s, evs, parse); t in r.jobs && r.jobs[t].pc.Done? && r.jobs[t].pc.result.Some?
    ensures var r := Run(s, evs, parse); EntryOk(r.files, r.named, parse, r.jobs[t].path, r.jobs[t].pc.result.value)
  {
    hide Run;
    RunInv(s, evs, parse);
    var r := Run(s, evs, parse);
    assert JobOk(r.files, r.named, r.cache, parse, r.jobs[t]);
  }

  /** When a parsed file is about to be published, the cached set is still the one the thread saw after
      taking the lock, so the branch for a set of the same shape published meanwhile is never taken. */
  lemma SecondCheckNeverHits(s: State, evs: seq<Event>, parse: Parser, t: Thread)
    requires Initial(s)
    requires var r := Run(s, evs, parse); t in r.jobs && r.jobs[t].pc.Commit?
    ensures var r := Run(s, evs, parse); Find(r.cache, r.jobs[t].path) == r.jobs[t].cached
  {
    hide Run;
    RunInv(s, evs, parse);
    var r := Run(s, evs, parse);
    assert JobOk(r.files, r.named, r.cache, parse, r.jobs[t]);
  }

  predicate NotOlderThan(e: Entry, d: Entry) {
    !SnapshotGuard.Stale(GenOf(e.shape), GenOf(d.shape))
  }

  /** Only an eviction and a publication touch the cache. */
  function CacheAfter(s: State, ev: Event): map<Path, Entry> {
    if ev.Act? && ev.t in s.jobs then
      var j := s.jobs[ev.t];
      if j.pc.Held? && j.kind == Evict then s.cache - {j.path}
      else if j.pc.Commit? then Publish(s.cache, j.path, j.pc.entry, j.cached).0
      else s.cache
    else s.cache
  }

  /** Same cache, same threads on the same paths, none newly marked. */
  ghost predicate LockOnly(s: State, s': State) {
    && s'.cache == s.cache && s'.jobs.Keys == s.jobs.Keys
    && forall u :: u in s.jobs ==> s'.jobs[u].path == s.jobs[u].path && s'.jobs[u].missed == s.jobs[u].missed
  }

  lemma AcquireOnly(s: State, t: Thread)
    requires t in s.jobs && s.jobs[t].pc.Acquire?
    ensures LockOnly(s, AcquireLock(s, t))
  {
  }

  lemma GrabOnly(s: State, t: Thread)
    requires t in s.jobs && s.jobs[t].pc.Wait?
    ensures LockOnly(s, GrabLock(s, t))
  {
  }

  lemma DropOnly(s: State, t: Thread)
    requires t in s.jobs && s.jobs[t].pc.Unlock?
    ensures LockOnly(s, DropLock(s, t))
  {
  }

  lemma ReleaseOnly(s: State, t: Thread)
    requires t in s.jobs && s.jobs[t].pc.Release?
    ensures LockOnly(s, ReleaseLock(s, t))
  {
  }

  lemma LockOrLook(s: State, t: Thread, ok: bool, n: nat, parse: Parser)
    requires t in s.jobs && !s.jobs[t].pc.Held? && !Loading(s.jobs[t].pc)
    ensures LockOnly(s, ActThread(s, t, ok, n, parse))
  {
    hide OutsidePc, AcquireLock, GrabLock, DropLock, ReleaseLock, ActLoad, ActHeld;
    match s.jobs[t].pc
    case Acquire(_) => AcquireOnly(s, t);
    case Wait(_) => GrabOnly(s, t);
    case Unlock(_) => DropOnly(s, t);
    case Release(_) => ReleaseOnly(s, t);
    case _ =>
  }

  lemma HeldActs(s: State, t: Thread, ok: bool, n: nat, parse: Parser)
    requires t in s.jobs
    ensures s.jobs[t].pc.Held? ==> ActThread(s, t, ok, n, parse) == ActHeld(s, t)
    ensures Loading(s.jobs[t].pc) ==> ActThread(s, t, ok, n, parse) == ActLoad(s, t, ok, n, parse)
  {
    hide OutsidePc, AcquireLock, GrabLock, DropLock, ReleaseLock, ActHeld, ActLoad;
  }

  lemma HeldCache(s: State, t: Thread, ok: bool, n: nat, parse: Parser)
    requires t in s.jobs && s.jobs[t].pc.Held?
    ensures ActHeld(s, t).cache == CacheAfter(s, Act(t, ok, n))
  {
    hide MarkMissed, Publish, Hit;
  }

  lemma LoadCache(s: State, t: Thread, ok: bool, n: nat, parse: Parser)
    requires t in s.jobs && Loading(s.jobs[t].pc)
    ensures ActLoad(s, t, ok, n, parse).cache == CacheAfter(s, Act(t, ok, n))
  {
    hide LoadPc, Publish;
  }

  lemma OtherCache(s: State, ev: Event)
    requires ev.Act? && ev.t in s.jobs ==> !s.jobs[ev.t].pc.Held? && !Loading(s.jobs[ev.t].pc)
    ensures CacheAfter(s, ev) == s.cache
  {
  }

  lemma ThreadCache(s: State, t: Thread, ok: bool, n: nat, parse: Parser)
    requires t in s.jobs
    ensures ActThread(s, t, ok, n, parse).cache == CacheAfter(s, Act(t, ok, n))
  {
    hide ActThread, ActHeld, ActLoad, CacheAfter;
    HeldActs(s, t, ok, n, parse);
    if s.jobs[t].pc.Held? {
      HeldCache(s, t, ok, n, parse);
    } else if Loading(s.jobs[t].pc) {
      LoadCache(s, t, ok, n, parse);
    } else {
      LockOrLook(s, t, ok, n, parse);
      OtherCache(s, Act(t, ok, n));
    }
  }

  lemma StepCache(s: State, ev: Event, parse: Parser)
    ensures Step(s, ev, parse).cache == CacheAfter(s, ev)
  {
    hide ActThread, CacheAfter;
    if ev.Act? && ev.t in s.jobs {
      ThreadCache(s, ev.t, ev.ok, ev.n, parse);
    } else {
      assert CacheAfter(s, ev) == s.cache by { OtherCache(s, ev); }
    }
  }

  lemma CacheStep(s: State, ev: Event, parse: Parser, p: Path)
    requires p in s.cache && p in Step(s, ev, parse).cache
    ensures NotOlderThan(Step(s, ev, parse).cache[p], s.cache[p])
  {
    hide Step;
    StepCache(s, ev, parse);
  }

  ghost predicate CachedThroughout(s: State, evs: seq<Event>, parse: Parser, p: Path) {
    forall k :: 0 <= k <= |evs| ==> p in Run(s, evs[..k], parse).cache
  }

  lemma CachedBefore(s: State, evs: seq<Event>, parse: Parser, p: Path)
    requires CachedThroughout(s, evs, parse, p) && evs != []
    ensures CachedThroughout(s, evs[..|evs| - 1], parse, p)
    ensures p in Run(s, evs[..|evs| - 1], parse).cache && p in Run(s, evs, parse).cache
  {
    hide Run;
    var before := evs[..|evs| - 1];
    forall k | 0 <= k <= |before| ensures p in Run(s, before[..k], parse).cache {
      assert before[..k] == evs[..k];
    }
    assert evs[..|evs|] == evs;
  }

  /** Between evictions the published (mtime, size) never moves backwards. */
  lemma {:induction false} GenerationsNeverGoBack(s: State, evs: seq<Event>, parse: Parser, p: Path)
    requires CachedThroughout(s, evs, parse, p)
    ensures p in s.cache && p in Run(s, evs, parse).cache
    ensures NotOlderThan(Run(s, evs, parse).cache[p], s.cache[p])
  {
    hide Step;
    assert evs[..0] == [];
    assert p in Run(s, evs[..0], parse).cache;
    if evs != [] {
      CachedBefore(s, evs, parse, p);
      GenerationsNeverGoBack(s, evs[..|evs| - 1], parse, p);
      CacheStep(Run(s, evs[..|evs| - 1], parse), evs[|evs| - 1], parse, p);
    }
  }

  /** The only step that removes a cached set is an eviction of its path. */
  lemma OnlyEvictionRemoves(s: State, ev: Event, parse: Parser, p: Path)
    requires p in s.cache && p !in Step(s, ev, parse).cache
    ensures ev.Act? && ev.t in s.jobs && s.jobs[ev.t].pc.Held? && s.jobs[ev.t].kind == Evict && s.jobs[ev.t].path == p
  {
    hide Step;
    StepCache(s, ev, parse);
  }

  /** If the thread works on the path, the path was cached all the time since the thread started. */
  ghost predicate Unmissed(jobs: map<Thread, Job>, t: Thread, p: Path) {
    t in jobs && jobs[t].path == p ==> !jobs[t].missed
  }

  lemma ActMisses(s: State, u: Thread, ok: bool, n: nat, parse: Parser, t: Thread, p: Path)
    requires u in s.jobs && Unmissed(s.jobs, t, p)
    requires s.jobs[u].pc.Held? && s.jobs[u].kind == Evict ==> s.jobs[u].path != p
    ensures Unmissed(ActThread(s, u, ok, n, parse).jobs, t, p)
  {
    hide OutsidePc, ActLoad, ActHeld, AcquireLock, GrabLock, DropLock, ReleaseLock;
    var pc, s' := s.jobs[u].pc, ActThread(s, u, ok, n, parse);
    if pc.Held? {
      HeldMisses(s, u, t, p);
    } else if Loading(pc) {
      LoadMoves(s, u, ok, n, parse);
      assert Unmissed(s'.jobs, t, p);
    } else {
      LockOrLook(s, u, ok, n, parse);
    }
  }

  lemma HeldMisses(s: State, u: Thread, t: Thread, p: Path)
    requires u in s.jobs && Unmissed(s.jobs, t, p) && s.jobs[u].pc.Held? &&
             (s.jobs[u].kind == Evict ==> s.jobs[u].path != p)
    ensures Unmissed(ActHeld(s, u).jobs, t, p)
  {
  }

  lemma StepMisses(s: State, ev: Event, parse: Parser, t: Thread, p: Path)
    requires p in s.cache && p in Step(s, ev, parse).cache && Unmissed(s.jobs, t, p)
    ensures Unmissed(Step(s, ev, parse).jobs, t, p)
  {
    hide ActThread;
    if ev.Act? && ev.t in s.jobs {
      StepCache(s, ev, parse);
      ActMisses(s, ev.t, ev.ok, ev.n, parse, t, p);
    }
  }

  lemma {:induction false} RunMisses(s: State, evs: seq<Event>, parse: Parser, t: Thread, p: Path)
    requires CachedThroughout(s, evs, parse, p) && Unmissed(s.jobs, t, p)
    ensures Unmissed(Run(s, evs, parse).jobs, t, p)
  {
    hide Step;
    if evs != [] {
      CachedBefore(s, evs, parse, p);
      RunMisses(s, evs[..|evs| - 1], parse, t, p);
      StepMisses(Run(s, evs[..|evs| - 1], parse), evs[|evs| - 1], parse, t, p);
    }
  }

  lemma {:induction false} RunJoins(s: State, before: seq<Event>, evs: seq<Event>, parse: Parser)
    ensures Run(s, before + evs, parse) == Run(Run(s, before, parse), evs, parse)
  {
    hide Step;
    if evs == [] {
      assert before + evs == before;
    } else {
      var all := before + evs;
      assert all[..|all| - 1] == before + evs[..|evs| - 1];
      RunJoins(s, before, evs[..|evs| - 1], parse);
    }
  }

  /** While a set stays cached, every lookup that starts and finishes is served one, whatever other threads
      are doing: no read error, removal or rewrite of the file takes it away. */
  lemma CachedPathIsServed(s: State, before: seq<Event>, evs: seq<Event>, parse: Parser, p: Path, t: Thread)
    requires Initial(s)
    requires var m := Run(s, before, parse); t !in m.jobs && CachedThroughout(m, evs, parse, p)
    requires var r := Run(s, before + evs, parse);
             t in r.jobs && r.jobs[t].path == p && r.jobs[t].kind == Lookup && r.jobs[t].pc.Done?
    ensures Run(s, before + evs, parse).jobs[t].pc.result.Some?
  {
    hide Run;
    RunInv(s, before + evs, parse);
    RunJoins(s, before, evs, parse);
    RunMisses(Run(s, before, parse), evs, parse, t, p);
    var r := Run(s, before + evs, parse);
    assert JobOk(r.files, r.named, r.cache, parse, r.jobs[t]);
  }

  /** What ListFile.ParseIPListFile promises of the strict parser. */
  ghost predicate Faithful(parse: Parser, ops: ListFile.TextOps) {
    forall raw :: parse(raw).Some? ==> Describes(parse(raw).value, raw, ops)
  }

  ghost predicate Describes(sets: seq<Prefix>, raw: seq<Byte>, ops: ListFile.TextOps) {
    && Aggregate.Canonical(sets)
    && forall a :: WellFormedAddr(a) && !Entries.Is4In6(a) ==>
         (Covers(sets, a) <==> ListFile.SomeLineContains(ListFile.EntryLines(raw, ops), ops, a))
  }

  /** So in every interleaving a served set is canonical and answers as the lines of one complete file
      that stood under the path, never as a mixture of two. */
  lemma ServedAnswersAsOneFile(s: State, evs: seq<Event>, parse: Parser, ops: ListFile.TextOps,
                               t: Thread) returns (v: Version)
    requires Initial(s) && Faithful(parse, ops)
    requires var r := Run(s, evs, parse); t in r.jobs && r.jobs[t].pc.Done? && r.jobs[t].pc.result.Some?
    ensures var r := Run(s, evs, parse);
            && (exists i :: (r.jobs[t].path, i) in r.named && i in r.files && v in r.files[i])
            && ShapeOf(v) == r.jobs[t].pc.result.value.shape && |v.bytes| <= 67108864
            && Describes(r.jobs[t].pc.result.value.sets, v.bytes, ops)
  {
    hide Run;
    ServedIsOneGeneration(s, evs, parse, t);
    var r := Run(s, evs, parse);
    var e := r.jobs[t].pc.result.value;
    v := r.files[e.inode][e.version];
    assert (r.jobs[t].path, e.inode) in r.named && v in r.files[e.inode];
    assert parse(v.bytes) == Some(e.sets);
  }
}
