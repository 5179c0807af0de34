/** The generation guard shared by both list caches, and the crawler snapshot cell that it protects
    from slow readers and late failures. */
module SnapshotGuard {
  import opened Options
  import opened IpPrefix

  /** mtime and size of the inode that was read, and when the snapshot settled in the cache. */
  datatype Generation = Generation(modTime: int, size: int, committedAt: Option<int>)

  /** StaleSnapshotGeneration */
  predicate Stale(candidate: Generation, current: Generation) {
    if current.modTime > candidate.modTime then true
    else current.modTime == candidate.modTime && current.size > candidate.size
  }

  /** StaleFailureDowngrade */
  predicate StaleFailure(current: Generation, startedAt: int) {
    current.committedAt.Some? && current.committedAt.value > startedAt
  }

  /** What is not stale is at least as new: the guard orders all generations. */
  lemma StaleIsTotal(a: Generation, b: Generation, c: Generation)
    ensures !Stale(a, a)
    ensures Stale(a, b) ==> !Stale(b, a)
    ensures !Stale(a, b) && !Stale(b, c) ==> !Stale(a, c)
    ensures !Stale(a, b) && !Stale(b, a) <==> a.modTime == b.modTime && a.size == b.size
  {
  }

  // ---- The crawler snapshot cell ----

  /** One read of the crawler file; path 0 stands for the empty path. */
  datatype Snapshot = Snapshot(path: nat, loadedAt: int, ok: bool, modTime: int, size: int,
                               committedAt: Option<int>, prefixes: map<nat, seq<Prefix>>)

  function GenerationOf(s: Snapshot): Generation {
    Generation(s.modTime, s.size, s.committedAt)
  }

  /** clears counts the path changes whose cache reset, under another mutex, is still to come. */
  datatype Cell = Cell(path: nat, snap: Option<Snapshot>, clears: nat)

  predicate KeepsCurrent(c: Cell, next: Snapshot) {
    && c.snap.Some?
    && var current := c.snap.value;
       || (current.ok && next.ok && Stale(GenerationOf(next).(committedAt := None), GenerationOf(current)))
       || (current.ok && !next.ok && StaleFailure(GenerationOf(current), next.loadedAt))
  }

  /** commitCrawlerIPRangeSnapshot: the new cell and the snapshot this caller goes on with. */
  function Commit(c: Cell, next: Snapshot, now: int): (Cell, Snapshot) {
    if next.path != 0 && next.path != c.path then
      (c, if c.snap.Some? then c.snap.value else Snapshot(c.path, next.loadedAt, false, 0, 0, None, map[]))
    else if KeepsCurrent(c, next) then (c, c.snap.value)
    else
      var settled := next.(committedAt := Some(now));
      (c.(snap := Some(settled)), settled)
  }

  /** setCrawlerIPListFilePath under the path mutex: the empty path and the same path change nothing. */
  function SetPath(c: Cell, path: nat): Cell {
    if path == 0 || path == c.path then c else c.(path := path, clears := c.clears + 1)
  }

  /** Its second half under the cache mutex. */
  function Clear(c: Cell): Cell {
    if c.clears == 0 then c else c.(snap := None, clears := c.clears - 1)
  }

  class CrawlerCache {
    var path: nat
    var snap: Option<Snapshot>
    ghost var clears: nat

    ghost function State(): Cell
      reads this
    {
      Cell(path, snap, clears)
    }

    constructor (path: nat)
      ensures State() == Cell(path, None, 0)
    {
      this.path := path;
      snap, clears := None, 0;
    }

    method ChangePath(path: nat) returns (changed: bool)
      modifies this
      ensures State() == SetPath(old(State()), path) && changed == (State() != old(State()))
    {
      if path == 0 {
        return false;
      }
      changed := this.path != path;
      if changed {
        this.path := path;
        clears := clears + 1;
      }
    }

    method ResetSnapshot()
      requires clears > 0
      modifies this
      ensures State() == Clear(old(State()))
    {
      snap := None;
      clears := clears - 1;
    }

    method CommitSnapshot(next: Snapshot, now: int) returns (served: Snapshot)
      modifies this
      ensures (State(), served) == Commit(old(State()), next, now)
    {
      if next.path != 0 && next.path != path {
        if snap.Some? {
          return snap.value;
        }
        return Snapshot(path, next.loadedAt, false, 0, 0, None, map[]);
      }
      if snap.Some? {
        var current := snap.value;
        var currentGen := Generation(current.modTime, current.size, current.committedAt);
        var nextGen := Generation(next.modTime, next.size, None);
        if current.ok && next.ok && Stale(nextGen, currentGen) {
          return current;
        }
        if current.ok && !next.ok && StaleFailure(currentGen, next.loadedAt) {
          return current;
        }
      }
      served := next.(committedAt := Some(now));
      snap := Some(served);
    }
  }

  // ---- Runs of commits and path switches ----

  datatype Op = Settle(next: Snapshot, now: int) | Switch(path: nat) | Cleared

  function Step(c: Cell, op: Op): Cell {
    match op
    case Settle(next, now) => Commit(c, next, now).0
    case Switch(path) => SetPath(c, path)
    case Cleared => Clear(c)
  }

  function Run(c: Cell, ops: seq<Op>): Cell {
    if ops == [] then c else Step(Run(c, ops[..|ops| - 1]), ops[|ops| - 1])
  }

  /** The cell shows a good snapshot. */
  predicate Good(c: Cell) {
    c.snap.Some? && c.snap.value.ok
  }

  /** Two good cells, the second not older than the first. */
  predicate NotOlder(c: Cell, d: Cell) {
    Good(c) && Good(d) && !Stale(GenerationOf(d.snap.value), GenerationOf(c.snap.value))
  }

  /** Every state from the first to the last of the run shows a good snapshot. */
  ghost predicate GoodThroughout(c: Cell, ops: seq<Op>) {
    forall k :: 0 <= k <= |ops| ==> Good(Run(c, ops[..k]))
  }

  /** As long as no failure or reset comes between, the served generation never goes back. */
  lemma {:induction false} NeverOlderWhileGood(c: Cell, ops: seq<Op>)
    requires GoodThroughout(c, ops)
    ensures NotOlder(c, Run(c, ops))
  {
    assert ops[..0] == [] && ops[..|ops|] == ops;
    assert Good(Run(c, ops[..0])) && Good(Run(c, ops[..|ops|]));
    if ops != [] {
      var before := ops[..|ops| - 1];
      forall k | 0 <= k <= |before| ensures Good(Run(c, before[..k])) {
        assert before[..k] == ops[..k];
      }
      NeverOlderWhileGood(c, before);
    }
  }

  /** A good read of the configured path, not older than a good snapshot on view, goes on view with its time of
      commitment and is served; one read from another path never does. In every case the caller goes on with what
      is on view afterwards, or with a failed read of the configured path if nothing is. */
  lemma GoodReadIsShown(c: Cell, next: Snapshot, now: int)
    ensures var (d, served) := Commit(c, next, now);
            && d.path == c.path && d.clears == c.clears
            && (if d.snap.Some? then served == d.snap.value else !served.ok && served.path == c.path)
            && ((next.path == 0 || next.path == c.path) && next.ok
                && (Good(c) ==> !Stale(GenerationOf(next), GenerationOf(c.snap.value)))
                ==> d.snap == Some(next.(committedAt := Some(now))))
            && (next.path != 0 && next.path != c.path ==> d == c)
  {
  }

  /** A pending reset happens, or a read of the path fails that began no earlier than the snapshot settled. */
  predicate Loses(c: Cell, op: Op) {
    match op
    case Cleared => c.clears > 0
    case Switch(_) => false
    case Settle(next, _) =>
      && !next.ok && (next.path == 0 || next.path == c.path)
      && (c.snap.Some? ==> !StaleFailure(GenerationOf(c.snap.value), next.loadedAt))
  }

  /** A step takes a good snapshot away exactly in these two cases. */
  lemma LostIff(c: Cell, op: Op)
    requires Good(c)
    ensures !Good(Step(c, op)) <==> Loses(c, op)
  {
  }

  lemma RunPrefix(c: Cell, ops: seq<Op>, k: nat)
    requires k < |ops|
    ensures ops[..|ops| - 1][..k] == ops[..k]
    ensures Run(c, ops[..k + 1]) == Step(Run(c, ops[..k]), ops[k])
  {
    assert ops[..k + 1][..k] == ops[..k];
  }

  /** So a run that starts good and ends without a good snapshot had such a step. */
  lemma {:induction false} LostOverRuns(c: Cell, ops: seq<Op>) returns (k: nat)
    requires Good(c) && !Good(Run(c, ops))
    ensures k < |ops| && Good(Run(c, ops[..k])) && Loses(Run(c, ops[..k]), ops[k])
  {
    k := |ops| - 1;
    RunPrefix(c, ops, k);
    assert ops[..|ops|] == ops;
    if Good(Run(c, ops[..k])) {
      LostIff(Run(c, ops[..k]), ops[k]);
    } else {
      var n := k;
      k := LostOverRuns(c, ops[..n]);
      assert ops[..n][..k] == ops[..k];
    }
  }

  /** With a failed read in between the guard does not hold: for every good snapshot and every older
      good candidate of the same path, one later failure lets the older content back in. */
  lemma FailureReopensOldGeneration(c: Cell, failed: Snapshot, old': Snapshot, now: int)
    requires Good(c) && c.snap.value.committedAt.Some?
    requires !failed.ok && failed.path == c.path && failed.loadedAt >= c.snap.value.committedAt.value
    requires old'.ok && old'.path == c.path && Stale(GenerationOf(old'), GenerationOf(c.snap.value))
    ensures Run(c, [Settle(old', now)]) == c
    ensures Good(Run(c, [Settle(failed, now), Settle(old', now)]))
    ensures Stale(GenerationOf(Run(c, [Settle(failed, now), Settle(old', now)]).snap.value), GenerationOf(c.snap.value))
  {
    var one, two := [Settle(failed, now)], [Settle(failed, now), Settle(old', now)];
    assert two[..1] == one && one[..0] == [] && [Settle(old', now)][..0] == [];
    assert Run(c, one) == Step(Run(c, []), one[0]);
    assert Run(c, two) == Step(Run(c, one), two[1]);
    assert Run(c, [Settle(old', now)]) == Step(Run(c, []), Settle(old', now));
  }

  predicate IsOlder(s: Snapshot, best: Snapshot) {
    s.ok && s.path == best.path && Stale(GenerationOf(s), GenerationOf(best))
  }

  /** Good content of the same path, older than the given one, is on view. */
  predicate ShowsOlder(c: Cell, best: Snapshot) {
    c.snap.Some? && IsOlder(c.snap.value, best)
  }

  /** An older candidate of that path is committed while no good snapshot is there, or only one of another path
      that is not newer than the candidate. */
  predicate Reopens(c: Cell, op: Op, best: Snapshot) {
    && op.Settle? && IsOlder(op.next, best) && (op.next.path == 0 || op.next.path == c.path)
    && (Good(c) ==> c.snap.value.path != best.path && !Stale(GenerationOf(op.next), GenerationOf(c.snap.value)))
  }

  lemma StepRegressesIff(c: Cell, op: Op, best: Snapshot)
    requires !ShowsOlder(c, best)
    ensures ShowsOlder(Step(c, op), best) <==> Reopens(c, op, best)
  {
  }

  ghost predicate SomeReopens(c: Cell, ops: seq<Op>, best: Snapshot) {
    exists k :: 0 <= k < |ops| && Reopens(Run(c, ops[..k]), ops[k], best)
  }

  ghost predicate SomeShowsOlder(c: Cell, ops: seq<Op>, best: Snapshot) {
    exists k :: 0 <= k <= |ops| && ShowsOlder(Run(c, ops[..k]), best)
  }

  /** Over every run that starts with good content: older content of the same path is put on view at some moment
      exactly if, at some moment, an older candidate of it is committed while the good snapshot is gone, or has
      made way for one of another path that is not newer than the candidate. */
  lemma {:induction false} RegressesIff(c: Cell, ops: seq<Op>)
    requires Good(c)
    ensures SomeShowsOlder(c, ops, c.snap.value) <==> SomeReopens(c, ops, c.snap.value)
  {
    hide Step, Reopens, ShowsOlder;
    var best := c.snap.value;
    if SomeShowsOlder(c, ops, best) {
      var k :| 0 <= k <= |ops| && ShowsOlder(Run(c, ops[..k]), best);
      FirstOlder(c, ops, k);
    }
    if SomeReopens(c, ops, best) {
      var k :| 0 <= k < |ops| && Reopens(Run(c, ops[..k]), ops[k], best);
      RunPrefix(c, ops, k);
      if !ShowsOlder(Run(c, ops[..k]), best) {
        StepRegressesIff(Run(c, ops[..k]), ops[k], best);
        assert ShowsOlder(Run(c, ops[..k + 1]), best);
      }
    }
  }

  lemma {:induction false} FirstOlder(c: Cell, ops: seq<Op>, k: nat)
    requires Good(c) && k <= |ops| && ShowsOlder(Run(c, ops[..k]), c.snap.value)
    ensures SomeReopens(c, ops, c.snap.value)
  {
    hide Step, Reopens;
    var best := c.snap.value;
    assert ops[..0] == [];
    StaleIsTotal(GenerationOf(best), GenerationOf(best), GenerationOf(best));
    RunPrefix(c, ops, k - 1);
    if ShowsOlder(Run(c, ops[..k - 1]), best) {
      FirstOlder(c, ops, k - 1);
    } else {
      StepRegressesIff(Run(c, ops[..k - 1]), ops[k - 1], best);
    }
  }

  /** What is on view belongs to the configured path, or was read without one, or is about to be reset. */
  predicate PathOk(c: Cell) {
    c.snap.Some? ==> c.snap.value.path == 0 || c.snap.value.path == c.path || c.clears > 0
  }

  /** Reads begun before a path change never outlive the reset that belongs to it. */
  lemma {:induction false} ShowsConfiguredPath(c: Cell, ops: seq<Op>)
    requires PathOk(c)
    ensures PathOk(Run(c, ops))
  {
    if ops != [] {
      ShowsConfiguredPath(c, ops[..|ops| - 1]);
    }
  }

  /** Of another path than the configured one. */
  predicate OfOther(c: Cell, s: Snapshot) {
    s.path != 0 && s.path != c.path
  }

  /** A commit serves a snapshot of another than the configured path exactly if the cell still shows one and the
      candidate is either of another path too or held back by it; and then the reset of a path change is still
      to come. */
  lemma OtherPathServedIff(c: Cell, ops: seq<Op>, next: Snapshot, now: int)
    requires PathOk(c)
    ensures var d := Run(c, ops);
            && (OfOther(d, Commit(d, next, now).1) <==>
                d.snap.Some? && OfOther(d, d.snap.value) && (OfOther(d, next) || KeepsCurrent(d, next)))
            && (OfOther(d, Commit(d, next, now).1) ==> d.clears > 0)
  {
    ShowsConfiguredPath(c, ops);
  }

  /** And then it does: between the two critical sections of a path change, every reader that began under the
      old path is still served the old path's snapshot. */
  lemma OldPathIsServed(c: Cell, path: nat, next: Snapshot, now: int)
    requires c.snap.Some? && c.snap.value.path == c.path != 0 && next.path == c.path
    requires path != 0 && path != c.path
    ensures var d := Run(c, [Switch(path)]); var (e, served) := Commit(d, next, now);
            d.path == path && served == c.snap.value && served.path != d.path && e == d
  {
    assert [Switch(path)][..0] == [];
    assert Run(c, [Switch(path)]) == Step(Run(c, []), Switch(path));
  }
}
