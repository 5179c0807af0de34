/** When the layer-4 counters of a failed batch are exact, and a run in which they are not. */
module L4Accounts {
  import opened Bytes
  import opened Options
  import opened SpoolBase
  import opened SpoolFaults
  import opened L4SpoolSpec
  import opened L4PipelineSpec

  // ---- How a call fails ----

  function FailureFrom(s: Spool, lines: seq<Line>, i: nat, io: Oracle): Failure
    requires i <= |lines| && s.active.Some?
    decreases |lines| - i
  {
    if i == |lines| then FlushFailure(s, i, io)
    else
      var r := Measured(s, lines[i], io);
      if OverBudget(r, lines[i]) then FlushFailure(r, i, io)
      else
        var (t, more, _) := WriteOne(r, lines, i, io);
        if more then FailureFrom(t, lines, i + 1, io) else LineFailure(r, lines, i, io)
  }

  /** A call that never reaches the line loop puts nothing on disk and is counted as a whole. */
  function FailureOf(s: Spool, lines: seq<Line>, io: Oracle): Failure {
    if s.closed || s.maxBytes < 0 then NoLoss
    else
      var r := RefreshIfDue(s, io);
      if r.active.Some? then FailureFrom(r, lines, 0, io)
      else
        var (t, isOpen) := OpenActive(r, io);
        if isOpen then FailureFrom(t, lines, 0, io) else NoLoss
  }

  // ---- When the counters are exact ----

  /** What a call's result adds to dropped and to spooled. */
  function LostBy(r: Appended, n: nat): int {
    match r.error
    case None => 0
    case Some(Full) => n - r.written
    case Some(Loss(lost)) => lost
    case Some(_) => n
  }

  function BookedBy(r: Appended): nat {
    match r.error
    case None => r.written
    case Some(Full) => r.written
    case Some(_) => 0
  }

  /** Of n lines m reached the disk: both counters are right exactly under their conditions. */
  predicate Told(r: Appended, n: nat, m: int, f: Failure) {
    && (LostBy(r, n) == n - m <==> LossIsExact(f))
    && (BookedBy(r) == m <==> NothingIsExact(f))
  }

  /** The reset keeps the whole lines that reached the file. */
  lemma ResetLog(x: Spool, io: Oracle)
    requires DirOk(x) && x.active.Some?
    ensures var w := x.active.value.w; Log(Reset(x, io)) == x.past + w.stream[..Whole(w.stream, w.durable)]
  {
    TrySealKeeps(x, io);
  }

  /** t is s with at most some more bytes handed over or written, and is given up with i lines handed over. */
  lemma BrokenTold(s: Spool, t: Spool, lines: seq<Line>, i: nat, io: Oracle, base: seq<Line>)
    requires At(s, lines, i, base) && DirOk(t) && t.active.Some? && t.past == s.past
    requires s.active.value.w.stream <= t.active.value.w.stream
    requires s.active.value.w.durable <= t.active.value.w.durable
    ensures var r := Appended(i, Some(Loss(s.pendingLines + (|lines| - i))));
            Told(r, |lines|, |Log(Reset(t, io))| - |base|, BrokenAt(s, t, i))
  {
    var w, x := s.active.value.w, t.active.value.w;
    var k, first := |w.stream| - s.pendingLines, |w.stream| - i;
    assert |s.past| + |w.stream| == |base| + i by {
      assert |HandedOver(s)| == |base + lines[..i]|;
    }
    ResetLog(t, io);
    assert x.stream[..k] == w.stream[..k];
    WholeIff(x.stream, x.durable, k);
    if first >= 0 {
      SizeMonotone(x.stream[..k], first);
      assert x.stream[..k][..first] == x.stream[..first];
      WholeIff(x.stream, x.durable, first);
    }
  }

  lemma FinishTold(s: Spool, lines: seq<Line>, i: nat, io: Oracle, base: seq<Line>)
    requires At(s, lines, i, base)
    ensures var (t, r) := Finish(s, |lines|, i, io); Told(r, |lines|, |Log(t)| - |base|, FlushFailure(s, i, io))
  {
    FlushKeeps(s, io);
    var (t, ok) := Flush(s, io);
    if ok {
      QuietLog(t);
      assert |HandedOver(t)| == |base + lines[..i]|;
    } else {
      BrokenTold(s, t, lines, i, io, base);
    }
  }

  /** The rotation after a counted line failed. */
  lemma RotateTold(v: Spool, lines: seq<Line>, i: nat, io: Oracle, base: seq<Line>)
    requires At(v, lines, i, base) && v.pendingLines > 0 && v.activeBytes >= v.rotateBytes && !Rotate(v, io).1
    ensures var f, r := FlushFailure(v, i, io), Appended(i, Some(Lost(v, |lines|, i)));
            Told(r, |lines|, |Log(Rotate(v, io).0)| - |base|, if f.NoLoss? then Sealing else f)
  {
    hide SealAndReopen, PendingOk, DirOk;
    assert PendingOk(v) && v.active.Some?;
    FlushKeeps(v, io);
    var (t, ok) := Flush(v, io);
    if ok {
      SealAndReopenKeeps(t, io);
      assert |HandedOver(t)| == |base + lines[..i]|;
    } else {
      BrokenTold(v, t, lines, i, io, base);
    }
  }

  lemma LineTold(s: Spool, lines: seq<Line>, i: nat, io: Oracle, base: seq<Line>)
    requires At(s, lines, i, base) && i < |lines| && !WriteOne(s, lines, i, io).1
    ensures var (t, _, r) := WriteOne(s, lines, i, io);
            Told(r, |lines|, |Log(t)| - |base|, LineFailure(s, lines, i, io))
  {
    hide HandLine, Reset, Rotate, Told, FlushFailure;
    HandLineKeeps(s, lines[i], io);
    var (t, ok) := HandLine(s, lines[i], io);
    if !ok {
      BrokenTold(s, t, lines, i, io, base);
    } else {
      Advance(s, t, lines, i, base);
      RotateTold(Counted(t, lines[i]), lines, i + 1, io, base);
    }
  }

  lemma {:induction false} FromTold(s: Spool, lines: seq<Line>, i: nat, io: Oracle, base: seq<Line>)
    requires At(s, lines, i, base)
    ensures var (t, r) := AppendFrom(s, lines, i, io);
            Told(r, |lines|, |Log(t)| - |base|, FailureFrom(s, lines, i, io))
    decreases |lines| - i
  {
    hide WriteOne, Finish, Measured, OverBudget, Told, FlushFailure, LineFailure, PendingOk;
    if i == |lines| {
      FinishTold(s, lines, i, io, base);
    } else {
      MeasuredKeeps(s, lines, i, lines[i], io, base);
      var r := Measured(s, lines[i], io);
      if OverBudget(r, lines[i]) {
        FinishTold(r, lines, i, io, base);
      } else {
        var m := WriteOneKeeps(r, lines, i, io, base);
        var (t, more, _) := WriteOne(r, lines, i, io);
        if more {
          FromTold(t, lines, i + 1, io, base);
        } else {
          LineTold(r, lines, i, io, base);
        }
      }
    }
  }

  lemma StandsFirst(t: Spool, lines: seq<Line>, base: seq<Line>)
    requires Quiet(t) && t.active.Some? && Log(t) == base
    ensures At(t, lines, 0, base)
  {
    QuietLog(t);
    assert base + lines[..0] == base;
  }

  lemma AppendTold(s: Spool, lines: seq<Line>, io: Oracle)
    requires Quiet(s)
    ensures var (t, r) := Append(s, lines, io); Told(r, |lines|, |Log(t)| - |Log(s)|, FailureOf(s, lines, io))
  {
    hide AppendFrom, FailureFrom, RefreshIfDue, OpenActive, At, Log, Quiet, HandedOver, Disk;
    if !s.closed && s.maxBytes >= 0 {
      RefreshIfDueKeeps(s, io);
      var r := RefreshIfDue(s, io);
      if r.active.Some? {
        StandsFirst(r, lines, Log(s));
        FromTold(r, lines, 0, io, Log(s));
      } else {
        QuietLog(r);
        OpenUndisturbed(r, io);
        var (t, isOpen) := OpenActive(r, io);
        if isOpen {
          StandsFirst(t, lines, Log(s));
          FromTold(t, lines, 0, io, Log(s));
        }
      }
    }
  }

  lemma SettledIs(g: Shipper, n: nat, r: Appended, m: nat)
    requires Honest(r, m, n)
    ensures var (h, lost) := Settle(g, n, r); lost == LostBy(r, n) && h.spooled == g.spooled + BookedBy(r)
  {
  }

  /** One failed batch, for every quiet spool and every I/O outcome. dropped grows by exactly the lines that did
      not reach the disk if and only if no write, flush or rotation failed, or a write or flush failed before
      the first unconfirmed line was in the file. spooled grows by exactly the lines that did if and only if
      the same holds with the first line of the batch. */
  lemma SpilledExactIff(p: Pipeline, batch: seq<Line>, io: Oracle)
    requires Quiet(p.spool)
    ensures var q := Spill(p, batch, io); var f := FailureOf(p.spool, batch, io);
            var m := |Log(q.spool)| - |Log(p.spool)|;
            && 0 <= m <= |batch|
            && (q.dropped - p.dropped == |batch| - m <==> LossIsExact(f))
            && (q.ship.spooled - p.ship.spooled == m <==> NothingIsExact(f))
  {
    hide Append, FailureOf, LossIsExact, NothingIsExact, Settle;
    var m := AppendKeeps(p.spool, batch, io);
    var (t, r) := Append(p.spool, batch, io);
    SettledIs(p.ship, |batch|, r, m);
    AppendTold(p.spool, batch, io);
  }

  // ---- A batch that fits ----

  /** An open file that is empty and for which nothing is counted yet. */
  predicate JustOpened(t: Spool) {
    && t.active.Some? && t.active.value.w == Writer([], 0, 0, false) && t.pendingLines == 0 && t.activeBytes == 0
  }

  /** The batch fits the budget, the file and the writer's buffer. */
  predicate RoomFor(t: Spool, lines: seq<Line>) {
    && t.totalBytes + Size(lines) <= t.maxBytes && t.totalEntries + |lines| <= t.maxEntries
    && Size(lines) <= BUFFER_SIZE && Size(lines) < t.rotateBytes
  }

  /** The entry count of the file with i more lines. */
  function Bumped(e: map<Path, nat>, path: Path, i: nat): map<Path, nat> {
    if i == 0 then e else e[path := (if path in e then e[path] else 0) + i]
  }

  lemma BumpedNext(e: map<Path, nat>, path: Path, i: nat)
    ensures var b := Bumped(e, path, i); b[path := (if path in b then b[path] else 0) + 1] == Bumped(e, path, i + 1)
  {
  }

  /** The first i lines are buffered and counted. */
  function After(t: Spool, lines: seq<Line>, i: nat): Spool
    requires t.active.Some? && i <= |lines|
  {
    var path, n := t.active.value.path, Size(lines[..i]);
    t.(active := Some(Active(path, Writer(lines[..i], n, 0, false))), pendingLines := i, activeBytes := n,
       totalBytes := t.totalBytes + n, totalEntries := t.totalEntries + i,
       entriesByFile := Bumped(t.entriesByFile, path, i))
  }

  /** A line that fits the buffer is taken over without I/O. */
  lemma FittingLine(s: Spool, line: Line, io: Oracle)
    requires Sound(s) && Buffered(s) + LineSize(line) <= BUFFER_SIZE
    ensures var w := s.active.value.w;
            HandLine(s, line, io) == (Accept(s, w.stream + [line], w.handed + LineSize(line)), true)
  {
  }

  lemma CountedAfter(t: Spool, lines: seq<Line>, i: nat)
    requires JustOpened(t) && i < |lines|
    ensures var s := After(t, lines, i); var w := s.active.value.w;
            Counted(Accept(s, w.stream + [lines[i]], w.handed + LineSize(lines[i])), lines[i]) == After(t, lines, i + 1)
  {
    hide Bumped, Size;
    SizeNext(lines, i);
    assert lines[..i + 1] == lines[..i] + [lines[i]];
    BumpedNext(t.entriesByFile, t.active.value.path, i);
  }

  lemma HandsOver(t: Spool, lines: seq<Line>, i: nat, io: Oracle)
    requires JustOpened(t) && DirOk(t) && RoomFor(t, lines) && i < |lines|
    ensures var (u, ok) := HandLine(After(t, lines, i), lines[i], io);
            ok && Counted(u, lines[i]) == After(t, lines, i + 1)
  {
    hide HandLine, Counted, Accept;
    SizeNext(lines, i);
    FittingLine(After(t, lines, i), lines[i], io);
    CountedAfter(t, lines, i);
  }

  lemma TakesOne(t: Spool, lines: seq<Line>, i: nat, io: Oracle)
    requires JustOpened(t) && DirOk(t) && RoomFor(t, lines) && i < |lines|
    ensures var s := After(t, lines, i);
            && !OverBudget(s, lines[i])
            && WriteOne(s, lines, i, io).0 == After(t, lines, i + 1) && WriteOne(s, lines, i, io).1
  {
    hide HandLine, Counted;
    SizeNext(lines, i);
    HandsOver(t, lines, i, io);
  }

  lemma {:induction false} TakesAll(t: Spool, lines: seq<Line>, i: nat, io: Oracle)
    requires JustOpened(t) && DirOk(t) && RoomFor(t, lines) && i <= |lines|
    ensures AppendFrom(After(t, lines, i), lines, i, io) == Finish(After(t, lines, |lines|), |lines|, |lines|, io)
    decreases |lines| - i
  {
    hide WriteOne, Finish, After, OverBudget;
    if i < |lines| {
      TakesOne(t, lines, i, io);
      assert After(t, lines, i).active.Some? by { AfterIsOpen(t, lines, i); }
      TakesAll(t, lines, i + 1, io);
    } else {
      AfterIsOpen(t, lines, i);
    }
  }

  lemma AfterIsOpen(t: Spool, lines: seq<Line>, i: nat)
    requires t.active.Some? && i <= |lines|
    ensures After(t, lines, i).active.Some?
  {
  }

  // ---- Its flush fails ----

  /** Scan and open work, the flush fails when n bytes have arrived, sealing works. */
  function FlushFails(n: nat): Oracle {
    k => if k == 2 then Choice(false, n, {}) else Choice(true, 0, {})
  }

  predicate Untouched(s: Spool) {
    && !s.closed && s.active.None? && s.pendingLines == 0 && !s.refreshed && s.files == map[] && s.nextPath == 0
    && s.entriesByFile == map[] && s.tick == 0
  }

  function Opened(s: Spool): Spool {
    s.(refreshed := true, totalBytes := 0, totalEntries := 0, active := Some(Active(0, Writer([], 0, 0, false))),
       activeBytes := 0, files := map[0 := 0], nextPath := 1, tick := 2)
  }

  lemma OpensFirst(s: Spool, lines: seq<Line>, io: Oracle)
    requires Untouched(s) && s.maxBytes >= 0 && (forall k :: io(k).removed == {}) && io(0).ok && io(1).ok
    ensures Append(s, lines, io) == AppendFrom(Opened(s), lines, 0, io)
  {
    AskAlone(s, io);
    var r := RefreshIfDue(s, io);
    assert Listed(map[], s.files) == map[];
    assert r == s.(tick := 1, refreshed := true, totalBytes := 0, totalEntries := 0);
    AskAlone(r, io);
    assert OpenActive(r, io) == (Opened(s), true);
  }

  lemma FlushLoses(v: Spool, lines: seq<Line>, m: nat, io: Oracle)
    requires v.active == Some(Active(0, Writer(lines, Size(lines), 0, false))) && v.files == map[0 := 0] &&
             v.nextPath == 1
    requires v.tick == 2 && m < |lines| && io == FlushFails(Size(lines[..m])) && v.pendingLines == |lines|
    ensures var (t, r) := Finish(v, |lines|, |lines|, io);
            r == Appended(|lines|, Some(Loss(|lines|))) && Log(t) == v.past + lines[..m]
  {
    SizeNext(lines, m);
    AskAlone(v, io);
    var (x, ok) := Flush(v, io);
    assert !ok && x.active.value.w == Writer(lines, Size(lines), Size(lines[..m]), true);
    ResetLog(x, io);
    WholeOfPrefix(lines, m);
  }

  /** For every batch that fits and every proper prefix of it there is a failure after which the prefix is on
      disk, yet spooled has not moved and dropped counts the whole batch. */
  lemma FailedBatchMiscounts(p: Pipeline, batch: seq<Line>, m: nat) returns (io: Oracle)
    requires Untouched(p.spool) && RoomFor(Opened(p.spool), batch) && p.spool.maxBytes >= 0 && m < |batch|
    ensures var q := Spill(p, batch, io);
            && Log(q.spool) == Log(p.spool) + batch[..m]
            && q.ship.spooled == p.ship.spooled && q.dropped == p.dropped + |batch|
  {
    hide AppendFrom, Finish, Log;
    io := FlushFails(Size(batch[..m]));
    var t := Opened(p.spool);
    OpensFirst(p.spool, batch, io);
    assert After(t, batch, 0) == t by { AfterNone(t, batch); }
    TakesAll(t, batch, 0, io);
    assert batch[..|batch|] == batch;
    FlushLoses(After(t, batch, |batch|), batch, m, io);
    assert Log(p.spool) == p.spool.past by { NoFileLog(p.spool); }
  }

  lemma AfterNone(t: Spool, lines: seq<Line>)
    requires JustOpened(t)
    ensures After(t, lines, 0) == t
  {
    assert lines[..0] == [];
  }

  lemma NoFileLog(s: Spool)
    requires s.active.None?
    ensures Log(s) == s.past
  {
  }
}
