/** The byte budget of the HTTP spool: when it holds over whole runs, and exactly when one call can break it. */
module AuditBudget {
  import opened Bytes
  import opened Options
  import opened SpoolBase
  import opened AuditSpoolSpec
  import opened AuditAppend

  // ---- Runs ----

  datatype Op = AppendOp(lines: seq<Line>) | IdleOp | CloseOp

  function Step(s: Spool, op: Op, io: Oracle): Spool {
    match op
    case AppendOp(lines) => Append(s, lines, io).0
    case IdleOp => SealIfIdle(s, io)
    case CloseOp => Close(s, io)
  }

  function Run(s: Spool, ops: seq<Op>, io: Oracle): Spool {
    if ops == [] then s else Step(Run(s, ops[..|ops| - 1], io), ops[|ops| - 1], io)
  }

  /** The call failed in the middle of a line. */
  predicate Tears(s: Spool, op: Op, io: Oracle) {
    op.AppendOp? && Append(s, op.lines, io).1.error == Some(LineFailed)
  }

  predicate ScansWell(s: Spool, op: Op, io: Oracle) {
    op.AppendOp? && !s.closed && io(s.tick).ok
  }

  /** Since the last good scan, the opening one included, no write failed in the middle of a line. */
  predicate Trusted(s: Spool, scanned: bool, ops: seq<Op>, io: Oracle) {
    if ops == [] then scanned
    else
      var before, m, op := ops[..|ops| - 1], Run(s, ops[..|ops| - 1], io), ops[|ops| - 1];
      (Trusted(s, scanned, before, io) || ScansWell(m, op, io)) && !Tears(m, op, io)
  }

  /** Every append scans well or comes while the counter is trusted. */
  ghost predicate Guarded(s: Spool, scanned: bool, ops: seq<Op>, io: Oracle) {
    forall k :: 0 <= k < |ops| && ops[k].AppendOp? ==>
      Trusted(s, scanned, ops[..k], io) || ScansWell(Run(s, ops[..k], io), ops[k], io) || Run(s, ops[..k], io).closed
  }

  predicate Covered(s: Spool) {
    Disk(s) <= s.totalBytes
  }

  lemma StepKeeps(s: Spool, op: Op, io: Oracle)
    requires Quiet(s)
    ensures var t := Step(s, op, io);
            && Quiet(t) && t.maxBytes == s.maxBytes
            && (Covered(s) || ScansWell(s, op, io) ==> (!Tears(s, op, io) ==> Covered(t)))
            && ((op.AppendOp? ==> Covered(s) || ScansWell(s, op, io) || s.closed) ==>
                  Disk(t) <= Max(Disk(s), s.maxBytes))
  {
    match op
    case AppendOp(lines) =>
      var m := AppendKeeps(s, lines, io);
    case IdleOp => SealIfIdleKeeps(s, io);
    case CloseOp => CloseKeeps(s, io);
  }

  lemma GuardedBefore(s: Spool, scanned: bool, ops: seq<Op>, io: Oracle)
    requires Guarded(s, scanned, ops, io) && ops != []
    ensures var n := |ops| - 1;
            && Guarded(s, scanned, ops[..n], io)
            && (ops[n].AppendOp? ==>
                  Trusted(s, scanned, ops[..n], io) || ScansWell(Run(s, ops[..n], io), ops[n], io) ||
                    Run(s, ops[..n], io).closed)
  {
    hide Trusted, Run, ScansWell;
    var n := |ops| - 1;
    forall k | 0 <= k < n ensures ops[..n][..k] == ops[..k] {
    }
  }

  /** Over every run the counter covers the disk unless, since the last good scan, a write failed in the
      middle of a line, or there was none and the opening scan failed. While every append scans well or
      finds such a counter, the disk never passes the budget, however many scans fail. */
  lemma {:induction false} BudgetOverRuns(s: Spool, scanned: bool, ops: seq<Op>, io: Oracle)
    requires Quiet(s) && (scanned ==> Covered(s))
    ensures var t := Run(s, ops, io);
            && Quiet(t) && t.maxBytes == s.maxBytes && (Trusted(s, scanned, ops, io) ==> Covered(t))
            && (Guarded(s, scanned, ops, io) ==> Disk(t) <= Max(Disk(s), s.maxBytes))
  {
    hide Step, Quiet, Covered, ScansWell, Tears, Guarded, Disk;
    if ops != [] {
      var before := ops[..|ops| - 1];
      BudgetOverRuns(s, scanned, before, io);
      StepKeeps(Run(s, before, io), ops[|ops| - 1], io);
      if Guarded(s, scanned, ops, io) {
        GuardedBefore(s, scanned, ops, io);
      }
    }
  }

  ghost predicate NeverTears(s: Spool, ops: seq<Op>, io: Oracle) {
    forall k :: 0 <= k < |ops| ==> !Tears(Run(s, ops[..k], io), ops[k], io)
  }

  lemma {:induction false} NoTearIsTrusted(s: Spool, ops: seq<Op>, io: Oracle)
    requires NeverTears(s, ops, io)
    ensures Trusted(s, true, ops, io)
  {
    hide Run, Tears, ScansWell;
    if ops != [] {
      var n := |ops| - 1;
      forall k | 0 <= k < n ensures !Tears(Run(s, ops[..n][..k], io), ops[..n][k], io) {
        assert ops[..n][..k] == ops[..k];
      }
      NoTearIsTrusted(s, ops[..n], io);
    }
  }

  lemma NoTearIsGuarded(s: Spool, ops: seq<Op>, io: Oracle)
    requires NeverTears(s, ops, io)
    ensures Guarded(s, true, ops, io)
  {
    hide Run, Tears, ScansWell, Trusted;
    forall k | 0 <= k < |ops| ensures Trusted(s, true, ops[..k], io) {
      forall i | 0 <= i < k ensures !Tears(Run(s, ops[..k][..i], io), ops[..k][i], io) {
        assert ops[..k][..i] == ops[..i];
      }
      NoTearIsTrusted(s, ops[..k], io);
    }
  }

  /** From a good opening scan on, a run that tears no line stays within the budget even if every later scan
      fails. */
  lemma BudgetSurvivesFailedScans(files: map<Path, nat>, nextPath: Path, maxBytes: int, maxEntries: int,
                                  rotateBytes: int,
                                  ops: seq<Op>, io: Oracle)
    requires forall p :: p in files ==> p < nextPath
    requires NeverTears(Open(files, nextPath, maxBytes, maxEntries, rotateBytes, true), ops, io)
    ensures var s := Open(files, nextPath, maxBytes, maxEntries, rotateBytes, true);
            Disk(Run(s, ops, io)) <= Max(Disk(s), maxBytes) && Covered(Run(s, ops, io))
  {
    var s := Open(files, nextPath, maxBytes, maxEntries, rotateBytes, true);
    hide Run, Trusted, Guarded, NeverTears, Open, Covered, Disk;
    NoTearIsTrusted(s, ops, io);
    NoTearIsGuarded(s, ops, io);
    assert Quiet(s) && Covered(s) && s.maxBytes == maxBytes by {
      OpenIsQuiet(files, nextPath, maxBytes, maxEntries, rotateBytes);
    }
    BudgetOverRuns(s, true, ops, io);
  }

  lemma OpenIsQuiet(files: map<Path, nat>, nextPath: Path, maxBytes: int, maxEntries: int, rotateBytes: int)
    requires forall p :: p in files ==> p < nextPath
    ensures var s := Open(files, nextPath, maxBytes, maxEntries, rotateBytes, true);
            Quiet(s) && Covered(s) && s.maxBytes == maxBytes
  {
  }

  // ---- What cannot tear ----

  /** A line that fits what is left of the buffer is taken over without I/O. */
  lemma FittingLineIsTaken(s: Spool, line: Line, io: Oracle)
    requires Sound(s) && Buffered(s) + LineSize(line) <= BUFFER_SIZE
    ensures var (t, ok) := HandLine(s, line, io); ok && t.active.Some? && Buffered(t) == Buffered(s) + LineSize(line)
  {
  }

  lemma RotateEmpties(s: Spool, io: Oracle)
    requires PendingOk(s) && s.active.Some?
    ensures var (t, ok) := RotateIfFull(s, io);
            ok ==> PendingOk(t) && t.active.Some? && Buffered(t) <= Buffered(s)
  {
    if s.activeBytes >= s.rotateBytes {
      FlushKeeps(s, io);
      var (t, ok) := Flush(s, io);
      if ok {
        SealAndReopenKeeps(t, io);
      }
    }
  }

  lemma {:induction false} SmallRestTearsNothing(s: Spool, lines: seq<Line>, handed: nat, persisted: nat, io: Oracle)
    requires PendingOk(s) && s.active.Some? && persisted <= handed <= |lines|
    requires Buffered(s) + Size(lines) - Size(lines[..handed]) <= BUFFER_SIZE
    ensures AppendFrom(s, lines, handed, persisted, io).1.error != Some(LineFailed)
    decreases |lines| - handed
  {
    hide HandLine, RotateIfFull, Counted, Reset;
    if handed < |lines| && !OverBudget(s, lines[handed]) {
      SizeNext(lines, handed);
      FittingLineIsTaken(s, lines[handed], io);
      HandLineKeeps(s, lines[handed], io);
      var t := HandLine(s, lines[handed], io).0;
      CountedKeeps(s, t, lines[handed]);
      var v := Counted(t, lines[handed]);
      RotateEmpties(v, io);
      var (w, rotated) := RotateIfFull(v, io);
      if rotated {
        SmallRestTearsNothing(w, lines, handed + 1, PersistedAfter(v, rotated, handed + 1, persisted), io);
      }
    }
  }

  /** A batch that fits the 32 KiB buffer never fails in the middle of a line, whatever the disk does. */
  lemma SmallBatchTearsNothing(s: Spool, lines: seq<Line>, io: Oracle)
    requires Quiet(s) && Size(lines) <= BUFFER_SIZE
    ensures !Tears(s, AppendOp(lines), io)
  {
    if !s.closed {
      RefreshKeeps(s, io);
      var r := Refresh(s, io);
      if r.active.Some? {
        SmallRestTearsNothing(r, lines, 0, 0, io);
      } else {
        OpenActiveKeeps(r, io);
        var (t, isOpen) := OpenActive(r, io);
        if isOpen {
          SmallRestTearsNothing(t, lines, 0, 0, io);
        }
      }
    }
  }

  // ---- When the budget can be passed ----

  /** The scan fails, then nothing does. */
  function ScanFails(tick: nat): Oracle {
    k => if k <= tick then Choice(false, 0, {}) else Calm(k)
  }

  function Zeros(n: nat): (l: Line)
    ensures |l| == n
  {
    if n == 0 then [] else Zeros(n - 1) + [0]
  }

  /** t is s after calm steps of its open writer that took over n more bytes. */
  ghost predicate CalmMove(s: Spool, t: Spool, n: nat, io: Oracle) {
    && Sound(t) && CalmFrom(io, t.tick) && t == s.(active := t.active, files := t.files, tick := t.tick)
    && Disk(t) + Buffered(t) == Disk(s) + Buffered(s) + n
  }

  ghost predicate CalmOpenFile(s: Spool, io: Oracle) {
    Sound(s) && CalmFrom(io, s.tick)
  }

  lemma CalmPush(s: Spool, upto: nat, io: Oracle)
    requires CalmOpenFile(s, io) && s.active.value.w.durable <= upto <= s.active.value.w.handed
    ensures var (t, ok) := Push(s, upto, io);
            ok && CalmMove(s, t, 0, io) && t.active.value.w == s.active.value.w.(durable := upto)
  {
    CalmAsk(s, io);
    DiskOfSet(s.(tick := s.tick + 1), s.active.value.w.(durable := upto));
  }

  lemma CalmWrite(s: Spool, line: Line, io: Oracle)
    requires CalmOpenFile(s, io)
    ensures var (t, ok) := WriteLine(s, line, io); ok && CalmMove(s, t, |line|, io)
  {
    hide Push, CalmFrom;
    var w := s.active.value.w;
    var end := w.handed + |line|;
    var t := Accept(s, w.stream + [line], end);
    if end - w.durable > BUFFER_SIZE {
      if w.handed == w.durable {
        CalmPush(t, end, io);
      } else {
        CalmPush(t, w.durable + BUFFER_SIZE, io);
        var u := Push(t, w.durable + BUFFER_SIZE, io).0;
        if end - w.durable > 2 * BUFFER_SIZE {
          CalmPush(u, end, io);
        }
      }
    }
  }

  lemma CalmNewline(s: Spool, io: Oracle)
    requires CalmOpenFile(s, io)
    ensures var (t, ok) := WriteNewline(s, io); ok && CalmMove(s, t, 1, io)
  {
    hide Push, CalmFrom;
    if s.active.value.w.handed - s.active.value.w.durable >= BUFFER_SIZE {
      CalmPush(s, s.active.value.w.handed, io);
    }
  }

  lemma CalmHandLine(s: Spool, line: Line, io: Oracle)
    requires Quiet(s) && s.active.Some? && CalmFrom(io, s.tick)
    ensures var (t, ok) := HandLine(s, line, io); ok && CalmMove(s, t, LineSize(line), io)
  {
    hide WriteLine, WriteNewline;
    CalmWrite(s, line, io);
    CalmNewline(WriteLine(s, line, io).0, io);
  }

  lemma CalmFlush(s: Spool, io: Oracle)
    requires CalmOpenFile(s, io)
    ensures var (t, ok) := Flush(s, io);
            && ok && CalmOpenFile(t, io) && Disk(t) == Disk(s) + Buffered(s) && Buffered(t) == 0
  {
    if s.active.value.w.durable < s.active.value.w.handed {
      CalmPush(s, s.active.value.w.handed, io);
    }
  }

  lemma CalmReopen(t: Spool, io: Oracle)
    requires CalmOpenFile(t, io)
    ensures var (x, ok) := SealAndReopen(t, io); ok && Disk(x) == Disk(t) && x.active.value.w == Writer([], 0, 0, false)
  {
    CalmAsk(t, io);
    var u := t.(tick := t.tick + 1);
    CalmAsk(u, io);
    var v := u.(tick := u.tick + 1);
    RenamedKeeps(v, t.active.value.path);
    CalmCloseAndOpen(Dropped(Renamed(v, t.active.value.path)), io);
  }

  lemma CalmCloseAndOpen(d: Spool, io: Oracle)
    requires d.active.None? && CalmFrom(io, d.tick)
    ensures var (x, close) := Ask(d, io);
            var (y, ok) := OpenActive(x, io);
            close.ok && ok && Disk(y) == Disk(d) && y.active.value.w == Writer([], 0, 0, false)
  {
    CalmAsk(d, io);
    var x := d.(tick := d.tick + 1);
    CalmAsk(x, io);
    SumUpdate(x.files, x.nextPath, 0, x.nextPath);
  }

  /** A calm call on one line that fits the counter puts exactly its bytes on disk. */
  lemma CalmAppendOne(s: Spool, line: Line, io: Oracle)
    requires Quiet(s) && s.active.Some? && CalmFrom(io, s.tick) && !OverBudget(s, line)
    ensures Disk(AppendFrom(s, [line], 0, 0, io).0) == Disk(s) + LineSize(line)
  {
    CalmHandLine(s, line, io);
    var t := HandLine(s, line, io).0;
    var v := Counted(t, line);
    assert Disk(v) == Disk(t);
    CalmFlush(v, io);
    var f := Flush(v, io).0;
    if v.activeBytes < v.rotateBytes {
      assert WriteOne(s, [line], 0, 0, io) == (v, None, 0);
      assert AppendFrom(v, [line], 1, 0, io).0 == f;
    } else {
      CalmReopen(f, io);
      var w := RotateIfFull(v, io).0;
      assert WriteOne(s, [line], 0, 0, io) == (w, None, 1);
      assert AppendFrom(w, [line], 1, 1, io).0 == Flush(w, io).0;
    }
  }

  lemma CalmOpen(s: Spool, io: Oracle)
    requires Quiet(s) && s.active.None? && CalmFrom(io, s.tick)
    ensures var (t, ok) := OpenActive(s, io);
            && ok && Quiet(t) && t.active.Some? && Disk(t) == Disk(s) && CalmFrom(io, t.tick)
            && t.totalBytes == s.totalBytes && t.maxBytes == s.maxBytes
            && t.totalEntries == s.totalEntries && t.maxEntries == s.maxEntries
  {
    CalmAsk(s, io);
    SumUpdate(s.files, s.nextPath, 0, s.nextPath);
  }

  /** One call with a failed scan can push the disk past the budget exactly when the counter is below the
      disk and still leaves room; by BudgetOverRuns only a torn line or a failed opening scan gets there. */
  lemma BudgetBreaksIff(s: Spool)
    requires Quiet(s) && !s.closed
    ensures (exists lines, io: Oracle :: !io(s.tick).ok && Disk(Append(s, lines, io).0) > Max(Disk(s), s.maxBytes)) <==>
            Disk(s) > s.totalBytes && s.totalBytes + 1 <= s.maxBytes && s.totalEntries + 1 <= s.maxEntries
  {
    if Disk(s) > s.totalBytes && s.totalBytes + 1 <= s.maxBytes && s.totalEntries + 1 <= s.maxEntries {
      var line := Zeros(s.maxBytes - s.totalBytes - 1);
      OneLineEscapes(s, line, ScanFails(s.tick));
      assert !ScanFails(s.tick)(s.tick).ok;
    }
    forall lines, io: Oracle | !io(s.tick).ok && Disk(Append(s, lines, io).0) > Max(Disk(s), s.maxBytes)
      ensures Disk(s) > s.totalBytes && s.totalBytes + 1 <= s.maxBytes && s.totalEntries + 1 <= s.maxEntries
    {
      var m := AppendKeeps(s, lines, io);
      if s.totalBytes + 1 > s.maxBytes || s.totalEntries + 1 > s.maxEntries {
        NoRoomNoWrite(s, lines, io);
      }
    }
  }

  lemma OneLineEscapes(s: Spool, line: Line, io: Oracle)
    requires Quiet(s) && !s.closed && Disk(s) > s.totalBytes && s.totalEntries + 1 <= s.maxEntries
    requires s.totalBytes + LineSize(line) == s.maxBytes && io == ScanFails(s.tick)
    ensures Disk(Append(s, [line], io).0) > Max(Disk(s), s.maxBytes)
  {
    NoDeletion(s.(tick := s.tick + 1));
    var r := Refresh(s, io);
    assert r == s.(tick := s.tick + 1) && CalmFrom(io, r.tick) && Disk(r) == Disk(s);
    if r.active.Some? {
      CalmAppendOne(r, line, io);
    } else {
      CalmOpen(r, io);
      CalmAppendOne(OpenActive(r, io).0, line, io);
    }
  }

  /** With no room by the counter a failed-scan call writes nothing. */
  lemma NoRoomNoWrite(s: Spool, lines: seq<Line>, io: Oracle)
    requires Quiet(s) && !s.closed && !io(s.tick).ok
    requires s.totalBytes + 1 > s.maxBytes || s.totalEntries + 1 > s.maxEntries
    ensures Disk(Append(s, lines, io).0) <= Disk(s)
  {
    RefreshKeeps(s, io);
    var r := Refresh(s, io);
    if r.active.Some? {
      FinishWritesNothing(r, lines, io);
    } else {
      OpenActiveKeeps(r, io);
      var (t, isOpen) := OpenActive(r, io);
      if isOpen {
        FinishWritesNothing(t, lines, io);
      }
    }
  }

  lemma FinishWritesNothing(s: Spool, lines: seq<Line>, io: Oracle)
    requires Quiet(s) && s.active.Some?
    requires s.totalBytes + 1 > s.maxBytes || s.totalEntries + 1 > s.maxEntries
    ensures Disk(AppendFrom(s, lines, 0, 0, io).0) <= Disk(s)
  {
    FlushKeeps(s, io);
    assert lines != [] ==> OverBudget(s, lines[0]);
    var (t, ok) := Flush(s, io);
    if !ok {
      GiveUp(s, t, io);
    }
  }

  // ---- Both ways to get there exist ----

  /** After a failed opening scan the budget can be passed exactly if there were bytes to see. */
  lemma FailedOpenBreaksIff(files: map<Path, nat>, nextPath: Path, maxBytes: int, maxEntries: int, rotateBytes: int)
    requires (forall p :: p in files ==> p < nextPath) && maxBytes >= 1 && maxEntries >= 1
    ensures var s := Open(files, nextPath, maxBytes, maxEntries, rotateBytes, false);
            (exists lines, io: Oracle :: !io(s.tick).ok && Disk(Append(s, lines, io).0) > Max(Disk(s), maxBytes)) <==>
            SumBelow(files, nextPath) > 0
  {
    BudgetBreaksIff(Open(files, nextPath, maxBytes, maxEntries, rotateBytes, false));
  }

  /** Scan and open work; the next write puts one byte on disk and fails; sealing works. */
  function TearsFirstLine(): Oracle {
    k => if k == 2 then Choice(false, 1, {}) else Choice(true, 0, {})
  }

  function Empty(maxBytes: int, maxEntries: int, rotateBytes: int): Spool {
    Open(map[], 0, maxBytes, maxEntries, rotateBytes, true)
  }

  /** From an empty spool: of a line longer than the buffer one byte arrives that no counter knows; then a
      failed scan, and the budget is passed. */
  lemma TornLineBreaksBudget(line: Line, maxBytes: int, maxEntries: int, rotateBytes: int)
    requires BUFFER_SIZE < |line| < maxBytes && maxEntries >= 1
    ensures var s := Append(Empty(maxBytes, maxEntries, rotateBytes), [line], TearsFirstLine()).0;
            exists lines, io: Oracle :: !io(s.tick).ok && Disk(Append(s, lines, io).0) > maxBytes >= Disk(s)
  {
    var s := TornSpool(Empty(maxBytes, maxEntries, rotateBytes), line);
    BudgetBreaksIff(s);
    var lines, io: Oracle :| !io(s.tick).ok && Disk(Append(s, lines, io).0) > Max(Disk(s), s.maxBytes);
  }

  lemma TornSpool(f: Spool, line: Line) returns (s: Spool)
    requires f == Empty(f.maxBytes, f.maxEntries, f.rotateBytes) && BUFFER_SIZE < |line| < f.maxBytes &&
             f.maxEntries >= 1
    ensures s == Append(f, [line], TearsFirstLine()).0
    ensures Quiet(s) && !s.closed && Disk(s) == 1 && s.totalBytes == 0 && s.totalEntries == 0
    ensures s.maxBytes == f.maxBytes && s.maxEntries == f.maxEntries
  {
    var io := TearsFirstLine();
    s := Append(f, [line], io).0;
    var t := TornOpen(f, line, io);
    TornWrite(t, [line], line, io);
    TornReset(TornState(t, line), io);
  }

  /** After the scan and the open. */
  lemma TornOpen(f: Spool, line: Line, io: Oracle) returns (t: Spool)
    requires f == Empty(f.maxBytes, f.maxEntries, f.rotateBytes) && io == TearsFirstLine()
    ensures t == f.(refreshed := true, active := Some(Active(0, Writer([], 0, 0, false))), files := map[0 := 0],
                    nextPath := 1, tick := 2)
    ensures Append(f, [line], io) == AppendFrom(t, [line], 0, 0, io)
  {
    NoDeletion(f.(tick := 1));
    var r := Refresh(f, io);
    assert Listed(map[], f.files) == map[];
    assert r == f.(tick := 1, refreshed := true);
    NoDeletion(r.(tick := 2));
    t := OpenActive(r, io).0;
  }

  function TornState(t: Spool, line: Line): Spool {
    t.(active := Some(Active(0, Writer([line], |line|, 1, true))), files := map[0 := 1], tick := 3)
  }

  lemma TornLine(t: Spool, line: Line, io: Oracle)
    requires t.active == Some(Active(0, Writer([], 0, 0, false))) && t.files == map[0 := 0] && t.tick == 2
    requires io == TearsFirstLine() && |line| > BUFFER_SIZE
    ensures WriteLine(t, line, io) == (TornState(t, line), false)
  {
    var u := Accept(t, [line], |line|);
    NoDeletion(u.(tick := 3));
    assert [] + [line] == [line] && (map[0 := 0])[0 := 1] == map[0 := 1];
  }

  /** After the write that puts one byte in the file and fails. */
  lemma TornWrite(t: Spool, lines: seq<Line>, line: Line, io: Oracle)
    requires t.active == Some(Active(0, Writer([], 0, 0, false))) && t.files == map[0 := 0] && t.tick == 2
    requires io == TearsFirstLine() && |line| > BUFFER_SIZE && lines == [line] && !OverBudget(t, line)
    ensures AppendFrom(t, lines, 0, 0, io) == (Reset(TornState(t, line), io), Appended(0, Some(LineFailed)))
  {
    hide Reset, WriteLine, TornState, OverBudget, Finish, RotateIfFull, WriteNewline, TearsFirstLine;
    TornLine(t, line, io);
    assert lines[0] == line;
  }

  /** The torn byte is sealed with its file. */
  lemma TornReset(w: Spool, io: Oracle)
    requires w.active.Some? && w.active.value.path == 0 && w.active.value.w.durable == 1 && w.files == map[0 := 1] &&
             w.nextPath == 1
    requires CalmFrom(io, w.tick)
    ensures var s := Reset(w, io);
            && Quiet(s) && Disk(s) == 1 && s.closed == w.closed && s.totalBytes == w.totalBytes
            && s.totalEntries == w.totalEntries && s.maxBytes == w.maxBytes && s.maxEntries == w.maxEntries
  {
    CalmAsk(w, io);
    var x := w.(tick := w.tick + 1);
    CalmAsk(x, io);
    var y := x.(tick := x.tick + 1);
    CalmAsk(y, io);
    var z := y.(tick := y.tick + 1);
    assert Disk(z) == 1 by {
      assert SumBelow(z.files, 0) == 0;
    }
    RenamedKeeps(z, 0);
    assert Reset(w, io) == Dropped(Renamed(z, 0));
  }
}
