/** What an append to the HTTP spool achieves: all that fits when I/O works, and when it does not, exactly when
    the returned count is the number of lines on disk. */
module AuditDelivery {
  import opened Bytes
  import opened Options
  import opened SpoolBase
  import opened SpoolFaults
  import opened AuditSpoolSpec
  import opened AuditAppend

  // ---- I/O that works ----

  /** What the call's directory scan finds, the panel's deletions up to then included. */
  function BytesFound(s: Spool, io: Oracle): nat {
    Disk(Deleted(s, io(s.tick).removed))
  }

  function EntriesFound(s: Spool, io: Oracle): nat {
    SumBelow(Listed(s.entriesByFile, Deleted(s, io(s.tick).removed).files), s.nextPath)
  }

  /** The first n lines fit both budgets beside that many bytes and entries. */
  predicate Fits(s: Spool, lines: seq<Line>, n: nat, bytes: int, entries: int)
    requires n <= |lines|
  {
    bytes + Size(lines[..n]) <= s.maxBytes && entries + n <= s.maxEntries
  }

  lemma WorkingReopen(s: Spool, io: Oracle)
    requires s.active.Some? && Works(io, s.tick)
    ensures var (t, ok) := SealAndReopen(s, io); ok && Switched(s, t)
  {
  }

  lemma WorkingOne(s: Spool, lines: seq<Line>, handed: nat, persisted: nat, io: Oracle)
    requires CanWrite(s) && Works(io, s.tick) && handed < |lines|
    ensures var (t, stop, _) := WriteOne(s, lines, handed, persisted, io); stop.None? && TookOne(s, t, lines[handed])
  {
    hide HandLine, Flush, SealAndReopen;
    WorkingHandLine(s, lines[handed], io);
    var v := Counted(HandLine(s, lines[handed], io).0, lines[handed]);
    if v.activeBytes >= v.rotateBytes {
      WorkingFlush(v, io);
      WorkingReopen(Flush(v, io).0, io);
    }
  }

  /** From n lines handed over with these counters, the loop ends in t with the longest prefix that fits. */
  ghost predicate TakesMost(s: Spool, t: Spool, lines: seq<Line>, handed: nat, r: Appended)
    requires handed <= |lines|
  {
    var bytes, entries := s.totalBytes - Size(lines[..handed]), s.totalEntries - handed;
    && handed <= r.written <= |lines|
    && r.error == (if r.written == |lines| then None else Some(Full))
    && (r.written > handed ==> Fits(s, lines, r.written, bytes, entries) && RotatedInTime(t))
    && (r.written < |lines| ==> !Fits(s, lines, r.written + 1, bytes, entries))
    && (r.written == handed ==> t.activeBytes == s.activeBytes && t.rotateBytes == s.rotateBytes)
  }

  lemma WorkingFinish(s: Spool, lines: seq<Line>, handed: nat, persisted: nat, io: Oracle)
    requires CanWrite(s) && Works(io, s.tick) && handed <= |lines|
    requires handed == |lines| || OverBudget(s, lines[handed])
    ensures var (t, r) := Finish(s, |lines|, handed, persisted, io); TakesMost(s, t, lines, handed, r)
  {
    hide Flush;
    WorkingFlush(s, io);
    if handed < |lines| {
      SizeNext(lines, handed);
    }
  }

  lemma TakesMore(s: Spool, t: Spool, u: Spool, lines: seq<Line>, handed: nat, r: Appended)
    requires handed < |lines| && !OverBudget(s, lines[handed])
    requires TookOne(s, t, lines[handed]) && TakesMost(t, u, lines, handed + 1, r)
    ensures TakesMost(s, u, lines, handed, r)
  {
    SizeNext(lines, handed);
  }

  lemma {:induction false} WorkingFrom(s: Spool, lines: seq<Line>, handed: nat, persisted: nat, io: Oracle)
    requires CanWrite(s) && Works(io, s.tick) && persisted <= handed <= |lines|
    ensures var (t, r) := AppendFrom(s, lines, handed, persisted, io); TakesMost(s, t, lines, handed, r)
    decreases |lines| - handed
  {
    hide WriteOne, OverBudget, Finish, TakesMost;
    if handed == |lines| || OverBudget(s, lines[handed]) {
      WorkingFinish(s, lines, handed, persisted, io);
    } else {
      WorkingOne(s, lines, handed, persisted, io);
      var (t, _, vouched) := WriteOne(s, lines, handed, persisted, io);
      WorkingFrom(t, lines, handed + 1, vouched, io);
      var (u, r) := AppendFrom(t, lines, handed + 1, vouched, io);
      TakesMore(s, t, u, lines, handed, r);
    }
  }

  /** While no I/O call fails, an append stores the longest prefix of the batch that fits both budgets beside what
      the scan finds, and reports its length: without an error if that is the whole batch, otherwise Full. */
  lemma WorkingAppend(s: Spool, lines: seq<Line>, io: Oracle)
    requires Quiet(s) && !s.closed && Works(io, s.tick)
    ensures var (t, r) := Append(s, lines, io); var n := r.written;
            && n <= |lines| && Log(t) == Log(s) + lines[..n]
            && r.error == (if n == |lines| then None else Some(Full))
            && (n > 0 ==> Fits(s, lines, n, BytesFound(s, io), EntriesFound(s, io)) && RotatedInTime(t))
            && (n < |lines| ==> !Fits(s, lines, n + 1, BytesFound(s, io), EntriesFound(s, io)))
  {
    hide AppendFrom, Log;
    var m := AppendKeeps(s, lines, io);
    assert lines[..0] == [];
    var r := Refresh(s, io);
    if r.active.Some? {
      WorkingFrom(r, lines, 0, 0, io);
    } else {
      WorkingFrom(OpenActive(r, io).0, lines, 0, 0, io);
    }
  }

  /** An open spool with room for the whole batch in both budgets. */
  predicate HasRoom(s: Spool, lines: seq<Line>) {
    && !s.closed && Disk(s) + Size(lines) <= s.maxBytes
    && SumBelow(s.entriesByFile, s.nextPath) + |lines| <= s.maxEntries
  }

  /** With room for the whole batch in both budgets, the whole batch is stored. */
  lemma RoomyAppend(s: Spool, lines: seq<Line>, io: Oracle)
    requires Quiet(s) && HasRoom(s, lines) && Works(io, s.tick)
    ensures var (t, r) := Append(s, lines, io); r == Appended(|lines|, None) && Log(t) == Log(s) + lines
  {
    hide Append, Log;
    WorkingAppend(s, lines, io);
    var n := Append(s, lines, io).1.written;
    var d := Deleted(s, io(s.tick).removed);
    SumShrinks(s.files, d.files, s.nextPath);
    SumShrinks(s.entriesByFile, Listed(s.entriesByFile, d.files), s.nextPath);
    assert lines[..|lines|] == lines;
    if n < |lines| {
      SizeMonotone(lines, n + 1);
    }
  }

  /** An idle file is sealed and closed; before that the file stays open. */
  lemma WorkingSeal(s: Spool, io: Oracle)
    requires Quiet(s) && !s.closed && Works(io, s.tick + 1)
    ensures SealIfIdle(s, io).active == if io(s.tick).ok then None else s.active
  {
    hide TrySeal;
    if s.active.Some? && io(s.tick).ok {
      AskUndisturbed(s, io);
      FlushQuiet(Ask(s, io).0, io);
      WorkingTrySeal(Ask(s, io).0, io);
    }
  }

  /** A writer that is given up leaves no open file behind: its file is sealed under another name, or removed if it
      is empty. */
  lemma ResetTidies(t: Spool, io: Oracle)
    requires DirOk(t) && t.active.Some? && Works(io, t.tick)
    ensures var u := Reset(t, io); u.active.None? && t.active.value.path !in u.files
  {
    AskKeeps(t, io);
    AskKeeps(Ask(t, io).0, io);
    WorkingTrySeal(Ask(t, io).0, io);
    SealedAway(Ask(t, io).0, io);
  }

  /** Closing seals the open file, and nothing is stored after it. */
  lemma CloseSeals(s: Spool, lines: seq<Line>, io: Oracle)
    requires Quiet(s) && !s.closed && s.active.Some? && Works(io, s.tick)
    ensures var u := Close(s, io);
            u.active.None? && s.active.value.path !in u.files && Append(u, lines, io) == (u, Appended(0, Some(Closed)))
  {
    hide TrySeal;
    FlushQuiet(s, io);
    SealedAway(s, io);
  }

  // ---- I/O that fails ----

  function FailureFrom(s: Spool, lines: seq<Line>, handed: nat, persisted: nat, io: Oracle): Failure
    requires persisted <= handed <= |lines| && s.active.Some?
    decreases |lines| - handed
  {
    if handed == |lines| || OverBudget(s, lines[handed]) then FlushFailure(s, handed, io)
    else
      var (t, stop, vouched) := WriteOne(s, lines, handed, persisted, io);
      if stop.None? then FailureFrom(t, lines, handed + 1, vouched, io) else LineFailure(s, lines, handed, io)
  }

  /** A call that never reaches the line loop puts nothing on disk and vouches for nothing. */
  function FailureOf(s: Spool, lines: seq<Line>, io: Oracle): Failure {
    if s.closed then NoLoss
    else
      var r := Refresh(s, io);
      if r.active.Some? then FailureFrom(r, lines, 0, 0, io)
      else
        var (t, isOpen) := OpenActive(r, io);
        if isOpen then FailureFrom(t, lines, 0, 0, io) else NoLoss
  }

  /** The loop stands before line handed, and every line not yet vouched for is pending. */
  ghost predicate Stands(s: Spool, lines: seq<Line>, handed: nat, persisted: nat, base: seq<Line>) {
    At(s, lines, handed, persisted, base, s.maxBytes, false) && s.pendingLines + persisted == handed
  }

  /** The count is the number of lines on disk exactly under that condition. */
  predicate Told(r: Appended, m: int, f: Failure) {
    r.written == m <==> LossIsExact(f)
  }

  /** The reset keeps the whole lines that reached the file. */
  lemma ResetLog(x: Spool, io: Oracle)
    requires DirOk(x) && x.active.Some?
    ensures var w := x.active.value.w; Log(Reset(x, io)) == x.past + w.stream[..Whole(w.stream, w.durable)]
  {
    hide TrySeal, Whole, Deleted;
    AskKeeps(x, io);
    var u := Ask(x, io).0;
    AskKeeps(u, io);
    TrySealKeeps(u, io);
  }

  /** t is s with at most some more bytes handed over or written, and is given up. */
  lemma BrokenTold(s: Spool, t: Spool, lines: seq<Line>, handed: nat, persisted: nat, io: Oracle, base: seq<Line>,
                   error: Option<SpoolError>, i: nat)
    requires Stands(s, lines, handed, persisted, base) && DirOk(t) && t.active.Some? && t.past == s.past
    requires s.active.value.w.stream <= t.active.value.w.stream
    requires s.active.value.w.durable <= t.active.value.w.durable
    ensures Told(Appended(persisted, error), |Log(Reset(t, io))| - |base|, BrokenAt(s, t, i))
  {
    var w, x := s.active.value.w, t.active.value.w;
    var k := |w.stream| - s.pendingLines;
    assert |s.past| + |w.stream| == |base| + handed by {
      assert |HandedOver(s)| == |base + lines[..handed]|;
    }
    ResetLog(t, io);
    assert x.stream[..k] == w.stream[..k];
    WholeIff(x.stream, x.durable, k);
  }

  lemma FinishTold(s: Spool, lines: seq<Line>, handed: nat, persisted: nat, io: Oracle, base: seq<Line>)
    requires Stands(s, lines, handed, persisted, base)
    ensures var (t, r) := Finish(s, |lines|, handed, persisted, io);
            Told(r, |Log(t)| - |base|, FlushFailure(s, handed, io))
  {
    FlushKeeps(s, io);
    var (t, ok) := Flush(s, io);
    if ok {
      QuietLog(t);
      assert |HandedOver(t)| == |base + lines[..handed]|;
    } else {
      BrokenTold(s, t, lines, handed, persisted, io, base, Some(IOFailed), handed);
    }
  }

  /** The rotation after a counted line: every line is vouched for, or it failed. */
  lemma RotateTold(v: Spool, lines: seq<Line>, handed: nat, persisted: nat, io: Oracle, base: seq<Line>)
    requires Stands(v, lines, handed, persisted, base) && v.pendingLines > 0
    ensures var (t, ok) := RotateIfFull(v, io); var f := FlushFailure(v, handed, io);
            if ok then t.pendingLines + PersistedAfter(v, ok, handed, persisted) == handed
            else Told(Appended(persisted, Some(IOFailed)), |Log(t)| - |base|, if f.NoLoss? then Sealing else f)
  {
    hide SealAndReopen, Reset;
    if v.activeBytes >= v.rotateBytes {
      FlushKeeps(v, io);
      var (t, ok) := Flush(v, io);
      if ok {
        SealAndReopenKeeps(t, io);
        assert |HandedOver(t)| == |base + lines[..handed]|;
      } else {
        BrokenTold(v, t, lines, handed, persisted, io, base, Some(IOFailed), handed);
      }
    }
  }

  /** One line: on to the next, or the count is told. */
  lemma OneTold(s: Spool, lines: seq<Line>, handed: nat, persisted: nat, io: Oracle, base: seq<Line>)
    requires Stands(s, lines, handed, persisted, base) && handed < |lines| && !OverBudget(s, lines[handed])
    ensures var (t, stop, vouched) := WriteOne(s, lines, handed, persisted, io);
            if stop.None? then Stands(t, lines, handed + 1, vouched, base)
            else Told(Appended(persisted, stop), |Log(t)| - |base|, LineFailure(s, lines, handed, io))
  {
    hide HandLine, Reset, RotateIfFull, Told, FlushFailure, OverBudget;
    var m := WriteOneKeeps(s, lines, handed, persisted, io, base, s.maxBytes, false);
    HandLineKeeps(s, lines[handed], io);
    var (t, ok) := HandLine(s, lines[handed], io);
    if !ok {
      BrokenTold(s, t, lines, handed, persisted, io, base, Some(LineFailed), handed);
    } else {
      Advance(s, t, lines, handed, persisted, base, s.maxBytes, false);
      RotateTold(Counted(t, lines[handed]), lines, handed + 1, persisted, io, base);
    }
  }

  lemma {:induction false} FromTold(s: Spool, lines: seq<Line>, handed: nat, persisted: nat, io: Oracle,
                                    base: seq<Line>)
    requires Stands(s, lines, handed, persisted, base)
    ensures var (t, r) := AppendFrom(s, lines, handed, persisted, io);
            Told(r, |Log(t)| - |base|, FailureFrom(s, lines, handed, persisted, io))
    decreases |lines| - handed
  {
    hide WriteOne, Finish, OverBudget, Told, FlushFailure, LineFailure, PendingOk, HandedOver;
    if handed == |lines| || OverBudget(s, lines[handed]) {
      FinishTold(s, lines, handed, persisted, io, base);
    } else {
      OneTold(s, lines, handed, persisted, io, base);
      var (t, stop, vouched) := WriteOne(s, lines, handed, persisted, io);
      if stop.None? {
        FromTold(t, lines, handed + 1, vouched, io, base);
      }
    }
  }

  /** For every quiet spool and every I/O outcome: the returned count is the number of lines of the batch that are
      on disk if and only if no write, flush or rotation failed, or a write or flush failed before the first line
      since the last flush was in the file. */
  lemma CountIsExactIff(s: Spool, lines: seq<Line>, io: Oracle)
    requires Quiet(s)
    ensures var (t, r) := Append(s, lines, io);
            r.written == |Log(t)| - |Log(s)| <==> LossIsExact(FailureOf(s, lines, io))
  {
    hide AppendFrom, FailureFrom, Refresh, OpenActive, Stands, Log, Quiet, HandedOver, Disk;
    if !s.closed {
      RefreshUndisturbed(s, io);
      var r := Refresh(s, io);
      if r.active.Some? {
        StandsFirst(r, lines, Log(s));
        FromTold(r, lines, 0, 0, io, Log(s));
      } else {
        QuietLog(r);
        OpenUndisturbed(r, io);
        var (t, isOpen) := OpenActive(r, io);
        if isOpen {
          StandsFirst(t, lines, Log(s));
          FromTold(t, lines, 0, 0, io, Log(s));
        }
      }
    }
  }

  lemma RefreshUndisturbed(s: Spool, io: Oracle)
    requires Quiet(s)
    ensures var r := Refresh(s, io); Quiet(r) && Log(r) == Log(s)
  {
    RefreshKeeps(s, io);
    QuietLog(s);
    QuietLog(Refresh(s, io));
  }

  lemma StandsFirst(t: Spool, lines: seq<Line>, base: seq<Line>)
    requires Quiet(t) && t.active.Some? && Log(t) == base
    ensures Stands(t, lines, 0, 0, base)
  {
    QuietLog(t);
    assert base + lines[..0] == base;
  }
}
