/** One append to the HTTP spool: what is on disk afterwards, and the byte budget. */
module AuditAppend {
  import opened Bytes
  import opened Options
  import opened SpoolBase
  import opened AuditSpoolSpec

  // ---- What one append keeps ----

  /** m lines of the batch reached the disk; the count is within them, and exact unless I/O failed. */
  predicate Honest(r: Appended, m: nat, total: nat) {
    && r.written <= m <= total
    && match r.error
       case None => r.written == m == total
       case Some(Full) => r.written == m < total
       case Some(Closed) => m == 0
       case Some(_) => true
  }

  /** The call that found base on disk ends in t: nothing is buffered, a prefix of the batch is on
      disk in order, and the result is honest about it. */
  ghost predicate Outcome(s: Spool, t: Spool, r: Appended, base: seq<Line>, lines: seq<Line>, m: nat) {
    && Quiet(t) && t.maxBytes == s.maxBytes && t.maxEntries == s.maxEntries && t.closed == s.closed
    && Honest(r, m, |lines|) && Log(t) == base + lines[..m]
  }

  lemma RemoveActiveKeeps(s: Spool)
    requires DirOk(s) && s.active.Some?
    ensures forall p :: p in RemoveActive(s).files ==> p < s.nextPath
    ensures Disk(RemoveActive(s)) == Disk(s) - s.active.value.w.durable
  {
    SumRemove(s.files, s.active.value.path, s.nextPath);
  }

  /** Dropping the writer after u came from t without touching lines or adding bytes. */
  lemma DroppedIsReset(t: Spool, u: Spool, k: nat)
    requires t.active.Some? && Confirmed(t, k) && u.active == t.active && u.past == t.past && SameSettings(t, u)
    requires (forall p :: p in u.files ==> p < u.nextPath) && Disk(u) <= Disk(t) && u.totalBytes == t.totalBytes
    ensures ResetDone(t, Dropped(u), k)
  {
    WholeCovers(t.active.value.w.stream, k, t.active.value.w.durable);
  }

  lemma ResetKeeps(t: Spool, io: Oracle, k: nat)
    requires DirOk(t) && Confirmed(t, k)
    ensures ResetDone(t, Reset(t, io), k)
  {
    hide ResetDone, Confirmed, Disk, Dropped, TrySeal;
    assert t.active.Some? by { ConfirmedIsOpen(t, k); }
    AskKeeps(t, io);
    var (u, stat) := Ask(t, io);
    DroppedIsReset(t, u, k);
    if stat.ok {
      if t.active.value.w.durable > 0 {
        TrySealKeeps(u, io);
        DroppedIsReset(t, TrySeal(u, io).0, k);
      } else {
        AskKeeps(u, io);
        var v := Ask(u, io).0;
        DroppedIsReset(t, v, k);
        RemoveActiveKeeps(v);
        DroppedIsReset(t, RemoveActive(v), k);
      }
    }
  }

  lemma ConfirmedIsOpen(t: Spool, k: nat)
    requires Confirmed(t, k)
    ensures t.active.Some?
  {
  }

  lemma GiveUp(s: Spool, t: Spool, io: Oracle)
    requires PendingOk(s) && s.active.Some? && DirOk(t) && t.active.Some? && t.past == s.past && SameSettings(s, t)
    requires s.active.value.w.stream <= t.active.value.w.stream
    requires s.active.value.w.durable <= t.active.value.w.durable
    ensures GivenUp(s, t, Reset(t, io))
  {
    var k := StillConfirmed(s, t);
    ResetKeeps(t, io, k);
  }

  /** x is t after sealing and reopening, or after failing to: no line moved. */
  ghost predicate Reopened(t: Spool, x: Spool, ok: bool) {
    Undisturbed(t, x) && (ok ==> x.active.Some?)
  }

  lemma SealAndReopenKeeps(t: Spool, io: Oracle)
    requires Quiet(t) && t.active.Some?
    ensures var (x, ok) := SealAndReopen(t, io); Reopened(t, x, ok)
  {
    hide Ask, Disk, Log, HandedOver, OpenActive, Dropped, Renamed, Quiet;
    AskUndisturbed(t, io);
    var (u, named) := Ask(t, io);
    if named.ok {
      AskUndisturbed(u, io);
      var (v, renamed) := Ask(u, io);
      if renamed.ok {
        RenamedAndDropped(v);
        var d := Dropped(Renamed(v, t.active.value.path));
        AskUndisturbed(d, io);
        OpenUndisturbed(Ask(d, io).0, io);
      }
    }
  }

  lemma RenamedAndDropped(v: Spool)
    requires Quiet(v) && v.active.Some?
    ensures var d := Dropped(Renamed(v, v.active.value.path)); Undisturbed(v, d) && d.active.None?
  {
    QuietLog(v);
    RenamedKeeps(v, v.active.value.path);
  }

  // ---- The byte budget ----

  /** The counter covers everything on disk and in the buffer, and buffered bytes were budgeted. */
  predicate Counts(s: Spool) {
    Disk(s) + Buffered(s) <= s.totalBytes && (Buffered(s) == 0 || s.totalBytes <= s.maxBytes)
  }

  function Max(a: int, b: int): int {
    if a >= b then a else b
  }

  /** The loop stands before line handed; if counts is set the counter is trustworthy. */
  ghost predicate At(s: Spool, lines: seq<Line>, handed: nat, persisted: nat, base: seq<Line>, cap: int, counts: bool) {
    && persisted <= handed <= |lines| && PendingOk(s) && s.active.Some?
    && HandedOver(s) == base + lines[..handed] && s.pendingLines + persisted <= handed
    && s.maxBytes <= cap && (counts ==> Counts(s) && Disk(s) <= cap)
  }

  /** A call with a trustworthy counter stayed within the cap, and unless it tore a line the counter
      still covers the disk. */
  predicate Budgeted(t: Spool, error: Option<SpoolError>, cap: int, counts: bool) {
    counts ==> Disk(t) <= cap && (error != Some(LineFailed) ==> Disk(t) <= t.totalBytes)
  }

  lemma FinishKeeps(s: Spool, lines: seq<Line>, handed: nat, persisted: nat, io: Oracle,
                    base: seq<Line>, cap: int, counts: bool) returns (m: nat)
    requires At(s, lines, handed, persisted, base, cap, counts)
    ensures var (t, r) := Finish(s, |lines|, handed, persisted, io);
            Outcome(s, t, r, base, lines, m) && Budgeted(t, r.error, cap, counts)
  {
    FlushKeeps(s, io);
    var (t, ok) := Flush(s, io);
    if ok {
      m := handed;
      QuietLog(t);
    } else {
      GiveUp(s, t, io);
      m := PrefixLength(Log(Reset(t, io)), base, lines, handed);
    }
  }

  lemma GaveUp(s: Spool, t: Spool, u: Spool, lines: seq<Line>, handed: nat, persisted: nat,
               base: seq<Line>, cap: int, counts: bool) returns (m: nat)
    requires At(s, lines, handed, persisted, base, cap, counts) && handed < |lines| && !OverBudget(s, lines[handed])
    requires Handed(s, t, lines[handed], false) && GivenUp(s, t, u)
    ensures Outcome(s, u, Appended(persisted, Some(LineFailed)), base, lines, m) &&
            Budgeted(u, Some(LineFailed), cap, counts)
  {
    assert HandedOver(t) == HandedOver(s) + [lines[handed]] by {
      assert s.past + (s.active.value.w.stream + [lines[handed]]) == s.past + s.active.value.w.stream + [lines[handed]];
    }
    assert base + lines[..handed + 1] == base + lines[..handed] + [lines[handed]];
    m := PrefixLength(Log(u), base, lines, handed + 1);
  }

  lemma Advance(s: Spool, t: Spool, lines: seq<Line>, handed: nat, persisted: nat, base: seq<Line>, cap: int,
                counts: bool)
    requires At(s, lines, handed, persisted, base, cap, counts) && handed < |lines| && !OverBudget(s, lines[handed])
    requires Handed(s, t, lines[handed], true)
    ensures var v := Counted(t, lines[handed]);
            At(v, lines, handed + 1, persisted, base, cap, counts) && SameSettings(s, v)
  {
    CountedKeeps(s, t, lines[handed]);
    assert base + lines[..handed + 1] == base + lines[..handed] + [lines[handed]];
  }

  lemma RotateAt(s: Spool, lines: seq<Line>, handed: nat, persisted: nat, io: Oracle,
                 base: seq<Line>, cap: int, counts: bool) returns (m: nat)
    requires At(s, lines, handed, persisted, base, cap, counts)
    ensures var (t, ok) := RotateIfFull(s, io);
            if ok then
              && At(t, lines, handed, PersistedAfter(s, ok, handed, persisted), base, cap, counts)
              && SameSettings(s, t)
            else
              && Outcome(s, t, Appended(persisted, Some(IOFailed)), base, lines, m)
              && Budgeted(t, Some(IOFailed), cap, counts)
  {
    if s.activeBytes < s.rotateBytes {
      m := handed;
      return;
    }
    FlushKeeps(s, io);
    var (t, ok) := Flush(s, io);
    m := handed;
    if !ok {
      GiveUp(s, t, io);
      m := PrefixLength(Log(Reset(t, io)), base, lines, handed);
    } else {
      SealAndReopenKeeps(t, io);
    }
  }

  /** One line: on to the next, or an honest result. */
  lemma WriteOneKeeps(s: Spool, lines: seq<Line>, handed: nat, persisted: nat, io: Oracle,
                      base: seq<Line>, cap: int, counts: bool) returns (m: nat)
    requires At(s, lines, handed, persisted, base, cap, counts) && handed < |lines| && !OverBudget(s, lines[handed])
    ensures var (t, stop, vouched) := WriteOne(s, lines, handed, persisted, io);
            if stop.None? then At(t, lines, handed + 1, vouched, base, cap, counts) && SameSettings(s, t)
            else Outcome(s, t, Appended(persisted, stop), base, lines, m) && Budgeted(t, stop, cap, counts)
  {
    hide At, Reset, RotateIfFull, HandLine, Handed, Budgeted, Quiet, Log, GivenUp, Counted, OverBudget;
    assert PendingOk(s) && s.active.Some? by { AtIsPending(s, lines, handed, persisted, base, cap, counts); }
    HandLineKeeps(s, lines[handed], io);
    var (t, ok) := HandLine(s, lines[handed], io);
    if !ok {
      GiveUpLine(s, t, lines[handed], io);
      m := GaveUp(s, t, Reset(t, io), lines, handed, persisted, base, cap, counts);
    } else {
      Advance(s, t, lines, handed, persisted, base, cap, counts);
      m := RotateAt(Counted(t, lines[handed]), lines, handed + 1, persisted, io, base, cap, counts);
    }
  }

  lemma AtIsPending(s: Spool, lines: seq<Line>, handed: nat, persisted: nat, base: seq<Line>, cap: int, counts: bool)
    requires At(s, lines, handed, persisted, base, cap, counts)
    ensures PendingOk(s) && s.active.Some?
  {
  }

  lemma GiveUpLine(s: Spool, t: Spool, line: Line, io: Oracle)
    requires PendingOk(s) && s.active.Some? && Handed(s, t, line, false)
    ensures GivenUp(s, t, Reset(t, io))
  {
    GiveUp(s, t, io);
  }

  lemma OutcomeFrom(s: Spool, t: Spool, u: Spool, r: Appended, base: seq<Line>, lines: seq<Line>, m: nat)
    requires SameSettings(s, t) && Outcome(t, u, r, base, lines, m)
    ensures Outcome(s, u, r, base, lines, m)
  {
  }

  /** The line loop: a prefix of the batch is on disk, the count is within it, and with a trustworthy
      counter the disk never passes the cap. */
  lemma {:induction false} AppendFromKeeps(s: Spool, lines: seq<Line>, handed: nat, persisted: nat, io: Oracle,
                                           base: seq<Line>, cap: int, counts: bool) returns (m: nat)
    requires At(s, lines, handed, persisted, base, cap, counts)
    ensures var (t, r) := AppendFrom(s, lines, handed, persisted, io);
            Outcome(s, t, r, base, lines, m) && Budgeted(t, r.error, cap, counts)
    decreases |lines| - handed
  {
    hide WriteOne, Finish, OverBudget, Outcome, Budgeted, PendingOk, HandedOver, Counts, Disk;
    if handed == |lines| || OverBudget(s, lines[handed]) {
      m := FinishKeeps(s, lines, handed, persisted, io, base, cap, counts);
    } else {
      m := WriteOneKeeps(s, lines, handed, persisted, io, base, cap, counts);
      var (t, stop, vouched) := WriteOne(s, lines, handed, persisted, io);
      if stop.None? {
        m := AppendFromKeeps(t, lines, handed + 1, vouched, io, base, cap, counts);
        var (u, r) := AppendFrom(t, lines, handed + 1, vouched, io);
        OutcomeFrom(s, t, u, r, base, lines, m);
      }
    }
  }

  /** The counter is trustworthy in this call: its directory scan succeeds, or it already covered the disk. */
  predicate Trustworthy(s: Spool, io: Oracle) {
    io(s.tick).ok || Disk(s) <= s.totalBytes
  }

  /** One appendLines: a prefix of the batch is on disk in order, exactly as long as the count says unless I/O
      failed and never shorter, nothing is buffered, and under a trustworthy counter
      the call never pushes the disk past the budget and, unless it tears a line, leaves a counter that covers
      the disk. */
  lemma AppendKeeps(s: Spool, lines: seq<Line>, io: Oracle) returns (m: nat)
    requires Quiet(s)
    ensures var (t, r) := Append(s, lines, io);
            && Outcome(s, t, r, Log(s), lines, m)
            && (s.closed || Budgeted(t, r.error, Max(Disk(s), s.maxBytes), Trustworthy(s, io)))
  {
    m := 0;
    assert Log(s) + lines[..0] == Log(s);
    if !s.closed {
      var cap, counts := Max(Disk(s), s.maxBytes), Trustworthy(s, io);
      RefreshKeeps(s, io);
      var r := Refresh(s, io);
      QuietLog(s);
      QuietLog(r);
      if r.active.Some? {
        m := AppendFromKeeps(r, lines, 0, 0, io, Log(s), cap, counts);
      } else {
        OpenActiveKeeps(r, io);
        var (t, isOpen) := OpenActive(r, io);
        QuietLog(t);
        if isOpen {
          assert HandedOver(t) == t.past + [];
          m := AppendFromKeeps(t, lines, 0, 0, io, Log(s), cap, counts);
        }
      }
    }
  }

  /** Sealing an idle file and closing move no line and put no byte on disk. */
  lemma SealIfIdleKeeps(s: Spool, io: Oracle)
    requires Quiet(s)
    ensures Undisturbed(s, SealIfIdle(s, io))
  {
    hide Quiet, Log, HandedOver, Ask, Flush, SealFlushed, Disk;
    QuietLog(s);
    if !s.closed && s.active.Some? {
      AskUndisturbed(s, io);
      var t := Ask(s, io).0;
      FlushQuiet(t, io);
      SealFlushedKeeps(t, io);
    }
  }

  lemma CloseKeeps(s: Spool, io: Oracle)
    requires Quiet(s)
    ensures var t := Close(s, io);
            Quiet(t) && t.closed && Log(t) == Log(s) && Disk(t) <= Disk(s) && t.totalBytes == s.totalBytes
  {
    QuietLog(s);
    if !s.closed && s.active.Some? {
      FlushQuiet(s, io);
      TrySealKeeps(s, io);
    }
  }
}
