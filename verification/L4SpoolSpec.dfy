/** The layer-4 event spool as functions of its state and the I/O oracle, and what one append keeps. */
module L4SpoolSpec {
  import opened Bytes
  import opened Options
  import opened SpoolBase

  datatype SpoolError = Full | Loss(lost: nat) | Closed | Unavailable | OpenFailed
  datatype Appended = Appended(written: nat, error: Option<SpoolError>)

  /** resetWriterLocked: the buffer is given up, what is on disk is sealed if that works. */
  function Reset(s: Spool, io: Oracle): Spool {
    if s.active.None? then s.(pendingLines := 0)
    else
      var (t, _) := TrySeal(s, io);
      Dropped(t)
  }

  /** rotateLocked */
  function Rotate(s: Spool, io: Oracle): (r: (Spool, bool))
    requires s.active.Some?
    ensures r.1 ==> r.0.active.Some?
  {
    var (t, ok) := Flush(s, io);
    if !ok then (Reset(t, io), false) else SealAndReopen(t, io)
  }

  /** The second half of a rotation: a failed seal keeps appending to the same file. */
  function SealAndReopen(t: Spool, io: Oracle): (r: (Spool, bool))
    requires t.active.Some?
    ensures r.1 ==> r.0.active.Some?
  {
    var (u, sealed) := TrySeal(t, io);
    if !sealed then (u, true)
    else
      var (v, c) := Ask(Dropped(u), io);
      if !c.ok then (v, false) else OpenActive(v, io)
  }

  function Lost(s: Spool, total: nat, written: nat): SpoolError
    requires written <= total
  {
    Loss(s.pendingLines + (total - written))
  }

  /** The over-budget check; with an empty buffer it first measures the directory. */
  function Measured(s: Spool, line: Line, io: Oracle): Spool {
    if OverBudget(s, line) && s.pendingLines == 0 then Refresh(s, io) else s
  }

  /** The flush before returning with i lines handed over: all is well, or the budget is used up. */
  function Finish(s: Spool, total: nat, i: nat, io: Oracle): (Spool, Appended)
    requires i <= total
  {
    var (t, ok) := Flush(s, io);
    if ok then (t, Appended(i, if i == total then None else Some(Full)))
    else (Reset(t, io), Appended(i, Some(Lost(t, total, i))))
  }

  function RotateIfFull(s: Spool, io: Oracle): (r: (Spool, bool))
    requires s.active.Some?
    ensures r.1 ==> r.0.active.Some?
  {
    if s.activeBytes < s.rotateBytes then (s, true) else Rotate(s, io)
  }

  /** Line i goes to the writer: the new state, whether the loop goes on, and the result if it does not. */
  function WriteOne(s: Spool, lines: seq<Line>, i: nat, io: Oracle): (x: (Spool, bool, Appended))
    requires i < |lines| && s.active.Some?
    ensures x.1 ==> x.0.active.Some?
  {
    var (t, ok) := HandLine(s, lines[i], io);
    if !ok then (Reset(t, io), false, Appended(i, Some(Lost(t, |lines|, i))))
    else
      var v := Counted(t, lines[i]);
      var (w, rotated) := RotateIfFull(v, io);
      (w, rotated, Appended(i + 1, Some(Lost(v, |lines|, i + 1))))
  }

  /** The line loop of appendLines from line i on, final flush included. */
  function AppendFrom(s: Spool, lines: seq<Line>, i: nat, io: Oracle): (Spool, Appended)
    requires i <= |lines| && s.active.Some?
    decreases |lines| - i
  {
    if i == |lines| then Finish(s, |lines|, i, io)
    else
      var r := Measured(s, lines[i], io);
      if OverBudget(r, lines[i]) then Finish(r, |lines|, i, io)
      else
        var (t, more, result) := WriteOne(r, lines, i, io);
        if more then AppendFrom(t, lines, i + 1, io) else (t, result)
  }

  /** The throttled budget refresh: the first time always, later when the clock (the oracle) says so. */
  function RefreshIfDue(s: Spool, io: Oracle): Spool {
    if !s.refreshed then Refresh(s, io)
    else
      var (t, clock) := Ask(s, io);
      if clock.ok then Refresh(t, io) else t
  }

  /** appendLines */
  function Append(s: Spool, lines: seq<Line>, io: Oracle): (Spool, Appended) {
    if s.closed then (s, Appended(0, Some(Closed)))
    else if s.maxBytes < 0 then (s, Appended(0, Some(Unavailable)))
    else
      var r := RefreshIfDue(s, io);
      if r.active.Some? then AppendFrom(r, lines, 0, io)
      else
        var (t, isOpen) := OpenActive(r, io);
        if !isOpen then (t, Appended(0, Some(OpenFailed))) else AppendFrom(t, lines, 0, io)
  }

  /** sealIfIdle; the idle clock is the oracle's first answer. */
  function SealIfIdle(s: Spool, io: Oracle): Spool {
    if s.closed || s.active.None? then s
    else
      var (t, idle) := Ask(s, io);
      if !idle.ok then t
      else
        var (u, ok) := Flush(t, io);
        if !ok then Reset(u, io) else SealFlushed(u, io)
  }

  /** close */
  function Close(s: Spool, io: Oracle): Spool {
    if s.closed then s
    else
      var (t, _) := Flush(s, io);
      Reset(t, io).(closed := true)
  }

  // ---- What one append keeps ----

  /** m lines of the batch reached the disk; the result admits to every other one. */
  predicate Honest(r: Appended, m: nat, total: nat) {
    && m <= total && r.written <= total
    && match r.error
       case None => m == r.written == total
       case Some(Full) => m == r.written < total
       case Some(Loss(lost)) => total - m <= lost
       case Some(_) => m == r.written == 0
  }

  /** What holds when a call on s that found base on disk ends in t with result r. */
  ghost predicate Outcome(s: Spool, t: Spool, r: Appended, base: seq<Line>, lines: seq<Line>, m: nat) {
    Quiet(t) && SameSettings(s, t) && Honest(r, m, |lines|) && Log(t) == base + lines[..m]
  }

  lemma ResetKeeps(s: Spool, io: Oracle, k: nat)
    requires DirOk(s) && Confirmed(s, k)
    ensures ResetDone(s, Reset(s, io), k)
  {
    TrySealKeeps(s, io);
    WholeCovers(s.active.value.w.stream, k, s.active.value.w.durable);
  }

  /** Giving up after a failed write or flush: everything confirmed is in the log. */
  lemma GiveUp(s: Spool, t: Spool, io: Oracle)
    requires PendingOk(s) && s.active.Some? && DirOk(t) && t.active.Some? && t.past == s.past && SameSettings(s, t)
    requires s.active.value.w.stream <= t.active.value.w.stream
    requires s.active.value.w.durable <= t.active.value.w.durable
    ensures GivenUp(s, t, Reset(t, io))
  {
    var k := StillConfirmed(s, t);
    ResetKeeps(t, io, k);
  }

  lemma RotateKeeps(s: Spool, io: Oracle)
    requires PendingOk(s) && s.active.Some?
    ensures var (t, ok) := Rotate(s, io);
            && Quiet(t) && SameSettings(s, t)
            && Log(t) <= HandedOver(s) && |Log(t)| + s.pendingLines >= |HandedOver(s)|
            && (ok ==> t.active.Some? && HandedOver(t) == HandedOver(s))
  {
    FlushKeeps(s, io);
    var (t, ok) := Flush(s, io);
    if !ok {
      GiveUp(s, t, io);
    } else {
      QuietLog(t);
      SealAndReopenKeeps(t, io);
    }
  }

  lemma SealAndReopenKeeps(t: Spool, io: Oracle)
    requires Quiet(t) && t.active.Some?
    ensures var (x, ok) := SealAndReopen(t, io);
            && Quiet(x) && SameSettings(t, x) && Log(x) == HandedOver(x) == HandedOver(t) && (ok ==> x.active.Some?)
  {
    QuietLog(t);
    TrySealKeeps(t, io);
    var (u, sealed) := TrySeal(t, io);
    if sealed {
      var d := Dropped(u);
      AskKeeps(d, io);
      var (v, c) := Ask(d, io);
      if c.ok {
        OpenActiveKeeps(v, io);
        assert v.past + [] == v.past;
      }
    }
  }

  /** The call stands before line i, which is not yet handed over. */
  ghost predicate At(s: Spool, lines: seq<Line>, i: nat, base: seq<Line>) {
    i <= |lines| && PendingOk(s) && s.active.Some? && HandedOver(s) == base + lines[..i] && s.pendingLines <= i
  }

  /** The flush that ends a call, at the end of the batch or when the budget is used up. */
  lemma FinishKeeps(s: Spool, lines: seq<Line>, i: nat, io: Oracle, base: seq<Line>) returns (m: nat)
    requires At(s, lines, i, base)
    ensures var (t, r) := Finish(s, |lines|, i, io); Outcome(s, t, r, base, lines, m)
  {
    FlushKeeps(s, io);
    var (t, ok) := Flush(s, io);
    if ok {
      m := i;
      QuietLog(t);
    } else {
      GiveUp(s, t, io);
      m := PrefixLength(Log(Reset(t, io)), base, lines, i);
    }
  }

  /** The reset after a failed write of line i. */
  lemma GaveUp(s: Spool, t: Spool, u: Spool, lines: seq<Line>, i: nat, base: seq<Line>) returns (m: nat)
    requires At(s, lines, i, base) && i < |lines| && Handed(s, t, lines[i], false) && GivenUp(s, t, u)
    ensures Outcome(s, u, Appended(i, Some(Lost(t, |lines|, i))), base, lines, m)
  {
    assert HandedOver(t) == HandedOver(s) + [lines[i]] by {
      assert s.past + (s.active.value.w.stream + [lines[i]]) == s.past + s.active.value.w.stream + [lines[i]];
    }
    assert base + lines[..i + 1] == base + lines[..i] + [lines[i]];
    m := PrefixLength(Log(u), base, lines, i + 1);
  }

  lemma Advance(s: Spool, t: Spool, lines: seq<Line>, i: nat, base: seq<Line>)
    requires At(s, lines, i, base) && i < |lines| && Handed(s, t, lines[i], true)
    ensures At(Counted(t, lines[i]), lines, i + 1, base) && SameSettings(s, Counted(t, lines[i]))
  {
    CountedKeeps(s, t, lines[i]);
    assert base + lines[..i + 1] == base + lines[..i] + [lines[i]];
  }

  lemma RotateAt(s: Spool, lines: seq<Line>, i: nat, io: Oracle, base: seq<Line>) returns (m: nat)
    requires At(s, lines, i, base)
    ensures var (t, ok) := RotateIfFull(s, io);
            if ok then At(t, lines, i, base) && SameSettings(s, t)
            else Outcome(s, t, Appended(i, Some(Lost(s, |lines|, i))), base, lines, m)
  {
    m := 0;
    if s.activeBytes >= s.rotateBytes {
      RotateKeeps(s, io);
      var (t, ok) := Rotate(s, io);
      m := PrefixLength(Log(t), base, lines, i);
    }
  }

  lemma MeasuredKeeps(s: Spool, lines: seq<Line>, i: nat, line: Line, io: Oracle, base: seq<Line>)
    requires At(s, lines, i, base)
    ensures var r := Measured(s, line, io); At(r, lines, i, base) && SameSettings(s, r)
  {
    RefreshKeeps(s, io);
  }

  /** One line: on to the next, or an honest result. */
  lemma WriteOneKeeps(s: Spool, lines: seq<Line>, i: nat, io: Oracle, base: seq<Line>) returns (m: nat)
    requires At(s, lines, i, base) && i < |lines|
    ensures var (t, more, r) := WriteOne(s, lines, i, io);
            if more then At(t, lines, i + 1, base) && SameSettings(s, t) else Outcome(s, t, r, base, lines, m)
  {
    HandLineKeeps(s, lines[i], io);
    var (t, ok) := HandLine(s, lines[i], io);
    if !ok {
      GiveUp(s, t, io);
      m := GaveUp(s, t, Reset(t, io), lines, i, base);
    } else {
      Advance(s, t, lines, i, base);
      m := RotateAt(Counted(t, lines[i]), lines, i + 1, io, base);
    }
  }

  /** The line loop: m lines of the whole batch are on disk when it ends, in order after base. */
  lemma {:induction false} AppendFromKeeps(s: Spool, lines: seq<Line>, i: nat, io: Oracle,
                                           base: seq<Line>) returns (m: nat)
    requires At(s, lines, i, base)
    ensures var (t, r) := AppendFrom(s, lines, i, io); Outcome(s, t, r, base, lines, m)
    decreases |lines| - i
  {
    if i == |lines| {
      m := FinishKeeps(s, lines, i, io, base);
    } else {
      MeasuredKeeps(s, lines, i, lines[i], io, base);
      var r := Measured(s, lines[i], io);
      if OverBudget(r, lines[i]) {
        m := FinishKeeps(r, lines, i, io, base);
      } else {
        m := WriteOneKeeps(r, lines, i, io, base);
        var (t, more, _) := WriteOne(r, lines, i, io);
        if more {
          m := AppendFromKeeps(t, lines, i + 1, io, base);
        }
      }
    }
  }

  lemma RefreshIfDueKeeps(s: Spool, io: Oracle)
    requires Quiet(s)
    ensures var r := RefreshIfDue(s, io);
            Quiet(r) && Log(r) == Log(s) && r.active == s.active && r.past == s.past && SameSettings(s, r)
  {
    if !s.refreshed {
      RefreshKeeps(s, io);
    } else {
      AskKeeps(s, io);
      var (t, clock) := Ask(s, io);
      RefreshKeeps(t, io);
    }
  }

  /** One appendLines: nothing stays buffered, a prefix of the batch is on disk in order, and the
      result never claims more than that. */
  lemma AppendKeeps(s: Spool, lines: seq<Line>, io: Oracle) returns (m: nat)
    requires Quiet(s)
    ensures var (t, r) := Append(s, lines, io); Outcome(s, t, r, Log(s), lines, m)
  {
    m := 0;
    assert Log(s) + lines[..0] == Log(s);
    if !s.closed && s.maxBytes >= 0 {
      RefreshIfDueKeeps(s, io);
      var r := RefreshIfDue(s, io);
      QuietLog(r);
      if r.active.Some? {
        m := AppendFromKeeps(r, lines, 0, io, Log(s));
      } else {
        OpenActiveKeeps(r, io);
        var (t, isOpen) := OpenActive(r, io);
        QuietLog(t);
        if isOpen {
          assert HandedOver(t) == t.past + [];
          m := AppendFromKeeps(t, lines, 0, io, Log(s));
        }
      }
    }
  }

  lemma CloseKeeps(s: Spool, io: Oracle)
    requires Quiet(s)
    ensures var t := Close(s, io); Quiet(t) && Log(t) == Log(s) && t.closed
  {
    QuietLog(s);
    if !s.closed && s.active.Some? {
      FlushQuiet(s, io);
      var w := s.active.value.w;
      assert w.stream[..|w.stream|] == w.stream;
      ResetKeeps(s, io, |w.stream|);
    }
  }

  /** Idle sealing keeps every line on disk. */
  lemma SealIfIdleKeeps(s: Spool, io: Oracle)
    requires Quiet(s)
    ensures var t := SealIfIdle(s, io); Quiet(t) && Log(t) == Log(s) && SameSettings(s, t)
  {
    hide Quiet, Log, HandedOver, Ask, Flush, SealFlushed, Disk;
    QuietLog(s);
    if !s.closed && s.active.Some? {
      AskUndisturbed(s, io);
      var t := Ask(s, io).0;
      FlushQuiet(t, io);
      SealFlushedKeeps(t, io);
    }
  }
}
