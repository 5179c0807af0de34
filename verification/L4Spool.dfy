/** The layer-4 spool object: its methods update the spool record in the order of the source and are
    proved equal to the functions of L4SpoolSpec. Library and disk calls are those of SpoolBase. */
module L4Spool {
  import opened Bytes
  import opened Options
  import opened SpoolBase
  import Spec = L4SpoolSpec

  class L4Spool {
    var s: Spool

    constructor (initial: Spool)
      ensures s == initial
    {
      s := initial;
    }

    /** flushLocked */
    method Flush(io: Oracle) returns (ok: bool)
      modifies this
      ensures (s, ok) == SpoolBase.Flush(old(s), io)
    {
      if s.active.None? {
        return true;
      }
      var (t, flushed) := FlushWriter(s, io);
      s, ok := t, flushed;
      if ok {
        s := s.(pendingLines := 0);
      }
    }

    /** resetWriterLocked */
    method ResetWriter(io: Oracle)
      modifies this
      ensures s == Spec.Reset(old(s), io)
    {
      if s.active.Some? {
        s := TrySeal(s, io).0;
      }
      s := Dropped(s);
    }

    /** rotateLocked */
    method Rotate(io: Oracle) returns (ok: bool)
      requires s.active.Some?
      modifies this
      ensures (s, ok) == Spec.Rotate(old(s), io)
    {
      var flushed := Flush(io);
      if !flushed {
        ResetWriter(io);
        return false;
      }
      var (t, sealed) := TrySeal(s, io);
      s := t;
      if !sealed {
        return true;
      }
      s := Dropped(s);
      var (u, close) := Ask(s, io);
      s := u;
      if !close.ok {
        return false;
      }
      var (v, isOpen) := OpenActive(s, io);
      s, ok := v, isOpen;
    }

    /** The flush before an early or final return. */
    method Finish(total: nat, written: nat, io: Oracle) returns (r: Spec.Appended)
      requires written <= total
      modifies this
      ensures (s, r) == Spec.Finish(old(s), total, written, io)
    {
      var ok := Flush(io);
      if ok {
        return Spec.Appended(written, if written == total then None else Some(Spec.Full));
      }
      r := Spec.Appended(written, Some(Spec.Loss(s.pendingLines + (total - written))));
      ResetWriter(io);
    }

    /** The over-budget check; with an empty buffer it measures first. */
    method Measure(line: Line, io: Oracle) returns (over: bool)
      modifies this
      ensures s == Spec.Measured(old(s), line, io) && over == OverBudget(s, line)
    {
      over := OverBudget(s, line);
      if over && s.pendingLines == 0 {
        s := Refresh(s, io);
        over := OverBudget(s, line);
      }
    }

    /** One line through the writer, the counters and a possible rotation. */
    method WriteOne(lines: seq<Line>, i: nat, io: Oracle) returns (more: bool, r: Spec.Appended)
      requires s.active.Some? && i < |lines|
      modifies this
      ensures (s, more, r) == Spec.WriteOne(old(s), lines, i, io)
    {
      more := false;
      var (t, ok) := HandLine(s, lines[i], io);
      s := t;
      if !ok {
        r := Spec.Appended(i, Some(Spec.Loss(s.pendingLines + (|lines| - i))));
        ResetWriter(io);
        return;
      }
      s := Counted(s, lines[i]);
      r := Spec.Appended(i + 1, Some(Spec.Loss(s.pendingLines + (|lines| - (i + 1)))));
      more := true;
      if s.activeBytes >= s.rotateBytes {
        more := Rotate(io);
      }
    }

    /** The line loop of appendLines. */
    method AppendLoop(lines: seq<Line>, io: Oracle) returns (r: Spec.Appended)
      requires s.active.Some?
      modifies this
      ensures (s, r) == Spec.AppendFrom(old(s), lines, 0, io)
    {
      for written := 0 to |lines|
        invariant s.active.Some?
        invariant Spec.AppendFrom(s, lines, written, io) == Spec.AppendFrom(old(s), lines, 0, io)
      {
        var over := Measure(lines[written], io);
        if over {
          r := Finish(|lines|, written, io);
          return;
        }
        var more, stopped := WriteOne(lines, written, io);
        if !more {
          return stopped;
        }
      }
      r := Finish(|lines|, |lines|, io);
    }

    /** appendLines: what was buffered is on disk or reported lost, nothing stays in the buffer. */
    method AppendLines(lines: seq<Line>, io: Oracle) returns (r: Spec.Appended)
      requires Quiet(s)
      modifies this
      ensures (s, r) == Spec.Append(old(s), lines, io)
      ensures Quiet(s)
      ensures exists m: nat :: Spec.Honest(r, m, |lines|) && Log(s) == old(Log(s)) + lines[..m]
    {
      ghost var m := Spec.AppendKeeps(s, lines, io);
      if s.closed {
        return Spec.Appended(0, Some(Spec.Closed));
      }
      if s.maxBytes < 0 {
        return Spec.Appended(0, Some(Spec.Unavailable));
      }
      s := Spec.RefreshIfDue(s, io);
      if s.active.None? {
        var (t, isOpen) := OpenActive(s, io);
        s := t;
        if !isOpen {
          return Spec.Appended(0, Some(Spec.OpenFailed));
        }
      }
      r := AppendLoop(lines, io);
    }

    /** sealIfIdle */
    method SealIfIdle(io: Oracle)
      modifies this
      ensures s == Spec.SealIfIdle(old(s), io)
    {
      if s.closed || s.active.None? {
        return;
      }
      var (t, idle) := Ask(s, io);
      s := t;
      if !idle.ok {
        return;
      }
      var ok := Flush(io);
      if !ok {
        ResetWriter(io);
        return;
      }
      var (u, sealed) := TrySeal(s, io);
      s := u;
      if sealed {
        s := Ask(Dropped(s), io).0;
      }
    }

    /** close */
    method Close(io: Oracle)
      modifies this
      ensures s == Spec.Close(old(s), io)
    {
      if s.closed {
        return;
      }
      var _ := Flush(io);
      ResetWriter(io);
      s := s.(closed := true);
    }
  }
}
