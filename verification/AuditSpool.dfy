/** The HTTP audit spool object, proved equal to the functions of AuditSpoolSpec, and the shipper's spill. */
module AuditSpool {
  import opened Bytes
  import opened Options
  import opened SpoolBase
  import opened SpoolFaults
  import Spec = AuditSpoolSpec
  import Proofs = AuditAppend
  import Delivery = AuditDelivery

  class AuditSpool {
    var s: Spool

    constructor (initial: Spool)
      ensures s == initial
    {
      s := initial;
    }

    /** flushLocked */
    method Flush(io: Oracle) returns (ok: bool)
      modifies this
      ensures (s, ok) == SpoolBase.Flush(old(s), io)
    {
      if s.active.None? {
        return true;
      }
      var (t, flushed) := FlushWriter(s, io);
      s, ok := t, flushed;
      if ok {
        s := s.(pendingLines := 0);
      }
    }

    /** resetWriterLocked */
    method ResetWriter(io: Oracle)
      modifies this
      ensures s == Spec.Reset(old(s), io)
    {
      if s.active.None? {
        s := s.(pendingLines := 0);
        return;
      }
      var path := s.active.value.path;
      var (t, stat) := Ask(s, io);
      s := t;
      if stat.ok {
        if path in s.files && s.files[path] > 0 {
          s := TrySeal(s, io).0;
        } else {
          var (u, removed) := Ask(s, io);
          s := u;
          if removed.ok {
            s := s.(files := s.files - {path});
          }
        }
      }
      s := Dropped(s);
    }

    /** rotateLocked */
    method Rotate(io: Oracle) returns (ok: bool)
      requires s.active.Some?
      modifies this
      ensures (s, ok) == Spec.Rotate(old(s), io)
    {
      var flushed := Flush(io);
      if !flushed {
        ResetWriter(io);
        return false;
      }
      var (t, named) := Ask(s, io);
      s := t;
      if !named.ok {
        return false;
      }
      var (u, renamed) := Ask(s, io);
      s := u;
      if !renamed.ok {
        return true;
      }
      s := Dropped(Renamed(s, s.active.value.path));
      var (v, close) := Ask(s, io);
      s := v;
      if !close.ok {
        return false;
      }
      var (w, isOpen) := OpenActive(s, io);
      s, ok := w, isOpen;
    }

    method Finish(total: nat, handed: nat, persisted: nat, io: Oracle) returns (r: Spec.Appended)
      modifies this
      ensures (s, r) == Spec.Finish(old(s), total, handed, persisted, io)
    {
      var ok := Flush(io);
      if !ok {
        ResetWriter(io);
        return Spec.Appended(persisted, Some(Spec.IOFailed));
      }
      r := Spec.Appended(handed, if handed == total then None else Some(Spec.Full));
    }

    /** One line through the writer, the counters and a possible rotation. */
    method WriteOne(lines: seq<Line>, handed: nat, persisted: nat, io: Oracle)
      returns (stop: Option<Spec.SpoolError>, vouched: nat)
      requires s.active.Some? && handed < |lines|
      modifies this
      ensures (s, stop, vouched) == Spec.WriteOne(old(s), lines, handed, persisted, io)
    {
      stop, vouched := None, persisted;
      var (t, ok) := HandLine(s, lines[handed], io);
      s := t;
      if !ok {
        ResetWriter(io);
        stop := Some(Spec.LineFailed);
        return;
      }
      s := Counted(s, lines[handed]);
      if s.activeBytes >= s.rotateBytes {
        var rotated := Rotate(io);
        if rotated {
          vouched := handed + 1;
        } else {
          stop := Some(Spec.IOFailed);
        }
      }
    }

    /** The line loop of appendLines. */
    method AppendLoop(lines: seq<Line>, io: Oracle) returns (r: Spec.Appended)
      requires s.active.Some?
      modifies this
      ensures (s, r) == Spec.AppendFrom(old(s), lines, 0, 0, io)
    {
      var persisted: nat := 0;
      for handed := 0 to |lines|
        invariant s.active.Some? && persisted <= handed
        invariant Spec.AppendFrom(s, lines, handed, persisted, io) == Spec.AppendFrom(old(s), lines, 0, 0, io)
      {
        if OverBudget(s, lines[handed]) {
          r := Finish(|lines|, handed, persisted, io);
          return;
        }
        var stop, vouched := WriteOne(lines, handed, persisted, io);
        if stop.Some? {
          return Spec.Appended(persisted, stop);
        }
        persisted := vouched;
      }
      r := Finish(|lines|, |lines|, persisted, io);
    }

    /** appendLines: a prefix of the batch is on disk in order, as long as the count says unless I/O failed, and
        all of it if there is room and I/O works; nothing stays in the buffer. */
    method AppendLines(lines: seq<Line>, io: Oracle) returns (r: Spec.Appended)
      requires Quiet(s)
      modifies this
      ensures (s, r) == Spec.Append(old(s), lines, io)
      ensures Quiet(s)
      ensures exists m: nat :: Proofs.Honest(r, m, |lines|) && Log(s) == old(Log(s)) + lines[..m]
      ensures old(Delivery.HasRoom(s, lines)) && Works(io, old(s.tick)) ==> r == Spec.Appended(|lines|, None)
      ensures Proofs.Trustworthy(old(s), io) ==> Disk(s) <= Proofs.Max(old(Disk(s)), s.maxBytes)
      ensures !s.closed && Proofs.Trustworthy(old(s), io) && r.error != Some(Spec.LineFailed) ==>
              Disk(s) <= s.totalBytes
    {
      ghost var m := Proofs.AppendKeeps(s, lines, io);
      if Delivery.HasRoom(s, lines) && Works(io, s.tick) {
        Delivery.RoomyAppend(s, lines, io);
      }
      if s.closed {
        return Spec.Appended(0, Some(Spec.Closed));
      }
      s := Refresh(s, io);
      if s.active.None? {
        var (t, isOpen) := OpenActive(s, io);
        s := t;
        if !isOpen {
          return Spec.Appended(0, Some(Spec.IOFailed));
        }
      }
      r := AppendLoop(lines, io);
    }

    /** sealIfIdle */
    method SealIfIdle(io: Oracle)
      modifies this
      ensures s == Spec.SealIfIdle(old(s), io)
    {
      if s.closed || s.active.None? {
        return;
      }
      var (t, idle) := Ask(s, io);
      s := t;
      if !idle.ok {
        return;
      }
      var ok := Flush(io);
      if !ok {
        ResetWriter(io);
        return;
      }
      var (u, sealed) := TrySeal(s, io);
      s := u;
      if sealed {
        s := Ask(Dropped(s), io).0;
      }
    }

    /** close */
    method Close(io: Oracle)
      modifies this
      ensures s == Spec.Close(old(s), io)
    {
      if s.closed {
        return;
      }
      var _ := Flush(io);
      if s.active.Some? {
        s := Dropped(TrySeal(s, io).0);
      }
      s := s.(closed := true);
    }

    /** spill: counts what the spool vouches for and returns the lines for the audit file, in order. */
    method Spill(batch: seq<Line>, io: Oracle) returns (spooled: nat, fallback: seq<Line>)
      requires Quiet(s)
      modifies this
      ensures Quiet(s) && spooled + |fallback| == |batch| && fallback == batch[spooled..]
      ensures exists m: nat :: spooled <= m <= |batch| && Log(s) == old(Log(s)) + batch[..m]
      ensures old(Delivery.HasRoom(s, batch)) && Works(io, old(s.tick)) ==> fallback == []
    {
      hide Spec.Append;
      var r := AppendLines(batch, io);
      spooled := r.written;
      fallback := [];
      for i := spooled to |batch|
        invariant fallback == batch[spooled..i]
      {
        fallback := fallback + [batch[i]];
      }
    }
  }
}
