/** The HTTP audit spool as functions of its state and the I/O oracle: what an append promises the
    fallback path, and exactly when the byte budget holds. Its source has no pendingLines; here that
    field only counts, for the proofs, the lines handed over since the last flush. */
module AuditSpoolSpec {
  import opened Bytes
  import opened Options
  import opened SpoolBase

  /** LineFailed: the write of a line or of its newline failed, somewhere in the line. */
  datatype SpoolError = Full | Closed | LineFailed | IOFailed
  datatype Appended = Appended(written: nat, error: Option<SpoolError>)

  function RemoveActive(s: Spool): Spool
    requires s.active.Some?
  {
    s.(files := s.files - {s.active.value.path})
  }

  /** resetWriterLocked: by the size on disk, seal the file or remove it. */
  function Reset(s: Spool, io: Oracle): Spool {
    if s.active.None? then s.(pendingLines := 0)
    else
      var (t, stat) := Ask(s, io);
      var path := s.active.value.path;
      if !stat.ok then Dropped(t)
      else if path in t.files && t.files[path] > 0 then Dropped(TrySeal(t, io).0)
      else
        var (u, removed) := Ask(t, io);
        if removed.ok then Dropped(RemoveActive(u)) else Dropped(u)
  }

  /** rotateLocked after its flush: no sealed name is an error, a failed rename is not. */
  function SealAndReopen(t: Spool, io: Oracle): (r: (Spool, bool))
    requires t.active.Some?
    ensures r.1 ==> r.0.active.Some?
  {
    var (u, named) := Ask(t, io);
    if !named.ok then (u, false)
    else
      var (v, renamed) := Ask(u, io);
      if !renamed.ok then (v, true)
      else
        var (x, close) := Ask(Dropped(Renamed(v, t.active.value.path)), io);
        if !close.ok then (x, false) else OpenActive(x, io)
  }

  function Rotate(s: Spool, io: Oracle): (r: (Spool, bool))
    requires s.active.Some?
    ensures r.1 ==> r.0.active.Some?
  {
    var (t, ok) := Flush(s, io);
    if !ok then (Reset(t, io), false) else SealAndReopen(t, io)
  }

  /** The flush before returning: all handed lines are on disk, or only the persisted ones are vouched for. */
  function Finish(s: Spool, total: nat, handed: nat, persisted: nat, io: Oracle): (Spool, Appended) {
    var (t, ok) := Flush(s, io);
    if ok then (t, Appended(handed, if handed == total then None else Some(Full)))
    else (Reset(t, io), Appended(persisted, Some(IOFailed)))
  }

  function RotateIfFull(s: Spool, io: Oracle): (r: (Spool, bool))
    requires s.active.Some?
    ensures r.1 ==> r.0.active.Some?
  {
    if s.activeBytes < s.rotateBytes then (s, true) else Rotate(s, io)
  }

  /** A successful rotation vouches for every handed line. */
  function PersistedAfter(s: Spool, rotated: bool, handed: nat, persisted: nat): (r: nat)
    ensures r == handed || r == persisted
  {
    if s.activeBytes < s.rotateBytes || !rotated then persisted else handed
  }

  /** One line goes to the writer: the new state, the error that stops the loop, and the count vouched for. */
  function WriteOne(s: Spool, lines: seq<Line>, handed: nat, persisted: nat,
                    io: Oracle): (x: (Spool, Option<SpoolError>, nat))
    requires handed < |lines| && s.active.Some?
    ensures x.1.None? ==> x.0.active.Some?
    ensures x.2 == handed + 1 || x.2 == persisted
  {
    var (t, ok) := HandLine(s, lines[handed], io);
    if !ok then (Reset(t, io), Some(LineFailed), persisted)
    else
      var v := Counted(t, lines[handed]);
      var (w, rotated) := RotateIfFull(v, io);
      (w, if rotated then None else Some(IOFailed), PersistedAfter(v, rotated, handed + 1, persisted))
  }

  /** The line loop of appendLines. */
  function AppendFrom(s: Spool, lines: seq<Line>, handed: nat, persisted: nat, io: Oracle): (Spool, Appended)
    requires persisted <= handed <= |lines| && s.active.Some?
    decreases |lines| - handed
  {
    if handed == |lines| || OverBudget(s, lines[handed]) then Finish(s, |lines|, handed, persisted, io)
    else
      var (t, stop, vouched) := WriteOne(s, lines, handed, persisted, io);
      if stop.None? then AppendFrom(t, lines, handed + 1, vouched, io)
      else (t, Appended(persisted, stop))
  }

  /** appendLines */
  function Append(s: Spool, lines: seq<Line>, io: Oracle): (Spool, Appended) {
    if s.closed then (s, Appended(0, Some(Closed)))
    else
      var r := Refresh(s, io);
      if r.active.Some? then AppendFrom(r, lines, 0, 0, io)
      else
        var (t, isOpen) := OpenActive(r, io);
        if isOpen then AppendFrom(t, lines, 0, 0, io) else (t, Appended(0, Some(IOFailed)))
  }

  /** sealIfIdle; the idle clock is the oracle's first answer. */
  function SealIfIdle(s: Spool, io: Oracle): Spool {
    if s.closed || s.active.None? then s
    else
      var (t, idle) := Ask(s, io);
      if !idle.ok then t
      else
        var (u, ok) := Flush(t, io);
        if !ok then Reset(u, io) else SealFlushed(u, io)
  }

  /** close: the file is sealed if that works, and given up in any case. */
  function Close(s: Spool, io: Oracle): Spool {
    if s.closed then s
    else if s.active.None? then s.(closed := true)
    else
      var (t, _) := Flush(s, io);
      Dropped(TrySeal(t, io).0).(closed := true)
  }

  /** openAuditSpool on a directory with these files: a failed scan leaves the counter at 0. */
  function Open(files: map<Path, nat>, nextPath: Path, maxBytes: int, maxEntries: int, rotateBytes: int,
                scanned: bool): Spool {
    var s := Spool(false, maxBytes, maxEntries, rotateBytes, None, 0, 0, 0, 0, map[], false, files, nextPath, [], 0);
    if scanned then s.(totalBytes := Disk(s)) else s
  }
}
