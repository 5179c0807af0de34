/** What the two spools share about I/O that works, and about what is on disk when a call fails. */
module SpoolFaults {
  import opened Bytes
  import opened Options
  import opened SpoolBase

  // ---- I/O that works ----

  /** No I/O call fails from now on; the panel may still delete files. */
  ghost predicate Works(io: Oracle, tick: nat) {
    forall k :: k >= tick ==> io(k).ok
  }

  predicate CanWrite(s: Spool) {
    s.active.Some? && !s.active.value.w.failed
  }

  /** t is s after successful I/O that moved no counter. */
  ghost predicate Progressed(s: Spool, t: Spool) {
    t == s.(active := t.active, files := t.files, tick := t.tick) && t.tick >= s.tick
  }

  lemma WorkingPush(s: Spool, upto: nat, io: Oracle)
    requires CanWrite(s) && Works(io, s.tick)
    ensures var (t, ok) := Push(s, upto, io); ok && CanWrite(t) && Progressed(s, t)
  {
  }

  lemma WorkingHandLine(s: Spool, line: Line, io: Oracle)
    requires CanWrite(s) && Works(io, s.tick)
    ensures var (t, ok) := HandLine(s, line, io); ok && CanWrite(t) && Progressed(s, t)
  {
    hide Push, WriteLine, WriteNewline;
    WorkingLine(s, line, io);
    WorkingNewline(WriteLine(s, line, io).0, io);
  }

  lemma WorkingLine(s: Spool, line: Line, io: Oracle)
    requires CanWrite(s) && Works(io, s.tick)
    ensures var (t, ok) := WriteLine(s, line, io); ok && CanWrite(t) && Progressed(s, t)
  {
    hide Push;
    var w := s.active.value.w;
    var end := w.handed + |line|;
    var t := Accept(s, w.stream + [line], end);
    if end - w.durable > BUFFER_SIZE {
      if w.handed == w.durable {
        WorkingPush(t, end, io);
      } else {
        WorkingPush(t, w.durable + BUFFER_SIZE, io);
        WorkingPush(Push(t, w.durable + BUFFER_SIZE, io).0, end, io);
      }
    }
  }

  lemma WorkingNewline(s: Spool, io: Oracle)
    requires CanWrite(s) && Works(io, s.tick)
    ensures var (t, ok) := WriteNewline(s, io); ok && CanWrite(t) && Progressed(s, t)
  {
    hide Push;
    WorkingPush(s, s.active.value.w.handed, io);
  }

  lemma WorkingFlush(s: Spool, io: Oracle)
    requires CanWrite(s) && Works(io, s.tick)
    ensures var (t, ok) := Flush(s, io);
            ok && CanWrite(t) && Progressed(s.(pendingLines := 0), t) && t.pendingLines == 0
  {
    hide Push;
    WorkingPush(s, s.active.value.w.handed, io);
  }

  lemma WorkingTrySeal(s: Spool, io: Oracle)
    requires s.active.Some? && Works(io, s.tick)
    ensures var (t, ok) := TrySeal(s, io);
            && ok && t.tick >= s.tick
            && t == s.(files := t.files, entriesByFile := t.entriesByFile, nextPath := t.nextPath, tick := t.tick)
  {
  }

  /** A sealed file has left its active name. */
  lemma SealedAway(s: Spool, io: Oracle)
    requires s.active.Some? && s.active.value.path < s.nextPath && Works(io, s.tick)
    ensures s.active.value.path !in TrySeal(s, io).0.files
  {
  }

  /** t is s after a successful change of files: no counter but activeBytes moved. */
  ghost predicate Switched(s: Spool, t: Spool) {
    && CanWrite(t) && SameSettings(s, t) && t.rotateBytes == s.rotateBytes && t.refreshed == s.refreshed
    && t.totalBytes == s.totalBytes && t.totalEntries == s.totalEntries && t.activeBytes == 0 && t.tick >= s.tick
  }

  predicate RotatedInTime(s: Spool) {
    s.activeBytes < s.rotateBytes || s.activeBytes == 0
  }

  /** t is s with one more line counted. */
  ghost predicate TookOne(s: Spool, t: Spool, line: Line) {
    && CanWrite(t) && t.tick >= s.tick && SameSettings(s, t) && t.rotateBytes == s.rotateBytes
    && t.totalBytes == s.totalBytes + LineSize(line) && t.totalEntries == s.totalEntries + 1 && RotatedInTime(t)
  }

  // ---- How a call fails ----

  /** Broken: a write or flush failed, with this stream handed over and these bytes of it in the file; confirmed
      counts the lines flushed before, first is the place of the batch's first line, negative if an earlier
      rotation sealed it. Sealing: a file was flushed, but sealing it and opening the next one failed. */
  datatype Failure = NoLoss | Sealing | Broken(stream: seq<Line>, durable: nat, confirmed: int, first: int)

  function BrokenAt(s: Spool, t: Spool, i: nat): Failure
    requires s.active.Some? && t.active.Some?
  {
    var n, w := |s.active.value.w.stream|, t.active.value.w;
    Broken(w.stream, w.durable, n - s.pendingLines, n - i)
  }

  /** The flush before returning with i lines handed over. */
  function FlushFailure(s: Spool, i: nat, io: Oracle): Failure
    requires s.active.Some?
  {
    var (t, ok) := FlushWriter(s, io);
    if ok then NoLoss else BrokenAt(s, t, i)
  }

  /** Line i did not go through: its write failed, or the rotation after it. */
  function LineFailure(s: Spool, lines: seq<Line>, i: nat, io: Oracle): Failure
    requires s.active.Some? && i < |lines|
  {
    var (t, ok) := HandLine(s, lines[i], io);
    if !ok then BrokenAt(s, t, i)
    else
      var f := FlushFailure(Counted(t, lines[i]), i + 1, io);
      if f.NoLoss? then Sealing else f
  }

  /** Fewer bytes are in the file than line k of the stream needs. */
  predicate Misses(stream: seq<Line>, durable: nat, k: int) {
    k >= |stream| || (k >= 0 && durable < Size(stream[..k + 1]))
  }

  /** The first unconfirmed line did not reach the file. */
  predicate LossIsExact(f: Failure) {
    match f
    case NoLoss => true
    case Sealing => false
    case Broken(stream, durable, confirmed, _) => Misses(stream, durable, confirmed)
  }

  /** The first line of the batch did not reach the disk. */
  predicate NothingIsExact(f: Failure) {
    match f
    case NoLoss => true
    case Sealing => false
    case Broken(stream, durable, _, first) => Misses(stream, durable, first)
  }

  lemma {:induction false} WholeFits(ls: seq<Line>, bytes: nat)
    ensures Size(ls[..Whole(ls, bytes)]) <= bytes
  {
    if Size(ls) <= bytes {
      assert ls[..|ls|] == ls;
    } else {
      var init, k := ls[..|ls| - 1], Whole(ls, bytes);
      WholeFits(init, bytes);
      assert init[..k] == ls[..k];
    }
  }

  /** With the first k lines in the file, exactly they are whole there if and only if the next one is missing. */
  lemma WholeIff(ls: seq<Line>, bytes: nat, k: nat)
    requires k <= |ls| && Size(ls[..k]) <= bytes
    ensures Whole(ls, bytes) >= k
    ensures Whole(ls, bytes) == k <==> Misses(ls, bytes, k)
  {
    var w := Whole(ls, bytes);
    WholeCovers(ls, k, bytes);
    WholeFits(ls, bytes);
    if k < |ls| {
      if bytes >= Size(ls[..k + 1]) {
        WholeCovers(ls, k + 1, bytes);
      } else if w > k {
        assert ls[..w][..k + 1] == ls[..k + 1];
        SizeMonotone(ls[..w], k + 1);
      }
    }
  }

  /** Exactly m lines are whole within the bytes of the first m. */
  lemma {:induction false} WholeOfPrefix(ls: seq<Line>, m: nat)
    requires m <= |ls|
    ensures Whole(ls, Size(ls[..m])) == m
  {
    if m == |ls| {
      assert ls[..m] == ls;
    } else {
      var n := |ls| - 1;
      SizeMonotone(ls[..n], m);
      assert ls[..n][..m] == ls[..m];
      WholeOfPrefix(ls[..n], m);
    }
  }
}
