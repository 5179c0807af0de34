/** Parts shared by the two event spools: a file behind a buffered writer, the directory the panel
    deletes from, and an oracle for the outcome of every call that touches the disk. */
module SpoolBase {
  import opened Bytes
  import opened Options

  /** One event line without its newline. */
  type Line = seq<Byte>
  type Path = nat

  const BUFFER_SIZE: nat := 32 * 1024

  /** One I/O outcome: success, bytes that still reached the file when it failed, and the spool
      files the panel had deleted by then. */
  datatype Choice = Choice(ok: bool, n: nat, removed: set<Path>)
  type Oracle = nat -> Choice

  /** An open file and its bufio.Writer: the lines handed over, the bytes handed over, the bytes that
      are in the file, and bufio's sticky error. */
  datatype Writer = Writer(stream: seq<Line>, handed: nat, durable: nat, failed: bool)
  datatype Active = Active(path: Path, w: Writer)

  datatype Spool = Spool(
    closed: bool, maxBytes: int, maxEntries: int, rotateBytes: int,
    active: Option<Active>, pendingLines: nat, activeBytes: nat,
    totalBytes: int, totalEntries: int, entriesByFile: map<Path, nat>, refreshed: bool,
    files: map<Path, nat>, nextPath: Path, past: seq<Line>, tick: nat)

  // ---- Sizes ----

  function LineSize(l: Line): nat {
    |l| + 1
  }

  function Size(ls: seq<Line>): nat {
    if ls == [] then 0 else Size(ls[..|ls| - 1]) + LineSize(ls[|ls| - 1])
  }

  /** How many lines of the stream are complete, newline included, within the first bytes. */
  function Whole(ls: seq<Line>, bytes: nat): (n: nat)
    ensures n <= |ls|
  {
    if Size(ls) <= bytes then |ls|
    else Whole(ls[..|ls| - 1], bytes)
  }

  lemma SizeAppend(ls: seq<Line>, l: Line)
    ensures Size(ls + [l]) == Size(ls) + LineSize(l)
  {
    assert (ls + [l])[..|ls|] == ls;
  }

  lemma {:induction false} SizeMonotone(ls: seq<Line>, k: nat)
    requires k <= |ls|
    ensures Size(ls[..k]) <= Size(ls)
  {
    if k < |ls| {
      SizeMonotone(ls[..|ls| - 1], k);
      assert ls[..|ls| - 1][..k] == ls[..k];
    } else {
      assert ls[..k] == ls;
    }
  }

  lemma SizeNext(ls: seq<Line>, i: nat)
    requires i < |ls|
    ensures Size(ls[..i + 1]) == Size(ls[..i]) + LineSize(ls[i]) <= Size(ls)
  {
    hide Size;
    assert ls[..i + 1] == ls[..i] + [ls[i]];
    SizeAppend(ls[..i], ls[i]);
    SizeMonotone(ls, i + 1);
  }

  /** Bytes that cover the first k lines make at least k lines whole. */
  lemma {:induction false} WholeCovers(ls: seq<Line>, k: nat, bytes: nat)
    requires k <= |ls| && Size(ls[..k]) <= bytes
    ensures Whole(ls, bytes) >= k
  {
    if k < |ls| && Size(ls) > bytes {
      assert ls[..|ls| - 1][..k] == ls[..k];
      WholeCovers(ls[..|ls| - 1], k, bytes);
    } else {
      assert k == |ls| ==> ls[..k] == ls;
    }
  }

  // ---- The directory ----

  function SumBelow(files: map<Path, nat>, n: nat): nat {
    if n == 0 then 0 else SumBelow(files, n - 1) + (if n - 1 in files then files[n - 1] else 0)
  }

  /** Bytes of all spool files on disk. */
  function Disk(s: Spool): nat {
    SumBelow(s.files, s.nextPath)
  }

  /** Bytes still in the writer's buffer. */
  function Buffered(s: Spool): int {
    match s.active
    case None => 0
    case Some(a) => a.w.handed - a.w.durable
  }

  lemma {:induction false} SumShrinks(f: map<Path, nat>, g: map<Path, nat>, n: nat)
    requires forall p :: p in g ==> p in f && g[p] <= f[p]
    ensures SumBelow(g, n) <= SumBelow(f, n)
  {
    if n > 0 {
      SumShrinks(f, g, n - 1);
    }
  }

  lemma {:induction false} SumUpdate(f: map<Path, nat>, p: Path, v: nat, n: nat)
    ensures SumBelow(f[p := v], n) ==
            SumBelow(f, n) + (if p < n then v - (if p in f then f[p] else 0) else 0)
  {
    if n > 0 {
      SumUpdate(f, p, v, n - 1);
    }
  }

  lemma {:induction false} SumRemove(f: map<Path, nat>, p: Path, n: nat)
    requires p in f
    ensures SumBelow(f - {p}, n) == SumBelow(f, n) - (if p < n then f[p] else 0)
  {
    if n > 0 {
      SumRemove(f, p, n - 1);
    }
  }

  /** The panel deletes only files the writer does not hold open. */
  function Deleted(s: Spool, removed: set<Path>): Spool {
    s.(files := s.files - (if s.active.Some? then removed - {s.active.value.path} else removed))
  }

  /** The next I/O call happens: panel deletions up to now take effect, and its outcome is known. */
  function Ask(s: Spool, io: Oracle): (Spool, Choice) {
    (Deleted(s.(tick := s.tick + 1), io(s.tick).removed), io(s.tick))
  }

  // ---- The buffered writer ----

  function Min(a: nat, b: nat): nat {
    if a <= b then a else b
  }

  function SetWriter(s: Spool, w: Writer): Spool
    requires s.active.Some?
  {
    s.(active := Some(Active(s.active.value.path, w)), files := s.files[s.active.value.path := w.durable])
  }

  /** The open file's writer takes over more bytes; nothing is written yet. */
  function Accept(s: Spool, stream: seq<Line>, handed: nat): Spool
    requires s.active.Some?
  {
    s.(active := Some(s.active.value.(w := s.active.value.w.(stream := stream, handed := handed))))
  }

  /** One write to the file, of all bytes up to the given one; on failure any number of them may have
      arrived, and the error sticks. */
  function Push(s: Spool, upto: nat, io: Oracle): (r: (Spool, bool))
    requires s.active.Some?
    ensures r.0.active.Some?
  {
    var w := s.active.value.w;
    var (s1, c) := Ask(s, io);
    var more := if upto >= w.durable then upto - w.durable else 0;
    (SetWriter(s1, w.(durable := w.durable + (if c.ok then more else Min(c.n, more)), failed := !c.ok)), c.ok)
  }

  /** bw.Write(line): a line that fits what is left of the buffer causes no I/O. A longer one fills and
      writes the buffer first, unless that is empty; a rest above the buffer size is written directly. */
  function WriteLine(s: Spool, line: Line, io: Oracle): (r: (Spool, bool))
    requires s.active.Some?
    ensures r.0.active.Some?
  {
    var w := s.active.value.w;
    if w.failed then (s, false)
    else
      var end := w.handed + |line|;
      var t := Accept(s, w.stream + [line], end);
      if end - w.durable <= BUFFER_SIZE then (t, true)
      else if w.handed == w.durable then Push(t, end, io)
      else
        var (u, ok) := Push(t, w.durable + BUFFER_SIZE, io);
        if ok && end - w.durable > 2 * BUFFER_SIZE then Push(u, end, io) else (u, ok)
  }

  /** bw.WriteByte('\n'): a full buffer is written first. */
  function WriteNewline(s: Spool, io: Oracle): (r: (Spool, bool))
    requires s.active.Some?
    ensures r.0.active.Some?
  {
    var w := s.active.value.w;
    if w.failed then (s, false)
    else if w.handed - w.durable < BUFFER_SIZE then (Accept(s, w.stream, w.handed + 1), true)
    else
      var (t, ok) := Push(s, w.handed, io);
      if ok then (Accept(t, w.stream, w.handed + 1), true) else (t, false)
  }

  /** The line and its newline go to the buffered writer. */
  function HandLine(s: Spool, line: Line, io: Oracle): (r: (Spool, bool))
    requires s.active.Some?
    ensures r.0.active.Some?
  {
    var (t, ok) := WriteLine(s, line, io);
    if !ok then (t, false) else WriteNewline(t, io)
  }

  /** bw.Flush(): a sticky error is reported without I/O, an empty buffer succeeds without I/O. */
  function FlushWriter(s: Spool, io: Oracle): (Spool, bool)
    requires s.active.Some?
  {
    var w := s.active.value.w;
    if w.failed then (s, false)
    else if w.durable >= w.handed then (s, true)
    else Push(s, w.handed, io)
  }

  /** flushLocked */
  function Flush(s: Spool, io: Oracle): (Spool, bool) {
    if s.active.None? then (s, true)
    else
      var (t, ok) := FlushWriter(s, io);
      (if ok then t.(pendingLines := 0) else t, ok)
  }

  /** open(O_EXCL): paths come from a counter, so a name is never reused. */
  function OpenActive(s: Spool, io: Oracle): (Spool, bool) {
    var (s1, c) := Ask(s, io);
    if c.ok then
      (s1.(active := Some(Active(s.nextPath, Writer([], 0, 0, false))), activeBytes := 0,
           files := s1.files[s.nextPath := 0], nextPath := s.nextPath + 1), true)
    else (s1, false)
  }

  /** A map with one key moved. */
  function Moved(m: map<Path, nat>, from: Path, to: Path, v: nat): map<Path, nat> {
    (m - {from})[to := v]
  }

  /** The file is renamed to a sealed name and its entry count follows. */
  function Renamed(s: Spool, path: Path): Spool {
    s.(files := Moved(s.files, path, s.nextPath, if path in s.files then s.files[path] else 0),
       entriesByFile := if path in s.entriesByFile
                        then Moved(s.entriesByFile, path, s.nextPath, s.entriesByFile[path]) else s.entriesByFile,
       nextPath := s.nextPath + 1)
  }

  /** A sealed name is found, then the rename is tried; both may fail. */
  function TrySeal(s: Spool, io: Oracle): (Spool, bool)
    requires s.active.Some?
  {
    var (s1, named) := Ask(s, io);
    if !named.ok then (s1, false)
    else
      var (s2, renamed) := Ask(s1, io);
      if !renamed.ok then (s2, false) else (Renamed(s2, s.active.value.path), true)
  }

  /** The writer is dropped: what is whole in its file stays there. */
  function Dropped(s: Spool): Spool {
    match s.active
    case None => s.(pendingLines := 0)
    case Some(a) =>
      s.(active := None, pendingLines := 0, past := s.past + a.w.stream[..Whole(a.w.stream, a.w.durable)])
  }

  /** A flushed file is sealed, and closed if that worked. */
  function SealFlushed(s: Spool, io: Oracle): Spool
    requires s.active.Some?
  {
    var (t, sealed) := TrySeal(s, io);
    if sealed then Ask(Dropped(t), io).0 else t
  }

  function Listed(entries: map<Path, nat>, files: map<Path, nat>): map<Path, nat> {
    map p | p in entries && p in files :: entries[p]
  }

  /** A directory scan: on failure the old counts stay. */
  function Refresh(s: Spool, io: Oracle): Spool {
    var (s1, c) := Ask(s, io);
    if !c.ok then s1
    else
      var kept := Listed(s1.entriesByFile, s1.files);
      s1.(totalBytes := Disk(s1), totalEntries := SumBelow(kept, s1.nextPath), entriesByFile := kept, refreshed := true)
  }

  predicate OverBudget(s: Spool, line: Line) {
    s.totalBytes + LineSize(line) > s.maxBytes || s.totalEntries + 1 > s.maxEntries
  }

  /** The counters after a line went to the writer. */
  function Counted(s: Spool, line: Line): Spool
    requires s.active.Some?
  {
    var path := s.active.value.path;
    s.(totalBytes := s.totalBytes + LineSize(line), totalEntries := s.totalEntries + 1,
       entriesByFile := s.entriesByFile[path := (if path in s.entriesByFile then s.entriesByFile[path] else 0) + 1],
       activeBytes := s.activeBytes + LineSize(line), pendingLines := s.pendingLines + 1)
  }

  // ---- Invariants ----

  /** All lines this process ever completed on disk, in order. */
  function Log(s: Spool): seq<Line> {
    match s.active
    case None => s.past
    case Some(a) => s.past + a.w.stream[..Whole(a.w.stream, a.w.durable)]
  }

  /** Lines on disk plus lines still in the buffer, in order. */
  function HandedOver(s: Spool): seq<Line> {
    match s.active
    case None => s.past
    case Some(a) => s.past + a.w.stream
  }

  /** Names in use are below the counter, and the open file's size is what the writer put there. */
  predicate DirOk(s: Spool) {
    && (forall p :: p in s.files ==> p < s.nextPath)
    && (s.active.Some? ==> s.active.value.path in s.files && s.files[s.active.value.path] == s.active.value.w.durable)
  }

  /** An open writer without error that got only whole lines. */
  predicate Healthy(w: Writer) {
    !w.failed && w.handed == Size(w.stream) && w.durable <= w.handed
  }

  /** The last pendingLines lines of the stream may still be in the buffer, no others. */
  predicate PendingOk(s: Spool) {
    && DirOk(s)
    && (s.active.Some? ==>
          var w := s.active.value.w;
          Healthy(w) && s.pendingLines <= |w.stream| && Size(w.stream[..|w.stream| - s.pendingLines]) <= w.durable)
    && (s.active.None? ==> s.pendingLines == 0)
  }

  /** Between calls nothing is buffered. */
  predicate Quiet(s: Spool) {
    PendingOk(s) && s.pendingLines == 0 && Buffered(s) == 0
  }

  lemma AskKeeps(s: Spool, io: Oracle)
    requires DirOk(s)
    ensures var (t, c) := Ask(s, io);
            && DirOk(t) && Disk(t) <= Disk(s) && t == s.(files := t.files, tick := s.tick + 1)
  {
    var (t, c) := Ask(s, io);
    SumShrinks(s.files, t.files, s.nextPath);
  }

  lemma DiskOfSet(s: Spool, w: Writer)
    requires DirOk(s) && s.active.Some?
    ensures DirOk(SetWriter(s, w))
    ensures Disk(SetWriter(s, w)) == Disk(s) + w.durable - s.active.value.w.durable
  {
    SumUpdate(s.files, s.active.value.path, w.durable, s.nextPath);
  }

  /** t is s with some more bytes in the writer, in the buffer or in the file. */
  ghost predicate WriterMoved(s: Spool, t: Spool, stream: seq<Line>, ok: bool) {
    && s.active.Some? && t.active.Some? && DirOk(t)
    && t == s.(active := t.active, files := t.files, tick := t.tick)
    && t.active.value.path == s.active.value.path
    && t.active.value.w.stream == stream && t.active.value.w.failed == !ok
    && s.active.value.w.durable <= t.active.value.w.durable <= t.active.value.w.handed
    && Disk(t) + Buffered(t) <= Disk(s) + Buffered(s) + t.active.value.w.handed - s.active.value.w.handed
  }

  predicate Sound(s: Spool) {
    DirOk(s) && s.active.Some? && !s.active.value.w.failed && s.active.value.w.durable <= s.active.value.w.handed
  }

  lemma PushKeeps(s: Spool, upto: nat, io: Oracle)
    requires Sound(s) && s.active.value.w.durable <= upto <= s.active.value.w.handed
    ensures var (t, ok) := Push(s, upto, io);
            && WriterMoved(s, t, s.active.value.w.stream, ok) && t.active.value.w.handed == s.active.value.w.handed
            && (ok ==> t.active.value.w.durable == upto)
  {
    AskKeeps(s, io);
    var (s1, c) := Ask(s, io);
    DiskOfSet(s1, Push(s, upto, io).0.active.value.w);
  }

  lemma AcceptKeeps(s: Spool, stream: seq<Line>, handed: nat)
    requires Sound(s) && s.active.value.w.handed <= handed
    ensures WriterMoved(s, Accept(s, stream, handed), stream, true) && Sound(Accept(s, stream, handed))
  {
  }

  /** Writing one more line keeps the confirmed lines, success or not. */
  lemma WriteLineKeeps(s: Spool, line: Line, io: Oracle)
    requires Sound(s)
    ensures var (t, ok) := WriteLine(s, line, io);
            && WriterMoved(s, t, s.active.value.w.stream + [line], ok)
            && t.active.value.w.handed == s.active.value.w.handed + |line|
  {
    hide Push, Accept, Disk, DirOk;
    var w := s.active.value.w;
    var end := w.handed + |line|;
    AcceptKeeps(s, w.stream + [line], end);
    var t := Accept(s, w.stream + [line], end);
    assert t.active.value.w.handed == end && t.active.value.w.durable == w.durable by {
      AcceptIs(s, w.stream + [line], end);
    }
    if end - w.durable > BUFFER_SIZE {
      if w.handed == w.durable {
        PushKeeps(t, end, io);
      } else {
        PushKeeps(t, w.durable + BUFFER_SIZE, io);
        var (u, ok) := Push(t, w.durable + BUFFER_SIZE, io);
        if ok && end - w.durable > 2 * BUFFER_SIZE {
          PushKeeps(u, end, io);
        }
      }
    }
  }

  lemma AcceptIs(s: Spool, stream: seq<Line>, handed: nat)
    requires s.active.Some?
    ensures var a := Accept(s, stream, handed).active;
            a.Some? && a.value.w == Writer(stream, handed, s.active.value.w.durable, s.active.value.w.failed)
  {
  }

  lemma WriteNewlineKeeps(s: Spool, io: Oracle)
    requires Sound(s)
    ensures var (t, ok) := WriteNewline(s, io);
            && WriterMoved(s, t, s.active.value.w.stream, ok)
            && t.active.value.w.handed == s.active.value.w.handed + (if ok then 1 else 0)
  {
    hide Push, Accept, Disk, DirOk;
    var w := s.active.value.w;
    if w.handed - w.durable < BUFFER_SIZE {
      AcceptKeeps(s, w.stream, w.handed + 1);
      AcceptIs(s, w.stream, w.handed + 1);
    } else {
      PushKeeps(s, w.handed, io);
      var (t, ok) := Push(s, w.handed, io);
      if ok {
        AcceptKeeps(t, w.stream, w.handed + 1);
        AcceptIs(t, w.stream, w.handed + 1);
      }
    }
  }

  lemma FlushWriterKeeps(s: Spool, io: Oracle)
    requires PendingOk(s) && s.active.Some?
    ensures var (t, ok) := FlushWriter(s, io);
            && WriterMoved(s, t, s.active.value.w.stream, ok) && t.active.value.w.handed == s.active.value.w.handed
            && (ok ==> t.active.value.w.durable == t.active.value.w.handed)
            && (Buffered(s) == 0 ==> t == s)
  {
    if s.active.value.w.durable < s.active.value.w.handed {
      PushKeeps(s, s.active.value.w.handed, io);
    }
  }

  lemma OpenActiveKeeps(s: Spool, io: Oracle)
    requires DirOk(s) && s.active.None? && s.pendingLines == 0
    ensures var (t, ok) := OpenActive(s, io);
            && Quiet(t) && t.active.Some? == ok && t.past == s.past && Disk(t) <= Disk(s)
            && (ok ==> t.active.value.w.stream == [])
            && t ==
               s.(active := t.active, activeBytes := t.activeBytes, files := t.files, nextPath := t.nextPath,
                  tick := t.tick)
  {
    AskKeeps(s, io);
    var (s1, c) := Ask(s, io);
    if c.ok {
      SumUpdate(s1.files, s.nextPath, 0, s.nextPath);
    }
  }

  lemma RenamedKeeps(s: Spool, path: Path)
    requires (forall p :: p in s.files ==> p < s.nextPath) && path in s.files
    ensures var t := Renamed(s, path);
            (forall p :: p in t.files ==> p < t.nextPath) && Disk(t) == Disk(s)
  {
    SumRemove(s.files, path, s.nextPath);
    SumUpdate(s.files - {path}, s.nextPath, s.files[path], s.nextPath);
  }

  /** Sealing moves bytes, never lines; without a writer afterwards the directory is still sound. */
  lemma TrySealKeeps(s: Spool, io: Oracle)
    requires DirOk(s) && s.active.Some?
    ensures var (t, ok) := TrySeal(s, io);
            && t.active == s.active && t.past == s.past && t.pendingLines == s.pendingLines
            && t.maxBytes == s.maxBytes && t.maxEntries == s.maxEntries && t.closed == s.closed
            && t.totalBytes == s.totalBytes && t.rotateBytes == s.rotateBytes
            && (forall p :: p in t.files ==> p < t.nextPath)
            && Disk(t) <= Disk(s)
            && (!ok ==> DirOk(t))
  {
    AskKeeps(s, io);
    var (s1, named) := Ask(s, io);
    if named.ok {
      AskKeeps(s1, io);
      var (s2, renamed) := Ask(s1, io);
      if renamed.ok {
        RenamedKeeps(s2, s.active.value.path);
      }
    }
  }

  lemma RefreshKeeps(s: Spool, io: Oracle)
    requires PendingOk(s)
    ensures var t := Refresh(s, io);
            && PendingOk(t) && Disk(t) <= Disk(s)
            && t == s.(files := t.files, tick := t.tick, totalBytes := t.totalBytes, totalEntries := t.totalEntries,
                       entriesByFile := t.entriesByFile, refreshed := t.refreshed)
            && t.totalBytes == (if io(s.tick).ok then Disk(t) else s.totalBytes)
  {
    AskKeeps(s, io);
  }

  // ---- Parts of an append ----

  predicate SameSettings(s: Spool, t: Spool) {
    s.closed == t.closed && s.maxBytes == t.maxBytes && s.maxEntries == t.maxEntries
  }

  /** With nothing buffered the log is everything handed over. */
  lemma QuietLog(s: Spool)
    requires Quiet(s)
    ensures Log(s) == HandedOver(s)
  {
    if s.active.Some? {
      var w := s.active.value.w;
      assert w.stream[..|w.stream|] == w.stream;
    }
  }

  /** The first lines of the stream are in the file for sure. */
  ghost predicate Confirmed(s: Spool, k: nat) {
    s.active.Some? && k <= |s.active.value.w.stream| && Size(s.active.value.w.stream[..k]) <= s.active.value.w.durable
  }

  lemma FlushKeeps(s: Spool, io: Oracle)
    requires PendingOk(s) && s.active.Some?
    ensures var (t, ok) := Flush(s, io);
            && DirOk(t) && t.active.Some? && SameSettings(s, t) && t.past == s.past && t.totalBytes == s.totalBytes
            && s.active.value.w.stream == t.active.value.w.stream
            && s.active.value.w.durable <= t.active.value.w.durable <= t.active.value.w.handed
            && Disk(t) + Buffered(t) <= Disk(s) + Buffered(s)
            && (if ok then Quiet(t) else t.pendingLines == s.pendingLines)
            && (Buffered(s) == 0 ==> t.files == s.files)
  {
    FlushWriterKeeps(s, io);
    var (t, ok) := Flush(s, io);
    var w := t.active.value.w;
    assert w.stream[..|w.stream|] == w.stream;
  }

  /** u is t after a reset: its confirmed lines are in the log. */
  ghost predicate ResetDone(t: Spool, u: Spool, k: nat) {
    && Quiet(u) && u.active.None? && SameSettings(t, u) && Disk(u) <= Disk(t) && u.totalBytes == t.totalBytes
    && Log(u) <= HandedOver(t) && |Log(u)| >= |t.past| + k
  }

  /** u is s after giving up on it, where t only added unconfirmed bytes: only unconfirmed lines may be missing. */
  ghost predicate GivenUp(s: Spool, t: Spool, u: Spool) {
    && Quiet(u) && u.active.None? && SameSettings(s, u) && Disk(u) <= Disk(t) && u.totalBytes == t.totalBytes
    && Log(u) <= HandedOver(t) && |Log(u)| + s.pendingLines >= |HandedOver(s)|
  }

  lemma StillConfirmed(s: Spool, t: Spool) returns (k: nat)
    requires PendingOk(s) && s.active.Some? && t.active.Some?
    requires s.active.value.w.stream <= t.active.value.w.stream
    requires s.active.value.w.durable <= t.active.value.w.durable
    ensures k == |s.active.value.w.stream| - s.pendingLines && Confirmed(t, k)
  {
    k := |s.active.value.w.stream| - s.pendingLines;
    assert t.active.value.w.stream[..k] == s.active.value.w.stream[..k];
  }

  /** t is s after the writer was handed the line, wholly if ok. */
  ghost predicate Handed(s: Spool, t: Spool, line: Line, ok: bool) {
    && s.active.Some? && DirOk(t) && t.active.Some? && t.past == s.past && SameSettings(s, t)
    && t.pendingLines == s.pendingLines && t.totalBytes == s.totalBytes
    && t.active.value.w.stream == s.active.value.w.stream + [line]
    && s.active.value.w.durable <= t.active.value.w.durable <= t.active.value.w.handed
    && Disk(t) + Buffered(t) <= Disk(s) + Buffered(s) + (if ok then LineSize(line) else |line|)
    && (ok ==> !t.active.value.w.failed && t.active.value.w.handed == s.active.value.w.handed + LineSize(line))
  }

  lemma HandLineKeeps(s: Spool, line: Line, io: Oracle)
    requires PendingOk(s) && s.active.Some?
    ensures var (t, ok) := HandLine(s, line, io); Handed(s, t, line, ok)
  {
    hide WriteLine, WriteNewline, Disk;
    WriteLineKeeps(s, line, io);
    var (t, ok) := WriteLine(s, line, io);
    if ok {
      WriteNewlineKeeps(t, io);
    }
  }

  lemma CountedKeeps(s: Spool, t: Spool, line: Line)
    requires PendingOk(s) && Handed(s, t, line, true)
    ensures var v := Counted(t, line);
            && PendingOk(v) && v.active == t.active && SameSettings(s, v)
            && HandedOver(v) == HandedOver(s) + [line] && v.pendingLines == s.pendingLines + 1
  {
    var w := s.active.value.w;
    SizeAppend(w.stream, line);
    var k := |w.stream| - s.pendingLines;
    assert (w.stream + [line])[..k] == w.stream[..k];
    assert s.past + (w.stream + [line]) == HandedOver(s) + [line];
  }

  lemma PrefixLength(log: seq<Line>, base: seq<Line>, lines: seq<Line>, i: nat) returns (m: nat)
    requires i <= |lines| && log <= base + lines[..i] && |base| <= |log|
    ensures m == |log| - |base| && m <= i && log == base + lines[..m]
  {
    m := |log| - |base|;
    assert log == (base + lines[..i])[..|log|];
  }

  /** t is s after some I/O that touched none of its lines. */
  ghost predicate Undisturbed(s: Spool, t: Spool) {
    && Quiet(t) && SameSettings(s, t) && Log(t) == HandedOver(t) == HandedOver(s)
    && Disk(t) <= Disk(s) && t.totalBytes == s.totalBytes
  }

  lemma AskUndisturbed(s: Spool, io: Oracle)
    requires Quiet(s)
    ensures var t := Ask(s, io).0; Undisturbed(s, t) && t.active == s.active
  {
    AskKeeps(s, io);
    QuietLog(s);
    QuietLog(Ask(s, io).0);
  }

  lemma SealFlushedKeeps(s: Spool, io: Oracle)
    requires Quiet(s) && s.active.Some?
    ensures Undisturbed(s, SealFlushed(s, io))
  {
    QuietLog(s);
    TrySealKeeps(s, io);
    var (t, sealed) := TrySeal(s, io);
    if sealed {
      AskUndisturbed(Dropped(t), io);
    }
  }

  lemma OpenUndisturbed(x: Spool, io: Oracle)
    requires Quiet(x) && x.active.None?
    ensures var (y, ok) := OpenActive(x, io); Undisturbed(x, y) && (ok ==> y.active.Some?)
  {
    OpenActiveKeeps(x, io);
    assert x.past + [] == x.past;
  }

  /** With nothing buffered a flush cannot fail. */
  lemma FlushQuiet(s: Spool, io: Oracle)
    requires Quiet(s) && s.active.Some?
    ensures Flush(s, io) == (s, true)
  {
  }

  // ---- Calm I/O ----

  function Calm(n: nat): Choice {
    Choice(true, 0, {})
  }

  ghost predicate CalmFrom(io: Oracle, tick: nat) {
    forall k :: k >= tick ==> io(k) == Calm(k)
  }

  lemma NoDeletion(s: Spool)
    ensures Deleted(s, {}) == s
  {
    assert s.files - {} == s.files;
    if s.active.Some? {
      assert {} - {s.active.value.path} == {};
    }
  }

  /** I/O during which the panel deletes nothing. */
  lemma AskAlone(s: Spool, io: Oracle)
    requires io(s.tick).removed == {}
    ensures Ask(s, io) == (s.(tick := s.tick + 1), io(s.tick))
  {
    NoDeletion(s.(tick := s.tick + 1));
  }

  /** A calm I/O call changes nothing but the clock. */
  lemma CalmAsk(s: Spool, io: Oracle)
    requires CalmFrom(io, s.tick)
    ensures Ask(s, io) == (s.(tick := s.tick + 1), Calm(s.tick)) && CalmFrom(io, s.tick + 1)
  {
    AskAlone(s, io);
  }
}
