/** What the layer-4 event path achieves: a failed batch reaches the spool, an acknowledged one does not need to,
    nothing is dropped without a reason, and lines leave in the order they came. */
module L4Delivery {
  import opened Bytes
  import opened Options
  import opened SpoolBase
  import opened SpoolFaults
  import opened L4SpoolSpec
  import opened L4PipelineSpec

  // ---- An append under working I/O ----

  lemma WorkingReopen(s: Spool, io: Oracle)
    requires s.active.Some? && Works(io, s.tick)
    ensures var (t, ok) := SealAndReopen(s, io); ok && Switched(s, t)
  {
  }

  lemma WorkingOne(s: Spool, lines: seq<Line>, i: nat, io: Oracle)
    requires CanWrite(s) && Works(io, s.tick) && i < |lines|
    ensures var (t, more, _) := WriteOne(s, lines, i, io); more && TookOne(s, t, lines[i])
  {
    hide HandLine, Flush, SealAndReopen;
    WorkingHandLine(s, lines[i], io);
    var v := Counted(HandLine(s, lines[i], io).0, lines[i]);
    if v.activeBytes >= v.rotateBytes {
      WorkingFlush(v, io);
      WorkingReopen(Flush(v, io).0, io);
    }
  }

  /** The lines from i on fit both budgets beside what is counted. */
  predicate Fits(s: Spool, lines: seq<Line>, i: nat)
    requires i <= |lines|
  {
    && s.totalBytes + Size(lines) - Size(lines[..i]) <= s.maxBytes
    && s.totalEntries + |lines| - i <= s.maxEntries
  }

  /** A call standing before line i of s ends in t: it stops only at a line that is over budget, and not if all fit. */
  ghost predicate TakesAll(s: Spool, t: Spool, lines: seq<Line>, i: nat, r: Appended)
    requires i <= |lines|
  {
    && i <= r.written <= |lines| && r.error == (if r.written == |lines| then None else Some(Full))
    && (r.written < |lines| ==> OverBudget(t, lines[r.written]))
    && (Fits(s, lines, i) ==> r.written == |lines|)
    && (if r.written > i then RotatedInTime(t) else t.activeBytes == s.activeBytes && t.rotateBytes == s.rotateBytes)
  }

  lemma NextFits(s: Spool, lines: seq<Line>, i: nat)
    requires i < |lines| && Fits(s, lines, i)
    ensures !OverBudget(s, lines[i])
  {
    SizeNext(lines, i);
  }

  lemma WorkingFinish(s: Spool, r: Spool, lines: seq<Line>, i: nat, io: Oracle)
    requires CanWrite(r) && Works(io, r.tick) && i <= |lines|
    requires i < |lines| ==> OverBudget(r, lines[i]) && (Fits(s, lines, i) ==> r == s)
    requires r.activeBytes == s.activeBytes && r.rotateBytes == s.rotateBytes
    ensures var (t, x) := Finish(r, |lines|, i, io); TakesAll(s, t, lines, i, x)
  {
    hide Flush, Fits, OverBudget;
    WorkingFlush(r, io);
    var t := Flush(r, io).0;
    if i < |lines| {
      assert OverBudget(t, lines[i]) by { SameBudget(r, t, lines[i]); }
      if Fits(s, lines, i) {
        NextFits(s, lines, i);
        assert false;
      }
    }
  }

  lemma SameBudget(s: Spool, t: Spool, line: Line)
    requires t.totalBytes == s.totalBytes && t.totalEntries == s.totalEntries && SameSettings(s, t)
    ensures OverBudget(t, line) == OverBudget(s, line)
  {
  }

  lemma TakesMore(s: Spool, r: Spool, t: Spool, u: Spool, lines: seq<Line>, i: nat, x: Appended)
    requires i < |lines| && (Fits(s, lines, i) ==> r == s)
    requires TookOne(r, t, lines[i]) && TakesAll(t, u, lines, i + 1, x)
    ensures TakesAll(s, u, lines, i, x)
  {
    SizeNext(lines, i);
  }

  lemma WorkingMeasure(s: Spool, lines: seq<Line>, i: nat, io: Oracle)
    requires CanWrite(s) && Works(io, s.tick) && i < |lines|
    ensures var r := Measured(s, lines[i], io);
            && CanWrite(r) && r.tick >= s.tick && r.activeBytes == s.activeBytes && r.rotateBytes == s.rotateBytes
            && (Fits(s, lines, i) ==> r == s)
  {
    if Fits(s, lines, i) {
      NextFits(s, lines, i);
    }
  }

  lemma {:induction false} WorkingFrom(s: Spool, lines: seq<Line>, i: nat, io: Oracle)
    requires CanWrite(s) && Works(io, s.tick) && i <= |lines|
    ensures var (t, r) := AppendFrom(s, lines, i, io); TakesAll(s, t, lines, i, r)
    decreases |lines| - i
  {
    hide WriteOne, OverBudget, Finish, TakesAll, Fits, Measured;
    if i == |lines| {
      WorkingFinish(s, s, lines, i, io);
    } else {
      WorkingMeasure(s, lines, i, io);
      var r := Measured(s, lines[i], io);
      if OverBudget(r, lines[i]) {
        WorkingFinish(s, r, lines, i, io);
      } else {
        WorkingOne(r, lines, i, io);
        var (t, _, _) := WriteOne(r, lines, i, io);
        WorkingFrom(t, lines, i + 1, io);
        var (u, x) := AppendFrom(t, lines, i + 1, io);
        TakesMore(s, r, t, u, lines, i, x);
      }
    }
  }

  /** No I/O call of an append fails. If the directory was measured before, the first answer is the clock's. */
  ghost predicate AppendWorks(s: Spool, io: Oracle) {
    Works(io, if s.refreshed then s.tick + 1 else s.tick)
  }

  /** An open spool with room for the whole batch in both budgets, by its counters and on the disk. */
  predicate HasRoom(s: Spool, lines: seq<Line>) {
    && !s.closed && (s.refreshed ==> Fits(s, lines, 0))
    && Disk(s) + Size(lines) <= s.maxBytes && SumBelow(s.entriesByFile, s.nextPath) + |lines| <= s.maxEntries
  }

  lemma RefreshedFits(s: Spool, lines: seq<Line>, io: Oracle)
    requires Quiet(s) && AppendWorks(s, io)
    ensures var r := RefreshIfDue(s, io);
            && r.active == s.active && AppendWorks(s, io) && r.tick >= s.tick + 1 && SameSettings(s, r)
            && (HasRoom(s, lines) ==> Fits(r, lines, 0))
  {
    assert lines[..0] == [];
    AskKeeps(s, io);
    var t := if s.refreshed then Ask(s, io).0 else s;
    if !s.refreshed || io(s.tick).ok {
      AskKeeps(t, io);
      var u := Ask(t, io).0;
      SumShrinks(s.entriesByFile, Listed(t.entriesByFile, u.files), s.nextPath);
    }
  }

  /** The counters are what a directory scan has just found. */
  predicate JustMeasured(t: Spool) {
    t.totalBytes == Disk(t) && t.totalEntries == SumBelow(t.entriesByFile, t.nextPath)
  }

  lemma MeasuredBeforeRefusing(s: Spool, lines: seq<Line>, io: Oracle)
    requires Quiet(s) && s.active.Some? && Works(io, s.tick) && lines != []
    ensures var (t, r) := AppendFrom(s, lines, 0, io); r.written == 0 ==> JustMeasured(t)
  {
    hide WriteOne, Flush, Disk;
    RefreshKeeps(s, io);
    var r := Measured(s, lines[0], io);
    if OverBudget(r, lines[0]) {
      FlushQuiet(r, io);
    } else {
      WorkingOne(r, lines, 0, io);
      WorkingFrom(WriteOne(r, lines, 0, io).0, lines, 1, io);
    }
  }

  /** While no I/O call fails, an append stores a prefix of the batch and reports its length; it stops early only
      at a line that is over budget in the end, refuses all of it only by a fresh scan of the directory, and
      stores the whole batch if there is room for it. */
  lemma WorkingAppend(s: Spool, lines: seq<Line>, io: Oracle)
    requires Quiet(s) && !s.closed && s.maxBytes >= 0 && AppendWorks(s, io)
    ensures var (t, r) := Append(s, lines, io); var n := r.written;
            && n <= |lines| && Log(t) == Log(s) + lines[..n]
            && r.error == (if n == |lines| then None else Some(Full))
            && (n < |lines| ==> OverBudget(t, lines[n]))
            && (if n > 0 then RotatedInTime(t) else lines != [] ==> JustMeasured(t))
            && (HasRoom(s, lines) ==> n == |lines|)
  {
    hide AppendFrom, Log, RefreshIfDue, HasRoom, OverBudget, JustMeasured, Quiet;
    RefreshIfDueKeeps(s, io);
    var m := AppendKeeps(s, lines, io);
    RefreshedFits(s, lines, io);
    var r := RefreshIfDue(s, io);
    var t := if r.active.Some? then r else OpenActive(r, io).0;
    assert Quiet(t) && CanWrite(t) && t.tick >= r.tick by { OpenedQuiet(r, io); }
    WorkingFrom(t, lines, 0, io);
    if lines != [] {
      MeasuredBeforeRefusing(t, lines, io);
    }
  }

  lemma OpenedQuiet(r: Spool, io: Oracle)
    requires Quiet(r) && Works(io, r.tick)
    ensures var t := if r.active.Some? then r else OpenActive(r, io).0; Quiet(t) && CanWrite(t) && t.tick >= r.tick
  {
    if r.active.None? {
      OpenActiveKeeps(r, io);
    }
  }

  // ---- One batch ----

  /** What the answer to its POST does to a batch: an acknowledged one is sent and the spool not touched, a
      rejected one is counted as dropped, and of one that was not delivered m lines reach the spool, all of them
      if it has room and I/O works. Unless a call to the spool failed, every other line is counted. */
  lemma BatchIsSettled(p: Pipeline, io: Oracle, net: Network) returns (m: nat)
    requires Quiet(p.spool) && p.ship.batch != []
    ensures var q, b := FlushBatch(p, io, net), p.ship.batch;
            && m <= |b| && q.ring == p.ring && q.ship.batch == [] && Log(q.spool) == Log(p.spool) + b[..m]
            && match net(p.ship.posts)
               case Acked =>
                 q.ship.acked == p.ship.acked + b && q.spool == p.spool && q.dropped == p.dropped &&
                 q.ship.sent == p.ship.sent + |b| && q.ship.failed == p.ship.failed
               case Rejected =>
                 q.ship.acked == p.ship.acked && q.spool == p.spool && q.dropped == p.dropped + |b| &&
                 q.ship.sent == p.ship.sent && q.ship.failed == p.ship.failed + |b|
               case PostFailed =>
                 && q.ship.acked == p.ship.acked && q.ship.sent == p.ship.sent && q.ship.failed == p.ship.failed + |b|
                 && (q.ship.failures == p.ship.failures ==>
                       q.ship.spooled == p.ship.spooled + m && q.dropped == p.dropped + |b| - m)
                 && (HasRoom(p.spool, b) && AppendWorks(p.spool, io) ==>
                       q.ship.failures == p.ship.failures && m == |b|)
  {
    hide Append, Log, Quiet, HasRoom, AppendWorks;
    var b := p.ship.batch;
    assert Log(p.spool) + b[..0] == Log(p.spool);
    m := 0;
    if net(p.ship.posts).PostFailed? {
      m := AppendKeeps(p.spool, b, io);
      if HasRoom(p.spool, b) && AppendWorks(p.spool, io) {
        RoomyAppend(p.spool, b, io);
      }
    }
  }

  lemma RoomyAppend(s: Spool, lines: seq<Line>, io: Oracle)
    requires Quiet(s) && HasRoom(s, lines) && AppendWorks(s, io)
    ensures Append(s, lines, io).1 == Appended(|lines|, None)
  {
    WorkingAppend(s, lines, io);
  }

  /** A failed POST costs nothing: the whole batch is on disk behind what was there, and counted as spooled. */
  lemma FailedPostIsSpooled(p: Pipeline, io: Oracle, net: Network)
    requires Quiet(p.spool) && p.ship.batch != [] && net(p.ship.posts) == PostFailed
    requires HasRoom(p.spool, p.ship.batch) && AppendWorks(p.spool, io)
    ensures var q, b := FlushBatch(p, io, net), p.ship.batch;
            && Log(q.spool) == Log(p.spool) + b && q.ship.spooled == p.ship.spooled + |b| && q.dropped == p.dropped
  {
    hide FlushBatch, HasRoom, AppendWorks, Log;
    var m := BatchIsSettled(p, io, net);
    assert p.ship.batch[..m] == p.ship.batch;
  }

  /** An idle spool file is sealed and closed; before that it stays open. */
  lemma WorkingSeal(s: Spool, io: Oracle)
    requires Quiet(s) && !s.closed && Works(io, s.tick + 1)
    ensures SealIfIdle(s, io).active == if io(s.tick).ok then None else s.active
  {
    hide TrySeal;
    if s.active.Some? && io(s.tick).ok {
      AskUndisturbed(s, io);
      FlushQuiet(Ask(s, io).0, io);
      WorkingTrySeal(Ask(s, io).0, io);
    }
  }

  /** Closing seals the open file, and nothing is stored after it. */
  lemma CloseSeals(s: Spool, lines: seq<Line>, io: Oracle)
    requires Quiet(s) && !s.closed && s.active.Some? && Works(io, s.tick)
    ensures var t := Close(s, io);
            t.active.None? && s.active.value.path !in t.files && Append(t, lines, io) == (t, Appended(0, Some(Closed)))
  {
    hide TrySeal;
    FlushQuiet(s, io);
    SealedAway(s, io);
  }

  /** What a closed spool keeps to: it stays closed, without an open file. */
  predicate Shut(s: Spool) {
    Quiet(s) && (s.closed ==> s.active.None?)
  }

  /** A stop of a pipeline with a shipper leaves the spool closed, without an open file. */
  lemma StopCloses(p: Pipeline, io: Oracle, net: Network)
    requires p.enabled && Shut(p.spool)
    ensures var t := Step(p, Stop, io, net).spool; t.closed && t.active.None?
  {
    hide FlushBatch, DrainAll;
    DrainAllStays(p, io, net);
    var d := DrainAll(p, io, net);
    FlushStays(d, io, net);
    FlushStays(FlushBatch(d, io, net), io, net);
  }

  lemma FlushStays(p: Pipeline, io: Oracle, net: Network)
    requires Shut(p.spool)
    ensures var q := FlushBatch(p, io, net); Shut(q.spool) && q.enabled == p.enabled
  {
    hide AppendFrom, Disk;
    if p.ship.batch != [] && net(p.ship.posts).PostFailed? {
      AppendShut(p.spool, p.ship.batch, io);
    }
  }

  lemma {:induction false} DrainAllStays(p: Pipeline, io: Oracle, net: Network)
    requires Shut(p.spool)
    ensures var q := DrainAll(p, io, net); Shut(q.spool) && q.enabled == p.enabled
    decreases |p.ring|
  {
    hide FlushBatch;
    if p.ring != [] {
      var r := p.(ring := p.ring[1..]);
      FlushStays(r.(ship := Batched(r.ship, p.ring[0])), io, net);
      var q := Submit(r, p.ring[0], io, net);
      if |q.ring| < |p.ring| {
        DrainAllStays(q, io, net);
      }
    }
  }

  lemma AppendShut(s: Spool, lines: seq<Line>, io: Oracle)
    requires Shut(s)
    ensures Shut(Append(s, lines, io).0)
  {
    hide AppendFrom, Quiet;
    var m := AppendKeeps(s, lines, io);
  }

  // ---- Why lines are dropped ----

  ghost predicate Never(net: Network, answer: PostResult) {
    forall k :: net(k) != answer
  }

  /** Between p and q, drops beyond the reported spool losses are lines of rejected batches. */
  ghost predicate Reasoned(p: Pipeline, q: Pipeline, net: Network) {
    var d := (q.dropped - q.ship.spoolErrs) - (p.dropped - p.ship.spoolErrs);
    && q.enabled == p.enabled && q.capacity == p.capacity
    && 0 <= d <= q.ship.failed - p.ship.failed
    && (Never(net, Rejected) ==> d == 0) && (Never(net, PostFailed) ==> d == q.ship.failed - p.ship.failed)
  }

  lemma FlushReasoned(p: Pipeline, io: Oracle, net: Network)
    ensures Reasoned(p, FlushBatch(p, io, net), net)
  {
    hide Append;
    var answer := net(p.ship.posts);
    assert Never(net, answer) ==> false;
  }

  lemma SubmitReasoned(p: Pipeline, line: Line, io: Oracle, net: Network)
    requires p.enabled
    ensures Reasoned(p, Submit(p, line, io, net), net)
  {
    hide FlushBatch, Never;
    FlushReasoned(p.(ship := Batched(p.ship, line)), io, net);
  }

  lemma FlushIfDueReasoned(p: Pipeline, due: bool, io: Oracle, net: Network)
    ensures Reasoned(p, FlushIfDue(p, due, io, net), net)
  {
    hide FlushBatch, SealIfIdle, Never;
    FlushReasoned(p.(spool := SealIfIdle(p.spool, io)), io, net);
  }

  lemma {:induction false} DrainAllReasoned(p: Pipeline, io: Oracle, net: Network)
    requires p.enabled
    ensures Reasoned(p, DrainAll(p, io, net), net)
    decreases |p.ring|
  {
    hide Submit, Never;
    if p.ring != [] {
      var r := p.(ring := p.ring[1..]);
      var q := Submit(r, p.ring[0], io, net);
      SubmitReasoned(r, p.ring[0], io, net);
      if |q.ring| < |p.ring| {
        DrainAllReasoned(q, io, net);
      }
    }
  }

  lemma StopReasoned(p: Pipeline, io: Oracle, net: Network)
    requires p.enabled
    ensures Reasoned(p, StopAll(p, io, net), net)
  {
    hide FlushBatch, DrainAll, Close, Never;
    DrainAllReasoned(p, io, net);
    var d := DrainAll(p, io, net);
    FlushReasoned(d, io, net);
    FlushReasoned(FlushBatch(d, io, net), io, net);
  }

  /** The line is too long, or it finds the ring full and costs the oldest one. */
  predicate TurnsAway(p: Pipeline, line: Line) {
    LineSize(line) > LINE_MAX_BYTES || |p.ring| >= p.capacity
  }

  /** Lines refused at the ring and lines evicted from it. */
  function TurnedAway(p: Pipeline, ops: seq<Op>, io: Oracle, net: Network): nat {
    if ops == [] then 0
    else
      var init, op := ops[..|ops| - 1], ops[|ops| - 1];
      TurnedAway(p, init, io, net) + (if op.Enqueue? && TurnsAway(Run(p, init, io, net), op.line) then 1 else 0)
  }

  lemma StepReasoned(p: Pipeline, op: Op, io: Oracle, net: Network)
    requires p.enabled && p.capacity >= 1
    ensures var q := Step(p, op, io, net);
            var away := if op.Enqueue? && TurnsAway(p, op.line) then 1 else 0;
            q.dropped >= away && Reasoned(p, q.(dropped := q.dropped - away), net)
  {
    hide Submit, FlushIfDue, StopAll, Never;
    match op
    case Enqueue(_) =>
    case Drain(due) =>
      if p.ring != [] {
        var r := p.(ring := p.ring[1..]);
        SubmitReasoned(r, p.ring[0], io, net);
        FlushIfDueReasoned(Submit(r, p.ring[0], io, net), due, io, net);
      }
    case Tick(due) => FlushIfDueReasoned(p, due, io, net);
    case Stop => StopReasoned(p, io, net);
  }

  /** Over every run with a shipper, dropped is the number of lines turned away at the ring, plus the losses the
      spool reported, plus lines of failed batches: none if no POST was rejected, all of them if each was. So
      without a long line, an eviction, a rejected POST or a reported loss nothing is dropped. */
  lemma {:induction false} DropsHaveReasons(p: Pipeline, ops: seq<Op>, io: Oracle, net: Network)
    requires Initial(p) && p.enabled
    ensures var q := Run(p, ops, io, net);
            var rest := q.dropped - TurnedAway(p, ops, io, net) - q.ship.spoolErrs;
            && 0 <= rest <= q.ship.failed && q.enabled && q.capacity == p.capacity
            && (Never(net, Rejected) ==> rest == 0) && (Never(net, PostFailed) ==> rest == q.ship.failed)
  {
    hide Step, TurnsAway, Never;
    if ops != [] {
      var init, op := ops[..|ops| - 1], ops[|ops| - 1];
      DropsHaveReasons(p, init, io, net);
      StepReasoned(Run(p, init, io, net), op, io, net);
    }
  }

  // ---- In which order lines leave ----

  /** Lines delivered one way, or still waiting for it, in the order they leave. */
  function Queue(p: Pipeline, bySpool: bool): seq<Line> {
    (if bySpool then Log(p.spool) else p.ship.acked) + p.ship.batch + p.ring
  }

  predicate Lossless(p: Pipeline) {
    p.ship.spoolErrs == 0 && p.ship.failures == 0
  }

  /** Every POST has the answer that sends lines that way. */
  ghost predicate OneWay(net: Network, bySpool: bool) {
    forall k :: net(k) == if bySpool then PostFailed else Acked
  }

  /** From p to q the queue grew by these lines at its end, unless the spool lost some. */
  ghost predicate Flows(p: Pipeline, q: Pipeline, bySpool: bool, arrived: seq<Line>) {
    && Quiet(q.spool) && q.enabled && q.capacity == p.capacity
    && (Lossless(q) ==> Lossless(p) && Queue(q, bySpool) == Queue(p, bySpool) + arrived)
    && (!bySpool && Lossless(p) ==> Lossless(q))
  }

  lemma FlowsOn(p: Pipeline, q: Pipeline, r: Pipeline, bySpool: bool)
    requires Flows(p, q, bySpool, []) && Flows(q, r, bySpool, [])
    ensures Flows(p, r, bySpool, [])
  {
  }

  lemma FlushFlows(p: Pipeline, io: Oracle, net: Network, bySpool: bool)
    requires Quiet(p.spool) && p.enabled && OneWay(net, bySpool)
    ensures Flows(p, FlushBatch(p, io, net), bySpool, []) && FlushBatch(p, io, net).ring == p.ring
  {
    hide Append, Quiet, Log;
    var b, log := p.ship.batch, Log(p.spool);
    if b != [] && bySpool {
      var m := AppendKeeps(p.spool, b, io);
      assert b[..|b|] == b;
      assert log + b + [] + p.ring == log + b + p.ring;
    } else if b != [] {
      assert p.ship.acked + b + [] + p.ring == p.ship.acked + b + p.ring;
    }
  }

  lemma SubmitFlows(p: Pipeline, io: Oracle, net: Network, bySpool: bool)
    requires Quiet(p.spool) && p.enabled && p.ring != [] && OneWay(net, bySpool)
    ensures var q := Submit(p.(ring := p.ring[1..]), p.ring[0], io, net);
            Flows(p, q, bySpool, []) && q.ring == p.ring[1..]
  {
    hide FlushBatch, Quiet, Log, OneWay;
    var q := p.(ring := p.ring[1..], ship := Batched(p.ship, p.ring[0]));
    var out := if bySpool then Log(p.spool) else p.ship.acked;
    assert out + (p.ship.batch + [p.ring[0]]) + p.ring[1..] == out + p.ship.batch + p.ring;
    FlushFlows(q, io, net, bySpool);
    FlowsOn(p, q, FlushBatch(q, io, net), bySpool);
  }

  lemma FlushIfDueFlows(p: Pipeline, due: bool, io: Oracle, net: Network, bySpool: bool)
    requires Quiet(p.spool) && p.enabled && OneWay(net, bySpool)
    ensures Flows(p, FlushIfDue(p, due, io, net), bySpool, [])
  {
    hide FlushBatch, SealIfIdle, Quiet, Log, OneWay;
    SealIfIdleKeeps(p.spool, io);
    var q := p.(spool := SealIfIdle(p.spool, io));
    FlushFlows(q, io, net, bySpool);
    FlowsOn(p, q, FlushBatch(q, io, net), bySpool);
  }

  lemma {:induction false} DrainAllFlows(p: Pipeline, io: Oracle, net: Network, bySpool: bool)
    requires Quiet(p.spool) && p.enabled && OneWay(net, bySpool)
    ensures Flows(p, DrainAll(p, io, net), bySpool, [])
    decreases |p.ring|
  {
    hide Submit, Quiet, Log, OneWay, Queue;
    if p.ring != [] {
      var q := Submit(p.(ring := p.ring[1..]), p.ring[0], io, net);
      SubmitFlows(p, io, net, bySpool);
      DrainAllFlows(q, io, net, bySpool);
      FlowsOn(p, q, DrainAll(q, io, net), bySpool);
    }
  }

  lemma StopFlows(p: Pipeline, io: Oracle, net: Network, bySpool: bool)
    requires Quiet(p.spool) && p.enabled && OneWay(net, bySpool)
    ensures Flows(p, StopAll(p, io, net), bySpool, [])
  {
    hide FlushBatch, DrainAll, Close, Quiet, Log, OneWay;
    DrainAllFlows(p, io, net, bySpool);
    var d := DrainAll(p, io, net);
    FlushFlows(d, io, net, bySpool);
    var e := FlushBatch(d, io, net);
    FlushFlows(e, io, net, bySpool);
    var f := FlushBatch(e, io, net);
    CloseKeeps(f.spool, io);
    FlowsOn(p, d, e, bySpool);
    FlowsOn(p, e, f, bySpool);
    FlowsOn(p, f, f.(spool := Close(f.spool, io)), bySpool);
  }

  /** The lines of a run in the order they were presented. */
  function Lines(ops: seq<Op>): seq<Line> {
    if ops == [] then []
    else Lines(ops[..|ops| - 1]) + (match ops[|ops| - 1] case Enqueue(line) => [line] case _ => [])
  }

  lemma StepFlows(p: Pipeline, op: Op, io: Oracle, net: Network, bySpool: bool)
    requires Quiet(p.spool) && p.enabled && OneWay(net, bySpool) && (op.Enqueue? ==> !TurnsAway(p, op.line))
    ensures Flows(p, Step(p, op, io, net), bySpool, match op case Enqueue(line) => [line] case _ => [])
  {
    hide Submit, FlushIfDue, StopAll, Quiet, Log, OneWay;
    match op
    case Enqueue(line) =>
      var out := (if bySpool then Log(p.spool) else p.ship.acked) + p.ship.batch;
      assert out + (p.ring + [line]) == out + p.ring + [line];
    case Drain(due) =>
      if p.ring != [] {
        var q := Submit(p.(ring := p.ring[1..]), p.ring[0], io, net);
        SubmitFlows(p, io, net, bySpool);
        FlushIfDueFlows(q, due, io, net, bySpool);
        FlowsOn(p, q, FlushIfDue(q, due, io, net), bySpool);
      }
    case Tick(due) => FlushIfDueFlows(p, due, io, net, bySpool);
    case Stop => StopFlows(p, io, net, bySpool);
  }

  /** Lines leave in the order they came. While no line is turned away: if every POST is acknowledged, the
      acknowledged lines, the batch and the ring are the presented lines in order; if every POST fails and the
      spool reports no loss, the lines on disk, the batch and the ring are. */
  lemma {:induction false} LinesLeaveInOrder(p: Pipeline, ops: seq<Op>, io: Oracle, net: Network, bySpool: bool)
    requires Initial(p) && p.enabled && OneWay(net, bySpool) && TurnedAway(p, ops, io, net) == 0
    ensures var q := Run(p, ops, io, net);
            && Quiet(q.spool) && q.enabled && (!bySpool ==> Lossless(q))
            && (Lossless(q) ==>
                  (if bySpool then Log(q.spool) else q.ship.acked) + q.ship.batch + q.ring == Lines(ops))
  {
    hide Step, TurnsAway, OneWay, Quiet, Log;
    if ops == [] {
      assert Log(p.spool) == [] by { NothingYet(p); }
      assert Quiet(p.spool);
    } else {
      var init, op := ops[..|ops| - 1], ops[|ops| - 1];
      LinesLeaveInOrder(p, init, io, net, bySpool);
      StepFlows(Run(p, init, io, net), op, io, net, bySpool);
    }
  }

  lemma NothingYet(p: Pipeline)
    requires Initial(p)
    ensures Log(p.spool) == []
  {
  }

  // ---- Ring and batch ----

  function Arrivals(lines: seq<Line>): seq<Op> {
    seq(|lines|, k requires 0 <= k < |lines| => Enqueue(lines[k]))
  }

  /** The newest lines of a sequence that fit the ring. */
  function Newest(lines: seq<Line>, capacity: nat): seq<Line> {
    if |lines| <= capacity then lines else lines[|lines| - capacity..]
  }

  lemma NewestAndOne(p: Pipeline, lines: seq<Line>, line: Line)
    requires 1 <= p.capacity && LineSize(line) <= LINE_MAX_BYTES && p.ring == Newest(lines, p.capacity)
    ensures EnqueueEvent(p, line).ring == Newest(lines + [line], p.capacity)
    ensures EnqueueEvent(p, line).capacity == p.capacity
  {
  }

  /** While nothing is drained, the ring holds the newest lines, in order. */
  lemma {:induction false} NewestStay(p: Pipeline, lines: seq<Line>, io: Oracle, net: Network)
    requires 1 <= p.capacity && |p.ring| <= p.capacity
    requires forall k :: 0 <= k < |lines| ==> LineSize(lines[k]) <= LINE_MAX_BYTES
    ensures var q := Run(p, Arrivals(lines), io, net);
            q.ring == Newest(p.ring + lines, p.capacity) && q.capacity == p.capacity
  {
    hide EnqueueEvent, LineSize;
    if lines == [] {
      assert p.ring + lines == p.ring;
    } else {
      var init, last := lines[..|lines| - 1], lines[|lines| - 1];
      NewestStay(p, init, io, net);
      assert Arrivals(lines)[..|lines| - 1] == Arrivals(init);
      assert p.ring + lines == p.ring + init + [last];
      NewestAndOne(Run(p, Arrivals(init), io, net), p.ring + init, last);
    }
  }

  /** A shipper's batch between calls: below both limits, and its byte count is right. */
  predicate SmallBatch(p: Pipeline) {
    |p.ship.batch| < BATCH_MAX_LINES && p.ship.batchBytes == Size(p.ship.batch) < BATCH_MAX_BYTES
  }

  lemma FlushEmpties(p: Pipeline, io: Oracle, net: Network)
    ensures var q := FlushBatch(p, io, net); q.ship.batch == [] && SmallBatch(q) && q.enabled == p.enabled
  {
    hide Append;
  }

  lemma SubmitSmall(p: Pipeline, line: Line, io: Oracle, net: Network)
    requires SmallBatch(p)
    ensures SmallBatch(Submit(p, line, io, net))
  {
    hide FlushBatch;
    SizeAppend(p.ship.batch, line);
    FlushEmpties(p.(ship := Batched(p.ship, line)), io, net);
  }

  lemma {:induction false} DrainAllSmall(p: Pipeline, io: Oracle, net: Network)
    requires SmallBatch(p)
    ensures SmallBatch(DrainAll(p, io, net))
    decreases |p.ring|
  {
    hide Submit, SmallBatch;
    if p.ring != [] {
      var r := p.(ring := p.ring[1..]);
      SameBatch(p, r);
      SubmitSmall(r, p.ring[0], io, net);
      var q := Submit(r, p.ring[0], io, net);
      if |q.ring| < |p.ring| {
        DrainAllSmall(q, io, net);
      }
    }
  }

  lemma SameBatch(p: Pipeline, r: Pipeline)
    requires SmallBatch(p) && r.ship == p.ship
    ensures SmallBatch(r)
  {
  }

  lemma StepSmall(p: Pipeline, op: Op, io: Oracle, net: Network)
    requires SmallBatch(p)
    ensures SmallBatch(Step(p, op, io, net))
  {
    hide FlushBatch, Submit, DrainAll, SealIfIdle, Close;
    match op
    case Enqueue(_) =>
    case Drain(due) =>
      if p.ring != [] {
        SubmitSmall(p.(ring := p.ring[1..]), p.ring[0], io, net);
        var q := Submit(p.(ring := p.ring[1..]), p.ring[0], io, net);
        FlushEmpties(q.(spool := SealIfIdle(q.spool, io)), io, net);
      }
    case Tick(_) => FlushEmpties(p.(spool := SealIfIdle(p.spool, io)), io, net);
    case Stop =>
      DrainAllSmall(p, io, net);
      FlushEmpties(FlushBatch(DrainAll(p, io, net), io, net), io, net);
  }

  /** Over every run no batch reaches 100 lines or 1 MiB without going out. */
  lemma {:induction false} BatchesStaySmall(p: Pipeline, ops: seq<Op>, io: Oracle, net: Network)
    requires Initial(p)
    ensures var g := Run(p, ops, io, net).ship; |g.batch| < 100 && g.batchBytes == Size(g.batch) < 1048576
  {
    hide Step;
    if ops != [] {
      BatchesStaySmall(p, ops[..|ops| - 1], io, net);
      StepSmall(Run(p, ops[..|ops| - 1], io, net), ops[|ops| - 1], io, net);
    }
  }

  /** A due tick sends the batch out; one that is not due leaves it, and no tick touches the ring. */
  lemma TickSendsWhenDue(p: Pipeline, due: bool, io: Oracle, net: Network)
    requires p.enabled
    ensures var q := Step(p, Tick(due), io, net);
            q.ring == p.ring && q.ship.batch == if due then [] else p.ship.batch
  {
    hide Append, SealIfIdle;
  }

  /** A turn of the drain takes the oldest line. The batch with it goes out if it has 100 lines or 1 MiB, or is
      due, and otherwise waits. */
  lemma DrainTakesOldest(p: Pipeline, due: bool, io: Oracle, net: Network)
    requires p.enabled && p.ring != [] && SmallBatch(p)
    ensures var q, b := Step(p, Drain(due), io, net), p.ship.batch + [p.ring[0]];
            && q.ring == p.ring[1..]
            && if due || |b| >= 100 || Size(b) >= 1048576 then q.ship.batch == [] && q.ship.posts == p.ship.posts + 1
               else q.ship.batch == b && q.ship.posts == p.ship.posts
  {
    hide Append, SealIfIdle, Size;
    SizeAppend(p.ship.batch, p.ring[0]);
  }
}
