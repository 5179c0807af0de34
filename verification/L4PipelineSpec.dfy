/** The layer-4 event path as functions: ring, batch, POST, spool, drop. Conservation over whole runs. */
module L4PipelineSpec {
  import opened Bytes
  import opened Options
  import opened SpoolBase
  import opened L4SpoolSpec

  const LINE_MAX_BYTES := 65536
  const BATCH_MAX_LINES := 100
  const BATCH_MAX_BYTES := 1048576

  /** 204; 400 or 413; anything else, no connection included. */
  datatype PostResult = Acked | Rejected | PostFailed
  type Network = nat -> PostResult

  /** The counters are those of the source; acked, posts and failures are only observed. */
  datatype Shipper = Shipper(batch: seq<Line>, batchBytes: nat, sent: nat, failed: nat, spooled: nat, spoolErrs: nat,
                             acked: seq<Line>, posts: nat, failures: nat)

  /** enabled is false when the IPC socket is switched off: then there is no shipper. */
  datatype Pipeline = Pipeline(ring: seq<Line>, capacity: nat, enabled: bool, ship: Shipper, spool: Spool, dropped: nat)

  /** What can happen: an event arrives; the drain takes one line; the ticker fires; the process stops. */
  datatype Op = Enqueue(line: Line) | Drain(due: bool) | Tick(due: bool) | Stop

  // ---- Operations ----

  /** The ring keeps the newest capacity lines. */
  function Push(ring: seq<Line>, capacity: nat, line: Line): seq<Line> {
    (if |ring| >= capacity && |ring| > 0 then ring[1..] else ring) + [line]
  }

  function Evicted(ring: seq<Line>, capacity: nat): nat {
    if |ring| >= capacity && |ring| > 0 then 1 else 0
  }

  function EnqueueEvent(p: Pipeline, line: Line): Pipeline {
    if LineSize(line) > LINE_MAX_BYTES then p.(dropped := p.dropped + 1)
    else p.(ring := Push(p.ring, p.capacity, line), dropped := p.dropped + Evicted(p.ring, p.capacity))
  }

  /** The counters by the spool's result; the second result is what noteDrop is told. */
  function Settle(g: Shipper, n: nat, r: Appended): (Shipper, nat) {
    match r.error
    case None => (g.(spooled := g.spooled + r.written), 0)
    case Some(Full) =>
      var remaining := if r.written <= n then n - r.written else 0;
      (g.(spooled := g.spooled + r.written, spoolErrs := g.spoolErrs + remaining), remaining)
    case Some(Loss(lost)) => (g.(spoolErrs := g.spoolErrs + lost, failures := g.failures + 1), lost)
    case Some(_) => (g.(spoolErrs := g.spoolErrs + n, failures := g.failures + 1), n)
  }

  /** spill: the failed batch goes to the spool. */
  function Spill(p: Pipeline, batch: seq<Line>, io: Oracle): Pipeline {
    var (t, r) := Append(p.spool, batch, io);
    var (h, lost) := Settle(p.ship, |batch|, r);
    p.(ship := h, spool := t, dropped := p.dropped + lost)
  }

  /** The batch is settled by the answer to its POST. */
  function Answered(p: Pipeline, batch: seq<Line>, answer: PostResult, io: Oracle): Pipeline {
    match answer
    case Acked => p.(ship := p.ship.(sent := p.ship.sent + |batch|, acked := p.ship.acked + batch))
    case Rejected => p.(ship := p.ship.(failed := p.ship.failed + |batch|), dropped := p.dropped + |batch|)
    case PostFailed => Spill(p.(ship := p.ship.(failed := p.ship.failed + |batch|)), batch, io)
  }

  /** The shipper with its batch taken out and a post made. */
  function Taken(h: Shipper): Shipper {
    h.(batch := [], batchBytes := 0, posts := h.posts + 1)
  }

  /** flush: the batch is taken and posted. */
  function FlushBatch(p: Pipeline, io: Oracle, net: Network): Pipeline {
    if p.ship.batch == [] then p.(ship := p.ship.(batchBytes := 0))
    else Answered(p.(ship := Taken(p.ship)), p.ship.batch, net(p.ship.posts), io)
  }

  /** The shipper with one more line in its batch. */
  function Batched(h: Shipper, line: Line): Shipper {
    h.(batch := h.batch + [line], batchBytes := h.batchBytes + LineSize(line))
  }

  /** submit: one line joins the batch; a full batch goes out. */
  function Submit(p: Pipeline, line: Line, io: Oracle, net: Network): Pipeline {
    if !p.enabled then p.(dropped := p.dropped + 1)
    else
      var q := p.(ship := Batched(p.ship, line));
      if |q.ship.batch| >= BATCH_MAX_LINES || q.ship.batchBytes >= BATCH_MAX_BYTES then FlushBatch(q, io, net) else q
  }

  function FlushIfDue(p: Pipeline, due: bool, io: Oracle, net: Network): Pipeline {
    if !p.enabled then p
    else
      var q := p.(spool := SealIfIdle(p.spool, io));
      if due && |p.ship.batch| > 0 then FlushBatch(q, io, net) else q
  }

  function DrainOne(p: Pipeline, due: bool, io: Oracle, net: Network): Pipeline {
    if p.ring == [] then p
    else FlushIfDue(Submit(p.(ring := p.ring[1..]), p.ring[0], io, net), due, io, net)
  }

  function DrainAll(p: Pipeline, io: Oracle, net: Network): (q: Pipeline)
    decreases |p.ring|
  {
    if p.ring == [] then p
    else
      var q := Submit(p.(ring := p.ring[1..]), p.ring[0], io, net);
      if |q.ring| < |p.ring| then DrainAll(q, io, net) else q
  }

  /** The final flush is followed by the one in the shipper's own close. */
  function CloseShipper(p: Pipeline, io: Oracle, net: Network): Pipeline {
    if !p.enabled then p
    else
      var q := FlushBatch(FlushBatch(p, io, net), io, net);
      q.(spool := Close(q.spool, io))
  }

  /** drainRemainder: empty the ring, flush, close. */
  function StopAll(p: Pipeline, io: Oracle, net: Network): Pipeline {
    CloseShipper(DrainAll(p, io, net), io, net)
  }

  function Step(p: Pipeline, op: Op, io: Oracle, net: Network): Pipeline {
    match op
    case Enqueue(line) => EnqueueEvent(p, line)
    case Drain(due) => DrainOne(p, due, io, net)
    case Tick(due) => FlushIfDue(p, due, io, net)
    case Stop => StopAll(p, io, net)
  }

  function Run(p: Pipeline, ops: seq<Op>, io: Oracle, net: Network): Pipeline {
    if ops == [] then p else Step(Run(p, ops[..|ops| - 1], io, net), ops[|ops| - 1], io, net)
  }

  /** Every line that was ever presented to enqueueEvent. */
  function Presented(ops: seq<Op>): multiset<Line> {
    if ops == [] then multiset{}
    else
      var last := ops[|ops| - 1];
      Presented(ops[..|ops| - 1]) + (if last.Enqueue? then multiset{last.line} else multiset{})
  }

  // ---- Conservation ----

  /** Lines queued, batched, acknowledged with 204, or on disk. */
  function Kept(p: Pipeline): multiset<Line> {
    multiset(p.ring) + multiset(p.ship.batch) + multiset(p.ship.acked) + multiset(Log(p.spool))
  }

  /** kept lines, counted drops and the presented lines agree; exactly, if exact is set. */
  ghost predicate Balanced(kept: multiset<Line>, dropped: nat, exact: bool, presented: multiset<Line>) {
    && kept <= presented
    && |presented| <= |kept| + dropped
    && (exact ==> |presented| == |kept| + dropped)
  }

  /** Every presented line is kept or counted; without spool failures the count is exact. The spooled
      counter never claims a line that is not on disk. */
  ghost predicate Conserved(p: Pipeline, presented: multiset<Line>) {
    && p.capacity >= 1 && |p.ring| <= p.capacity && Quiet(p.spool)
    && Balanced(Kept(p), p.dropped, p.ship.failures == 0, presented)
    && p.ship.sent == |p.ship.acked|
    && p.ship.spooled <= |Log(p.spool)| && (p.ship.failures == 0 ==> p.ship.spooled == |Log(p.spool)|)
    && (!p.enabled ==> p.ship.batch == [])
  }

  /** Lines that arrive and lines that go, with at least as many counted as go. */
  lemma Balance(kept: multiset<Line>, dropped: nat, exact: bool, presented: multiset<Line>,
                arrived: multiset<Line>, gone: multiset<Line>, kept': multiset<Line>, dropped': nat, exact': bool)
    requires Balanced(kept, dropped, exact, presented)
    requires kept + arrived == kept' + gone
    requires dropped' >= dropped + |gone| && (exact' ==> exact && dropped' == dropped + |gone|)
    ensures Balanced(kept', dropped', exact', presented + arrived)
  {
    assert |kept + arrived| == |kept| + |arrived|;
    assert |kept' + gone| == |kept'| + |gone|;
    assert |presented + arrived| == |presented| + |arrived|;
    assert kept' <= kept' + gone;
  }

  lemma RingParts(ring: seq<Line>)
    requires ring != []
    ensures multiset(ring) == multiset{ring[0]} + multiset(ring[1..])
  {
    assert ring == [ring[0]] + ring[1..];
  }

  /** Lines come into and leave the ring, those that leave are counted. */
  lemma RingConserves(p: Pipeline, ring: seq<Line>, arrived: multiset<Line>, gone: multiset<Line>,
                      presented: multiset<Line>)
    requires Conserved(p, presented) && |ring| <= p.capacity
    requires multiset(p.ring) + arrived == multiset(ring) + gone
    ensures Conserved(p.(ring := ring, dropped := p.dropped + |gone|), presented + arrived)
  {
    hide Balanced, Quiet, Log;
    var q := p.(ring := ring, dropped := p.dropped + |gone|);
    var rest := multiset(p.ship.batch) + multiset(p.ship.acked) + multiset(Log(p.spool));
    assert Kept(p) + arrived == (multiset(p.ring) + arrived) + rest;
    assert Kept(q) + gone == (multiset(ring) + gone) + rest;
    Balance(Kept(p), p.dropped, p.ship.failures == 0, presented, arrived, gone, Kept(q), q.dropped,
            q.ship.failures == 0);
  }

  lemma EnqueueConserves(p: Pipeline, line: Line, presented: multiset<Line>)
    requires Conserved(p, presented)
    ensures Conserved(EnqueueEvent(p, line), presented + multiset{line})
  {
    hide Balanced, Quiet, Log, Kept;
    if LineSize(line) > LINE_MAX_BYTES {
      RingConserves(p, p.ring, multiset{line}, multiset{line}, presented);
    } else {
      var ring := Push(p.ring, p.capacity, line);
      if |p.ring| >= p.capacity {
        RingParts(p.ring);
        assert multiset(ring) == multiset(p.ring[1..]) + multiset{line};
        RingConserves(p, ring, multiset{line}, multiset{p.ring[0]}, presented);
      } else {
        assert multiset(ring) == multiset(p.ring) + multiset{line};
        RingConserves(p, ring, multiset{line}, multiset{}, presented);
      }
    }
  }

  /** Settling by an honest result: what is not on disk is reported, and exactly, unless the spool failed. */
  lemma SettleHonest(g: Shipper, n: nat, r: Appended, m: nat)
    requires Honest(r, m, n)
    ensures var (h, lost) := Settle(g, n, r);
            && h.batch == g.batch && h.acked == g.acked && h.sent == g.sent
            && n - m <= lost && h.failures >= g.failures
            && g.spooled <= h.spooled <= g.spooled + m
            && (h.failures == g.failures ==> lost == n - m && h.spooled == g.spooled + m)
  {
  }

  /** The same accounts with batch lines out of everybody's hands. */
  ghost predicate InHand(p: Pipeline, batch: seq<Line>, presented: multiset<Line>) {
    && p.enabled && p.ship.batch == []
    && p.capacity >= 1 && |p.ring| <= p.capacity && Quiet(p.spool)
    && Balanced(Kept(p) + multiset(batch), p.dropped, p.ship.failures == 0, presented)
    && p.ship.sent == |p.ship.acked|
    && p.ship.spooled <= |Log(p.spool)| && (p.ship.failures == 0 ==> p.ship.spooled == |Log(p.spool)|)
  }

  lemma SpillConserves(p: Pipeline, batch: seq<Line>, io: Oracle, presented: multiset<Line>)
    requires InHand(p, batch, presented)
    ensures var q := Spill(p, batch, io);
            Conserved(q, presented) && q.ring == p.ring && q.enabled && q.ship.batch == []
  {
    var m := AppendKeeps(p.spool, batch, io);
    var (t, r) := Append(p.spool, batch, io);
    SettleHonest(p.ship, |batch|, r, m);
    var (h, lost) := Settle(p.ship, |batch|, r);
    SpilledBalance(p, batch, m, t, h, lost, presented);
  }

  lemma SpilledBalance(p: Pipeline, batch: seq<Line>, m: nat, t: Spool, h: Shipper, lost: nat,
                       presented: multiset<Line>)
    requires InHand(p, batch, presented) && m <= |batch| && Quiet(t) && Log(t) == Log(p.spool) + batch[..m]
    requires h.batch == [] && h.acked == p.ship.acked && h.sent == p.ship.sent
    requires |batch| - m <= lost && h.failures >= p.ship.failures && p.ship.spooled <= h.spooled <= p.ship.spooled + m
    requires h.failures == p.ship.failures ==> lost == |batch| - m && h.spooled == p.ship.spooled + m
    ensures Conserved(p.(ship := h, spool := t, dropped := p.dropped + lost), presented)
  {
    var q := p.(ship := h, spool := t, dropped := p.dropped + lost);
    assert batch == batch[..m] + batch[m..];
    assert multiset(Log(t)) == multiset(Log(p.spool)) + multiset(batch[..m]);
    assert Kept(p) + multiset(batch) + multiset{} == Kept(q) + multiset(batch[m..]);
    Balance(Kept(p) + multiset(batch), p.dropped, p.ship.failures == 0, presented,
            multiset{}, multiset(batch[m..]), Kept(q), q.dropped, q.ship.failures == 0);
    assert presented + multiset{} == presented;
  }

  lemma AckedConserves(p: Pipeline, batch: seq<Line>, h: Shipper, presented: multiset<Line>)
    requires InHand(p, batch, presented)
    requires h == p.ship.(sent := p.ship.sent + |batch|, acked := p.ship.acked + batch)
    ensures Conserved(p.(ship := h), presented)
  {
    hide Balanced, Quiet, Log;
    assert multiset(h.acked) == multiset(p.ship.acked) + multiset(batch);
    assert Kept(p.(ship := h)) == Kept(p) + multiset(batch);
  }

  lemma RejectedConserves(p: Pipeline, batch: seq<Line>, h: Shipper, presented: multiset<Line>)
    requires InHand(p, batch, presented)
    requires h == p.ship.(failed := p.ship.failed + |batch|)
    ensures Conserved(p.(ship := h, dropped := p.dropped + |batch|), presented)
  {
    hide Balanced, Quiet, Log;
    var q := p.(ship := h, dropped := p.dropped + |batch|);
    assert Kept(q) == Kept(p);
    Balance(Kept(p) + multiset(batch), p.dropped, p.ship.failures == 0, presented,
            multiset{}, multiset(batch), Kept(q), q.dropped, q.ship.failures == 0);
    assert presented + multiset{} == presented;
  }

  lemma AnsweredConserves(p: Pipeline, batch: seq<Line>, answer: PostResult, io: Oracle, presented: multiset<Line>)
    requires InHand(p, batch, presented)
    ensures var q := Answered(p, batch, answer, io);
            Conserved(q, presented) && q.ring == p.ring && q.enabled && q.ship.batch == []
  {
    hide Balanced, Quiet, Log, Spill;
    match answer
    case Acked => AckedConserves(p, batch, Answered(p, batch, answer, io).ship, presented);
    case Rejected => RejectedConserves(p, batch, Answered(p, batch, answer, io).ship, presented);
    case PostFailed =>
      var q := p.(ship := p.ship.(failed := p.ship.failed + |batch|));
      assert Kept(q) == Kept(p);
      SpillConserves(q, batch, io, presented);
  }

  lemma FlushConserves(p: Pipeline, io: Oracle, net: Network, presented: multiset<Line>)
    requires Conserved(p, presented) && p.enabled
    ensures var q := FlushBatch(p, io, net);
            Conserved(q, presented) && q.ring == p.ring && q.enabled && q.ship.batch == []
  {
    if p.ship.batch != [] {
      var q := p.(ship := Taken(p.ship));
      assert Kept(q) + multiset(p.ship.batch) == Kept(p);
      AnsweredConserves(q, p.ship.batch, net(p.ship.posts), io, presented);
    } else {
      assert Kept(FlushBatch(p, io, net)) == Kept(p);
    }
  }

  lemma DropConserves(p: Pipeline, presented: multiset<Line>)
    requires Conserved(p, presented) && p.ring != []
    ensures Conserved(p.(ring := p.ring[1..], dropped := p.dropped + 1), presented)
  {
    hide Conserved;
    RingParts(p.ring);
    assert multiset(p.ring) + multiset{} == multiset(p.ring[1..]) + multiset{p.ring[0]};
    assert |p.ring[1..]| <= p.capacity by { RingFits(p, presented); }
    RingConserves(p, p.ring[1..], multiset{}, multiset{p.ring[0]}, presented);
    assert presented + multiset{} == presented;
  }

  lemma RingFits(p: Pipeline, presented: multiset<Line>)
    requires Conserved(p, presented)
    ensures |p.ring| <= p.capacity
  {
  }

  lemma BatchConserves(p: Pipeline, presented: multiset<Line>)
    requires Conserved(p, presented) && p.ring != [] && p.enabled
    ensures Conserved(p.(ring := p.ring[1..], ship := Batched(p.ship, p.ring[0])), presented)
  {
    hide Balanced, Quiet, Log;
    var line := p.ring[0];
    RingParts(p.ring);
    assert multiset(p.ship.batch + [line]) == multiset(p.ship.batch) + multiset{line};
    assert Kept(p.(ring := p.ring[1..], ship := Batched(p.ship, line))) == Kept(p);
  }

  /** A popped line joins the batch, or is counted when there is no shipper. */
  lemma SubmitConserves(p: Pipeline, io: Oracle, net: Network, presented: multiset<Line>)
    requires Conserved(p, presented) && p.ring != []
    ensures var q := Submit(p.(ring := p.ring[1..]), p.ring[0], io, net);
            Conserved(q, presented) && q.ring == p.ring[1..] && q.enabled == p.enabled
  {
    hide FlushBatch, Conserved;
    if !p.enabled {
      DropConserves(p, presented);
    } else {
      BatchConserves(p, presented);
      FlushConserves(p.(ring := p.ring[1..], ship := Batched(p.ship, p.ring[0])), io, net, presented);
    }
  }

  lemma SpoolMoved(p: Pipeline, t: Spool, presented: multiset<Line>)
    requires Conserved(p, presented) && Quiet(t) && Log(t) == Log(p.spool)
    ensures Conserved(p.(spool := t), presented)
  {
    assert Kept(p.(spool := t)) == Kept(p);
  }

  lemma FlushIfDueConserves(p: Pipeline, due: bool, io: Oracle, net: Network, presented: multiset<Line>)
    requires Conserved(p, presented)
    ensures var q := FlushIfDue(p, due, io, net); Conserved(q, presented) && q.ring == p.ring && q.enabled == p.enabled
  {
    if p.enabled {
      SealIfIdleKeeps(p.spool, io);
      var t := SealIfIdle(p.spool, io);
      SpoolMoved(p, t, presented);
      FlushConserves(p.(spool := t), io, net, presented);
    }
  }

  lemma {:induction false} DrainAllConserves(p: Pipeline, io: Oracle, net: Network, presented: multiset<Line>)
    requires Conserved(p, presented)
    ensures var q := DrainAll(p, io, net); Conserved(q, presented) && q.ring == [] && q.enabled == p.enabled
    decreases |p.ring|
  {
    if p.ring != [] {
      SubmitConserves(p, io, net, presented);
      DrainAllConserves(Submit(p.(ring := p.ring[1..]), p.ring[0], io, net), io, net, presented);
    }
  }

  lemma CloseConserves(p: Pipeline, io: Oracle, net: Network, presented: multiset<Line>)
    requires Conserved(p, presented)
    ensures var q := CloseShipper(p, io, net); Conserved(q, presented) && q.ring == p.ring && q.ship.batch == []
  {
    if p.enabled {
      FlushConserves(p, io, net, presented);
      var q := FlushBatch(p, io, net);
      FlushConserves(q, io, net, presented);
      var r := FlushBatch(q, io, net);
      CloseKeeps(r.spool, io);
      SpoolMoved(r, Close(r.spool, io), presented);
    }
  }

  lemma StopConserves(p: Pipeline, io: Oracle, net: Network, presented: multiset<Line>)
    requires Conserved(p, presented)
    ensures var q := StopAll(p, io, net); Conserved(q, presented) && q.ring == [] && q.ship.batch == []
  {
    var d := DrainAll(p, io, net);
    DrainAllConserves(p, io, net, presented);
    CloseConserves(d, io, net, presented);
  }

  lemma DrainOneConserves(p: Pipeline, due: bool, io: Oracle, net: Network, presented: multiset<Line>)
    requires Conserved(p, presented)
    ensures Conserved(DrainOne(p, due, io, net), presented)
  {
    if p.ring != [] {
      SubmitConserves(p, io, net, presented);
      FlushIfDueConserves(Submit(p.(ring := p.ring[1..]), p.ring[0], io, net), due, io, net, presented);
    }
  }

  lemma StepConserves(p: Pipeline, op: Op, io: Oracle, net: Network, presented: multiset<Line>)
    requires Conserved(p, presented)
    ensures Conserved(Step(p, op, io, net), presented + (if op.Enqueue? then multiset{op.line} else multiset{}))
  {
    assert presented + multiset{} == presented;
    match op
    case Enqueue(line) => EnqueueConserves(p, line, presented);
    case Drain(due) => DrainOneConserves(p, due, io, net, presented);
    case Tick(due) => FlushIfDueConserves(p, due, io, net, presented);
    case Stop => StopConserves(p, io, net, presented);
  }

  /** A new pipeline: nothing queued, counted or written. */
  ghost predicate Initial(p: Pipeline) {
    && p.ring == [] && p.capacity >= 1 && p.dropped == 0
    && p.ship == Shipper([], 0, 0, 0, 0, 0, [], 0, 0)
    && Quiet(p.spool) && p.spool.active.None? && p.spool.past == []
  }

  /** Over every run, whatever the network and the disk do: lines neither queued, acknowledged nor on
      disk never outnumber dropped, and if the spool only ever failed by being full the count is exact. */
  lemma {:induction false} RunConserves(p: Pipeline, ops: seq<Op>, io: Oracle, net: Network)
    requires Initial(p)
    ensures Conserved(Run(p, ops, io, net), Presented(ops))
  {
    if ops == [] {
      assert Kept(p) == multiset{};
    } else {
      RunConserves(p, ops[..|ops| - 1], io, net);
      StepConserves(Run(p, ops[..|ops| - 1], io, net), ops[|ops| - 1], io, net, Presented(ops[..|ops| - 1]));
    }
  }

  /** After a stop nothing is in transit: what was presented is acknowledged, on disk, or counted. */
  lemma StopSettles(p: Pipeline, ops: seq<Op>, io: Oracle, net: Network)
    requires Initial(p)
    ensures var q := Run(p, ops + [Stop], io, net);
            && q.ring == [] && q.ship.batch == []
            && |Presented(ops)| <= |q.ship.acked| + |Log(q.spool)| + q.dropped
            && (q.ship.failures == 0 ==> |Presented(ops)| == q.ship.sent + q.ship.spooled + q.dropped)
  {
    var all := ops + [Stop];
    assert all[..|ops|] == ops;
    RunConserves(p, ops, io, net);
    var r := Run(p, ops, io, net);
    StopConserves(r, io, net, Presented(ops));
    var q := StopAll(r, io, net);
    assert Run(p, all, io, net) == q;
    assert |Kept(q)| == |multiset(q.ship.acked)| + |multiset(Log(q.spool))|;
  }
}
