/** The layer-4 pipeline object: ring, shipper and spool, proved equal to the functions whose runs
    L4PipelineSpec.RunConserves is about. */
module L4Pipeline {
  import opened Bytes
  import opened Options
  import opened SpoolBase
  import opened L4Ring
  import opened L4Spool
  import Spool = L4SpoolSpec
  import Spec = L4PipelineSpec

  class L4Pipeline {
    const ring: L4Ring
    const spool: L4Spool
    const enabled: bool
    var dropped: nat
    var ship: Spec.Shipper

    ghost predicate Valid()
      reads ring, ring.slots, ring.lens, spool
    {
      ring.Valid() && Quiet(spool.s)
    }

    ghost function State(): Spec.Pipeline
      reads this, ring, spool
    {
      Spec.Pipeline(ring.queue, ring.capacity, enabled, ship, spool.s, dropped)
    }

    constructor (capacity: nat, initial: SpoolBase.Spool, enabled: bool)
      requires Quiet(initial) && initial.active.None? && initial.past == []
      ensures Valid() && Spec.Initial(State())
      ensures fresh(ring) && fresh(ring.slots) && fresh(ring.lens) && fresh(spool)
    {
      ring := new L4Ring(capacity);
      spool := new L4Spool(initial);
      this.enabled := enabled;
      dropped := 0;
      ship := Spec.Shipper([], 0, 0, 0, 0, 0, [], 0, 0);
    }

    /** enqueueEvent */
    method EnqueueEvent(line: Line)
      requires Valid()
      modifies this`dropped, ring`head, ring`count, ring`queue, ring.slots, ring.lens
      ensures Valid() && State() == Spec.EnqueueEvent(old(State()), line)
    {
      if |line| + 1 > Spec.LINE_MAX_BYTES {
        dropped := dropped + 1;
        return;
      }
      var evicted := ring.Push(line);
      if evicted > 0 {
        dropped := dropped + evicted;
      }
    }

    /** spill */
    method Spill(batch: seq<Line>, io: Oracle)
      requires Valid()
      modifies this`ship, this`dropped, spool
      ensures Valid() && State() == Spec.Spill(old(State()), batch, io)
    {
      var r := spool.AppendLines(batch, io);
      var (h, lost) := Spec.Settle(ship, |batch|, r);
      ship := h;
      dropped := dropped + lost;
    }

    /** The answer to the POST of a taken batch. */
    method Answered(batch: seq<Line>, answer: Spec.PostResult, io: Oracle)
      requires Valid()
      modifies this`ship, this`dropped, spool
      ensures Valid() && State() == Spec.Answered(old(State()), batch, answer, io)
    {
      hide Spec.Spill;
      match answer
      case Acked =>
        ship := ship.(sent := ship.sent + |batch|, acked := ship.acked + batch);
      case Rejected =>
        ship := ship.(failed := ship.failed + |batch|);
        dropped := dropped + |batch|;
      case PostFailed =>
        ship := ship.(failed := ship.failed + |batch|);
        Spill(batch, io);
    }

    /** flush */
    method FlushBatch(io: Oracle, net: Spec.Network)
      requires Valid()
      modifies this`ship, this`dropped, spool
      ensures Valid() && State() == Spec.FlushBatch(old(State()), io, net)
    {
      hide Spec.Answered;
      var batch := ship.batch;
      if |batch| == 0 {
        ship := ship.(batchBytes := 0);
        return;
      }
      var answer := net(ship.posts);
      ship := ship.(batch := [], batchBytes := 0, posts := ship.posts + 1);
      Answered(batch, answer, io);
    }

    /** submit */
    method Submit(line: Line, io: Oracle, net: Spec.Network)
      requires Valid()
      modifies this`ship, this`dropped, spool
      ensures Valid() && State() == Spec.Submit(old(State()), line, io, net)
    {
      hide Spec.FlushBatch;
      if !enabled {
        dropped := dropped + 1;
        return;
      }
      ship := ship.(batch := ship.batch + [line], batchBytes := ship.batchBytes + (|line| + 1));
      if |ship.batch| >= Spec.BATCH_MAX_LINES || ship.batchBytes >= Spec.BATCH_MAX_BYTES {
        FlushBatch(io, net);
      }
    }

    /** flushIfDue */
    method FlushIfDue(due: bool, io: Oracle, net: Spec.Network)
      requires Valid()
      modifies this`ship, this`dropped, spool
      ensures Valid() && State() == Spec.FlushIfDue(old(State()), due, io, net)
    {
      hide Spec.FlushBatch, Spool.SealIfIdle;
      if !enabled {
        return;
      }
      Spool.SealIfIdleKeeps(spool.s, io);
      spool.SealIfIdle(io);
      if due && |ship.batch| > 0 {
        FlushBatch(io, net);
      }
    }

    /** One turn of popAndSubmit. */
    method DrainOne(due: bool, io: Oracle, net: Spec.Network)
      requires Valid()
      modifies this`ship, this`dropped, spool, ring`head, ring`count, ring`queue
      ensures Valid() && State() == Spec.DrainOne(old(State()), due, io, net)
    {
      var line, ok := ring.Pop();
      if !ok {
        return;
      }
      Submit(line, io, net);
      FlushIfDue(due, io, net);
    }

    /** drainRemainder and close */
    method Stop(io: Oracle, net: Spec.Network)
      requires Valid()
      modifies this`ship, this`dropped, spool, ring`head, ring`count, ring`queue
      ensures Valid() && State() == Spec.StopAll(old(State()), io, net)
    {
      while ring.count > 0
        invariant Valid()
        invariant Spec.DrainAll(State(), io, net) == Spec.DrainAll(old(State()), io, net)
        decreases ring.count
      {
        var line, ok := ring.Pop();
        Submit(line, io, net);
      }
      if enabled {
        FlushBatch(io, net);
        FlushBatch(io, net);
        Spool.CloseKeeps(spool.s, io);
        spool.Close(io);
      }
    }

    /** Any run of the object keeps the accounts. */
    method RunAll(ops: seq<Spec.Op>, io: Oracle, net: Spec.Network)
      requires Valid() && Spec.Initial(State())
      modifies this`ship, this`dropped, spool, ring`head, ring`count, ring`queue, ring.slots, ring.lens
      ensures Valid() && Spec.Conserved(State(), Spec.Presented(ops))
    {
      ghost var start := State();
      for i := 0 to |ops|
        invariant Valid() && State() == Spec.Run(start, ops[..i], io, net)
      {
        assert ops[..i + 1][..i] == ops[..i];
        match ops[i]
        case Enqueue(line) => EnqueueEvent(line);
        case Drain(due) => DrainOne(due, io, net);
        case Tick(due) => FlushIfDue(due, io, net);
        case Stop => Stop(io, net);
      }
      assert ops[..|ops|] == ops;
      Spec.RunConserves(start, ops, io, net);
    }
  }
}
