/** Runs of the timing registry: what every state keeps, and how long it answers for a request that outlives
    its entry. */
module TimingRuns {
  import opened Options
  import opened TimingShard
  import opened TimingRegistry

  // ---- Runs ----

  datatype Op = OpRecord(id: Id, seg: Segment, us: int, now: int) | OpClose(id: Id) | OpSweep(now: int)

  function Step(r: Registry, op: Op): (t: Registry)
    requires |r.shards| == SHARDS
    ensures |t.shards| == SHARDS
  {
    match op
    case OpRecord(id, seg, us, now) => Record(r, id, seg, us, now)
    case OpClose(id) => Close(r, id)
    case OpSweep(now) => SweepAll(r, now)
  }

  /** The clock never goes back. */
  predicate Timely(r: Registry, op: Op) {
    op.OpClose? || r.clock <= op.now
  }

  lemma StepKeeps(r: Registry, op: Op)
    requires Inv(r) && Timely(r, op)
    ensures Inv(Step(r, op))
  {
    hide Inv, Record, Close, SweepAll;
    InvLength(r);
    match op
    case OpRecord(id, seg, us, now) => RecordKeeps(r, id, seg, us, now);
    case OpClose(id) => CloseKeeps(r, id);
    case OpSweep(now) => SweepAllKeeps(r, false, now);
  }

  /** States of a run: it starts somewhere and every call is timely. */
  ghost predicate RunOf(states: seq<Registry>, ops: seq<Op>) {
    && |states| == |ops| + 1
    && (forall i :: 0 <= i < |states| ==> |states[i].shards| == SHARDS)
    && (forall i :: 0 <= i < |ops| ==> Timely(states[i], ops[i]) && states[i + 1] == Step(states[i], ops[i]))
  }

  lemma RunStarts(r: Registry)
    requires |r.shards| == SHARDS
    ensures RunOf([r], [])
  {
  }

  lemma RunGrows(states: seq<Registry>, ops: seq<Op>, op: Op, next: Registry)
    requires RunOf(states, ops) && |states| > 0
    requires var r := states[|states| - 1];
             |r.shards| == SHARDS && |next.shards| == SHARDS && Timely(r, op) && next == Step(r, op)
    ensures RunOf(states + [next], ops + [op])
  {
    hide Step;
    var states', ops' := states + [next], ops + [op];
    forall i | 0 <= i < |ops'| ensures Timely(states'[i], ops'[i]) && states'[i + 1] == Step(states'[i], ops'[i]) {
      assert i < |ops| ==> Timely(states[i], ops[i]) && states[i + 1] == Step(states[i], ops[i]);
    }
  }

  function Initial(ttl: nat, preTtl: nat): Registry {
    Registry(seq(SHARDS, _ => EMPTY), Counts(0, 0), 0, 0, {}, ttl, preTtl)
  }

  lemma {:induction false} EmptySums(shards: seq<Shard>)
    requires forall i :: 0 <= i < |shards| ==> shards[i] == EMPTY
    ensures SumEntries(shards) == 0 && SumRetained(shards) == 0
  {
    if shards != [] {
      EmptySums(shards[..|shards| - 1]);
    }
  }

  lemma InitialInv(ttl: nat, preTtl: nat)
    ensures Inv(Initial(ttl, preTtl))
  {
    EmptySums(Initial(ttl, preTtl).shards);
  }

  /** Every reachable registry: queues and tables in bijection and in order, both counters exact and
      within their caps, every id in its shard, every pre on file accepted for its own id. */
  lemma {:induction false} RunKeeps(states: seq<Registry>, ops: seq<Op>, i: nat)
    requires RunOf(states, ops) && i < |states| && Inv(states[0])
    ensures Inv(states[i])
  {
    hide Inv, Step;
    if i > 0 {
      RunKeeps(states, ops, i - 1);
      StepKeeps(states[i - 1], ops[i - 1]);
    }
  }

  /** No audit line is ever told another request's pre: what a look reports was accepted for that id. */
  lemma LookReportsAccepted(states: seq<Registry>, ops: seq<Op>, i: nat, id: Id)
    requires RunOf(states, ops) && i < |states| && Inv(states[0])
    ensures var s := Look(states[i], id); s.preUs.Some? ==> (id, s.preUs.value) in states[i].accepted
  {
    hide Step;
    RunKeeps(states, ops, i);
    assert AtHome(states[i], ShardOf(id));
  }

  // ---- A kept pre survives ----

  /** The id's pre is kept since c0 or later, and an entry made again meanwhile has it. */
  ghost predicate Holds(r: Registry, id: Id, v: int, c0: int)
    requires |r.shards| == SHARDS
  {
    var sh := r.shards[ShardOf(id)];
    && id in sh.retained && sh.retained[id].us == v && c0 <= sh.retained[id].created
    && (id in sh.entries ==> sh.entries[id].preUs == Some(v))
  }

  lemma SweepHolds(r: Registry, id: Id, v: int, c0: int, now: int)
    requires Inv(r) && r.clock <= now <= c0 + r.preTtl && Holds(r, id, v, c0)
    ensures Inv(SweepAll(r, now)) && Holds(SweepAll(r, now), id, v, c0)
  {
    hide SweepAll;
    SweepAllKeeps(r, false, now);
    var k, t := ShardOf(id), SweepAll(r, now);
    assert SweepMeans(r.shards[k], t.shards[k], false, now, r.ttl, r.preTtl);
    assert !PreExpired(r.shards[k].retained[id], now, r.preTtl);
    KeptSince(r, id, now);
  }

  /** Nothing on file is younger than the clock. */
  lemma KeptSince(r: Registry, id: Id, now: int)
    requires Inv(r) && r.clock <= now && id in r.shards[ShardOf(id)].retained
    ensures r.shards[ShardOf(id)].retained[id].created <= now
  {
    var k := ShardOf(id);
    assert AtHome(r, k);
    NotNewerThan(r.shards[k].retained, LivePres(r.shards[k]), r.clock, id);
  }

  lemma WriteHolds(r: Registry, id: Id, v: int, c0: int, other: Id, seg: Segment, us: int)
    requires |r.shards| == SHARDS && Holds(r, id, v, c0) && (other == id ==> seg != SegPre)
    ensures Holds(Write(r, other, seg, us), id, v, c0)
  {
  }

  lemma CreatedHolds(r: Registry, id: Id, v: int, c0: int, other: Id, now: int)
    requires |r.shards| == SHARDS && Holds(r, id, v, c0) && other !in r.shards[ShardOf(other)].entries
    ensures Holds(Created(r, other, now), id, v, c0)
  {
  }

  lemma AdmitHolds(r: Registry, id: Id, v: int, c0: int, other: Id, now: int)
    requires Inv(r) && r.clock <= now <= c0 + r.preTtl && Holds(r, id, v, c0)
    requires other != [] && other !in r.shards[ShardOf(other)].entries && r.c.live < MAX_ENTRIES
    ensures Holds(Admit(r, other, now), id, v, c0)
  {
    hide SweepAll, Inv, Holds;
    InvLength(r);
    CreatedKeeps(r, other, now);
    CreatedHolds(r, id, v, c0, other, now);
    var t := Created(r, other, now);
    if t.creates % SWEEP_EVERY == 0 {
      SweepHolds(t, id, v, c0, now);
    }
  }

  /** The call may end the hold only by a new pre for the id, or by coming after the retention time. */
  predicate Harmless(r: Registry, op: Op, id: Id, c0: int) {
    && (op.OpRecord? && op.id == id ==> op.seg != SegPre)
    && (!op.OpClose? ==> op.now <= c0 + r.preTtl)
  }

  lemma StepHolds(r: Registry, op: Op, id: Id, v: int, c0: int)
    requires Inv(r) && Timely(r, op) && Holds(r, id, v, c0) && Harmless(r, op, id, c0)
    ensures Holds(Step(r, op), id, v, c0) && Step(r, op).preTtl == r.preTtl
  {
    hide Inv, SweepAll, Admit;
    InvLength(r);
    match op
    case OpRecord(other, seg, us, now) =>
      RecordKeeps(r, other, seg, us, now);
      if ValidId(other) && other !in r.shards[ShardOf(other)].entries && r.c.live < MAX_ENTRIES {
        AdmitHolds(r, id, v, c0, other, now);
        WriteHolds(Admit(r, other, now), id, v, c0, other, seg, us);
      } else {
        WriteHolds(r, id, v, c0, other, seg, us);
      }
    case OpClose(other) =>
    case OpSweep(now) =>
      SweepAllKeeps(r, false, now);
      SweepHolds(r, id, v, c0, now);
  }

  lemma {:induction false} RunHolds(states: seq<Registry>, ops: seq<Op>, i: nat, j: nat, id: Id, v: int, c0: int)
    requires RunOf(states, ops) && i <= j < |states| && Inv(states[0]) && Holds(states[i], id, v, c0)
    requires forall k :: i <= k < j ==> Harmless(states[k], ops[k], id, c0)
    ensures Holds(states[j], id, v, c0)
  {
    hide Inv, Step, Holds;
    if i < j {
      RunHolds(states, ops, i, j - 1, id, v, c0);
      RunKeeps(states, ops, j - 1);
      StepHolds(states[j - 1], ops[j - 1], id, v, c0);
    }
  }

  /** A kept pre is reported for the whole retention time, whatever else happens: its entry created again,
      closed, swept again, the registry full. Only a new pre recorded for the id replaces it. */
  lemma KeptPreIsReported(states: seq<Registry>, ops: seq<Op>, i: nat, j: nat, id: Id, v: int, c0: int)
    requires RunOf(states, ops) && Inv(states[0]) && i <= j < |states| && Holds(states[i], id, v, c0)
    requires forall k :: i <= k < j ==> Harmless(states[k], ops[k], id, c0)
    ensures Look(states[j], id).preUs == Some(v)
    ensures id !in states[j].shards[ShardOf(id)].entries ==> Look(states[j], id) == Snapshot(Some(v), None, true)
  {
    hide Step, Inv;
    RunHolds(states, ops, i, j, id, v, c0);
    RunKeeps(states, ops, j);
    HeldIsNamed(states[j], id);
  }

  // ---- Which pres are kept ----

  /** The call sweeps all shards: the periodic sweeper, or every 64th creation. */
  predicate Sweeps(r: Registry, op: Op)
    requires |r.shards| == SHARDS
  {
    match op
    case OpSweep(_) => true
    case OpClose(_) => false
    case OpRecord(id, _, _, _) =>
      ValidId(id) && id !in r.shards[ShardOf(id)].entries && r.c.live < MAX_ENTRIES &&
        (r.creates + 1) % SWEEP_EVERY == 0
  }

  /** The entry is due, unclosed and has the pre. */
  predicate OwedPreIs(r: Registry, id: Id, v: int, now: int)
    requires |r.shards| == SHARDS
  {
    var sh := r.shards[ShardOf(id)];
    Owed(sh, id, now, r.ttl) && sh.entries[id].preUs == Some(v)
  }

  /** With room for all owed pres a sweep keeps each of them. */
  lemma SweepKeepsOwed(r: Registry, id: Id, v: int, now: int)
    requires Inv(r) && r.clock <= now && OwedPreIs(r, id, v, now) && Pressure(r, now) <= MAX_RETAINED
    ensures |SweepAll(r, now).shards| == SHARDS && Holds(SweepAll(r, now), id, v, now)
  {
    hide SweepAll, Pressure;
    SweepAllKeeps(r, true, now);
    var k, t := ShardOf(id), SweepAll(r, now);
    assert SweepMeans(r.shards[k], t.shards[k], true, now, r.ttl, r.preTtl);
  }

  lemma CreatedOwesNothing(r: Registry, other: Id, now: int, id: Id, v: int)
    requires |r.shards| == SHARDS && other !in r.shards[ShardOf(other)].entries && OwedPreIs(r, id, v, now)
    ensures OwedPreIs(Created(r, other, now), id, v, now) && Pressure(Created(r, other, now), now) == Pressure(r, now)
  {
    var k := ShardOf(other);
    var sh := Create(r.shards[k], other, now);
    assert Incoming(sh, now, r.ttl) == Incoming(r.shards[k], now, r.ttl);
    IncomingUpdate(r.shards, k, sh, now, r.ttl);
  }

  /** The same for the sweep inside a record, whose own write is for another id. */
  lemma RecordKeepsOwed(r: Registry, other: Id, seg: Segment, us: int, now: int, id: Id, v: int)
    requires Inv(r) && r.clock <= now && Sweeps(r, OpRecord(other, seg, us, now))
    requires OwedPreIs(r, id, v, now) && Pressure(r, now) <= MAX_RETAINED
    ensures Holds(Record(r, other, seg, us, now), id, v, now)
  {
    hide SweepAll, Inv, Pressure, Holds, Write, Created;
    InvLength(r);
    assert other != id && (other != [] && other !in r.shards[ShardOf(other)].entries);
    CreatedKeeps(r, other, now);
    CreatedOwesNothing(r, other, now, id, v);
    var t := Created(r, other, now);
    assert t.creates == r.creates + 1 && t.clock == now by { CreatedCounts(r, other, now); }
    SweepKeepsOwed(t, id, v, now);
    WriteHolds(SweepAll(t, now), id, v, now, other, seg, us);
  }

  lemma CreatedCounts(r: Registry, id: Id, now: int)
    requires |r.shards| == SHARDS
    ensures Created(r, id, now).creates == r.creates + 1 && Created(r, id, now).clock == now
  {
  }

  /** A request outlives its entry: some call sweeps the unclosed entry with pre v away. If the pres already
      kept and those that come now fit the retained table, the pre is kept, however many live entries there are,
      and every look reports it until the retention time is over or a new pre was recorded for the id. */
  lemma LongRequestKeepsItsPre(states: seq<Registry>, ops: seq<Op>, i: nat, j: nat, id: Id, v: int)
    requires RunOf(states, ops) && Inv(states[0]) && i < j < |states| && Sweeps(states[i], ops[i])
    requires OwedPreIs(states[i], id, v, ops[i].now) && Pressure(states[i], ops[i].now) <= MAX_RETAINED
    requires forall k :: i < k < j ==> Harmless(states[k], ops[k], id, ops[i].now)
    ensures Look(states[j], id).preUs == Some(v)
  {
    hide SweepAll, Inv, Holds, Pressure, Record;
    var op, now := ops[i], ops[i].now;
    RunKeeps(states, ops, i);
    assert Timely(states[i], op) && states[i + 1] == Step(states[i], op);
    if op.OpSweep? {
      SweepKeepsOwed(states[i], id, v, now);
    } else {
      RecordKeepsOwed(states[i], op.id, op.seg, op.us, now, id, v);
    }
    KeptPreIsReported(states, ops, i + 1, j, id, v, now);
  }

  lemma HeldIsNamed(r: Registry, id: Id)
    requires Inv(r) && id in r.shards[ShardOf(id)].retained
    ensures id != []
  {
    assert AtHome(r, ShardOf(id));
  }
}
