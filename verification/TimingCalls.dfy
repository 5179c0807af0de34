/** What the writers and readers of the timing registry see of each other: a recorded segment is read back, a
    close is seen, other requests notice nothing, and a live entry answers with what was recorded last. */
module TimingCalls {
  import opened Options
  import opened TimingShard
  import opened TimingRegistry
  import opened TimingRuns

  /** The id has an entry. */
  predicate Known(r: Registry, id: Id)
    requires |r.shards| == SHARDS
  {
    id in r.shards[ShardOf(id)].entries
  }

  /** A record for the id is not refused: the id is well formed, and has an entry or finds room for one. */
  predicate Admitted(r: Registry, id: Id)
    requires |r.shards| == SHARDS
  {
    ValidId(id) && (Known(r, id) || r.c.live < MAX_ENTRIES)
  }

  /** auditTimingLogged: the interception mark of a live entry. */
  function Logged(r: Registry, id: Id): bool
    requires |r.shards| == SHARDS
  {
    var sh := r.shards[ShardOf(id)];
    id != [] && id in sh.entries && sh.entries[id].logged
  }

  /** What a reader is told about the id at that moment is past its time. */
  predicate Due(r: Registry, id: Id, now: int)
    requires |r.shards| == SHARDS
  {
    var sh := r.shards[ShardOf(id)];
    if id in sh.entries then now - sh.entries[id].created > r.ttl
    else id in sh.retained && now - sh.retained[id].created > r.preTtl
  }

  /** A reader is told the same about the id. */
  predicate SameAnswer(r: Registry, t: Registry, id: Id)
    requires |r.shards| == SHARDS && |t.shards| == SHARDS
  {
    Look(t, id) == Look(r, id) && Logged(t, id) == Logged(r, id)
  }

  // ---- One record ----

  /** The answers after a record of that segment, told from those before it. */
  predicate Recorded(r: Registry, t: Registry, id: Id, seg: Segment, us: int)
    requires |r.shards| == SHARDS && |t.shards| == SHARDS
  {
    var was, now := Look(r, id), Look(t, id);
    && now.preUs == (if seg == SegPre then Some(us) else was.preUs)
    && now.endUs == (if seg == SegEnd then Some(us) else was.endUs)
    && now.closed == (was.closed && Known(r, id))
    && Logged(t, id) == (seg == SegLogged || Logged(r, id))
  }

  lemma WriteIsRead(t: Registry, id: Id, seg: Segment, us: int)
    requires |t.shards| == SHARDS && id != [] && Known(t, id)
    ensures Known(Write(t, id, seg, us), id) && Recorded(t, Write(t, id, seg, us), id, seg, us)
  {
  }

  /** A record that is not refused is read back: the next look reports its value for its segment, and the mark if
      it was one, the other segment as before it, and an entry that is open unless it was closed before. */
  lemma RecordIsRead(r: Registry, id: Id, seg: Segment, us: int, now: int)
    requires Inv(r) && r.clock <= now && Admitted(r, id)
    ensures var t := Record(r, id, seg, us, now);
            && Known(t, id)
            && Look(t, id).preUs == (if seg == SegPre then Some(us) else Look(r, id).preUs)
            && Look(t, id).endUs == (if seg == SegEnd then Some(us) else Look(r, id).endUs)
            && Look(t, id).closed == (Look(r, id).closed && Known(r, id))
            && Logged(t, id) == (seg == SegLogged || Logged(r, id))
  {
    hide Inv, Admit, Write;
    InvLength(r);
    if Known(r, id) {
      WriteIsRead(r, id, seg, us);
    } else {
      AdmitKeeps(r, id, now);
      WriteIsRead(Admit(r, id, now), id, seg, us);
    }
  }

  /** A refused record changes nothing that anybody can read. */
  lemma RefusedRecordChangesNothing(r: Registry, id: Id, seg: Segment, us: int, now: int, other: Id)
    requires Inv(r) && !Admitted(r, id)
    ensures SameAnswer(r, Record(r, id, seg, us, now), other)
  {
    CapsHold(r);
  }

  // ---- One close ----

  /** After a close of a live entry a look says closed; nothing else that can be read changes. */
  lemma CloseIsRead(r: Registry, id: Id, other: Id)
    requires Inv(r)
    ensures var t := Close(r, id);
            && Look(t, id) == (if Known(r, id) then Look(r, id).(closed := true) else Look(r, id))
            && Logged(t, id) == Logged(r, id)
            && (other != id ==> SameAnswer(r, t, other))
  {
    hide Inv, ShardOf;
    InvLength(r);
    if Known(r, id) {
      OnFileAccepted(r, id);
    }
  }

  // ---- Other requests ----

  lemma SweepSameAnswer(r: Registry, now: int, id: Id)
    requires Inv(r) && r.clock <= now && !Due(r, id, now)
    ensures |SweepAll(r, now).shards| == SHARDS && SameAnswer(r, SweepAll(r, now), id)
    ensures Known(SweepAll(r, now), id) == Known(r, id)
  {
    hide SweepAll, Inv;
    InvLength(r);
    SweepAllKeeps(r, false, now);
    var k, t := ShardOf(id), SweepAll(r, now);
    InvLength(t);
    assert SweepMeans(r.shards[k], t.shards[k], false, now, r.ttl, r.preTtl);
  }

  lemma CreatedSameAnswer(r: Registry, id: Id, now: int, other: Id)
    requires |r.shards| == SHARDS && other != id
    ensures var t := Created(r, id, now);
            SameAnswer(r, t, other) && Due(t, other, now) == Due(r, other, now)
  {
  }

  lemma WriteSameAnswer(r: Registry, id: Id, seg: Segment, us: int, other: Id)
    requires |r.shards| == SHARDS && other != id
    ensures SameAnswer(r, Write(r, id, seg, us), other)
  {
  }

  lemma SameOn(r: Registry, t: Registry, u: Registry, id: Id)
    requires |r.shards| == |t.shards| == |u.shards| == SHARDS && SameAnswer(r, t, id) && SameAnswer(t, u, id)
    ensures SameAnswer(r, u, id)
  {
  }

  /** A record, with the sweep it may trigger, changes no answer about another id that is within its time. */
  lemma RecordSparesOthers(r: Registry, id: Id, seg: Segment, us: int, now: int, other: Id)
    requires Inv(r) && r.clock <= now && other != id && !Due(r, other, now)
    ensures SameAnswer(r, Record(r, id, seg, us, now), other)
  {
    hide Inv, SweepAll, Write, Created, SameAnswer, Due;
    InvLength(r);
    WriteSameAnswer(r, id, seg, us, other);
    AnswersIgnoreClock(Write(r, id, seg, us), now, other);
    AnswersIgnoreClock(r, now, other);
    if ValidId(id) && !Known(r, id) && r.c.live < MAX_ENTRIES {
      CreatedKeeps(r, id, now);
      CreatedSameAnswer(r, id, now, other);
      var t := Created(r, id, now);
      if t.creates % SWEEP_EVERY == 0 {
        assert t.clock <= now by { CreatedCounts(r, id, now); }
        SweepSameAnswer(t, now, other);
        SameOn(r, t, SweepAll(t, now), other);
      }
      WriteSameAnswer(Admit(r, id, now), id, seg, us, other);
      SameOn(r, Admit(r, id, now), Record(r, id, seg, us, now), other);
    } else {
      SameOn(r, Write(r, id, seg, us), Write(r, id, seg, us).(clock := now), other);
    }
  }

  lemma AnswersIgnoreClock(r: Registry, now: int, id: Id)
    requires |r.shards| == SHARDS
    ensures SameAnswer(r, r.(clock := now), id)
  {
  }

  // ---- Over runs ----

  /** The answers a request's own calls add up to: the last pre, the last end, and closed once it was closed. */
  function Told(s: Snapshot, ops: seq<Op>, id: Id): Snapshot {
    if ops == [] then s
    else
      var before := Told(s, ops[..|ops| - 1], id);
      match ops[|ops| - 1]
      case OpRecord(i, seg, us, _) =>
        if i != id then before
        else if seg == SegPre then before.(preUs := Some(us))
        else if seg == SegEnd then before.(endUs := Some(us))
        else before
      case OpClose(i) => if i == id then before.(closed := true) else before
      case OpSweep(_) => before
  }

  /** The entry is there, and has been since c. */
  predicate Lives(r: Registry, id: Id, c: int)
    requires |r.shards| == SHARDS
  {
    Known(r, id) && r.shards[ShardOf(id)].entries[id].created == c
  }

  lemma WriteLives(r: Registry, other: Id, seg: Segment, us: int, id: Id, c: int)
    requires |r.shards| == SHARDS && Lives(r, id, c)
    ensures Lives(Write(r, other, seg, us), id, c)
  {
  }

  lemma CreatedLives(r: Registry, other: Id, now: int, id: Id, c: int)
    requires |r.shards| == SHARDS && Lives(r, id, c) && !Known(r, other)
    ensures Lives(Created(r, other, now), id, c)
  {
  }

  lemma SweepLives(r: Registry, now: int, id: Id, c: int)
    requires Inv(r) && r.clock <= now <= c + r.ttl && Lives(r, id, c)
    ensures |SweepAll(r, now).shards| == SHARDS && Lives(SweepAll(r, now), id, c)
  {
    hide SweepAll, Inv;
    InvLength(r);
    SweepRemovesExactlyExpired(r, now, id);
  }

  lemma StepLives(r: Registry, op: Op, id: Id, c: int)
    requires Inv(r) && Timely(r, op) && Lives(r, id, c) && (!op.OpClose? ==> op.now <= c + r.ttl)
    ensures Lives(Step(r, op), id, c) && Step(r, op).ttl == r.ttl
  {
    hide Inv, SweepAll, Write, Created, Lives;
    InvLength(r);
    match op
    case OpRecord(other, seg, us, now) =>
      RecordKeeps(r, other, seg, us, now);
      WriteLives(r, other, seg, us, id, c);
      LivesIgnoresClock(r, now, id, c);
      LivesIgnoresClock(Write(r, other, seg, us), now, id, c);
      if ValidId(other) && !Known(r, other) && r.c.live < MAX_ENTRIES {
        CreatedKeeps(r, other, now);
        CreatedLives(r, other, now, id, c);
        CreatedCounts(r, other, now);
        var t := Created(r, other, now);
        if t.creates % SWEEP_EVERY == 0 {
          assert t.ttl == r.ttl by { CreatedRest(r, other, now); }
          SweepLives(t, now, id, c);
        }
        WriteLives(Admit(r, other, now), other, seg, us, id, c);
      }
    case OpClose(other) => CloseLives(r, other, id, c);
    case OpSweep(now) =>
      SweepAllKeeps(r, false, now);
      SweepLives(r, now, id, c);
  }

  lemma LivesIgnoresClock(r: Registry, now: int, id: Id, c: int)
    requires |r.shards| == SHARDS && Lives(r, id, c)
    ensures Lives(r.(clock := now), id, c)
  {
  }

  lemma CreatedRest(r: Registry, id: Id, now: int)
    requires |r.shards| == SHARDS
    ensures Created(r, id, now).ttl == r.ttl
  {
  }

  lemma CloseLives(r: Registry, other: Id, id: Id, c: int)
    requires |r.shards| == SHARDS && Lives(r, id, c)
    ensures Lives(Close(r, other), id, c) && Close(r, other).ttl == r.ttl
  {
  }

  /** One call, seen by a reader of a live entry. */
  lemma StepIsTold(r: Registry, op: Op, id: Id, c: int)
    requires Inv(r) && Timely(r, op) && ValidId(id) && Lives(r, id, c) && (!op.OpClose? ==> op.now <= c + r.ttl)
    ensures Look(Step(r, op), id) == Told(Look(r, id), [op], id)
  {
    hide Inv, SweepAll, Record, Look, Close, Told, ValidId;
    InvLength(r);
    var before := Look(r, id);
    assert Told(before, [op], id) == ToldOnce(before, op, id) by { ToldOne(before, op, id); }
    match op
    case OpRecord(other, seg, us, now) =>
      if other == id {
        RecordIsRead(r, id, seg, us, now);
      } else {
        RecordSparesOthers(r, other, seg, us, now, id);
      }
    case OpClose(other) =>
      CloseIsRead(r, other, id);
    case OpSweep(now) => SweepSameAnswer(r, now, id);
  }

  function ToldOnce(s: Snapshot, op: Op, id: Id): Snapshot {
    match op
    case OpRecord(i, seg, us, _) =>
      if i != id then s
      else Snapshot(if seg == SegPre then Some(us) else s.preUs, if seg == SegEnd then Some(us) else s.endUs, s.closed)
    case OpClose(i) => s.(closed := s.closed || i == id)
    case OpSweep(_) => s
  }

  lemma ToldOne(s: Snapshot, op: Op, id: Id)
    ensures Told(s, [op], id) == ToldOnce(s, op, id)
  {
    assert [op][..0] == [];
  }

  /** Told call by call. */
  lemma ToldNext(s: Snapshot, ops: seq<Op>, id: Id)
    requires ops != []
    ensures Told(s, ops, id) == ToldOnce(Told(s, ops[..|ops| - 1], id), ops[|ops| - 1], id)
  {
  }

  /** While a request's entry is within its time, every look reports exactly what the request's own calls add up
      to, whatever other requests record, close or create and however often the registry is swept. */
  lemma {:induction false} LookIsTold(states: seq<Registry>, ops: seq<Op>, i: nat, j: nat, id: Id, c: int)
    requires RunOf(states, ops) && Inv(states[0]) && i <= j < |states| && ValidId(id) && Lives(states[i], id, c)
    requires forall k :: i <= k < j && !ops[k].OpClose? ==> ops[k].now <= c + states[i].ttl
    ensures Lives(states[j], id, c) && states[j].ttl == states[i].ttl
    ensures Look(states[j], id) == Told(Look(states[i], id), ops[i..j], id)
  {
    hide Inv, Step, Lives, Look, Told, ValidId;
    if i == j {
      assert Told(Look(states[i], id), [], id) == Look(states[i], id) by { ToldNothing(Look(states[i], id), id); }
      assert ops[i..j] == [];
    } else {
      LookIsTold(states, ops, i, j - 1, id, c);
      RunKeeps(states, ops, j - 1);
      var op, s := ops[j - 1], Look(states[i], id);
      assert Timely(states[j - 1], op) && states[j] == Step(states[j - 1], op);
      StepLives(states[j - 1], op, id, c);
      StepIsTold(states[j - 1], op, id, c);
      ToldNext(s, ops[i..j], id);
      assert ops[i..j][..j - i - 1] == ops[i..j - 1];
      ToldOne(Look(states[j - 1], id), op, id);
    }
  }

  lemma ToldNothing(s: Snapshot, id: Id)
    ensures Told(s, [], id) == s
  {
  }

  /** A call that records no pre for the id, at a time when an entry made at c is still within its time. */
  predicate LeavesPre(op: Op, id: Id, c: int, ttl: nat) {
    && (op.OpRecord? ==> op.id != id || op.seg != SegPre)
    && (!op.OpClose? ==> op.now <= c + ttl)
  }

  lemma {:induction false} PreStays(s: Snapshot, ops: seq<Op>, id: Id)
    requires forall k :: 0 <= k < |ops| && ops[k].OpRecord? ==> ops[k].id != id || ops[k].seg != SegPre
    ensures Told(s, ops, id).preUs == s.preUs
  {
    if ops != [] {
      PreStays(s, ops[..|ops| - 1], id);
    }
  }

  /** The last pre that was recorded for a request is what every look reports until its entry is past its time. */
  lemma LastPreIsReported(states: seq<Registry>, ops: seq<Op>, i: nat, j: nat, id: Id, us: int, now: int)
    requires RunOf(states, ops) && Inv(states[0]) && i < j < |states|
    requires ops[i] == OpRecord(id, SegPre, us, now) && Admitted(states[i], id)
    requires Known(states[i + 1], id) ==>
               var c := states[i + 1].shards[ShardOf(id)].entries[id].created;
               forall k :: i < k < j ==> LeavesPre(ops[k], id, c, states[i + 1].ttl)
    ensures Look(states[j], id).preUs == Some(us)
  {
    hide Inv, Step, Look, Told, Record, ShardOf;
    RunKeeps(states, ops, i);
    assert Timely(states[i], ops[i]) && states[i + 1] == Step(states[i], ops[i]);
    assert states[i + 1] == Record(states[i], id, SegPre, us, now) by { StepRecord(states[i], id, SegPre, us, now); }
    RecordIsRead(states[i], id, SegPre, us, now);
    var c := states[i + 1].shards[ShardOf(id)].entries[id].created;
    LookIsTold(states, ops, i + 1, j, id, c);
    var later := ops[i + 1..j];
    forall k | 0 <= k < |later| && later[k].OpRecord? ensures later[k].id != id || later[k].seg != SegPre {
      assert LeavesPre(ops[i + 1 + k], id, c, states[i + 1].ttl);
    }
    PreStays(Look(states[i + 1], id), later, id);
  }

  lemma StepRecord(r: Registry, id: Id, seg: Segment, us: int, now: int)
    requires |r.shards| == SHARDS
    ensures Step(r, OpRecord(id, seg, us, now)) == Record(r, id, seg, us, now)
  {
  }
}
