/** The timing registry object: its methods walk the queues in place and are proved equal to the functions
    whose runs TimingRegistry is about. */
module TimingTable {
  import opened Options
  import opened TimingShard
  import Spec = TimingRegistry
  import Runs = TimingRuns

  class TimingTable {
    var r: Spec.Registry

    ghost predicate Valid()
      reads this
    {
      Spec.Inv(r)
    }

    constructor (ttl: nat, preTtl: nat)
      ensures Valid() && r == Runs.Initial(ttl, preTtl)
    {
      r := Runs.Initial(ttl, preTtl);
      new;
      Runs.InitialInv(ttl, preTtl);
    }

    /** The entry loop of sweepLocked. */
    method PopExpired(start: Work, now: int) returns (w: Work)
      ensures w == PopEntries(start, now, r.ttl)
    {
      w := start;
      while w.sh.head < |w.sh.order| && now - w.sh.order[w.sh.head].created > r.ttl
        invariant PopEntries(w, now, r.ttl) == PopEntries(start, now, r.ttl)
        decreases |w.sh.order| - w.sh.head
      {
        ghost var before := w;
        var item := w.sh.order[w.sh.head];
        if item.id in w.sh.entries && w.sh.entries[item.id].created == item.created {
          var e := w.sh.entries[item.id];
          if e.preUs.Some? && !e.closed {
            w := Retain(w, Pre(item.id, e.preUs.value, now));
          }
          w := Work(w.sh.(entries := w.sh.entries - {item.id}), w.c.(live := w.c.live - 1));
        }
        w := w.(sh := w.sh.(head := w.sh.head + 1));
        assert w == PopEntry(before, now);
      }
    }

    /** retainedPreExpireLocked */
    method ExpirePres(start: Work, now: int) returns (w: Work)
      ensures w == Work(RetainedCompacted(PopPres(start, now, r.preTtl).sh), PopPres(start, now, r.preTtl).c)
    {
      w := start;
      while w.sh.retainedHead < |w.sh.retainedOrder| && now - w.sh.retainedOrder[w.sh.retainedHead].created > r.preTtl
        invariant PopPres(w, now, r.preTtl) == PopPres(start, now, r.preTtl)
        decreases |w.sh.retainedOrder| - w.sh.retainedHead
      {
        ghost var before := w;
        var item := w.sh.retainedOrder[w.sh.retainedHead];
        if item.id in w.sh.retained && w.sh.retained[item.id].created == item.created {
          w := Work(w.sh.(retained := w.sh.retained - {item.id}), w.c.(retained := w.c.retained - 1));
        }
        w := w.(sh := w.sh.(retainedHead := w.sh.retainedHead + 1));
        assert w == PopPre(before);
      }
      w := w.(sh := RetainedCompacted(w.sh));
    }

    /** sweepLocked for one shard */
    method SweepLocked(k: nat, now: int)
      requires k < |r.shards|
      modifies this
      ensures r == Spec.SweepShard(old(r), k, now)
    {
      var w := PopExpired(Work(r.shards[k], r.c), now);
      w := ExpirePres(w, now);
      r := Spec.SetShard(r, k, w.(sh := Compacted(w.sh)));
    }

    /** auditTimingSweepExpired: exactly the entries past their time go, shard by shard. */
    method SweepExpired(now: int)
      requires Valid() && r.clock <= now
      modifies this
      ensures Valid() && r == Spec.SweepAll(old(r), now)
    {
      Spec.SweepAllKeeps(r, false, now);
      hide Spec.Inv, Spec.SweepShard;
      for k := 0 to |r.shards|
        invariant |r.shards| == |old(r).shards| && r == Spec.SweepFirst(old(r), k, now)
      {
        SweepLocked(k, now);
      }
      r := r.(clock := now);
    }

    /** auditTimingRecord */
    method Record(id: Id, seg: Spec.Segment, us: int, now: int)
      requires Valid() && r.clock <= now
      modifies this
      ensures Valid() && r == Spec.Record(old(r), id, seg, us, now)
    {
      hide Spec.Inv, Spec.SweepAll, Spec.Write, Create, Spec.ShardOf;
      Spec.RecordKeeps(r, id, seg, us, now);
      Spec.InvLength(r);
      if !Spec.ValidId(id) {
        r := r.(clock := now);
        return;
      }
      var k := Spec.ShardOf(id);
      var sh := r.shards[k];
      if id !in sh.entries {
        if r.c.live + 1 > Spec.MAX_ENTRIES {
          r := r.(clock := now);
          return;
        }
        Spec.CreatedKeeps(r, id, now);
        var w := Work(Create(sh, id, now), r.c.(live := r.c.live + 1));
        r := Spec.SetShard(r, k, w).(creates := r.creates + 1, clock := now);
        if r.creates % Spec.SWEEP_EVERY == 0 {
          SweepExpired(now);
        }
        assert r == Spec.Admit(old(r), id, now);
        r := Spec.Write(r, id, seg, us);
      } else {
        r := Spec.Write(r, id, seg, us).(clock := now);
      }
    }

    /** auditTimingClose */
    method Close(id: Id)
      requires Valid()
      modifies this
      ensures Valid() && r == Spec.Close(old(r), id)
    {
      Spec.CloseKeeps(r, id);
      Spec.InvLength(r);
      hide Spec.Inv;
      if id == [] {
        return;
      }
      var sh := r.shards[Spec.ShardOf(id)];
      if id in sh.entries {
        r := Spec.SetEntry(r, id, sh.entries[id].(closed := true));
      }
    }

    /** Any run of the object is a run in the sense of TimingRegistry. */
    method RunAll(ops: seq<Runs.Op>) returns (ghost states: seq<Spec.Registry>)
      requires Valid()
      requires forall i :: 0 <= i < |ops| && !ops[i].OpClose? ==> r.clock <= ops[i].now
      requires forall i, j :: 0 <= i < j < |ops| && !ops[i].OpClose? && !ops[j].OpClose? ==> ops[i].now <= ops[j].now
      modifies this
      ensures Runs.RunOf(states, ops) && states[0] == old(r) && states[|ops|] == r && Valid()
    {
      states := [r];
      Spec.InvLength(r);
      Runs.RunStarts(r);
      hide Spec.Inv, Spec.Record, Spec.Close, Spec.SweepAll, Runs.RunOf;
      assert ops[..0] == [];
      for i := 0 to |ops|
        invariant Valid() && |states| == i + 1 && states[0] == old(r) && states[i] == r
        invariant Runs.RunOf(states, ops[..i])
        invariant forall j :: i <= j < |ops| && !ops[j].OpClose? ==> r.clock <= ops[j].now
      {
        ghost var before := r;
        Do(ops[i]);
        assert ops[..i + 1] == ops[..i] + [ops[i]];
        Runs.RunGrows(states, ops[..i], ops[i], r);
        states := states + [r];
      }
      assert ops[..|ops|] == ops;
    }

    method Do(op: Runs.Op)
      requires Valid() && Runs.Timely(r, op) && |r.shards| == Spec.SHARDS
      modifies this
      ensures Valid() && r == Runs.Step(old(r), op) && |r.shards| == Spec.SHARDS
      ensures r.clock == if op.OpClose? then old(r).clock else op.now
    {
      hide Spec.Inv, Spec.Record, Spec.Close, Spec.SweepAll;
      match op
      case OpRecord(id, seg, us, now) =>
        Spec.RecordKeeps(r, id, seg, us, now);
        Record(id, seg, us, now);
        Spec.InvLength(r);
      case OpClose(id) =>
        Spec.CloseKeeps(r, id);
        Close(id);
        Spec.InvLength(r);
      case OpSweep(now) =>
        Spec.SweepAllKeeps(r, false, now);
        SweepExpired(now);
        Spec.InvLength(r);
    }
  }
}
