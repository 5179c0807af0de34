/** Failed batches of the audit shipper: every line reaches the spool or the fallback. */
module AuditSpill {
  import opened Bytes
  import opened Options
  import opened SpoolBase
  import opened SpoolFaults
  import opened AuditSpoolSpec
  import opened AuditAppend
  import opened AuditDelivery

  // ---- Spilling a failed batch ----

  /** The lines that spill hands to the audit file, one by one. */
  function Fallback(r: Appended, batch: seq<Line>): seq<Line> {
    if r.written <= |batch| then batch[r.written..] else []
  }

  /** A run of failed batches through the spool: the final state and all fallback lines in order. */
  function Spills(s: Spool, batches: seq<seq<Line>>, io: Oracle): (Spool, seq<Line>)
    decreases |batches|
  {
    if batches == [] then (s, [])
    else
      var (t, r) := Append(s, batches[0], io);
      var (u, rest) := Spills(t, batches[1..], io);
      (u, Fallback(r, batches[0]) + rest)
  }

  function Flatten(batches: seq<seq<Line>>): seq<Line> {
    if batches == [] then [] else batches[0] + Flatten(batches[1..])
  }

  /** One batch: what the spool does not vouch for goes to the fallback, so no line is in neither place,
      and nothing is delivered that was not in the batch. No line is in both places if and only if the count of
      the call was exact, and with room and I/O that works none goes to the fallback. */
  lemma SpillDelivers(s: Spool, batch: seq<Line>, io: Oracle) returns (m: nat)
    requires Quiet(s)
    ensures var (t, r) := Append(s, batch, io);
            && Outcome(s, t, r, Log(s), batch, m)
            && multiset(batch) <= multiset(batch[..m]) + multiset(Fallback(r, batch))
            && Fallback(r, batch) == batch[r.written..]
            && (batch == batch[..m] + Fallback(r, batch) <==> LossIsExact(FailureOf(s, batch, io)))
            && (HasRoom(s, batch) && Works(io, s.tick) ==> Fallback(r, batch) == [])
  {
    hide Append, Log, Quiet, LossIsExact, FailureOf, HasRoom;
    m := AppendKeeps(s, batch, io);
    var (t, r) := Append(s, batch, io);
    assert batch == batch[..r.written] + batch[r.written..];
    assert batch[..m] == batch[..r.written] + batch[r.written..m];
    CountIsExactIff(s, batch, io);
    if HasRoom(s, batch) && Works(io, s.tick) {
      RoomyAppend(s, batch, io);
    }
  }

  /** Every batch of the run got an exact count. */
  predicate AllExact(s: Spool, batches: seq<seq<Line>>, io: Oracle)
    decreases |batches|
  {
    batches == [] ||
    (LossIsExact(FailureOf(s, batches[0], io)) && AllExact(Append(s, batches[0], io).0, batches[1..], io))
  }

  /** kept and fallback lines cover the given ones and nothing else; exactly, if and only if exact is set. */
  ghost predicate Delivered(given: multiset<Line>, kept: multiset<Line>, fallback: multiset<Line>, exact: bool) {
    && given <= kept + fallback && kept <= given
    && (given == kept + fallback <==> exact)
  }

  /** Any run: every line of every batch is on disk or in the fallback at least as often as it was given, and
      exactly as often if and only if every batch got an exact count. */
  lemma {:induction false} SpillsDeliver(s: Spool, batches: seq<seq<Line>>, io: Oracle)
    requires Quiet(s)
    ensures var (t, fallback) := Spills(s, batches, io);
            && Quiet(t) && Log(s) <= Log(t) && multiset(fallback) <= multiset(Flatten(batches))
            && Delivered(multiset(Log(s)) + multiset(Flatten(batches)), multiset(Log(t)), multiset(fallback),
                         AllExact(s, batches, io))
    decreases |batches|
  {
    hide Append, Log, Quiet, LossIsExact, FailureOf, Delivered, Fallback;
    if batches == [] {
      NothingDelivered(multiset(Log(s)));
    } else {
      var m := SpillDelivers(s, batches[0], io);
      var (t, r) := Append(s, batches[0], io);
      SpillsDeliver(t, batches[1..], io);
      var (u, rest) := Spills(t, batches[1..], io);
      OneMore(Log(s), Log(t), Log(u), batches[0], m, Fallback(r, batches[0]), rest, Flatten(batches[1..]),
              LossIsExact(FailureOf(s, batches[0], io)), AllExact(t, batches[1..], io));
    }
  }

  lemma NothingDelivered(log: multiset<Line>)
    ensures Delivered(log + multiset{}, log, multiset{}, true)
  {
  }

  /** A batch whose prefix reached the log and whose suffix the fallback, and the batches after it. */
  lemma OneMore(logS: seq<Line>, logT: seq<Line>, logU: seq<Line>, batch: seq<Line>, m: nat, fallback: seq<Line>,
                rest: seq<Line>, later: seq<Line>, exact: bool, restExact: bool)
    requires m <= |batch| && logT == logS + batch[..m] && |fallback| <= |batch| <= m + |fallback|
    requires fallback == batch[|batch| - |fallback|..] && (batch == batch[..m] + fallback <==> exact)
    requires Delivered(multiset(logT) + multiset(later), multiset(logU), multiset(rest), restExact)
    requires multiset(rest) <= multiset(later)
    ensures Delivered(multiset(logS) + multiset(batch + later), multiset(logU), multiset(fallback + rest),
                      exact && restExact)
    ensures multiset(fallback + rest) <= multiset(batch + later)
  {
    hide Delivered;
    var n := |batch| - |fallback|;
    assert batch == batch[..n] + fallback;
    assert batch == batch[..m] + batch[m..];
    assert batch[..m] == batch[..n] + batch[n..m];
    SameWhenExact(batch, m, fallback);
    assert multiset(batch + later) == multiset(batch) + multiset(later);
    assert multiset(fallback + rest) == multiset(fallback) + multiset(rest);
    AddUp(multiset(logS), multiset(logT), multiset(logU), multiset(batch), multiset(batch[..m]),
          multiset(fallback), multiset(rest), multiset(later), exact, restExact);
  }

  /** A prefix and a suffix that cover the batch repeat nothing exactly when they make it up. */
  lemma SameWhenExact(batch: seq<Line>, m: nat, fallback: seq<Line>)
    requires m <= |batch| && |fallback| <= |batch| <= m + |fallback| && fallback == batch[|batch| - |fallback|..]
    ensures multiset(batch) == multiset(batch[..m]) + multiset(fallback) <==> batch == batch[..m] + fallback
  {
    if multiset(batch) == multiset(batch[..m]) + multiset(fallback) {
      assert |multiset(batch)| == |multiset(batch[..m])| + |multiset(fallback)|;
      assert batch == batch[..m] + fallback;
    }
    assert multiset(batch[..m] + fallback) == multiset(batch[..m]) + multiset(fallback);
  }

  lemma AddUp(logS: multiset<Line>, logT: multiset<Line>, logU: multiset<Line>, batch: multiset<Line>,
              part: multiset<Line>, fallback: multiset<Line>, rest: multiset<Line>, later: multiset<Line>,
              exact: bool, restExact: bool)
    requires logT == logS + part && part <= batch && fallback <= batch && batch <= part + fallback
    requires Delivered(logT + later, logU, rest, restExact) && rest <= later
    requires batch == part + fallback <==> exact
    ensures Delivered(logS + (batch + later), logU, fallback + rest, exact && restExact)
    ensures fallback + rest <= batch + later
  {
    if logS + (batch + later) == logU + (fallback + rest) {
      forall x ensures batch[x] == (part + fallback)[x] && (logT + later)[x] == (logU + rest)[x] {
        assert (logS + (batch + later))[x] == (logU + (fallback + rest))[x];
        assert batch[x] <= (part + fallback)[x] && (logT + later)[x] <= (logU + rest)[x];
      }
      assert batch == part + fallback && logT + later == logU + rest;
    }
    if exact && restExact {
      forall x ensures (logS + (batch + later))[x] == (logU + (fallback + rest))[x] {
        assert (logT + later)[x] == (logU + rest)[x] && batch[x] == (part + fallback)[x];
      }
      assert logS + (batch + later) == logU + (fallback + rest);
    }
  }
}
