/** One shard of the audit timing registry: a table with a creation-order queue, and the table that keeps
    the pre segment of requests that outlive their entry. */
module TimingShard {
  import opened Options

  type Id = string

  const MAX_RETAINED := 8192
  const COMPACT_AT := 1024

  datatype Entry = Entry(preUs: Option<int>, endUs: Option<int>, logged: bool, closed: bool, created: int)
  datatype Item = Item(id: Id, created: int)
  datatype Pre = Pre(id: Id, us: int, created: int)

  datatype Shard = Shard(entries: map<Id, Entry>, order: seq<Item>, head: nat,
                         retained: map<Id, Pre>, retainedOrder: seq<Pre>, retainedHead: nat)

  /** The two process-wide admission counters. */
  datatype Counts = Counts(live: int, retained: int)

  /** A shard under its lock, with the counters. */
  datatype Work = Work(sh: Shard, c: Counts)

  const EMPTY := Shard(map[], [], 0, map[], [], 0)

  // ---- Operations ----

  /** The retained table is full and does not know the id. */
  predicate Refused(w: Work, id: Id) {
    id !in w.sh.retained && w.c.retained >= MAX_RETAINED
  }

  /** retainPreLocked: a known id is refreshed, a new one is admitted while there is room. */
  function Retain(w: Work, pre: Pre): Work {
    if pre.id !in w.sh.retained && w.c.retained + 1 > MAX_RETAINED then w
    else
      Work(w.sh.(retained := w.sh.retained[pre.id := pre], retainedOrder := w.sh.retainedOrder + [pre]),
           if pre.id in w.sh.retained then w.c else w.c.(retained := w.c.retained + 1))
  }

  predicate EntryDue(sh: Shard, now: int, ttl: nat) {
    sh.head < |sh.order| && now - sh.order[sh.head].created > ttl
  }

  /** One popped queue item: its entry goes, unless the id was created again; an open pre is retained. */
  function PopEntry(w: Work, now: int): Work
    requires w.sh.head < |w.sh.order|
  {
    var item := w.sh.order[w.sh.head];
    if item.id in w.sh.entries && w.sh.entries[item.id].created == item.created then
      var e := w.sh.entries[item.id];
      var v := if e.preUs.Some? && !e.closed then Retain(w, Pre(item.id, e.preUs.value, now)) else w;
      Work(v.sh.(entries := v.sh.entries - {item.id}, head := v.sh.head + 1), v.c.(live := v.c.live - 1))
    else Work(w.sh.(head := w.sh.head + 1), w.c)
  }

  function PopEntries(w: Work, now: int, ttl: nat): Work
    decreases |w.sh.order| - w.sh.head
  {
    if EntryDue(w.sh, now, ttl) then PopEntries(PopEntry(w, now), now, ttl) else w
  }

  predicate RetainedDue(sh: Shard, now: int, ttl: nat) {
    sh.retainedHead < |sh.retainedOrder| && now - sh.retainedOrder[sh.retainedHead].created > ttl
  }

  function PopPre(w: Work): Work
    requires w.sh.retainedHead < |w.sh.retainedOrder|
  {
    var item := w.sh.retainedOrder[w.sh.retainedHead];
    if item.id in w.sh.retained && w.sh.retained[item.id].created == item.created then
      Work(w.sh.(retained := w.sh.retained - {item.id}, retainedHead := w.sh.retainedHead + 1),
           w.c.(retained := w.c.retained - 1))
    else Work(w.sh.(retainedHead := w.sh.retainedHead + 1), w.c)
  }

  function PopPres(w: Work, now: int, ttl: nat): Work
    decreases |w.sh.retainedOrder| - w.sh.retainedHead
  {
    if RetainedDue(w.sh, now, ttl) then PopPres(PopPre(w), now, ttl) else w
  }

  /** The popped prefixes are cut off once they are long and at least half of the queue. */
  function Compacted(sh: Shard): Shard {
    if sh.head >= COMPACT_AT && sh.head * 2 >= |sh.order| && sh.head <= |sh.order|
    then sh.(order := sh.order[sh.head..], head := 0) else sh
  }

  function RetainedCompacted(sh: Shard): Shard {
    if sh.retainedHead >= COMPACT_AT && sh.retainedHead * 2 >= |sh.retainedOrder| &&
      sh.retainedHead <= |sh.retainedOrder|
    then sh.(retainedOrder := sh.retainedOrder[sh.retainedHead..], retainedHead := 0) else sh
  }

  /** sweepLocked */
  function Sweep(w: Work, now: int, ttl: nat, preTtl: nat): Work {
    var v := PopPres(PopEntries(w, now, ttl), now, preTtl);
    Work(Compacted(RetainedCompacted(v.sh)), v.c)
  }

  /** A missing id gets an entry, with the pre that was kept for it. */
  function Create(sh: Shard, id: Id, now: int): Shard {
    var pre := if id in sh.retained then Some(sh.retained[id].us) else None;
    sh.(entries := sh.entries[id := Entry(pre, None, false, false, now)], order := sh.order + [Item(id, now)])
  }

  // ---- Invariants ----

  function LiveItems(sh: Shard): seq<Item>
    requires sh.head <= |sh.order|
  {
    sh.order[sh.head..]
  }

  function LivePres(sh: Shard): seq<Pre>
    requires sh.retainedHead <= |sh.retainedOrder|
  {
    sh.retainedOrder[sh.retainedHead..]
  }

  /** The item at i names an entry created at its time. */
  predicate ItemOk(entries: map<Id, Entry>, q: seq<Item>, i: nat, clock: int) {
    i < |q| ==> q[i].id in entries && entries[q[i].id].created == q[i].created <= clock
  }

  predicate ItemsOrdered(q: seq<Item>, i: nat, j: nat) {
    i < j < |q| ==> q[i].created <= q[j].created && q[i].id != q[j].id
  }

  ghost predicate Queued(q: seq<Item>, id: Id) {
    exists i: nat :: i < |q| && q[i].id == id
  }

  /** Live queue items and entries are in bijection, and the queue is sorted by creation. */
  ghost predicate QueueOk(entries: map<Id, Entry>, q: seq<Item>, clock: int) {
    && (forall i: nat :: ItemOk(entries, q, i, clock))
    && (forall i: nat, j: nat :: ItemsOrdered(q, i, j))
    && (forall id :: id in entries ==> Queued(q, id))
  }

  /** The item at i is of a kept pre, the current one or an older one of the same id. */
  predicate PreOk(retained: map<Id, Pre>, q: seq<Pre>, i: nat, clock: int) {
    i < |q| ==> q[i].id in retained && q[i].created <= retained[q[i].id].created <= clock
  }

  predicate PresOrdered(q: seq<Pre>, i: nat, j: nat) {
    i < j < |q| ==> q[i].created <= q[j].created && (q[i].id == q[j].id ==> q[i].created < q[j].created)
  }

  ghost predicate Kept(q: seq<Pre>, pre: Pre) {
    exists i: nat :: i < |q| && q[i] == pre
  }

  /** Every kept pre has its live queue item; older items of the same id may precede it. */
  ghost predicate RetainedOk(retained: map<Id, Pre>, q: seq<Pre>, clock: int) {
    && (forall i: nat :: PreOk(retained, q, i, clock))
    && (forall i: nat, j: nat :: PresOrdered(q, i, j))
    && (forall id :: id in retained ==> retained[id].id == id && Kept(q, retained[id]))
  }

  /** An id with both was created again after its pre was kept, and got it back. */
  ghost predicate BothOk(entries: map<Id, Entry>, retained: map<Id, Pre>) {
    forall id :: id in entries && id in retained ==>
      retained[id].created <= entries[id].created && entries[id].preUs.Some?
  }

  ghost predicate ShardOk(sh: Shard, clock: int) {
    && sh.head <= |sh.order| && QueueOk(sh.entries, LiveItems(sh), clock)
    && sh.retainedHead <= |sh.retainedOrder| && RetainedOk(sh.retained, LivePres(sh), clock)
    && BothOk(sh.entries, sh.retained)
  }

  /** The counters moved by as much as the tables. */
  predicate CountsFollow(w: Work, v: Work) {
    && v.c.live - w.c.live == |v.sh.entries| - |w.sh.entries|
    && v.c.retained - w.c.retained == |v.sh.retained| - |w.sh.retained|
  }

  lemma MapWithout<K, V>(m: map<K, V>, k: K)
    requires k in m
    ensures |m - {k}| == |m| - 1
  {
    assert (m - {k}).Keys == m.Keys - {k};
  }

  lemma MapWith<K, V>(m: map<K, V>, k: K, v: V)
    ensures |m[k := v]| == |m| + (if k in m then 0 else 1)
  {
    assert m[k := v].Keys == m.Keys + {k};
  }

  lemma PreQueued(retained: map<Id, Pre>, q: seq<Pre>, pre: Pre, clock: int)
    requires RetainedOk(retained, q, clock) && clock <= pre.created
    requires pre.id in retained ==> retained[pre.id].created < pre.created
    ensures RetainedOk(retained[pre.id := pre], q + [pre], pre.created)
  {
    var retained', q' := retained[pre.id := pre], q + [pre];
    forall i: nat ensures PreOk(retained', q', i, pre.created) {
      assert PreOk(retained, q, i, clock);
    }
    forall i: nat, j: nat ensures PresOrdered(q', i, j) {
      assert PresOrdered(q, i, j) && PreOk(retained, q, i, clock);
    }
    forall id | id in retained' ensures Kept(q', retained'[id]) {
      if id == pre.id {
        assert q'[|q|] == pre;
      } else {
        assert Kept(q, retained[id]);
        var i: nat :| i < |q| && q[i] == retained[id];
        assert q'[i] == retained[id];
      }
    }
  }

  lemma RetainedLater(retained: map<Id, Pre>, q: seq<Pre>, clock: int, now: int)
    requires RetainedOk(retained, q, clock) && clock <= now
    ensures RetainedOk(retained, q, now)
  {
    forall i: nat ensures PreOk(retained, q, i, now) {
      assert PreOk(retained, q, i, clock);
    }
  }

  lemma QueueLater(entries: map<Id, Entry>, q: seq<Item>, clock: int, now: int)
    requires QueueOk(entries, q, clock) && clock <= now
    ensures QueueOk(entries, q, now)
  {
    forall i: nat ensures ItemOk(entries, q, i, now) {
      assert ItemOk(entries, q, i, clock);
    }
  }

  lemma RetainKeeps(w: Work, pre: Pre, clock: int)
    requires w.sh.retainedHead <= |w.sh.retainedOrder|
    requires RetainedOk(w.sh.retained, LivePres(w.sh), clock) && clock <= pre.created
    requires pre.id in w.sh.retained ==> w.sh.retained[pre.id].created < pre.created
    ensures var v := Retain(w, pre);
            && v.sh == w.sh.(retained := v.sh.retained, retainedOrder := v.sh.retainedOrder)
            && w.sh.retainedHead <= |v.sh.retainedOrder| && RetainedOk(v.sh.retained, LivePres(v.sh), pre.created)
            && CountsFollow(w, v) && w.c.retained <= v.c.retained
            && (v.sh.retained == w.sh.retained[pre.id := pre] || (v == w && Refused(w, pre.id)))
            && (w.c.retained <= MAX_RETAINED ==> v.c.retained <= MAX_RETAINED)
  {
    var v := Retain(w, pre);
    MapWith(w.sh.retained, pre.id, pre);
    if v == w {
      RetainedLater(w.sh.retained, LivePres(w.sh), clock, pre.created);
    } else {
      assert LivePres(v.sh) == LivePres(w.sh) + [pre];
      PreQueued(w.sh.retained, LivePres(w.sh), pre, clock);
    }
  }

  /** The head item leaves with its entry. */
  lemma QueuePopped(entries: map<Id, Entry>, q: seq<Item>, clock: int)
    requires QueueOk(entries, q, clock) && q != []
    ensures q[0].id in entries && entries[q[0].id].created == q[0].created
    ensures QueueOk(entries - {q[0].id}, q[1..], clock)
  {
    assert ItemOk(entries, q, 0, clock);
    var entries', q' := entries - {q[0].id}, q[1..];
    forall i: nat ensures ItemOk(entries', q', i, clock) {
      assert ItemOk(entries, q, i + 1, clock) && ItemsOrdered(q, 0, i + 1);
    }
    forall i: nat, j: nat ensures ItemsOrdered(q', i, j) {
      assert ItemsOrdered(q, i + 1, j + 1);
    }
    forall id | id in entries' ensures Queued(q', id) {
      var i: nat :| i < |q| && q[i].id == id;
      assert q'[i - 1].id == id;
    }
  }

  predicate Expired(e: Entry, now: int, ttl: nat) {
    now - e.created > ttl
  }

  /** The entry was swept with a pre that nobody consumed. */
  predicate Owed(sh: Shard, id: Id, now: int, ttl: nat) {
    id in sh.entries && Expired(sh.entries[id], now, ttl) && sh.entries[id].preUs.Some? && !sh.entries[id].closed
  }

  /** The ids whose owed pre needs a new place in the retained table. */
  function Incoming(sh: Shard, now: int, ttl: nat): set<Id> {
    set id | id in sh.entries && Owed(sh, id, now, ttl) && id !in sh.retained
  }

  /** Every owed pre of the shard fits the retained table. */
  predicate HasRoom(w: Work, now: int, ttl: nat) {
    w.c.retained + |Incoming(w.sh, now, ttl)| <= MAX_RETAINED
  }

  function OwedPre(sh: Shard, id: Id, now: int): Pre
    requires id in sh.entries && sh.entries[id].preUs.Some?
  {
    Pre(id, sh.entries[id].preUs.value, now)
  }

  lemma IncomingLess(sh: Shard, sh': Shard, id: Id, now: int, ttl: nat)
    requires id in sh.entries && sh'.entries == sh.entries - {id}
    requires sh'.retained.Keys == sh.retained.Keys || sh'.retained.Keys == sh.retained.Keys + {id}
    ensures |Incoming(sh', now, ttl)| == |Incoming(sh, now, ttl)| - (if id in Incoming(sh, now, ttl) then 1 else 0)
  {
    assert forall k :: k in sh.retained <==> k in sh.retained.Keys;
    assert forall k :: k in sh'.retained <==> k in sh'.retained.Keys;
    assert Incoming(sh', now, ttl) == Incoming(sh, now, ttl) - {id};
  }

  lemma PopMakesRoom(w: Work, v: Work, id: Id, now: int, ttl: nat)
    requires id in w.sh.entries && Expired(w.sh.entries[id], now, ttl) && v.sh.entries == w.sh.entries - {id}
    requires RetainedStep(w, v, id, now) && v.c.retained - w.c.retained == |v.sh.retained| - |w.sh.retained|
    ensures v.c.retained + |Incoming(v.sh, now, ttl)| <= w.c.retained + |Incoming(w.sh, now, ttl)|
  {
    if Owed(w.sh, id, now, ttl) {
      MapWith(w.sh.retained, id, OwedPre(w.sh, id, now));
      assert w.sh.retained[id := OwedPre(w.sh, id, now)].Keys == w.sh.retained.Keys + {id};
    }
    IncomingLess(w.sh, v.sh, id, now, ttl);
  }

  /** One pop: the entry of the head item is the one that goes; its open pre is kept unless the table is full. */
  lemma PopEntryKeeps(w: Work, clock: int, now: int, ttl: nat)
    requires ShardOk(w.sh, clock) && clock <= now && EntryDue(w.sh, now, ttl)
    ensures var v := PopEntry(w, now); var id := w.sh.order[w.sh.head].id;
            && id in w.sh.entries && w.sh.entries[id].created == w.sh.order[w.sh.head].created
            && ShardOk(v.sh, now) && CountsFollow(w, v)
            && v.c.retained + |Incoming(v.sh, now, ttl)| <= w.c.retained + |Incoming(w.sh, now, ttl)|
            && (w.c.retained <= MAX_RETAINED ==> v.c.retained <= MAX_RETAINED)
            && v.sh.entries == w.sh.entries - {id} && v.sh.order == w.sh.order && v.sh.head == w.sh.head + 1
            && RetainedStep(w, v, id, now)
  {
    hide QueueOk, RetainedOk, Incoming;
    var q := LiveItems(w.sh);
    var id := q[0].id;
    QueuePopped(w.sh.entries, q, clock);
    var e := w.sh.entries[id];
    MapWithout(w.sh.entries, id);
    if e.preUs.Some? && !e.closed {
      RetainKeeps(w, Pre(id, e.preUs.value, now), clock);
    } else {
      RetainedLater(w.sh.retained, LivePres(w.sh), clock, now);
    }
    var v := PopEntry(w, now);
    assert LiveItems(v.sh) == q[1..];
    PopMakesRoom(w, v, id, now, ttl);
    QueueLater(v.sh.entries, q[1..], clock, now);
  }

  /** What one pop does to the kept pres. */
  ghost predicate RetainedStep(w: Work, v: Work, id: Id, now: int)
    requires id in w.sh.entries
  {
    var e := w.sh.entries[id];
    if e.preUs.Some? && !e.closed then
      v.sh.retained == w.sh.retained[id := Pre(id, e.preUs.value, now)] ||
        (v.sh.retained == w.sh.retained && Refused(w, id))
    else v.sh.retained == w.sh.retained
  }

  /** From w to v expired entries went, and with room their owed pres were kept. */
  ghost predicate Swept(w: Work, v: Work, room: bool, now: int, ttl: nat) {
    && (forall id :: id in v.sh.entries ==> id in w.sh.entries && v.sh.entries[id] == w.sh.entries[id])
    && (forall id :: id in w.sh.entries && id !in v.sh.entries ==> Expired(w.sh.entries[id], now, ttl))
    && (forall id :: id in w.sh.retained ==> id in v.sh.retained)
    && (forall id :: id in v.sh.retained ==>
          || (id in w.sh.retained && v.sh.retained[id] == w.sh.retained[id])
          || (id !in v.sh.entries && Owed(w.sh, id, now, ttl) && v.sh.retained[id] == OwedPre(w.sh, id, now)))
    && (forall id :: Owed(w.sh, id, now, ttl) && id !in v.sh.entries && room ==>
          id in v.sh.retained && v.sh.retained[id] == OwedPre(w.sh, id, now))
  }

  lemma PopIsSwept(w: Work, v: Work, id: Id, room: bool, now: int, ttl: nat)
    requires id in w.sh.entries && Expired(w.sh.entries[id], now, ttl) && (room ==> HasRoom(w, now, ttl))
    requires v.sh.entries == w.sh.entries - {id} && RetainedStep(w, v, id, now)
    ensures Swept(w, v, room, now, ttl)
  {
    if Owed(w.sh, id, now, ttl) && id !in w.sh.retained {
      assert id in Incoming(w.sh, now, ttl);
    }
  }

  lemma SweptTwice(w: Work, v: Work, u: Work, room: bool, now: int, ttl: nat)
    requires Swept(w, v, room, now, ttl) && Swept(v, u, room, now, ttl)
    ensures Swept(w, u, room, now, ttl)
  {
  }

  lemma {:induction false} PopEntriesKeeps(w: Work, clock: int, room: bool, now: int, ttl: nat)
    requires ShardOk(w.sh, clock) && clock <= now && (room ==> HasRoom(w, now, ttl))
    ensures var v := PopEntries(w, now, ttl);
            && ShardOk(v.sh, now) && CountsFollow(w, v)
            && v.c.retained + |Incoming(v.sh, now, ttl)| <= w.c.retained + |Incoming(w.sh, now, ttl)|
            && (w.c.retained <= MAX_RETAINED ==> v.c.retained <= MAX_RETAINED)
            && Swept(w, v, room, now, ttl) && !EntryDue(v.sh, now, ttl)
    decreases |w.sh.order| - w.sh.head
  {
    hide ShardOk, Swept, Incoming;
    if EntryDue(w.sh, now, ttl) {
      PopEntryKeeps(w, clock, now, ttl);
      var v := PopEntry(w, now);
      PopIsSwept(w, v, w.sh.order[w.sh.head].id, room, now, ttl);
      PopEntriesKeeps(v, now, room, now, ttl);
      SweptTwice(w, v, PopEntries(v, now, ttl), room, now, ttl);
    } else {
      LaterClock(w.sh, clock, now);
      SweptNothing(w, room, now, ttl);
    }
  }

  lemma LaterClock(sh: Shard, clock: int, now: int)
    requires ShardOk(sh, clock) && clock <= now
    ensures ShardOk(sh, now)
  {
    QueueLater(sh.entries, LiveItems(sh), clock, now);
    RetainedLater(sh.retained, LivePres(sh), clock, now);
  }

  lemma SweptNothing(w: Work, room: bool, now: int, ttl: nat)
    ensures Swept(w, w, room, now, ttl)
  {
  }

  /** The queue is sorted, so a head that is not due means that no entry is past its time. */
  lemma NoneDue(sh: Shard, clock: int, now: int, ttl: nat, id: Id)
    requires ShardOk(sh, clock) && !EntryDue(sh, now, ttl) && id in sh.entries
    ensures !Expired(sh.entries[id], now, ttl)
  {
    var q := LiveItems(sh);
    assert Queued(q, id);
    var i: nat :| i < |q| && q[i].id == id;
    assert ItemOk(sh.entries, q, i, clock) && ItemsOrdered(q, 0, i);
  }

  /** The head pre leaves the queue, and the table if it is the current one. */
  lemma PresPopped(retained: map<Id, Pre>, retained': map<Id, Pre>, q: seq<Pre>, clock: int)
    requires RetainedOk(retained, q, clock) && q != []
    requires retained' ==
             if q[0].id in retained && retained[q[0].id].created == q[0].created then retained - {q[0].id}
             else retained
    ensures RetainedOk(retained', q[1..], clock)
  {
    var q' := q[1..];
    forall i: nat ensures PreOk(retained', q', i, clock) {
      assert PreOk(retained, q, i + 1, clock) && PresOrdered(q, 0, i + 1);
    }
    forall i: nat, j: nat ensures PresOrdered(q', i, j) {
      assert PresOrdered(q, i + 1, j + 1);
    }
    forall id | id in retained' ensures Kept(q', retained'[id]) {
      var i: nat :| i < |q| && q[i] == retained[id];
      assert q'[i - 1] == retained[id];
    }
  }

  lemma PopPreKeeps(w: Work, clock: int)
    requires ShardOk(w.sh, clock) && w.sh.retainedHead < |w.sh.retainedOrder|
    ensures var v := PopPre(w); var item := w.sh.retainedOrder[w.sh.retainedHead];
            && ShardOk(v.sh, clock) && CountsFollow(w, v) && v.c.retained <= w.c.retained
            && v.sh == w.sh.(retained := v.sh.retained, retainedHead := w.sh.retainedHead + 1)
            && (v.sh.retained == w.sh.retained
                || (item.id in w.sh.retained && w.sh.retained[item.id].created == item.created &&
                    v.sh.retained == w.sh.retained - {item.id}))
  {
    hide QueueOk, RetainedOk;
    var q, v := LivePres(w.sh), PopPre(w);
    if q[0].id in w.sh.retained {
      MapWithout(w.sh.retained, q[0].id);
    }
    PresPopped(w.sh.retained, v.sh.retained, q, clock);
    assert LivePres(v.sh) == q[1..];
  }

  predicate PreExpired(p: Pre, now: int, ttl: nat) {
    now - p.created > ttl
  }

  /** From w to v only expired pres went. */
  ghost predicate Shed(w: Work, v: Work, now: int, ttl: nat) {
    && v.sh.entries == w.sh.entries && v.sh.order == w.sh.order && v.sh.head == w.sh.head
    && (forall id :: id in v.sh.retained ==> id in w.sh.retained && v.sh.retained[id] == w.sh.retained[id])
    && (forall id :: id in w.sh.retained && id !in v.sh.retained ==> PreExpired(w.sh.retained[id], now, ttl))
  }

  lemma PopShed(w: Work, clock: int, now: int, ttl: nat)
    requires ShardOk(w.sh, clock) && RetainedDue(w.sh, now, ttl)
    ensures var v := PopPre(w);
            && ShardOk(v.sh, clock) && CountsFollow(w, v) && v.c.retained <= w.c.retained && v.c.live == w.c.live
            && Shed(w, v, now, ttl)
  {
    hide ShardOk;
    PopPreKeeps(w, clock);
  }

  lemma ShedTwice(w: Work, v: Work, u: Work, now: int, ttl: nat)
    requires Shed(w, v, now, ttl) && Shed(v, u, now, ttl)
    ensures Shed(w, u, now, ttl)
  {
  }

  lemma {:induction false} PopPresKeeps(w: Work, clock: int, now: int, ttl: nat)
    requires ShardOk(w.sh, clock)
    ensures var v := PopPres(w, now, ttl);
            && ShardOk(v.sh, clock) && CountsFollow(w, v) && v.c.retained <= w.c.retained && v.c.live == w.c.live
            && Shed(w, v, now, ttl) && !RetainedDue(v.sh, now, ttl)
    decreases |w.sh.retainedOrder| - w.sh.retainedHead
  {
    if RetainedDue(w.sh, now, ttl) {
      hide ShardOk, Shed;
      PopShed(w, clock, now, ttl);
      PopPresKeeps(PopPre(w), clock, now, ttl);
      ShedTwice(w, PopPre(w), PopPres(w, now, ttl), now, ttl);
    }
  }

  lemma NoPreDue(sh: Shard, clock: int, now: int, ttl: nat, id: Id)
    requires ShardOk(sh, clock) && !RetainedDue(sh, now, ttl) && id in sh.retained
    ensures !PreExpired(sh.retained[id], now, ttl)
  {
    var q := LivePres(sh);
    assert Kept(q, sh.retained[id]);
    var i: nat :| i < |q| && q[i] == sh.retained[id];
    assert PresOrdered(q, 0, i);
  }

  /** Cutting off popped items loses nothing. */
  lemma CompactionKeeps(sh: Shard, clock: int)
    requires ShardOk(sh, clock)
    ensures var t := Compacted(RetainedCompacted(sh));
            ShardOk(t, clock) && t.entries == sh.entries && t.retained == sh.retained
            && LiveItems(t) == LiveItems(sh) && LivePres(t) == LivePres(sh)
  {
    hide QueueOk, RetainedOk;
    var t := Compacted(RetainedCompacted(sh));
    assert LiveItems(t) == LiveItems(sh);
    assert LivePres(t) == LivePres(sh);
  }

  /** What a sweep does, without queues: exactly the expired entries go; pres go exactly when they expire,
      and with room every owed pre is kept. */
  ghost predicate SweepMeans(sh: Shard, sh': Shard, room: bool, now: int, ttl: nat, preTtl: nat) {
    && sh'.entries == (map id | id in sh.entries && !Expired(sh.entries[id], now, ttl) :: sh.entries[id])
    && (forall id :: id in sh'.retained ==> !PreExpired(sh'.retained[id], now, preTtl))
    && (forall id :: id in sh'.retained ==>
          || (id in sh.retained && sh'.retained[id] == sh.retained[id])
          || (Owed(sh, id, now, ttl) && sh'.retained[id] == OwedPre(sh, id, now)))
    && (forall id :: id in sh.retained && !PreExpired(sh.retained[id], now, preTtl) ==> id in sh'.retained)
    && (forall id :: Owed(sh, id, now, ttl) && room ==>
          id in sh'.retained && sh'.retained[id] == OwedPre(sh, id, now))
  }

  lemma SweepKeeps(w: Work, clock: int, room: bool, now: int, ttl: nat, preTtl: nat)
    requires ShardOk(w.sh, clock) && clock <= now && (room ==> HasRoom(w, now, ttl))
    ensures var v := Sweep(w, now, ttl, preTtl);
            && ShardOk(v.sh, now) && CountsFollow(w, v)
            && (w.c.retained <= MAX_RETAINED ==> v.c.retained <= MAX_RETAINED)
            && v.c.retained + |Incoming(v.sh, now, ttl)| <= w.c.retained + |Incoming(w.sh, now, ttl)|
            && SweepMeans(w.sh, v.sh, room, now, ttl, preTtl)
  {
    hide ShardOk, Swept, Shed, SweepMeans, Incoming, Sweep, PopEntries, PopPres;
    var u := PopEntries(w, now, ttl);
    var x := PopPres(u, now, preTtl);
    var v := Sweep(w, now, ttl, preTtl);
    SweepParts(w, clock, room, now, ttl, preTtl);
    assert u.sh.entries == v.sh.entries by { ShedEntries(u, x, now, preTtl); }
    SweepEntries(w, u, v, room, now, ttl);
    SweepRetained(w, u, x, v, room, now, ttl, preTtl);
  }

  lemma ShedEntries(u: Work, x: Work, now: int, ttl: nat)
    requires Shed(u, x, now, ttl)
    ensures x.sh.entries == u.sh.entries
  {
  }

  lemma SweepParts(w: Work, clock: int, room: bool, now: int, ttl: nat, preTtl: nat)
    requires ShardOk(w.sh, clock) && clock <= now && (room ==> HasRoom(w, now, ttl))
    ensures var u := PopEntries(w, now, ttl); var x := PopPres(u, now, preTtl); var v := Sweep(w, now, ttl, preTtl);
            && Swept(w, u, room, now, ttl) && Shed(u, x, now, preTtl)
            && v.sh.entries == x.sh.entries && v.sh.retained == x.sh.retained
            && ShardOk(v.sh, now) && CountsFollow(w, v) &&
               (w.c.retained <= MAX_RETAINED ==> v.c.retained <= MAX_RETAINED)
            && v.c.retained + |Incoming(v.sh, now, ttl)| <= w.c.retained + |Incoming(w.sh, now, ttl)|
            && (forall id :: id in u.sh.entries ==> !Expired(u.sh.entries[id], now, ttl))
            && (forall id :: id in x.sh.retained ==> !PreExpired(x.sh.retained[id], now, preTtl))
  {
    hide ShardOk, Swept, Shed, Compacted, RetainedCompacted, Incoming, HasRoom;
    PopEntriesKeeps(w, clock, room, now, ttl);
    var u := PopEntries(w, now, ttl);
    PopPresKeeps(u, now, now, preTtl);
    var x := PopPres(u, now, preTtl);
    CompactionKeeps(x.sh, now);
    var v := Sweep(w, now, ttl, preTtl);
    assert v.sh.entries == u.sh.entries by { ShedEntries(u, x, now, preTtl); }
    forall id | id in u.sh.entries ensures !Expired(u.sh.entries[id], now, ttl) {
      NoneDue(u.sh, now, now, ttl, id);
    }
    NothingIncoming(v.sh, now, ttl);
    forall id | id in x.sh.retained ensures !PreExpired(x.sh.retained[id], now, preTtl) {
      NoPreDue(x.sh, now, now, preTtl, id);
    }
  }

  lemma NothingIncoming(sh: Shard, now: int, ttl: nat)
    requires forall id :: id in sh.entries ==> !Expired(sh.entries[id], now, ttl)
    ensures Incoming(sh, now, ttl) == {}
  {
  }

  lemma SweepEntries(w: Work, u: Work, v: Work, room: bool, now: int, ttl: nat)
    requires Swept(w, u, room, now, ttl) && v.sh.entries == u.sh.entries
    requires forall id :: id in u.sh.entries ==> !Expired(u.sh.entries[id], now, ttl)
    ensures v.sh.entries == (map id | id in w.sh.entries && !Expired(w.sh.entries[id], now, ttl) :: w.sh.entries[id])
  {
  }

  lemma SweepRetained(w: Work, u: Work, x: Work, v: Work, room: bool, now: int, ttl: nat, preTtl: nat)
    requires Swept(w, u, room, now, ttl) && Shed(u, x, now, preTtl) && v.sh.retained == x.sh.retained
    requires v.sh.entries == (map id | id in w.sh.entries && !Expired(w.sh.entries[id], now, ttl) :: w.sh.entries[id])
    requires u.sh.entries == v.sh.entries
    requires forall id :: id in x.sh.retained ==> !PreExpired(x.sh.retained[id], now, preTtl)
    ensures SweepMeans(w.sh, v.sh, room, now, ttl, preTtl)
  {
    forall id | Owed(w.sh, id, now, ttl) && room
      ensures id in v.sh.retained && v.sh.retained[id] == OwedPre(w.sh, id, now)
    {
      assert id !in u.sh.entries;
      assert !PreExpired(u.sh.retained[id], now, preTtl);
    }
  }

  lemma QueuePushed(entries: map<Id, Entry>, q: seq<Item>, id: Id, e: Entry, clock: int)
    requires QueueOk(entries, q, clock) && clock <= e.created && id !in entries
    ensures QueueOk(entries[id := e], q + [Item(id, e.created)], e.created)
  {
    var entries', q' := entries[id := e], q + [Item(id, e.created)];
    forall i: nat ensures ItemOk(entries', q', i, e.created) {
      assert ItemOk(entries, q, i, clock);
    }
    forall i: nat, j: nat ensures ItemsOrdered(q', i, j) {
      assert ItemsOrdered(q, i, j) && ItemOk(entries, q, i, clock);
    }
    forall k | k in entries' ensures Queued(q', k) {
      if k == id {
        assert q'[|q|].id == id;
      } else {
        assert Queued(q, k);
        var i: nat :| i < |q| && q[i].id == k;
        assert q'[i].id == k;
      }
    }
  }

  lemma NotNewerThan(retained: map<Id, Pre>, q: seq<Pre>, clock: int, id: Id)
    requires RetainedOk(retained, q, clock) && id in retained
    ensures retained[id].created <= clock
  {
    assert Kept(q, retained[id]);
    var i: nat :| i < |q| && q[i] == retained[id];
    assert PreOk(retained, q, i, clock);
  }

  lemma CreateKeeps(sh: Shard, id: Id, clock: int, now: int)
    requires ShardOk(sh, clock) && clock <= now && id !in sh.entries
    ensures ShardOk(Create(sh, id, now), now) && |Create(sh, id, now).entries| == |sh.entries| + 1
  {
    var t := Create(sh, id, now);
    MapWith(sh.entries, id, t.entries[id]);
    QueuePushed(sh.entries, LiveItems(sh), id, t.entries[id], clock);
    RetainedLater(sh.retained, LivePres(sh), clock, now);
    if id in sh.retained {
      NotNewerThan(sh.retained, LivePres(sh), clock, id);
    }
    hide QueueOk, RetainedOk;
    assert LiveItems(t) == LiveItems(sh) + [Item(id, now)];
  }

  /** An entry changes in place without losing its creation time or a pre. */
  lemma UpdateKeeps(sh: Shard, id: Id, e: Entry, clock: int)
    requires ShardOk(sh, clock) && id in sh.entries && e.created == sh.entries[id].created
    requires sh.entries[id].preUs.Some? ==> e.preUs.Some?
    ensures ShardOk(sh.(entries := sh.entries[id := e]), clock) && |sh.entries[id := e]| == |sh.entries|
  {
    MapWith(sh.entries, id, e);
    var t := sh.(entries := sh.entries[id := e]);
    forall i: nat ensures ItemOk(t.entries, LiveItems(t), i, clock) {
      assert ItemOk(sh.entries, LiveItems(sh), i, clock);
    }
  }

  /** The part of a queue that was popped but not cut off yet is shorter than 1024 or than the rest. */
  predicate Short(head: nat, length: nat) {
    head <= length ==> head < 1024 || head < length - head
  }

  /** Sweeping keeps both queues short: popped items do not pile up. */
  lemma SweepShortens(w: Work, now: int, ttl: nat, preTtl: nat)
    ensures var sh := Sweep(w, now, ttl, preTtl).sh;
            Short(sh.head, |sh.order|) && Short(sh.retainedHead, |sh.retainedOrder|)
  {
    hide PopPres, PopEntries;
  }
}
