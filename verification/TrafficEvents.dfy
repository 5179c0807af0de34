/** The traffic event ring and its cursor protocol: what a poller that feeds back next is told. */
module TrafficEvents {

  const RING_MAX := 4096
  const DEFAULT_LIMIT := 200
  const MAX_LIMIT := 1000

  datatype Event = Event(seqNo: nat, country: string, province: string, at: int)

  /** last is the number handed out last; log is only observed: every event ever recorded. */
  datatype Buffer = Buffer(ring: seq<Event>, last: nat, log: seq<Event>)

  datatype Batch = Batch(events: seq<Event>, next: nat, gap: nat)

  // ---- Operations ----

  function LastN(s: seq<Event>, n: nat): seq<Event> {
    if |s| > n then s[|s| - n..] else s
  }

  function Record(b: Buffer, country: string, province: string, at: int): Buffer {
    var e := Event(b.last + 1, country, province, at);
    Buffer(LastN(b.ring + [e], RING_MAX), b.last + 1, b.log + [e])
  }

  /** The ring is emptied, the numbering goes on. */
  function Reset(b: Buffer): Buffer {
    b.(ring := [])
  }

  function Clamped(limit: int): nat {
    if limit <= 0 then DEFAULT_LIMIT else if limit > MAX_LIMIT then MAX_LIMIT else limit
  }

  function FirstAfter(ring: seq<Event>, since: nat, start: nat): (k: nat)
    requires start <= |ring|
    ensures start <= k <= |ring|
    decreases |ring| - start
  {
    if start < |ring| && ring[start].seqNo <= since then FirstAfter(ring, since, start + 1) else start
  }

  /** Where a batch begins: the newest n for a first poll, else behind the cursor. */
  function StartAt(ring: seq<Event>, since: nat, n: nat): (start: nat)
    ensures start <= |ring|
  {
    if since == 0 then (if |ring| > n then |ring| - n else 0) else FirstAfter(ring, since, 0)
  }

  function AtMost(ring: seq<Event>, start: nat, n: nat): seq<Event>
    requires start <= |ring|
  {
    ring[start..if |ring| - start <= n then |ring| else start + n]
  }

  /** trafficEventSnapshotWithGap */
  function Snapshot(b: Buffer, since: nat, limit: int): Batch {
    var gap := if since > 0 && |b.ring| > 0 && since < b.ring[0].seqNo then b.ring[0].seqNo - since - 1 else 0;
    var events := AtMost(b.ring, StartAt(b.ring, since, Clamped(limit)), Clamped(limit));
    var next := if since > b.last then 0 else if |events| > 0 then events[|events| - 1].seqNo else since;
    Batch(events, next, gap)
  }

  class TrafficBuffer {
    var ring: seq<Event>
    var last: nat
    ghost var log: seq<Event>

    ghost function State(): Buffer
      reads this
    {
      Buffer(ring, last, log)
    }

    constructor ()
      ensures State() == Buffer([], 0, [])
    {
      ring, last, log := [], 0, [];
    }

    method RecordEvent(country: string, province: string, at: int)
      modifies this
      ensures State() == Record(old(State()), country, province, at)
    {
      last := last + 1;
      var e := Event(last, country, province, at);
      ring := ring + [e];
      if |ring| > RING_MAX {
        ring := ring[|ring| - RING_MAX..];
      }
      log := log + [e];
    }

    method ResetEvents()
      modifies this
      ensures State() == Reset(old(State()))
    {
      ring := [];
    }

    /** The scan to the cursor. */
    method SkipSeen(since: nat) returns (start: nat)
      ensures start == FirstAfter(ring, since, 0)
    {
      start := 0;
      while start < |ring| && ring[start].seqNo <= since
        invariant start <= |ring| && FirstAfter(ring, since, start) == FirstAfter(ring, since, 0)
      {
        start := start + 1;
      }
    }

    /** At most n events from start on. */
    method Copied(start: nat, n: nat) returns (events: seq<Event>)
      requires start <= |ring|
      ensures events == AtMost(ring, start, n)
    {
      events := [];
      var i := start;
      while i < |ring| && |events| < n
        invariant start <= i <= |ring| && events == ring[start..i] && |events| <= n
      {
        events := events + [ring[i]];
        i := i + 1;
      }
    }

    method SnapshotWithGap(since: nat, limit: int) returns (r: Batch)
      ensures r == Snapshot(State(), since, limit)
    {
      hide FirstAfter, AtMost;
      var n := limit;
      if n <= 0 {
        n := DEFAULT_LIMIT;
      }
      if n > MAX_LIMIT {
        n := MAX_LIMIT;
      }
      var gap := 0;
      if since > 0 && |ring| > 0 && since < ring[0].seqNo && ring[0].seqNo - since > 1 {
        gap := ring[0].seqNo - since - 1;
      }
      var start: nat := 0;
      if since == 0 {
        if |ring| > n {
          start := |ring| - n;
        }
      } else {
        start := SkipSeen(since);
      }
      var events := Copied(start, n);
      var next := since;
      if since > last {
        next := 0;
      } else if |events| > 0 {
        next := events[|events| - 1].seqNo;
      }
      r := Batch(events, next, gap);
    }
  }

  // ---- The ring ----

  /** The log numbers events from one; the ring holds the newest of them, without holes. */
  ghost predicate Valid(b: Buffer) {
    && |b.log| == b.last && |b.ring| <= RING_MAX && |b.ring| <= |b.log|
    && (forall i :: 0 <= i < |b.log| ==> b.log[i].seqNo == i + 1)
    && b.ring == b.log[|b.log| - |b.ring|..]
  }

  lemma RecordKeeps(b: Buffer, country: string, province: string, at: int)
    requires Valid(b)
    ensures Valid(Record(b, country, province, at))
  {
    var t := Record(b, country, province, at);
    var e := Event(b.last + 1, country, province, at);
    assert b.ring + [e] == t.log[|b.log| - |b.ring|..];
  }

  /** Where the cursor is in the ring, in closed form. */
  lemma {:induction false} FirstAfterIs(b: Buffer, since: nat, start: nat)
    requires Valid(b) && start <= |b.ring| && (start > 0 ==> b.ring[start - 1].seqNo <= since)
    ensures var first := b.last - |b.ring|;
            FirstAfter(b.ring, since, start) == if since <= first + start then start
              else if since >= b.last then |b.ring| else since - first
    decreases |b.ring| - start
  {
    var first := b.last - |b.ring|;
    if start < |b.ring| {
      assert b.ring[start] == b.log[first + start];
      if b.ring[start].seqNo <= since {
        FirstAfterIs(b, since, start + 1);
      }
    } else if start > 0 {
      assert b.ring[start - 1] == b.log[first + start - 1];
    }
  }

  /** A poll from a number already handed out: the batch is the next stretch of the log after the gap, the
      gap is exactly what the ring no longer has, and delivered plus gap is the way the cursor went. */
  lemma PollFacts(b: Buffer, since: nat, limit: int)
    requires Valid(b) && 0 < since <= b.last
    ensures var r := Snapshot(b, since, limit);
            && since <= r.next <= b.last && |r.events| + r.gap == r.next - since
            && r.events == b.log[since + r.gap..r.next] && |r.events| <= Clamped(limit)
            && (r.gap > 0 ==> since + r.gap == b.last - |b.ring|)
            && (r.next == since <==> b.ring == [] || since == b.last)
  {
    hide FirstAfter;
    var first, n := b.last - |b.ring|, Clamped(limit);
    FirstAfterIs(b, since, 0);
    if b.ring != [] {
      assert b.ring[0] == b.log[first];
    }
    var start := StartAt(b.ring, since, n);
    Stretch(b, start, n);
    hide AtMost;
    var stop := if |b.ring| - start <= n then |b.ring| else start + n;
    assert stop > start ==> b.log[first + start..first + stop][stop - start - 1] == b.log[first + stop - 1];
  }

  /** A batch has as many events as the limit and the ring allow: 200 without a limit, at most 1000. */
  lemma BatchIsFull(b: Buffer, since: nat, limit: int)
    requires Valid(b) && since <= b.last && b.ring != []
    ensures var r := Snapshot(b, since, limit);
            var n := if limit <= 0 then 200 else if limit > 1000 then 1000 else limit;
            var left := if since == 0 then |b.ring| else b.last - since - r.gap;
            |r.events| == if left <= n then left else n
  {
    hide FirstAfter;
    var first := b.last - |b.ring|;
    FirstAfterIs(b, since, 0);
    assert b.ring[0] == b.log[first];
  }

  lemma Stretch(b: Buffer, start: nat, n: nat)
    requires Valid(b) && start <= |b.ring|
    ensures var first := b.last - |b.ring|; var stop := if |b.ring| - start <= n then |b.ring| else start + n;
            AtMost(b.ring, start, n) == b.log[first + start..first + stop]
  {
  }

  // ---- Runs ----

  /** A consumer with its cursor, what it was given and how much it was told to have missed. */
  datatype Consumer = Consumer(cursor: nat, got: seq<Event>, skipped: nat)

  datatype Op = OpRecord(country: string, province: string, at: int) | OpReset | OpPoll(limit: int)

  datatype World = World(b: Buffer, c: Consumer)

  function Step(w: World, op: Op): World {
    match op
    case OpRecord(country, province, at) => w.(b := Record(w.b, country, province, at))
    case OpReset => w.(b := Reset(w.b))
    case OpPoll(limit) =>
      var r := Snapshot(w.b, w.c.cursor, limit);
      w.(c := Consumer(r.next, w.c.got + r.events, w.c.skipped + r.gap))
  }

  function Run(w: World, ops: seq<Op>): World {
    if ops == [] then w else Step(Run(w, ops[..|ops| - 1]), ops[|ops| - 1])
  }

  ghost predicate Increasing(es: seq<Event>) {
    forall i, j :: 0 <= i < j < |es| ==> es[i].seqNo < es[j].seqNo
  }

  /** Since cursor c0: nothing twice, nothing invented, and every number passed was delivered or skipped. */
  ghost predicate Accounted(w: World, c0: nat) {
    && Valid(w.b) && 0 < c0 <= w.c.cursor <= w.b.last
    && Increasing(w.c.got)
    && (forall i :: 0 <= i < |w.c.got| ==>
          c0 < w.c.got[i].seqNo <= w.c.cursor && w.c.got[i] == w.b.log[w.c.got[i].seqNo - 1])
    && |w.c.got| + w.c.skipped == w.c.cursor - c0
  }

  lemma PollAccounted(w: World, c0: nat, limit: int)
    requires Accounted(w, c0)
    ensures Accounted(Step(w, OpPoll(limit)), c0)
  {
    hide Snapshot;
    PollFacts(w.b, w.c.cursor, limit);
    var r := Snapshot(w.b, w.c.cursor, limit);
    forall i | 0 <= i < |r.events|
      ensures r.events[i].seqNo == w.c.cursor + r.gap + i + 1 && r.events[i] == w.b.log[r.events[i].seqNo - 1]
    {
      assert r.events[i] == w.b.log[w.c.cursor + r.gap + i];
    }
  }

  /** Over every run of records, resets and polls, a consumer that starts at a number already handed out and
      feeds back next never sees an event twice, sees each as it was recorded, and delivered plus skipped
      is the distance its cursor travelled. */
  lemma {:induction false} RunAccounted(w: World, ops: seq<Op>)
    requires Valid(w.b) && 0 < w.c.cursor <= w.b.last && w.c.got == [] && w.c.skipped == 0
    ensures Accounted(Run(w, ops), w.c.cursor)
  {
    if ops != [] {
      RunAccounted(w, ops[..|ops| - 1]);
      var v := Run(w, ops[..|ops| - 1]);
      match ops[|ops| - 1]
      case OpRecord(country, province, at) => RecordKeeps(v.b, country, province, at);
      case OpReset =>
      case OpPoll(limit) => PollAccounted(v, w.c.cursor, limit);
    }
  }

  lemma ForeignCursor(b: Buffer, since: nat, limit: int)
    requires Valid(b) && since > b.last
    ensures Snapshot(b, since, limit) == Batch([], 0, 0)
  {
    FirstAfterIs(b, since, 0);
    if b.ring != [] {
      assert b.ring[0] == b.log[b.last - |b.ring|];
    }
    assert AtMost(b.ring, |b.ring|, Clamped(limit)) == [];
  }

  lemma FirstPoll(b: Buffer, limit: int)
    requires Valid(b)
    ensures Snapshot(b, 0, limit) == Batch(LastN(b.ring, Clamped(limit)), if b.ring == [] then 0 else b.last, 0)
  {
    var n := Clamped(limit);
    assert AtMost(b.ring, StartAt(b.ring, 0, n), n) == LastN(b.ring, n);
    if b.ring != [] {
      assert b.ring[|b.ring| - 1] == b.log[b.last - 1];
    }
  }

  /** A cursor from an earlier process is told to start over; the first poll gets the newest events. */
  lemma OtherCursors(b: Buffer, since: nat, limit: int)
    requires Valid(b) && (since == 0 || since > b.last)
    ensures var r := Snapshot(b, since, limit);
            && (since > 0 ==> r.events == [] && r.next == 0 && r.gap == 0)
            && (since == 0 ==> r.gap == 0 && r.events == LastN(b.ring, Clamped(limit)))
            && (since == 0 ==> r.next == if b.ring == [] then 0 else b.last)
  {
    hide Snapshot, LastN, Clamped;
    if since == 0 {
      FirstPoll(b, limit);
    } else {
      ForeignCursor(b, since, limit);
    }
  }

  // ---- What the ring holds ----

  /** The recorded events of a run, numbered on from last. */
  function Recorded(ops: seq<Op>, last: nat): seq<Event> {
    if ops == [] then []
    else
      var before := Recorded(ops[..|ops| - 1], last);
      match ops[|ops| - 1]
      case OpRecord(country, province, at) => before + [Event(last + |before| + 1, country, province, at)]
      case _ => before
  }

  /** How many events there were since the last reset, n of them before the run. */
  function SinceReset(ops: seq<Op>, n: nat): nat {
    if ops == [] then n
    else
      match ops[|ops| - 1]
      case OpReset => 0
      case OpRecord(_, _, _) => SinceReset(ops[..|ops| - 1], n) + 1
      case OpPoll(_) => SinceReset(ops[..|ops| - 1], n)
  }

  /** Over every run the ring holds the newest 4096 of the events since the last reset, each with the number, the
      country, the province and the time it was recorded with. */
  lemma {:induction false} RingHoldsNewest(w: World, ops: seq<Op>)
    requires Valid(w.b)
    ensures var b, n := Run(w, ops).b, SinceReset(ops, |w.b.ring|);
            && Valid(b) && b.log == w.b.log + Recorded(ops, w.b.last)
            && |b.ring| == if n > 4096 then 4096 else n
  {
    hide Snapshot, Valid;
    if ops == [] {
      assert w.b.log + [] == w.b.log;
      RingWithin(w.b);
    } else {
      hide Record;
      var init, op := ops[..|ops| - 1], ops[|ops| - 1];
      RingHoldsNewest(w, init);
      var v, before := Run(w, init), Recorded(init, w.b.last);
      match op
      case OpRecord(country, province, at) =>
        RecordAdds(v.b, country, province, at);
        LogLength(w.b);
        LogLength(v.b);
        var e := Event(w.b.last + |before| + 1, country, province, at);
        assert w.b.log + (before + [e]) == w.b.log + before + [e];
      case OpReset => ResetKeeps(v.b);
      case OpPoll(_) =>
    }
  }

  lemma RingWithin(b: Buffer)
    requires Valid(b)
    ensures |b.ring| <= 4096
  {
  }

  lemma LogLength(b: Buffer)
    requires Valid(b)
    ensures |b.log| == b.last
  {
  }

  lemma ResetKeeps(b: Buffer)
    requires Valid(b)
    ensures Valid(Reset(b))
  {
  }

  lemma RecordAdds(b: Buffer, country: string, province: string, at: int)
    requires Valid(b)
    ensures var t := Record(b, country, province, at);
            && Valid(t) && t.log == b.log + [Event(b.last + 1, country, province, at)]
            && |t.ring| == if |b.ring| + 1 > 4096 then 4096 else |b.ring| + 1
  {
    RecordKeeps(b, country, province, at);
  }
}
