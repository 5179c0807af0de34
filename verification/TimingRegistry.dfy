/** The audit timing registry: sixteen shards, two exact global caps, and what an audit line may be told.
    Each call is one step, at clock readings that never go back. */
module TimingRegistry {
  import opened Options
  import opened TimingShard
  import Sets

  const SHARDS := 16
  const MAX_ENTRIES := 100_000
  const SWEEP_EVERY := 64

  datatype Segment = SegPre | SegEnd | SegLogged | SegOther

  /** What auditTimingWait returns. */
  datatype Snapshot = Snapshot(preUs: Option<int>, endUs: Option<int>, closed: bool)

  /** accepted is only observed: every pre that was written to an entry of its id. */
  datatype Registry = Registry(shards: seq<Shard>, c: Counts, creates: nat, clock: int,
                               accepted: set<(Id, int)>, ttl: nat, preTtl: nat)

  // ---- Routing ----

  /** isValidSecurityTimingID: sixteen lower-case hexadecimal digits. */
  predicate ValidId(id: Id) {
    |id| == 16 && forall i :: 0 <= i < |id| ==> '0' <= id[i] <= '9' || 'a' <= id[i] <= 'f'
  }

  /** FNV-1a over 32-bit words; only the low byte of a character is hashed. */
  function Hash(s: string): bv32 {
    if s == [] then 2166136261
    else (Hash(s[..|s| - 1]) ^ ((s[|s| - 1] as int % 256) as bv32)) * 16777619
  }

  function Low4(h: bv32): (k: nat)
    ensures k < SHARDS
  {
    (h & 15) as bv4 as nat
  }

  function ShardOf(id: Id): (k: nat)
    ensures k < SHARDS
  {
    Low4(Hash(id))
  }

  // ---- Operations ----

  function SetShard(r: Registry, k: nat, w: Work): Registry
    requires k < |r.shards|
  {
    r.(shards := r.shards[k := w.sh], c := w.c)
  }

  function SweepShard(r: Registry, k: nat, now: int): Registry
    requires k < |r.shards|
  {
    SetShard(r, k, Sweep(Work(r.shards[k], r.c), now, r.ttl, r.preTtl))
  }

  /** auditTimingSweepExpired, the first n shards. */
  function SweepFirst(r: Registry, n: nat, now: int): (t: Registry)
    requires n <= |r.shards|
    ensures |t.shards| == |r.shards|
  {
    if n == 0 then r else SweepShard(SweepFirst(r, n - 1, now), n - 1, now)
  }

  function SweepAll(r: Registry, now: int): Registry {
    SweepFirst(r, |r.shards|, now).(clock := now)
  }

  function Written(e: Entry, seg: Segment, us: int): Entry {
    match seg
    case SegPre => e.(preUs := Some(us))
    case SegEnd => e.(endUs := Some(us))
    case SegLogged => e.(logged := true)
    case SegOther => e
  }

  function SetEntry(r: Registry, id: Id, e: Entry): (t: Registry)
    requires |r.shards| == SHARDS
    ensures |t.shards| == SHARDS
  {
    var sh := r.shards[ShardOf(id)];
    r.(shards := r.shards[ShardOf(id) := sh.(entries := sh.entries[id := e])])
  }

  function Write(r: Registry, id: Id, seg: Segment, us: int): (t: Registry)
    requires |r.shards| == SHARDS
    ensures |t.shards| == SHARDS
  {
    var sh := r.shards[ShardOf(id)];
    if id !in sh.entries then r
    else
      SetEntry(r, id, Written(sh.entries[id], seg, us))
        .(accepted := if seg == SegPre then r.accepted + {(id, us)} else r.accepted)
  }

  /** The entry is queued and counted. */
  function Created(r: Registry, id: Id, now: int): (t: Registry)
    requires |r.shards| == SHARDS
    ensures |t.shards| == SHARDS
  {
    var w := Work(Create(r.shards[ShardOf(id)], id, now), r.c.(live := r.c.live + 1));
    SetShard(r, ShardOf(id), w).(creates := r.creates + 1, clock := now)
  }

  /** A new entry, and the sweep that every 64th creation triggers. */
  function Admit(r: Registry, id: Id, now: int): (t: Registry)
    requires |r.shards| == SHARDS
    ensures |t.shards| == SHARDS
  {
    var t := Created(r, id, now);
    if t.creates % SWEEP_EVERY == 0 then SweepAll(t, now) else t
  }

  /** auditTimingRecord */
  function Record(r: Registry, id: Id, seg: Segment, us: int, now: int): (t: Registry)
    requires |r.shards| == SHARDS
    ensures |t.shards| == SHARDS
  {
    if !ValidId(id) then r.(clock := now)
    else if id in r.shards[ShardOf(id)].entries then Write(r, id, seg, us).(clock := now)
    else if r.c.live + 1 > MAX_ENTRIES then r.(clock := now)
    else Write(Admit(r, id, now), id, seg, us)
  }

  /** auditTimingClose */
  function Close(r: Registry, id: Id): (t: Registry)
    requires |r.shards| == SHARDS
    ensures |t.shards| == SHARDS
  {
    var sh := r.shards[ShardOf(id)];
    if id == [] || id !in sh.entries then r else SetEntry(r, id, sh.entries[id].(closed := true))
  }

  /** auditTimingWait as of one look: the entry, else the kept pre as a closed snapshot, else nothing. */
  function Look(r: Registry, id: Id): Snapshot
    requires |r.shards| == SHARDS
  {
    var sh := r.shards[ShardOf(id)];
    if id == [] then Snapshot(None, None, false)
    else if id in sh.entries then Snapshot(sh.entries[id].preUs, sh.entries[id].endUs, sh.entries[id].closed)
    else if id in sh.retained then Snapshot(Some(sh.retained[id].us), None, true)
    else Snapshot(None, None, false)
  }

  // ---- Invariants ----

  function SumEntries(shards: seq<Shard>): nat {
    if shards == [] then 0 else SumEntries(shards[..|shards| - 1]) + |shards[|shards| - 1].entries|
  }

  function SumRetained(shards: seq<Shard>): nat {
    if shards == [] then 0 else SumRetained(shards[..|shards| - 1]) + |shards[|shards| - 1].retained|
  }

  lemma {:induction false} SumsUpdate(shards: seq<Shard>, k: nat, sh: Shard)
    requires k < |shards|
    ensures SumEntries(shards[k := sh]) == SumEntries(shards) - |shards[k].entries| + |sh.entries|
    ensures SumRetained(shards[k := sh]) == SumRetained(shards) - |shards[k].retained| + |sh.retained|
  {
    var last := |shards| - 1;
    if k == last {
      assert shards[k := sh][..last] == shards[..last];
    } else {
      SumsUpdate(shards[..last], k, sh);
      assert shards[k := sh][..last] == shards[..last][k := sh];
    }
  }

  /** Ids live in the shard they hash to, and every pre on file was accepted for its id. */
  ghost predicate HomeOk(sh: Shard, k: nat, accepted: set<(Id, int)>) {
    && (forall id :: id in sh.entries ==> ShardOf(id) == k && id != [])
    && (forall id :: id in sh.retained ==> ShardOf(id) == k && id != [])
    && (forall id :: id in sh.entries && sh.entries[id].preUs.Some? ==> (id, sh.entries[id].preUs.value) in accepted)
    && (forall id :: id in sh.retained ==> (id, sh.retained[id].us) in accepted)
  }

  ghost predicate AtHome(r: Registry, k: nat) {
    k < |r.shards| ==> ShardOk(r.shards[k], r.clock) && HomeOk(r.shards[k], k, r.accepted)
  }

  /** Counters equal the table sizes and respect both caps. */
  ghost predicate CountsOk(r: Registry) {
    && r.c.live == SumEntries(r.shards) && r.c.live <= MAX_ENTRIES
    && r.c.retained == SumRetained(r.shards) && r.c.retained <= MAX_RETAINED
  }

  ghost predicate Inv(r: Registry) {
    |r.shards| == SHARDS && CountsOk(r) && forall k: nat :: AtHome(r, k)
  }

  lemma ClockMoves(r: Registry, now: int)
    requires Inv(r) && r.clock <= now
    ensures Inv(r.(clock := now))
  {
    forall k: nat ensures AtHome(r.(clock := now), k) {
      assert AtHome(r, k);
      if k < |r.shards| {
        LaterClock(r.shards[k], r.clock, now);
      }
    }
  }

  /** One shard replaced, with its counters. */
  lemma ShardMoves(r: Registry, r': Registry, k: nat, w: Work)
    requires Inv(r) && k < SHARDS && r.clock <= r'.clock && r'.shards == r.shards[k := w.sh] && r'.c == w.c
    requires CountsFollow(Work(r.shards[k], r.c), w) && w.c.live <= MAX_ENTRIES && w.c.retained <= MAX_RETAINED
    requires ShardOk(w.sh, r'.clock) && HomeOk(w.sh, k, r'.accepted) && r.accepted <= r'.accepted
    ensures Inv(r')
  {
    hide ShardOk, HomeOk;
    SumsUpdate(r.shards, k, w.sh);
    forall i: nat ensures AtHome(r', i) {
      if i < SHARDS && i != k {
        assert AtHome(r, i);
        LaterClock(r.shards[i], r.clock, r'.clock);
        MoreAccepted(r.shards[i], i, r.accepted, r'.accepted);
      }
    }
  }

  lemma MoreAccepted(sh: Shard, k: nat, a: set<(Id, int)>, b: set<(Id, int)>)
    requires HomeOk(sh, k, a) && a <= b
    ensures HomeOk(sh, k, b)
  {
  }

  // ---- Sweeps ----

  function SumIncoming(shards: seq<Shard>, now: int, ttl: nat): nat {
    if shards == [] then 0
    else SumIncoming(shards[..|shards| - 1], now, ttl) + |Incoming(shards[|shards| - 1], now, ttl)|
  }

  /** Kept pres and those that need a new place: what the retained table would have to hold. A sweep never adds
      to it. */
  function Pressure(r: Registry, now: int): int {
    r.c.retained + SumIncoming(r.shards, now, r.ttl)
  }

  lemma {:induction false} IncomingUpdate(shards: seq<Shard>, k: nat, sh: Shard, now: int, ttl: nat)
    requires k < |shards|
    ensures SumIncoming(shards[k := sh], now, ttl) ==
            SumIncoming(shards, now, ttl) - |Incoming(shards[k], now, ttl)| + |Incoming(sh, now, ttl)|
    ensures |Incoming(shards[k], now, ttl)| <= SumIncoming(shards, now, ttl)
  {
    hide Incoming;
    var last := |shards| - 1;
    if k == last {
      assert shards[k := sh][..last] == shards[..last];
    } else {
      IncomingUpdate(shards[..last], k, sh, now, ttl);
      assert shards[k := sh][..last] == shards[..last][k := sh];
    }
  }

  lemma SweepHome(sh: Shard, sh': Shard, k: nat, accepted: set<(Id, int)>, room: bool, now: int, ttl: nat, preTtl: nat)
    requires HomeOk(sh, k, accepted) && SweepMeans(sh, sh', room, now, ttl, preTtl)
    ensures HomeOk(sh', k, accepted)
  {
  }

  /** Everything but shards, counters and clock. */
  predicate SameRest(r: Registry, t: Registry) {
    t.accepted == r.accepted && t.creates == r.creates && t.ttl == r.ttl && t.preTtl == r.preTtl
  }

  /** What one shard's sweep did, seen through the whole registry. */
  lemma SweepShardKeeps(r: Registry, k: nat, room: bool, now: int)
    requires Inv(r) && k < SHARDS && r.clock <= now && (room ==> Pressure(r, now) <= MAX_RETAINED)
    ensures var t := SweepShard(r, k, now);
            && Inv(t.(clock := now)) && t.clock == r.clock && SameRest(r, t)
            && t.shards == r.shards[k := t.shards[k]]
            && SweepMeans(r.shards[k], t.shards[k], room, now, r.ttl, r.preTtl)
            && Pressure(t, now) <= Pressure(r, now)
  {
    assert AtHome(r, k);
    CapsHold(r);
    var w := Work(r.shards[k], r.c);
    hide ShardOk, SweepMeans, HomeOk, CountsOk, AtHome, Sweep, Incoming, SumIncoming;
    var v := Sweep(w, now, r.ttl, r.preTtl);
    IncomingUpdate(r.shards, k, v.sh, now, r.ttl);
    SweepKeeps(w, r.clock, room, now, r.ttl, r.preTtl);
    SweepHome(w.sh, v.sh, k, r.accepted, room, now, r.ttl, r.preTtl);
    LiveWithin(w, v, room, now, r.ttl, r.preTtl);
    ShardMoves(r, SweepShard(r, k, now).(clock := now), k, v);
  }

  lemma LiveWithin(w: Work, v: Work, room: bool, now: int, ttl: nat, preTtl: nat)
    requires CountsFollow(w, v) && SweepMeans(w.sh, v.sh, room, now, ttl, preTtl)
    ensures v.c.live <= w.c.live
  {
    assert v.sh.entries.Keys <= w.sh.entries.Keys;
    Sets.SubsetSize(v.sh.entries.Keys, w.sh.entries.Keys);
    assert |v.sh.entries| == |v.sh.entries.Keys| && |w.sh.entries| == |w.sh.entries.Keys|;
  }

  /** The first n shards of t are those of r swept, the others are untouched. */
  ghost predicate SweptTo(r: Registry, t: Registry, n: nat, room: bool, now: int)
    requires |r.shards| == |t.shards| == SHARDS
  {
    && (forall i :: n <= i < SHARDS ==> t.shards[i] == r.shards[i])
    && (forall i :: 0 <= i < n && i < SHARDS ==> SweepMeans(r.shards[i], t.shards[i], room, now, r.ttl, r.preTtl))
  }

  lemma {:induction false} SweepFirstKeeps(r: Registry, n: nat, room: bool, now: int)
    requires Inv(r) && n <= SHARDS && r.clock <= now && (room ==> Pressure(r, now) <= MAX_RETAINED)
    ensures var t := SweepFirst(r, n, now);
            && Inv(t.(clock := now)) && t.clock == r.clock && SameRest(r, t)
            && Pressure(t, now) <= Pressure(r, now) && SweptTo(r, t, n, room, now)
  {
    hide SweepMeans, SweepShard, CountsOk, AtHome, Pressure;
    if n == 0 {
      ClockMoves(r, now);
    } else {
      SweepFirstKeeps(r, n - 1, room, now);
      SweepAtClock(SweepFirst(r, n - 1, now), n - 1, room, now);
    }
  }

  /** A half-finished sweep is a registry of its own once the clock is moved. */
  lemma SweepAtClock(t: Registry, k: nat, room: bool, now: int)
    requires Inv(t.(clock := now)) && k < SHARDS && (room ==> Pressure(t, now) <= MAX_RETAINED)
    ensures |t.shards| == SHARDS
    ensures var u := SweepShard(t, k, now);
            && Inv(u.(clock := now)) && u.clock == t.clock && SameRest(t, u)
            && u.shards == t.shards[k := u.shards[k]]
            && SweepMeans(t.shards[k], u.shards[k], room, now, t.ttl, t.preTtl)
            && Pressure(u, now) <= Pressure(t, now)
  {
    hide SweepMeans, Sweep, SumIncoming;
    SweepShardKeeps(t.(clock := now), k, room, now);
    var u, v := SweepShard(t, k, now), SweepShard(t.(clock := now), k, now);
    assert u == v.(clock := t.clock);
  }

  lemma SweepAllKeeps(r: Registry, room: bool, now: int)
    requires Inv(r) && r.clock <= now && (room ==> Pressure(r, now) <= MAX_RETAINED)
    ensures var t := SweepAll(r, now);
            Inv(t) && t.clock == now && SameRest(r, t) && SweptTo(r, t, SHARDS, room, now)
  {
    hide SweepFirst, SweepMeans;
    SweepFirstKeeps(r, SHARDS, room, now);
  }

  /** After a sweep exactly the entries within their time are there, with the same contents. */
  lemma SweepRemovesExactlyExpired(r: Registry, now: int, id: Id)
    requires Inv(r) && r.clock <= now
    ensures var k := ShardOf(id); var t := SweepAll(r, now);
            && |t.shards| == SHARDS
            && (id in t.shards[k].entries <==>
                id in r.shards[k].entries && !Expired(r.shards[k].entries[id], now, r.ttl))
            && (id in t.shards[k].entries ==> t.shards[k].entries[id] == r.shards[k].entries[id])
  {
    hide SweepAll;
    SweepAllKeeps(r, false, now);
    var k, t := ShardOf(id), SweepAll(r, now);
    assert SweepMeans(r.shards[k], t.shards[k], false, now, r.ttl, r.preTtl);
  }

  // ---- Records and closes ----

  lemma CreatedHome(sh: Shard, id: Id, now: int, accepted: set<(Id, int)>)
    requires HomeOk(sh, ShardOf(id), accepted) && id != []
    ensures HomeOk(Create(sh, id, now), ShardOf(id), accepted)
  {
  }

  lemma CreatedKeeps(r: Registry, id: Id, now: int)
    requires Inv(r) && r.clock <= now && id != [] && id !in r.shards[ShardOf(id)].entries && r.c.live < MAX_ENTRIES
    ensures Inv(Created(r, id, now))
  {
    hide ShardOk, HomeOk, Create;
    var k := ShardOf(id);
    assert AtHome(r, k);
    var w := Work(Create(r.shards[k], id, now), r.c.(live := r.c.live + 1));
    CreateKeeps(r.shards[k], id, r.clock, now);
    CreatedHome(r.shards[k], id, now, r.accepted);
    SameRetained(r.shards[k], id, now);
    ShardMoves(r, Created(r, id, now), k, w);
  }

  lemma SameRetained(sh: Shard, id: Id, now: int)
    ensures Create(sh, id, now).retained == sh.retained
  {
  }

  /** The new entry starts with the pre that was kept for it, and survives the sweep it may trigger. */
  lemma AdmitKeeps(r: Registry, id: Id, now: int)
    requires Inv(r) && r.clock <= now && id != [] && id !in r.shards[ShardOf(id)].entries && r.c.live < MAX_ENTRIES
    ensures var t := Admit(r, id, now); var sh, sh' := r.shards[ShardOf(id)], t.shards[ShardOf(id)];
            && Inv(t) && t.clock == now && t.accepted == r.accepted && t.ttl == r.ttl && t.preTtl == r.preTtl
            && id in sh'.entries
            && sh'.entries[id] ==
               Entry(if id in sh.retained then Some(sh.retained[id].us) else None, None, false, false, now)
  {
    hide Inv, SweepAll, SweptTo;
    InvLength(r);
    CreatedKeeps(r, id, now);
    var t := Created(r, id, now);
    if t.creates % SWEEP_EVERY == 0 {
      SweepAllKeeps(t, false, now);
      SweepRemovesExactlyExpired(t, now, id);
    }
  }

  lemma CapsHold(r: Registry)
    requires Inv(r)
    ensures r.c.live <= MAX_ENTRIES && r.c.retained <= MAX_RETAINED
  {
  }

  lemma InvLength(r: Registry)
    requires Inv(r)
    ensures |r.shards| == SHARDS && r.c.live <= MAX_ENTRIES
  {
  }

  /** An entry changes in place: no creation time moves, a pre stays a pre, and is accepted. */
  lemma SetEntryKeeps(r: Registry, id: Id, e: Entry, accepted: set<(Id, int)>)
    requires Inv(r) && id in r.shards[ShardOf(id)].entries && r.accepted <= accepted
    requires e.created == r.shards[ShardOf(id)].entries[id].created
    requires r.shards[ShardOf(id)].entries[id].preUs.Some? ==> e.preUs.Some?
    requires e.preUs.Some? ==> (id, e.preUs.value) in accepted
    ensures Inv(SetEntry(r, id, e).(accepted := accepted))
  {
    hide ShardOk, HomeOk, CountsOk;
    var k := ShardOf(id);
    assert AtHome(r, k);
    UpdateKeeps(r.shards[k], id, e, r.clock);
    var t := SetEntry(r, id, e).(accepted := accepted);
    UpdatedHome(r.shards[k], id, e, r.accepted, accepted);
    assert r.c.live <= MAX_ENTRIES && r.c.retained <= MAX_RETAINED by {
      CapsHold(r);
    }
    ShardMoves(r, t, k, Work(t.shards[k], r.c));
  }

  lemma UpdatedHome(sh: Shard, id: Id, e: Entry, a: set<(Id, int)>, b: set<(Id, int)>)
    requires HomeOk(sh, ShardOf(id), a) && a <= b && id in sh.entries
    requires e.preUs.Some? ==> (id, e.preUs.value) in b
    ensures HomeOk(sh.(entries := sh.entries[id := e]), ShardOf(id), b)
  {
  }

  lemma OnFileAccepted(r: Registry, id: Id)
    requires Inv(r) && id in r.shards[ShardOf(id)].entries
    ensures id != []
    ensures var e := r.shards[ShardOf(id)].entries[id]; e.preUs.Some? ==> (id, e.preUs.value) in r.accepted
  {
    assert AtHome(r, ShardOf(id));
  }

  lemma WriteKeeps(r: Registry, id: Id, seg: Segment, us: int)
    requires Inv(r)
    ensures Inv(Write(r, id, seg, us))
    ensures var t := Write(r, id, seg, us); t.clock == r.clock && t.ttl == r.ttl && t.preTtl == r.preTtl
  {
    hide Inv;
    InvLength(r);
    var sh := r.shards[ShardOf(id)];
    if id in sh.entries {
      OnFileAccepted(r, id);
      SetEntryKeeps(r, id, Written(sh.entries[id], seg, us), Write(r, id, seg, us).accepted);
    }
  }

  lemma RecordKeeps(r: Registry, id: Id, seg: Segment, us: int, now: int)
    requires Inv(r) && r.clock <= now
    ensures Inv(Record(r, id, seg, us, now))
    ensures var t := Record(r, id, seg, us, now); t.clock == now && t.ttl == r.ttl && t.preTtl == r.preTtl
  {
    hide Inv, Write, Admit;
    InvLength(r);
    if ValidId(id) && id in r.shards[ShardOf(id)].entries {
      WriteKeeps(r, id, seg, us);
      ClockMoves(Write(r, id, seg, us), now);
    } else if ValidId(id) && r.c.live < MAX_ENTRIES {
      AdmitKeeps(r, id, now);
      WriteKeeps(Admit(r, id, now), id, seg, us);
    } else {
      ClockMoves(r, now);
    }
  }

  lemma CloseKeeps(r: Registry, id: Id)
    requires Inv(r)
    ensures Inv(Close(r, id)) && Close(r, id).clock == r.clock
  {
    hide Inv, SetEntry;
    InvLength(r);
    var sh := r.shards[ShardOf(id)];
    if id in sh.entries {
      OnFileAccepted(r, id);
      SetEntryKeeps(r, id, sh.entries[id].(closed := true), r.accepted);
      SetEntryRest(r, id, sh.entries[id].(closed := true));
    }
  }

  lemma SetEntryRest(r: Registry, id: Id, e: Entry)
    requires |r.shards| == SHARDS
    ensures var t := SetEntry(r, id, e); t.(accepted := r.accepted) == t && t.clock == r.clock
  {
  }
}
