/** The message budget of one audit line: a head and a tail of the rule messages within what the fixed part
    of the line leaves of one MiB. */
module AuditMessages {

  const ITEM_MAX_BYTES := 1048576
  const RESERVE := 49152
  const CEILING_BYTES := 131072
  const MIN_BYTES := 32768
  const CEILING_ENTRIES := 256
  const MIN_ENTRIES := 64
  const BYTES_PER_ENTRY := 512
  const TAIL_ENTRIES := 8
  const TAIL_BYTES := 8192
  const DROPPED_OVERHEAD := 40

  /** A message by its estimate and whether it is one of the evaluation rules that carry the score. */
  datatype Message = Message(size: nat, eval: bool)

  datatype Budget = Budget(bytes: int, entries: int)

  /** auditMessagesBudget */
  method MessagesBudget(fixedBytes: nat) returns (b: Budget)
    ensures b == BudgetOf(fixedBytes)
  {
    var maxBytes := ITEM_MAX_BYTES - fixedBytes - RESERVE;
    if maxBytes > CEILING_BYTES {
      maxBytes := CEILING_BYTES;
    }
    if maxBytes < 0 {
      maxBytes := 0;
    }
    if maxBytes < MIN_BYTES {
      if maxBytes <= 0 {
        return Budget(maxBytes, 0);
      }
    }
    var maxEntries := maxBytes / BYTES_PER_ENTRY;
    if maxEntries < MIN_ENTRIES && maxBytes >= MIN_BYTES {
      maxEntries := MIN_ENTRIES;
    }
    if maxEntries > CEILING_ENTRIES {
      maxEntries := CEILING_ENTRIES;
    }
    b := Budget(maxBytes, maxEntries);
  }

  /** The budget in closed form: what is left, up to the ceiling, and one entry for 512 bytes of it. The
      branches for the two minima and for the entry ceiling never change it. */
  function BudgetOf(fixedBytes: nat): Budget {
    var left := ITEM_MAX_BYTES - RESERVE - fixedBytes;
    var bytes := if left < 0 then 0 else if left > CEILING_BYTES then CEILING_BYTES else left;
    Budget(bytes, bytes / BYTES_PER_ENTRY)
  }

  function Total(ms: seq<Message>): nat {
    if ms == [] then 0 else Total(ms[..|ms| - 1]) + ms[|ms| - 1].size
  }

  // ---- Tail and head ----

  /** The tail takes message start-1 next, or stops. */
  predicate TailTakes(ms: seq<Message>, start: nat, bytes: nat, entries: nat, maxBytes: int)
    requires start <= |ms|
  {
    && start > 0 && entries < TAIL_ENTRIES * 2
    && var m := ms[start - 1];
       && (m.eval || entries < TAIL_ENTRIES)
       && bytes + m.size <= maxBytes
       && (m.eval || entries == 0 || bytes + m.size <= TAIL_BYTES)
  }

  /** Where the tail begins. */
  function TailStart(ms: seq<Message>, start: nat, bytes: nat, maxBytes: int): (t: nat)
    requires start <= |ms|
    ensures t <= start
  {
    if TailTakes(ms, start, bytes, |ms| - start, maxBytes)
    then TailStart(ms, start - 1, bytes + ms[start - 1].size, maxBytes) else start
  }

  /** How many messages the head takes. */
  function HeadEnd(ms: seq<Message>, n: nat, bytes: nat, tailStart: nat, limit: int, room: int): (h: nat)
    requires n <= tailStart <= |ms|
    ensures n <= h <= tailStart
    decreases tailStart - n
  {
    if n < tailStart && n < limit && bytes + ms[n].size <= room
    then HeadEnd(ms, n + 1, bytes + ms[n].size, tailStart, limit, room) else n
  }

  datatype Cut = Cut(head: nat, tail: nat)

  /** Kept are the messages before head and from tail on. */
  function CutOf(ms: seq<Message>, b: Budget): (c: Cut)
    ensures c.head <= c.tail <= |ms|
  {
    if ms == [] || b.bytes <= 0 || b.entries <= 0 then Cut(0, |ms|)
    else
      var t := TailStart(ms, |ms|, 0, b.bytes);
      var limit := b.entries - (|ms| - t);
      Cut(HeadEnd(ms, 0, 0, t, limit, b.bytes - Total(ms[t..])), t)
  }

  function Kept(ms: seq<Message>, b: Budget): seq<Message> {
    ms[..CutOf(ms, b).head] + ms[CutOf(ms, b).tail..]
  }

  function Dropped(ms: seq<Message>, b: Budget): nat {
    CutOf(ms, b).tail - CutOf(ms, b).head
  }

  lemma {:induction false} TotalFront(ms: seq<Message>)
    requires ms != []
    ensures Total(ms) == ms[0].size + Total(ms[1..])
  {
    var n := |ms| - 1;
    if n > 0 {
      TotalFront(ms[..n]);
      assert ms[..n][1..] == ms[1..][..n - 1];
    }
  }

  lemma {:induction false} TotalJoin(a: seq<Message>, b: seq<Message>)
    ensures Total(a + b) == Total(a) + Total(b)
  {
    if b == [] {
      assert a + b == a;
    } else {
      assert (a + b)[..|a + b| - 1] == a + b[..|b| - 1];
      TotalJoin(a, b[..|b| - 1]);
    }
  }

  lemma TailGrows(ms: seq<Message>, start: nat)
    requires 0 < start <= |ms|
    ensures Total(ms[start - 1..]) == ms[start - 1].size + Total(ms[start..])
  {
    TotalFront(ms[start - 1..]);
    assert ms[start - 1..][1..] == ms[start..];
  }

  /** The loop from the end: how much of the tail is kept. */
  method KeepTail(ms: seq<Message>, b: Budget) returns (tailStart: nat, tailBytes: int)
    ensures tailStart == TailStart(ms, |ms|, 0, b.bytes) <= |ms| && tailBytes == Total(ms[tailStart..])
  {
    tailStart, tailBytes := |ms|, 0;
    var tailEntries := 0;
    assert ms[|ms|..] == [];
    while tailStart > 0 && tailEntries < TAIL_ENTRIES * 2
      invariant 0 <= tailStart <= |ms| && tailEntries == |ms| - tailStart && tailBytes == Total(ms[tailStart..])
      invariant TailStart(ms, tailStart, tailBytes, b.bytes) == TailStart(ms, |ms|, 0, b.bytes)
    {
      var m := ms[tailStart - 1];
      if !m.eval && tailEntries >= TAIL_ENTRIES {
        break;
      }
      var size := m.size;
      if tailBytes + size > b.bytes {
        break;
      }
      if !m.eval && tailEntries > 0 && tailBytes + size > TAIL_BYTES {
        break;
      }
      TailGrows(ms, tailStart);
      tailBytes := tailBytes + size;
      tailEntries := tailEntries + 1;
      tailStart := tailStart - 1;
    }
  }

  /** The loop from the front, up to the tail. */
  method KeepHead(ms: seq<Message>, tailStart: nat, limit: int, room: int) returns (headEntries: nat)
    requires tailStart <= |ms|
    ensures headEntries == HeadEnd(ms, 0, 0, tailStart, limit, room) <= tailStart
  {
    headEntries := 0;
    var headBytes: nat := 0;
    var headLimit := limit;
    if headLimit < 0 {
      headLimit := 0;
    }
    while headEntries < tailStart && headEntries < headLimit
      invariant 0 <= headEntries <= tailStart
      invariant HeadEnd(ms, headEntries, headBytes, tailStart, limit, room) == HeadEnd(ms, 0, 0, tailStart, limit, room)
    {
      var size := ms[headEntries].size;
      if headBytes + size > room {
        break;
      }
      headBytes := headBytes + size;
      headEntries := headEntries + 1;
    }
  }

  /** snapshotAuditMessages */
  method SnapshotMessages(ms: seq<Message>, b: Budget) returns (kept: seq<Message>, dropped: nat)
    ensures kept == Kept(ms, b) && dropped == Dropped(ms, b)
  {
    hide TailStart, HeadEnd, Total;
    if |ms| == 0 {
      return [], 0;
    }
    if b.bytes <= 0 || b.entries <= 0 {
      assert ms[|ms|..] == [];
      return [], |ms|;
    }
    var tailStart, tailBytes := KeepTail(ms, b);
    var headEntries := KeepHead(ms, tailStart, b.entries - (|ms| - tailStart), b.bytes - tailBytes);
    kept := ms[..headEntries] + ms[tailStart..];
    dropped := tailStart - headEntries;
  }

  // ---- What is kept ----

  lemma {:induction false} TailWithin(ms: seq<Message>, start: nat, maxBytes: int)
    requires start <= |ms| && Total(ms[start..]) <= maxBytes && |ms| - start <= TAIL_ENTRIES * 2
    ensures var t := TailStart(ms, start, Total(ms[start..]), maxBytes);
            && Total(ms[t..]) <= maxBytes && |ms| - t <= TAIL_ENTRIES * 2
            && !TailTakes(ms, t, Total(ms[t..]), |ms| - t, maxBytes)
  {
    if TailTakes(ms, start, Total(ms[start..]), |ms| - start, maxBytes) {
      TailGrows(ms, start);
      TailWithin(ms, start - 1, maxBytes);
    }
  }

  lemma {:induction false} HeadWithin(ms: seq<Message>, n: nat, tailStart: nat, limit: int, room: int)
    requires n <= tailStart <= |ms| && Total(ms[..n]) <= room
    ensures var h := HeadEnd(ms, n, Total(ms[..n]), tailStart, limit, room);
            Total(ms[..h]) <= room && (h == tailStart || h >= limit || Total(ms[..h]) + ms[h].size > room)
    ensures var h := HeadEnd(ms, n, Total(ms[..n]), tailStart, limit, room); h == n || h <= limit
    decreases tailStart - n
  {
    if n < tailStart && n < limit && Total(ms[..n]) + ms[n].size <= room {
      assert ms[..n + 1][..n] == ms[..n];
      HeadWithin(ms, n + 1, tailStart, limit, room);
    }
  }

  lemma TailFacts(ms: seq<Message>, maxBytes: nat)
    ensures var t := TailStart(ms, |ms|, 0, maxBytes); TailOk(ms, t, maxBytes)
  {
    assert ms[|ms|..] == [];
    TailWithin(ms, |ms|, maxBytes);
  }

  lemma HeadFacts(ms: seq<Message>, tail: nat, limit: int, room: nat)
    requires tail <= |ms|
    ensures HeadOk(ms, HeadEnd(ms, 0, 0, tail, limit, room), tail, limit, room)
  {
    assert ms[..0] == [];
    HeadWithin(ms, 0, tail, limit, room);
  }

  /** A tail within bytes and entries that takes no further message. */
  predicate TailOk(ms: seq<Message>, tail: nat, maxBytes: nat) {
    tail <= |ms| && Total(ms[tail..]) <= maxBytes && |ms| - tail <= TAIL_ENTRIES * 2
    && !TailTakes(ms, tail, Total(ms[tail..]), |ms| - tail, maxBytes)
  }

  /** A head within its room that ends at the tail, at its limit, or before a message that does not fit. */
  predicate HeadOk(ms: seq<Message>, head: nat, tail: nat, limit: int, room: int) {
    head <= tail <= |ms| && Total(ms[..head]) <= room && (head == 0 || head <= limit)
    && (head == tail || head >= limit || Total(ms[..head]) + ms[head].size > room)
  }

  /** Head and tail are as long as they can be. */
  lemma CutFacts(ms: seq<Message>, b: Budget)
    requires ms != [] && b.bytes > 0 && b.entries > 0
    ensures var c := CutOf(ms, b);
            && c.tail == TailStart(ms, |ms|, 0, b.bytes) && TailOk(ms, c.tail, b.bytes)
            && HeadOk(ms, c.head, c.tail, b.entries - (|ms| - c.tail), b.bytes - Total(ms[c.tail..]))
  {
    hide Total, TailTakes, TailStart, HeadEnd;
    TailFacts(ms, b.bytes);
    var t := TailStart(ms, |ms|, 0, b.bytes);
    var room := b.bytes - Total(ms[t..]);
    hide TailOk, HeadOk;
    HeadFacts(ms, t, b.entries - (|ms| - t), room);
  }

  /** The tail may reach back to message i: it is at most 16 long and within the budget, and an ordinary message
      is among the last eight and, unless it is the last one, keeps the tail within 8 KiB. */
  predicate TailMayReach(ms: seq<Message>, i: nat, maxBytes: int)
    requires i < |ms|
  {
    && |ms| - i <= 16 && Total(ms[i..]) <= maxBytes
    && (ms[i].eval || (|ms| - i <= 8 && (i == |ms| - 1 || Total(ms[i..]) <= 8192)))
  }

  lemma {:induction false} TailReaches(ms: seq<Message>, start: nat, maxBytes: int)
    requires start <= |ms|
    requires forall i :: start <= i < |ms| ==> TailMayReach(ms, i, maxBytes)
    ensures var t := TailStart(ms, start, Total(ms[start..]), maxBytes);
            && (forall i :: t <= i < |ms| ==> TailMayReach(ms, i, maxBytes))
            && (t > 0 ==> !TailMayReach(ms, t - 1, maxBytes))
  {
    if start > 0 {
      TailGrows(ms, start);
      if TailMayReach(ms, start - 1, maxBytes) {
        TailReaches(ms, start - 1, maxBytes);
      }
    }
  }

  /** The tail reaches back as far as every message of it may be kept, and the head from the front as far as what
      the tail left of both budgets allows. */
  lemma KeptIsMost(ms: seq<Message>, b: Budget)
    requires ms != [] && b.bytes > 0 && b.entries > 0
    ensures var head, tail := CutOf(ms, b).head, CutOf(ms, b).tail;
            && (forall i :: tail <= i < |ms| ==> TailMayReach(ms, i, b.bytes))
            && (tail > 0 ==> !TailMayReach(ms, tail - 1, b.bytes))
            && (head < tail ==> head + (|ms| - tail) >= b.entries
                                || Total(ms[..head]) + ms[head].size + Total(ms[tail..]) > b.bytes)
  {
    hide TailMayReach, TailStart, HeadEnd, TailTakes;
    CutFacts(ms, b);
    assert ms[|ms|..] == [];
    TailReaches(ms, |ms|, b.bytes);
  }

  /** Kept are a prefix and a suffix, dropped is what is missing between them, and the kept estimates fit the
      byte budget; the entry budget may only be passed by a tail of up to sixteen. */
  lemma KeptFits(ms: seq<Message>, b: Budget)
    requires b.bytes >= 0
    ensures Total(Kept(ms, b)) <= b.bytes && |Kept(ms, b)| + Dropped(ms, b) == |ms|
    ensures |Kept(ms, b)| <= b.entries || |Kept(ms, b)| <= TAIL_ENTRIES * 2
  {
    var c := CutOf(ms, b);
    TotalJoin(ms[..c.head], ms[c.tail..]);
    if ms != [] && b.bytes > 0 && b.entries > 0 {
      CutFacts(ms, b);
    } else {
      assert ms[..0] == [] && ms[|ms|..] == [];
    }
  }

  /** The last message is kept exactly when it fits a budget that is not empty. */
  lemma LastIsKept(ms: seq<Message>, b: Budget)
    requires ms != []
    ensures CutOf(ms, b).tail < |ms| <==> b.bytes > 0 && b.entries > 0 && ms[|ms| - 1].size <= b.bytes
  {
  }

  lemma {:induction false} EvalsTaken(ms: seq<Message>, start: nat, k: nat, maxBytes: int)
    requires k <= start <= |ms| && |ms| - k <= TAIL_ENTRIES * 2 && Total(ms[k..]) <= maxBytes
    requires forall i :: k <= i < |ms| ==> ms[i].eval
    ensures TailStart(ms, start, Total(ms[start..]), maxBytes) <= k
    decreases start - k
  {
    if start > k {
      TailGrows(ms, start);
      TailSuffix(ms, k, start - 1);
      EvalsTaken(ms, start - 1, k, maxBytes);
    }
  }

  lemma TailSuffix(ms: seq<Message>, k: nat, j: nat)
    requires k <= j <= |ms|
    ensures Total(ms[j..]) <= Total(ms[k..])
  {
    assert ms[k..] == ms[k..j] + ms[j..];
    TotalJoin(ms[k..j], ms[j..]);
  }

  /** The score survives: up to sixteen evaluation messages at the end are all kept if they fit. */
  lemma EvaluationsAreKept(ms: seq<Message>, b: Budget, k: nat)
    requires b.bytes > 0 && b.entries > 0
    requires k < |ms| && |ms| - k <= TAIL_ENTRIES * 2 && Total(ms[k..]) <= b.bytes
    requires forall i :: k <= i < |ms| ==> ms[i].eval
    ensures CutOf(ms, b).tail <= k
  {
    assert ms[|ms|..] == [];
    EvalsTaken(ms, |ms|, k, b.bytes);
  }

  lemma TotalPart(ms: seq<Message>, h: nat, t: nat)
    requires h <= t <= |ms|
    ensures Total(ms[..h]) + Total(ms[t..]) <= Total(ms)
    ensures h < t ==> Total(ms[..h]) + ms[h].size + Total(ms[t..]) <= Total(ms)
  {
    hide Total;
    var front, middle, back := ms[..h], ms[h..t], ms[t..];
    assert ms == front + middle + back;
    TotalJoin(front + middle, back);
    TotalJoin(front, middle);
    if h < t {
      TotalFront(middle);
    }
  }

  /** Nothing is dropped exactly when all messages fit: the bytes, and the entries unless the tail alone
      takes them all. */
  lemma NothingDroppedIff(ms: seq<Message>, b: Budget)
    requires ms != [] && b.bytes > 0 && b.entries > 0
    ensures Dropped(ms, b) == 0 <==> Total(ms) <= b.bytes && (|ms| <= b.entries || TailStart(ms, |ms|, 0, b.bytes) == 0)
  {
    hide TailTakes, TailStart, HeadEnd, Total;
    CutFacts(ms, b);
    var c := CutOf(ms, b);
    TotalPart(ms, c.head, c.tail);
    if c.head == c.tail {
      assert ms == ms[..c.head] + ms[c.tail..];
      TotalJoin(ms[..c.head], ms[c.tail..]);
    }
  }

  /** estimateAuditSnapshotBytes with these messages. */
  function Estimate(fixedBytes: nat, ms: seq<Message>, b: Budget): nat {
    fixedBytes + (if Dropped(ms, b) > 0 then DROPPED_OVERHEAD else 0) + Total(Kept(ms, b))
  }

  /** With the budget of its own fixed part a line never meets the per-item cap, unless the fixed part alone
      does: up to a fixed part of one MiB less 48 KiB the estimate stays 48 KiB less 40 bytes below the cap. */
  lemma NeverOverCap(fixedBytes: nat, ms: seq<Message>)
    ensures var e := Estimate(fixedBytes, ms, BudgetOf(fixedBytes));
            if fixedBytes <= ITEM_MAX_BYTES - RESERVE then e <= ITEM_MAX_BYTES - RESERVE + DROPPED_OVERHEAD
            else e <= fixedBytes + DROPPED_OVERHEAD
  {
    KeptFits(ms, BudgetOf(fixedBytes));
  }

  /** With the budget of its own fixed part a line never carries more than 128 KiB or 256 messages of estimate,
      and none at all once the fixed part takes all but 48 KiB of the MiB. */
  lemma KeptWithinCeilings(fixedBytes: nat, ms: seq<Message>)
    ensures var kept := Kept(ms, BudgetOf(fixedBytes));
            && Total(kept) <= 131072 && |kept| <= 256
            && (fixedBytes >= 1048576 - 49152 ==> kept == [])
            && (fixedBytes + Total(kept) <= 1048576 - 49152 || kept == [])
  {
    KeptFits(ms, BudgetOf(fixedBytes));
    if fixedBytes >= 1048576 - 49152 {
      assert ms[..0] == [] && ms[|ms|..] == [];
    }
  }

  /** enqueue's cap rejects the line exactly when the fixed part leaves no room for the drop marker. */
  lemma RejectedIff(fixedBytes: nat, ms: seq<Message>)
    ensures Estimate(fixedBytes, ms, BudgetOf(fixedBytes)) > ITEM_MAX_BYTES <==>
            fixedBytes > ITEM_MAX_BYTES - (if ms == [] then 0 else DROPPED_OVERHEAD)
  {
    KeptFits(ms, BudgetOf(fixedBytes));
    var b := BudgetOf(fixedBytes);
    if fixedBytes > ITEM_MAX_BYTES - RESERVE {
      assert b == Budget(0, 0);
      assert ms[..0] == [] && ms[|ms|..] == [];
      assert Kept(ms, b) == [] && Dropped(ms, b) == |ms|;
    }
  }
}
