/** Addresses and prefixes with the operations of Go's netip package that the list
    code uses: masking, containment, the address order, and 4in6 unmapping. */
module IpPrefix {
  import opened Bits

  /** Zero is the zero netip.Addr, which Masked of an invalid prefix carries. */
  datatype Family = Zero | V4 | V6

  datatype Addr = Addr(fam: Family, value: nat)

  /** bits is -1 for an invalid prefix. */
  datatype Prefix = Prefix(addr: Addr, bits: int)

  const ZERO_PREFIX := Prefix(Addr(Zero, 0), -1)

  function Width(fam: Family): nat {
    match fam
    case Zero => 0
    case V4 => 32
    case V6 => 128
  }

  /** Number of values of a family. */
  function Limit(fam: Family): nat {
    match fam
    case Zero => 1
    case V4 => 0x1_0000_0000
    case V6 => 0x1_0000_0000_0000_0000_0000_0000_0000_0000
  }

  predicate WellFormedAddr(a: Addr) {
    a.value < Limit(a.fam)
  }

  predicate IsValid(p: Prefix) {
    p.addr.fam != Zero && 0 <= p.bits <= Width(p.addr.fam)
  }

  /** Number of host bits of a valid prefix. */
  function HostBits(p: Prefix): nat
    requires IsValid(p)
  {
    Width(p.addr.fam) - p.bits
  }

  function PrefixFrom(a: Addr, bits: int): Prefix {
    if a.fam != Zero && 0 <= bits <= Width(a.fam) then Prefix(a, bits) else Prefix(a, -1)
  }

  function Masked(p: Prefix): Prefix {
    if IsValid(p) then Prefix(Addr(p.addr.fam, Mask(p.addr.value, HostBits(p))), p.bits) else ZERO_PREFIX
  }

  predicate Contains(p: Prefix, a: Addr) {
    IsValid(p) && p.addr.fam == a.fam && Shift(a.value, HostBits(p)) == Shift(p.addr.value, HostBits(p))
  }

  predicate IsMasked(p: Prefix) {
    IsValid(p) && Masked(p) == p
  }

  function Rank(fam: Family): nat {
    Width(fam)
  }

  /** netip.Addr.Compare(a, b) < 0. */
  predicate AddrLess(a: Addr, b: Addr) {
    Rank(a.fam) < Rank(b.fam) || (a.fam == b.fam && a.value < b.value)
  }

  /** The order of the sort call: address, then wider block first. */
  predicate PrefixLess(p: Prefix, q: Prefix) {
    AddrLess(p.addr, q.addr) || (p.addr == q.addr && p.bits < q.bits)
  }

  /** q's block lies inside p's block. */
  predicate Within(q: Prefix, p: Prefix) {
    IsValid(q) && p.bits <= q.bits && Contains(p, q.addr)
  }

  predicate Disjoint(p: Prefix, q: Prefix) {
    !Within(p, q) && !Within(q, p)
  }

  /** Some prefix of the list contains the address. */
  ghost predicate Covers(ps: seq<Prefix>, a: Addr) {
    exists i :: 0 <= i < |ps| && Contains(ps[i], a)
  }

  // ---- Containment is what it should be ----

  lemma MaskedMeaning(p: Prefix)
    requires IsValid(p)
    ensures IsMasked(Masked(p))
    ensures Masked(p).addr.value <= p.addr.value
    ensures forall a :: Contains(Masked(p), a) <==> Contains(p, a)
  {
    var k := HostBits(p);
    MaskShift(p.addr.value, k);
    MaskMask(p.addr.value, k, k);
    MaskBelow(p.addr.value, k);
  }

  lemma WithinIsSubset(q: Prefix, p: Prefix, a: Addr)
    requires Within(q, p) && Contains(q, a)
    ensures Contains(p, a)
  {
    ShiftEqual(a.value, q.addr.value, HostBits(q), HostBits(p));
  }

  lemma WithinTransitive(r: Prefix, q: Prefix, p: Prefix)
    requires Within(r, q) && Within(q, p)
    ensures Within(r, p)
  {
    WithinIsSubset(q, p, r.addr);
  }

  /** Two CIDR blocks that share an address are nested. */
  lemma NestedOrDisjoint(p: Prefix, q: Prefix, a: Addr)
    requires Contains(p, a) && Contains(q, a)
    ensures Within(p, q) || Within(q, p)
  {
    if p.bits <= q.bits {
      ShiftEqual(a.value, q.addr.value, HostBits(q), HostBits(p));
    } else {
      ShiftEqual(a.value, p.addr.value, HostBits(p), HostBits(q));
    }
  }

  lemma WithinBothWays(p: Prefix, q: Prefix)
    requires IsMasked(p) && IsMasked(q) && Within(p, q) && Within(q, p)
    ensures p == q
  {
  }

  /** A block inside a masked block starts no earlier. */
  lemma WithinStartsLater(q: Prefix, p: Prefix)
    requires Within(q, p) && IsMasked(p)
    ensures p.addr.fam == q.addr.fam && p.addr.value <= q.addr.value
  {
    MaskBelow(q.addr.value, HostBits(p));
  }

  // ---- Parents and siblings ----

  /** The block one bit wider; the expression of the merge test. */
  function Parent(p: Prefix): Prefix {
    Masked(PrefixFrom(p.addr, p.bits - 1))
  }

  /** The merge test of the aggregation loop, literally. */
  predicate MergeTest(top: Prefix, p: Prefix) {
    top.bits == p.bits && (top.addr.fam == V4) == (p.addr.fam == V4) && Parent(top) == Parent(p)
  }

  lemma ParentMeaning(p: Prefix)
    requires IsMasked(p) && p.bits > 0
    ensures IsMasked(Parent(p)) && Parent(p).bits == p.bits - 1 && Parent(p).addr.fam == p.addr.fam
    ensures Within(p, Parent(p)) && !Within(Parent(p), p)
    ensures Parent(p).addr.value <= p.addr.value
  {
    MaskedMeaning(PrefixFrom(p.addr, p.bits - 1));
    assert Contains(PrefixFrom(p.addr, p.bits - 1), p.addr);
  }

  /** Whatever strictly contains a block contains its parent. */
  lemma StrictlyWiderContainsParent(p: Prefix, q: Prefix)
    requires IsMasked(p) && Within(p, q) && q.bits < p.bits
    ensures p.bits > 0 && Within(Parent(p), q)
  {
    ParentMeaning(p);
    MaskKeepsCoarser(p.addr.value, HostBits(Parent(p)), HostBits(q));
  }

  lemma ParentContains(p: Prefix, a: Addr)
    requires IsMasked(p) && p.bits > 0
    ensures Contains(Parent(p), a) <==>
            a.fam == p.addr.fam && Shift(a.value, HostBits(p)) / 2 == Shift(p.addr.value, HostBits(p)) / 2
  {
    ParentMeaning(p);
    var k := HostBits(p);
    ShiftNext(a.value, k);
    ShiftNext(p.addr.value, k);
    MaskKeepsCoarser(p.addr.value, k + 1, k + 1);
  }

  /** Distinct siblings: disjoint, and the parent is exactly their union. */
  lemma SiblingMeaning(p: Prefix, q: Prefix)
    requires IsMasked(p) && IsMasked(q) && p != q && p.bits == q.bits > 0
    requires p.addr.fam == q.addr.fam && Parent(p) == Parent(q)
    ensures forall a :: Contains(Parent(p), a) <==> Contains(p, a) || Contains(q, a)
    ensures Disjoint(p, q)
  {
    var k := HostBits(p);
    var s, t := Shift(p.addr.value, k), Shift(q.addr.value, k);
    assert s != t;
    forall a ensures Contains(Parent(p), a) <==> Contains(p, a) || Contains(q, a) {
      ParentContains(p, a);
      ParentContains(p, p.addr);
      ParentContains(q, a);
      ParentContains(q, p.addr);
    }
  }

  /** The two halves of a block with at least one host bit. */
  lemma Halves(b: Prefix) returns (lo: Prefix, hi: Prefix)
    requires IsMasked(b) && HostBits(b) > 0
    ensures IsMasked(lo) && IsMasked(hi) && lo != hi
    ensures lo.bits == hi.bits == b.bits + 1 && lo.addr.fam == hi.addr.fam == b.addr.fam
    ensures Within(lo, b) && Within(hi, b)
    ensures Parent(lo) == b == Parent(hi)
    ensures lo.addr == b.addr && b.addr.value < hi.addr.value
  {
    var k := HostBits(b) - 1;
    var n := Shift(b.addr.value, k + 1);
    AlignedFiner(b.addr.value, k, k + 1);
    lo := Prefix(b.addr, b.bits + 1);
    var h := Raise(2 * n + 1, k);
    hi := Prefix(Addr(b.addr.fam, h), b.bits + 1);
    RaiseNext(n, k);
    assert b.addr.value == Raise(2 * n, k);
    ShiftZero(k);
    ShiftRaise(0, 2 * n + 1, k);
    assert Shift(h, k) == 2 * n + 1;
    ShiftRaise(0, 2 * n, k);
    assert Shift(b.addr.value, k) == 2 * n;
    ShiftNext(h, k);
    RaiseMonotone(2 * n, 2 * n + 1, k);
  }

  // ---- The value range of a family ----

  lemma WellFormedMeaning(a: Addr)
    requires a.fam != Zero
    ensures WellFormedAddr(a) <==> Shift(a.value, Width(a.fam)) == 0
  {
    ShiftSmall(a.value, Width(a.fam));
    Raise32(1);
    Raise128(1);
  }

  /** A well-formed prefix contains only well-formed addresses. */
  lemma ContainsWellFormed(p: Prefix, a: Addr)
    requires Contains(p, a) && WellFormedAddr(p.addr)
    ensures WellFormedAddr(a)
  {
    ShiftEqual(a.value, p.addr.value, HostBits(p), Width(a.fam));
    WellFormedMeaning(a);
    WellFormedMeaning(p.addr);
  }

  /** A family has only one /0 block. */
  lemma ZeroBitsBlock(p: Prefix)
    requires IsMasked(p) && WellFormedAddr(p.addr) && p.bits == 0
    ensures p.addr.value == 0
  {
    WellFormedMeaning(p.addr);
    ShiftZero(Width(p.addr.fam));
  }

  /** A block is convex. */
  lemma BlockIsConvex(p: Prefix, a: Addr, b: Addr, c: Addr)
    requires Contains(p, a) && Contains(p, c) && b.fam == a.fam && a.value <= b.value <= c.value
    ensures Contains(p, b)
  {
    ShiftMonotone(a.value, b.value, HostBits(p));
    ShiftMonotone(b.value, c.value, HostBits(p));
  }
}
