/** sort.Search over a prefix list and the "last start not after the address" lookup that every
    matcher uses. */
module Lookup {
  import opened Bits
  import opened IpPrefix
  import opened Aggregate

  /** What the lookup needs of its list; weaker than Canonical. */
  ghost predicate Searchable(ps: seq<Prefix>) {
    && (forall i :: 0 <= i < |ps| ==> IsMasked(ps[i]))
    && Ascending(ps)
    && (forall i, j :: 0 <= i < j < |ps| ==> Disjoint(ps[i], ps[j]))
  }

  /** The probe sequence of sort.Search(n, ps[i].Addr().Compare(a) > 0), on any list. */
  function SearchFrom(ps: seq<Prefix>, a: Addr, lo: nat, hi: nat): (r: nat)
    requires lo <= hi <= |ps|
    ensures lo <= r <= hi
    decreases hi - lo
  {
    if lo == hi then lo
    else
      var mid := (lo + hi) / 2;
      if !AddrLess(a, ps[mid].addr) then SearchFrom(ps, a, mid + 1, hi) else SearchFrom(ps, a, lo, mid)
  }

  /** The answer of a matcher: the element before the search position contains the address. */
  predicate Hit(ps: seq<Prefix>, a: Addr) {
    var i := SearchFrom(ps, a, 0, |ps|);
    i > 0 && Contains(ps[i - 1], a)
  }

  method Search(ps: seq<Prefix>, a: Addr) returns (i: nat)
    ensures i == SearchFrom(ps, a, 0, |ps|)
  {
    i := 0;
    var j := |ps|;
    while i < j
      invariant i <= j <= |ps|
      invariant SearchFrom(ps, a, i, j) == SearchFrom(ps, a, 0, |ps|)
      decreases j - i
    {
      var h := (i + j) / 2;
      if !AddrLess(a, ps[h].addr) {
        i := h + 1;
      } else {
        j := h;
      }
    }
  }

  method Lookup(ps: seq<Prefix>, a: Addr) returns (hit: bool)
    ensures hit == Hit(ps, a)
  {
    var i := Search(ps, a);
    hit := i >= 1 && Contains(ps[i - 1], a);
  }

  /** Once a start lies after the address, all later ones do. */
  ghost predicate Splits(ps: seq<Prefix>, a: Addr) {
    forall i, j :: 0 <= i < j < |ps| && AddrLess(a, ps[i].addr) ==> AddrLess(a, ps[j].addr)
  }

  /** The first n starts are not after the address, all others are. */
  ghost predicate Boundary(ps: seq<Prefix>, a: Addr, n: nat) {
    && (forall k :: 0 <= k < n && k < |ps| ==> !AddrLess(a, ps[k].addr))
    && (forall k :: n <= k < |ps| ==> AddrLess(a, ps[k].addr))
  }

  /** On such a list the probes find the boundary. */
  lemma {:induction false} SearchBoundary(ps: seq<Prefix>, a: Addr, lo: nat, hi: nat)
    requires Splits(ps, a) && lo <= hi <= |ps|
    requires forall k :: 0 <= k < lo ==> !AddrLess(a, ps[k].addr)
    requires forall k :: hi <= k < |ps| ==> AddrLess(a, ps[k].addr)
    ensures Boundary(ps, a, SearchFrom(ps, a, lo, hi))
    decreases hi - lo
  {
    hide AddrLess;
    if lo < hi {
      var mid := (lo + hi) / 2;
      if !AddrLess(a, ps[mid].addr) {
        SearchBoundary(ps, a, mid + 1, hi);
      } else {
        SearchBoundary(ps, a, lo, mid);
      }
    }
  }

  lemma AscendingSplits(ps: seq<Prefix>, a: Addr)
    requires Ascending(ps)
    ensures Splits(ps, a)
  {
    forall i, j | 0 <= i < j < |ps| && AddrLess(a, ps[i].addr) ensures AddrLess(a, ps[j].addr) {
      assert AddrLess(ps[i].addr, ps[j].addr);
    }
  }

  /** One binary search over a sorted disjoint list, even a mixed v4-then-v6 one, is a linear scan. */
  lemma HitIsLinearScan(ps: seq<Prefix>, a: Addr)
    requires Searchable(ps)
    ensures Hit(ps, a) <==> Covers(ps, a)
  {
    AscendingSplits(ps, a);
    SearchBoundary(ps, a, 0, |ps|);
    var r := SearchFrom(ps, a, 0, |ps|);
    if Covers(ps, a) {
      var k :| 0 <= k < |ps| && Contains(ps[k], a);
      MaskBelow(a.value, HostBits(ps[k]));
      assert !AddrLess(a, ps[k].addr);
      assert k < r;
      if k < r - 1 {
        LaterStartIsOutside(ps[k], ps[r - 1], a);
      }
    }
  }

  lemma LaterStartIsOutside(p: Prefix, q: Prefix, a: Addr)
    requires IsMasked(p) && IsMasked(q) && Disjoint(p, q)
    requires AddrLess(p.addr, q.addr) && !AddrLess(a, q.addr)
    ensures !Contains(p, a)
  {
    if Contains(p, a) {
      BlockIsConvex(p, p.addr, q.addr, a);
      NestedOrDisjoint(p, q, q.addr);
    }
  }

  lemma CanonicalIsSearchable(ps: seq<Prefix>)
    requires Canonical(ps)
    ensures Searchable(ps)
  {
  }
}
