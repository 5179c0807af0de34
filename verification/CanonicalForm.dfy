/** Canonical lists: one per set of addresses, and the shortest. */
module CanonicalForm {
  import opened Bits
  import opened IpPrefix
  import opened Aggregate

  // ---- The canonical form is unique ----

  /** A fully covered block lies inside one element: otherwise its two halves would be a mergeable pair. */
  lemma {:induction false} CoveredBlockIsInsideOne(s: seq<Prefix>, b: Prefix) returns (i: nat)
    requires Canonical(s) && IsMasked(b)
    requires forall a :: Contains(b, a) ==> Covers(s, a)
    ensures i < |s| && Within(b, s[i])
    decreases HostBits(b)
  {
    assert Contains(b, b.addr);
    if HostBits(b) == 0 {
      i :| 0 <= i < |s| && Contains(s[i], b.addr);
    } else {
      var lo, hi := Halves(b);
      var l := HalfIsInsideOne(s, b, lo);
      var h := HalfIsInsideOne(s, b, hi);
      HalvesInsideOne(s, b, lo, hi, l, h);
      i := if Within(b, s[l]) then l else h;
    }
  }

  lemma HalvesInsideOne(s: seq<Prefix>, b: Prefix, lo: Prefix, hi: Prefix, l: nat, h: nat)
    requires Canonical(s) && l < |s| && h < |s| && IsMasked(b) && IsMasked(lo) && IsMasked(hi) && lo != hi
    requires lo.bits == hi.bits == b.bits + 1 && lo.addr.fam == hi.addr.fam
    requires Parent(lo) == b == Parent(hi)
    requires Within(lo, s[l]) && Within(hi, s[h])
    ensures Within(b, s[l]) || Within(b, s[h])
  {
    if s[l].bits < lo.bits {
      StrictlyWiderContainsParent(lo, s[l]);
    } else if s[h].bits < hi.bits {
      StrictlyWiderContainsParent(hi, s[h]);
    } else {
      assert s[l] == lo && s[h] == hi;
      NoSiblingElements(s, l, h);
    }
  }

  lemma NoSiblingElements(s: seq<Prefix>, l: nat, h: nat)
    requires Canonical(s) && l < |s| && h < |s| && l != h
    requires s[l].bits == s[h].bits && s[l].addr.fam == s[h].addr.fam
    ensures Parent(s[l]) != Parent(s[h])
  {
    if l < h {
      assert !MergeTest(s[l], s[h]);
    } else {
      assert !MergeTest(s[h], s[l]);
    }
  }

  lemma HalfIsInsideOne(s: seq<Prefix>, b: Prefix, half: Prefix) returns (i: nat)
    requires Canonical(s) && IsMasked(b) && IsMasked(half)
    requires Within(half, b) && half.bits == b.bits + 1
    requires forall a :: Contains(b, a) ==> Covers(s, a)
    ensures i < |s| && Within(half, s[i])
    decreases HostBits(b), 0
  {
    forall a | Contains(half, a) ensures Covers(s, a) {
      WithinIsSubset(half, b, a);
    }
    i := CoveredBlockIsInsideOne(s, half);
  }

  /** Every element of one canonical list occurs in any other that covers the same addresses. */
  lemma CanonicalElementShared(s: seq<Prefix>, t: seq<Prefix>, i: nat) returns (j: nat)
    requires Canonical(s) && Canonical(t) && i < |s|
    requires forall a :: Covers(s, a) <==> Covers(t, a)
    ensures j < |t| && t[j] == s[i]
  {
    j := CoveredBlockIsInsideOne(t, s[i]);
    forall a | Contains(t[j], a) ensures Covers(s, a) {
      assert Covers(t, a);
    }
    var k := CoveredBlockIsInsideOne(s, t[j]);
    WithinTransitive(s[i], t[j], s[k]);
    assert k == i;
    WithinBothWays(s[i], t[j]);
  }

  /** Canonical lists that cover the same (real) addresses are the same list. */
  lemma CanonicalUnique(s: seq<Prefix>, t: seq<Prefix>)
    requires Canonical(s) && Canonical(t)
    requires forall a :: WellFormedAddr(a) ==> (Covers(s, a) <==> Covers(t, a))
    ensures s == t
  {
    forall a ensures Covers(s, a) <==> Covers(t, a) {
      if Covers(s, a) {
        var i :| 0 <= i < |s| && Contains(s[i], a);
        ContainsWellFormed(s[i], a);
      }
      if Covers(t, a) {
        var i :| 0 <= i < |t| && Contains(t[i], a);
        ContainsWellFormed(t[i], a);
      }
    }
    forall i | 0 <= i < |s| ensures s[i] in t {
      var j := CanonicalElementShared(s, t, i);
    }
    forall i | 0 <= i < |t| ensures t[i] in s {
      var j := CanonicalElementShared(t, s, i);
    }
    AscendingSameElements(s, t);
  }

  ghost predicate Included(s: seq<Prefix>, t: seq<Prefix>) {
    forall i :: 0 <= i < |s| ==> s[i] in t
  }

  lemma NonEmptyInto(s: seq<Prefix>, t: seq<Prefix>)
    requires |s| > 0 && Included(s, t)
    ensures |t| > 0
  {
    assert s[0] in t;
  }

  lemma HeadsEqual(s: seq<Prefix>, t: seq<Prefix>)
    requires |s| > 0 && |t| > 0 && Ascending(s) && Ascending(t) && Included(s, t) && Included(t, s)
    ensures s[0] == t[0]
  {
    var j :| 0 <= j < |t| && t[j] == s[0];
    var i :| 0 <= i < |s| && s[i] == t[0];
  }

  lemma TailsIncluded(s: seq<Prefix>, t: seq<Prefix>)
    requires |s| > 0 && |t| > 0 && Ascending(s) && Included(s, t) && s[0] == t[0]
    ensures Included(s[1..], t[1..])
  {
    forall i | 0 <= i < |s| - 1 ensures s[1..][i] in t[1..] {
      var j :| 0 <= j < |t| && t[j] == s[i + 1];
      assert AddrLess(s[0].addr, s[i + 1].addr);
      assert t[1..][j - 1] == t[j];
    }
  }

  lemma {:induction false} AscendingSameElements(s: seq<Prefix>, t: seq<Prefix>)
    requires Ascending(s) && Ascending(t) && Included(s, t) && Included(t, s)
    ensures s == t
  {
    if |s| > 0 { NonEmptyInto(s, t); }
    if |t| > 0 { NonEmptyInto(t, s); }
    if |s| > 0 {
      HeadsEqual(s, t);
      TailsIncluded(s, t);
      TailsIncluded(t, s);
      AscendingSameElements(s[1..], t[1..]);
      assert s == [s[0]] + s[1..] && t == [t[0]] + t[1..];
    }
  }

  /** Two inputs over the same addresses aggregate to the identical list, and aggregating twice
      changes nothing. */
  method AggregateIsCanonicalForm(p: seq<Prefix>, q: seq<Prefix>) returns (r: seq<Prefix>, s: seq<Prefix>,
                                  again: seq<Prefix>)
    requires WellFormed(p) && WellFormed(q)
    requires forall a :: WellFormedAddr(a) ==> (Covers(p, a) <==> Covers(q, a))
    ensures r == s == again
  {
    r := AggregateParsedPrefixes(p);
    s := AggregateParsedPrefixes(q);
    again := AggregateParsedPrefixes(r);
    CanonicalUnique(r, s);
    CanonicalUnique(r, again);
  }

  /** No list of blocks over the same addresses is shorter than the canonical one. */
  lemma CanonicalIsShortest(s: seq<Prefix>, t: seq<Prefix>)
    requires Canonical(s) && WellFormed(t)
    requires forall a :: Covers(s, a) <==> Covers(t, a)
    ensures |s| <= |t|
  {
    var users: set<nat> := {};
    var n := 0;
    while n < |s|
      invariant 0 <= n <= |s| && |users| == n
      invariant forall j :: j in users ==> j < |t| && IsValid(t[j])
      invariant forall j, i :: j in users && n <= i < |s| ==> !Within(Masked(t[j]), s[i])
    {
      var j := CoveringIndex(s, t, n);
      forall i | 0 <= i < |s| && i != n ensures !Within(Masked(t[j]), s[i]) {
        if Within(Masked(t[j]), s[i]) {
          NestedOrDisjoint(s[i], s[n], Masked(t[j]).addr);
        }
      }
      users := users + {j};
      n := n + 1;
    }
    SubsetOfIndices(users, |t|);
  }

  /** Some block of t lies inside the n-th canonical element. */
  lemma CoveringIndex(s: seq<Prefix>, t: seq<Prefix>, n: nat) returns (j: nat)
    requires Canonical(s) && n < |s|
    requires forall a :: Covers(s, a) <==> Covers(t, a)
    ensures j < |t| && IsValid(t[j]) && Within(Masked(t[j]), s[n])
  {
    var a := s[n].addr;
    assert Covers(s, a) by { assert Contains(s[n], a); }
    j :| 0 <= j < |t| && Contains(t[j], a);
    MaskedMeaning(t[j]);
    forall b | Contains(Masked(t[j]), b) ensures Covers(s, b) {
      assert Contains(t[j], b);
      assert Covers(t, b);
    }
    var i := CoveredBlockIsInsideOne(s, Masked(t[j]));
    WithinIsSubset(Masked(t[j]), s[i], a);
    NestedOrDisjoint(s[i], s[n], a);
  }

  lemma {:induction false} SubsetOfIndices(u: set<nat>, n: nat)
    requires forall j :: j in u ==> j < n
    ensures |u| <= n
  {
    if n == 0 {
      assert u == {};
    } else {
      SubsetOfIndices(u - {n - 1}, n - 1);
      assert |u| <= |u - {n - 1}| + 1;
    }
  }
}
