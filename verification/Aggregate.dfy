/** List aggregation: de-duplicate, sort, then merge siblings and drop covered blocks on a
    stack. The result is the one canonical form of the covered address set. */
module Aggregate {
  import opened Bits
  import opened IpPrefix

  ghost predicate WellFormed(ps: seq<Prefix>) {
    forall i :: 0 <= i < |ps| ==> WellFormedAddr(ps[i].addr)
  }

  ghost predicate Ascending(ps: seq<Prefix>) {
    forall i, j :: 0 <= i < j < |ps| ==> AddrLess(ps[i].addr, ps[j].addr)
  }

  /** Masked, strictly ascending, pairwise disjoint, and no two elements are mergeable. */
  ghost predicate Canonical(ps: seq<Prefix>) {
    && (forall i :: 0 <= i < |ps| ==> IsMasked(ps[i]) && WellFormedAddr(ps[i].addr))
    && Ascending(ps)
    && (forall i, j :: 0 <= i < j < |ps| ==> Disjoint(ps[i], ps[j]))
    && (forall i, j :: 0 <= i < j < |ps| ==> !MergeTest(ps[i], ps[j]))
  }

  // ---- One step of the stack loop ----

  ghost predicate AllBefore(merged: seq<Prefix>, p: Prefix) {
    forall i :: 0 <= i < |merged| ==> PrefixLess(merged[i], p)
  }

  /** The merge test never fires on two /0 blocks, nor across families: its bits - 1 is a real parent. */
  lemma MergeTestIsSibling(top: Prefix, p: Prefix)
    requires IsMasked(top) && IsMasked(p) && WellFormedAddr(top.addr) && WellFormedAddr(p.addr)
    requires PrefixLess(top, p) && MergeTest(top, p)
    ensures top != p && top.bits == p.bits > 0 && top.addr.fam == p.addr.fam
    ensures top.addr.value < p.addr.value
  {
    if p.bits == 0 {
      ZeroBitsBlock(top);
      ZeroBitsBlock(p);
    }
  }

  /** Replacing a sibling pair by its parent keeps the cover and the order. */
  lemma MergeStep(merged: seq<Prefix>, p: Prefix)
    requires Canonical(merged) && |merged| > 0
    requires IsMasked(p) && WellFormedAddr(p.addr) && AllBefore(merged, p)
    requires MergeTest(merged[|merged| - 1], p)
    ensures var top, rest := merged[|merged| - 1], merged[..|merged| - 1];
            && IsMasked(Parent(top)) && WellFormedAddr(Parent(top).addr)
            && AllBefore(rest, Parent(top)) && PrefixLess(Parent(top), top)
            && forall a :: Covers(rest, a) || Contains(Parent(top), a) <==> Covers(merged, a) || Contains(p, a)
  {
    var top, rest := merged[|merged| - 1], merged[..|merged| - 1];
    MergeTestIsSibling(top, p);
    ParentMeaning(top);
    SiblingMeaning(top, p);
    var parent := Parent(top);
    forall i | 0 <= i < |rest| ensures PrefixLess(rest[i], parent) {
      RestBeforeParent(rest[i], top, p);
    }
    forall a ensures Covers(rest, a) || Contains(parent, a) <==> Covers(merged, a) || Contains(p, a) {
      CoversSplit(merged, a);
    }
  }

  /** A stack element below the top starts before the merged parent. */
  lemma RestBeforeParent(m: Prefix, top: Prefix, p: Prefix)
    requires IsMasked(m) && IsMasked(top) && IsMasked(p) && WellFormedAddr(top.addr) && WellFormedAddr(p.addr)
    requires AddrLess(m.addr, top.addr) && Disjoint(m, top)
    requires PrefixLess(top, p) && MergeTest(top, p)
    ensures AddrLess(m.addr, Parent(top).addr)
  {
    MergeTestIsSibling(top, p);
    ParentMeaning(top);
    SiblingMeaning(top, p);
    var parent := Parent(top);
    if !AddrLess(m.addr, parent.addr) {
      BlockIsConvex(parent, parent.addr, m.addr, top.addr);
      if Contains(top, m.addr) {
        NestedOrDisjoint(m, top, m.addr);
      } else {
        MaskBelow(m.addr.value, HostBits(p));
      }
      assert false;
    }
  }

  lemma CoversSplit(ps: seq<Prefix>, a: Addr)
    requires |ps| > 0
    ensures Covers(ps, a) <==> Covers(ps[..|ps| - 1], a) || Contains(ps[|ps| - 1], a)
  {
    var rest := ps[..|ps| - 1];
    if i :| 0 <= i < |ps| && Contains(ps[i], a) {
      assert i < |rest| ==> Contains(rest[i], a);
    }
    if i :| 0 <= i < |rest| && Contains(rest[i], a) {
      assert Contains(ps[i], a);
    }
  }

  lemma CoversAppend(ps: seq<Prefix>, p: Prefix, a: Addr)
    ensures Covers(ps + [p], a) <==> Covers(ps, a) || Contains(p, a)
  {
    CoversSplit(ps + [p], a);
    assert (ps + [p])[..|ps|] == ps;
  }

  /** A block that is neither merged nor covered by the top is apart from the whole stack. */
  lemma PushStep(merged: seq<Prefix>, p: Prefix)
    requires Canonical(merged) && IsMasked(p) && WellFormedAddr(p.addr) && AllBefore(merged, p)
    requires |merged| > 0 ==>
               var top := merged[|merged| - 1];
               !MergeTest(top, p) && !(top.bits <= p.bits && Contains(top, p.addr))
    ensures Canonical(merged + [p])
  {
    if |merged| == 0 {
    } else {
      var top := merged[|merged| - 1];
      TopApart(top, p);
      forall i | 0 <= i < |merged|
        ensures AddrLess(merged[i].addr, p.addr) && Disjoint(merged[i], p) && !MergeTest(merged[i], p)
      {
        if i < |merged| - 1 {
          LowerApart(merged[i], top, p);
        }
      }
    }
  }

  lemma TopApart(top: Prefix, p: Prefix)
    requires IsMasked(top) && IsMasked(p) && PrefixLess(top, p)
    requires !(top.bits <= p.bits && Contains(top, p.addr))
    ensures Disjoint(top, p) && AddrLess(top.addr, p.addr)
  {
    if Within(top, p) {
      WithinStartsLater(top, p);
    }
  }

  lemma LowerApart(m: Prefix, top: Prefix, p: Prefix)
    requires IsMasked(m) && IsMasked(top) && IsMasked(p)
    requires WellFormedAddr(m.addr) && WellFormedAddr(p.addr)
    requires AddrLess(m.addr, top.addr) && Disjoint(m, top)
    requires AddrLess(top.addr, p.addr) && Disjoint(top, p)
    ensures AddrLess(m.addr, p.addr) && Disjoint(m, p) && !MergeTest(m, p)
  {
    if Within(m, p) {
      WithinStartsLater(m, p);
    }
    if Within(p, m) {
      BlockIsConvex(m, m.addr, top.addr, p.addr);
      NestedOrDisjoint(m, top, top.addr);
    }
    if MergeTest(m, p) {
      MergeTestIsSibling(m, p);
      ParentMeaning(m);
      ParentMeaning(p);
      BlockIsConvex(Parent(m), m.addr, top.addr, p.addr);
      SiblingMeaning(m, p);
      if Contains(m, top.addr) {
        NestedOrDisjoint(m, top, top.addr);
      } else {
        NestedOrDisjoint(p, top, top.addr);
      }
    }
  }

  // ---- The sort call ----

  ghost predicate Sorted(ps: seq<Prefix>) {
    forall i, j :: 0 <= i < j < |ps| ==> PrefixLess(ps[i], ps[j])
  }

  /** sort.Slice over the keys of the map: distinct keys, hence one possible result. */
  method SortPrefixes(unique: set<Prefix>) returns (ps: seq<Prefix>)
    ensures Sorted(ps)
    ensures forall p :: p in ps <==> p in unique
  {
    ps := [];
    var left := unique;
    while left != {}
      invariant left <= unique && Sorted(ps)
      invariant forall p :: p in ps <==> p in unique - left
      decreases left
    {
      var p :| p in left;
      ps := InsertSorted(ps, p);
      left := left - {p};
    }
  }

  method InsertSorted(ps: seq<Prefix>, p: Prefix) returns (r: seq<Prefix>)
    requires Sorted(ps) && p !in ps
    ensures Sorted(r)
    ensures forall q :: q in r <==> q in ps || q == p
  {
    var k := |ps|;
    while k > 0 && PrefixLess(p, ps[k - 1])
      invariant 0 <= k <= |ps|
      invariant forall i :: k <= i < |ps| ==> PrefixLess(p, ps[i])
    {
      k := k - 1;
    }
    assert k > 0 ==> PrefixLess(ps[k - 1], p) by {
      assert k > 0 ==> ps[k - 1] in ps;
    }
    r := ps[..k] + [p] + ps[k..];
    assert forall i :: 0 <= i < k ==> PrefixLess(ps[i], p);
    InsertedSorted(ps, k, p);
  }

  lemma InsertedSorted(ps: seq<Prefix>, k: nat, p: Prefix)
    requires Sorted(ps) && k <= |ps|
    requires forall i :: 0 <= i < k ==> PrefixLess(ps[i], p)
    requires forall i :: k <= i < |ps| ==> PrefixLess(p, ps[i])
    ensures var r := ps[..k] + [p] + ps[k..];
            Sorted(r) && forall q :: q in r <==> q in ps || q == p
  {
    InsertedOrder(ps, k, p);
    assert ps == ps[..k] + ps[k..];
  }

  lemma InsertedOrder(ps: seq<Prefix>, k: nat, p: Prefix)
    requires Sorted(ps) && k <= |ps|
    requires forall i :: 0 <= i < k ==> PrefixLess(ps[i], p)
    requires forall i :: k <= i < |ps| ==> PrefixLess(p, ps[i])
    ensures Sorted(ps[..k] + [p] + ps[k..])
  {
    hide PrefixLess;
    var r := ps[..k] + [p] + ps[k..];
    forall i, j | 0 <= i < j < |r| ensures PrefixLess(r[i], r[j]) {
      assert i < k ==> r[i] == ps[i];
      assert i > k ==> r[i] == ps[i - 1];
      assert j < k ==> r[j] == ps[j];
      assert j > k ==> r[j] == ps[j - 1];
    }
  }

  // ---- Aggregation ----

  ghost predicate SetCovers(s: set<Prefix>, a: Addr) {
    exists p :: p in s && Contains(p, a)
  }

  /** The body of the outer loop: one more prefix, in sorted order, meets the stack. */
  method MergeOne(stack: seq<Prefix>, next: Prefix) returns (merged: seq<Prefix>)
    requires Canonical(stack) && IsMasked(next) && WellFormedAddr(next.addr) && AllBefore(stack, next)
    ensures Canonical(merged)
    ensures forall a :: Covers(merged, a) <==> Covers(stack, a) || Contains(next, a)
    ensures forall i :: 0 <= i < |merged| ==>
              merged[i] in stack || merged[i] == next || PrefixLess(merged[i], next)
  {
    hide Covers, Contains, Masked;
    merged := stack;
    var p := next;
    var push := true;
    while |merged| > 0
      invariant Canonical(merged) && push && merged <= stack
      invariant IsMasked(p) && WellFormedAddr(p.addr) && AllBefore(merged, p)
      invariant p == next || PrefixLess(p, next)
      invariant forall a :: Covers(stack, a) || Contains(next, a) <==> Covers(merged, a) || Contains(p, a)
      decreases |merged|
    {
      var top := merged[|merged| - 1];
      // Siblings, tested before the cover: the parent replaces both.
      if top.bits == p.bits && (top.addr.fam == V4) == (p.addr.fam == V4) &&
         Masked(PrefixFrom(top.addr, top.bits - 1)) == Masked(PrefixFrom(p.addr, p.bits - 1)) {
        MergeStep(merged, p);
        p := Masked(PrefixFrom(top.addr, top.bits - 1));
        merged := merged[..|merged| - 1];
        continue;
      }
      if top.bits <= p.bits && Contains(top, p.addr) {
        push := false;
        break;
      }
      break;
    }
    if push {
      PushStep(merged, p);
      PushCovers(merged, p);
      merged := merged + [p];
    } else {
      CoveredStep(merged, p);
    }
  }

  lemma PushCovers(merged: seq<Prefix>, p: Prefix)
    ensures forall a :: Covers(merged + [p], a) <==> Covers(merged, a) || Contains(p, a)
  {
    forall a ensures Covers(merged + [p], a) <==> Covers(merged, a) || Contains(p, a) {
      CoversAppend(merged, p, a);
    }
  }

  lemma CoveredStep(merged: seq<Prefix>, p: Prefix)
    requires |merged| > 0 && IsValid(p)
    requires merged[|merged| - 1].bits <= p.bits && Contains(merged[|merged| - 1], p.addr)
    ensures forall a :: Contains(p, a) ==> Covers(merged, a)
  {
    forall a | Contains(p, a) ensures Covers(merged, a) {
      WithinIsSubset(p, merged[|merged| - 1], a);
    }
  }

  method AggregateParsedPrefixes(parsed: seq<Prefix>) returns (merged: seq<Prefix>)
    requires WellFormed(parsed)
    ensures Canonical(merged)
    ensures forall a :: Covers(merged, a) <==> Covers(parsed, a)
  {
    var unique := CollectMasked(parsed);
    var prefixes := SortPrefixes(unique);
    assert forall i :: 0 <= i < |prefixes| ==> prefixes[i] in unique;
    merged := [];
    for i := 0 to |prefixes|
      invariant Canonical(merged)
      invariant forall j :: i <= j < |prefixes| ==> AllBefore(merged, prefixes[j])
      invariant forall a :: Covers(merged, a) <==> Covers(prefixes[..i], a)
    {
      assert prefixes[..i + 1] == prefixes[..i] + [prefixes[i]];
      forall a ensures Covers(prefixes[..i + 1], a) <==> Covers(merged, a) || Contains(prefixes[i], a) {
        CoversAppend(prefixes[..i], prefixes[i], a);
      }
      ghost var before := merged;
      merged := MergeOne(merged, prefixes[i]);
      forall j, k | i < j < |prefixes| && 0 <= k < |merged| ensures PrefixLess(merged[k], prefixes[j]) {
        assert merged[k] in before || merged[k] == prefixes[i] || PrefixLess(merged[k], prefixes[i]);
      }
    }
    assert prefixes[..|prefixes|] == prefixes;
    forall a ensures Covers(prefixes, a) <==> SetCovers(unique, a) {
      if SetCovers(unique, a) {
        var p :| p in unique && Contains(p, a);
        assert p in prefixes;
      }
    }
  }

  /** The map fill: valid entries, masked again. */
  method CollectMasked(parsed: seq<Prefix>) returns (unique: set<Prefix>)
    requires WellFormed(parsed)
    ensures forall p :: p in unique ==> IsMasked(p) && WellFormedAddr(p.addr)
    ensures forall a :: SetCovers(unique, a) <==> Covers(parsed, a)
  {
    unique := {};
    for i := 0 to |parsed|
      invariant forall p :: p in unique ==> IsMasked(p) && WellFormedAddr(p.addr)
      invariant forall a :: SetCovers(unique, a) <==> Covers(parsed[..i], a)
    {
      var p := parsed[i];
      assert parsed[..i + 1] == parsed[..i] + [p];
      forall a ensures Covers(parsed[..i + 1], a) <==> Covers(parsed[..i], a) || Contains(p, a) {
        CoversAppend(parsed[..i], p, a);
      }
      if !IsValid(p) {
        continue;
      }
      MaskedMeaning(p);
      ghost var before := unique;
      unique := unique + {Masked(p)};
      forall a ensures SetCovers(unique, a) <==> SetCovers(before, a) || Contains(p, a) {
        assert Masked(p) in unique;
        if SetCovers(before, a) {
          var q :| q in before && Contains(q, a);
          assert q in unique;
        }
      }
    }
    assert parsed[..|parsed|] == parsed;
  }
}
