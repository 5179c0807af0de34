/** The layer-4 matcher's own normalisation: unmap without moving the bit count, sort v4 first,
    drop what the last kept block contains, then one binary search over the mixed list. */
module L4IpFile {
  import opened Bits
  import opened IpPrefix
  import opened Aggregate
  import opened Entry
  import opened Lookup

  /** caddyhttp.CIDRExpressionToPrefix on a parsed line; a failed parse skips the line. */
  function ExpressionToPrefix(e: Entry): Result<Prefix> {
    match e
    case AsPrefix(p) => Ok(p)
    case AsAddr(a, _) => Ok(PrefixFrom(a, Width(a.fam)))
    case Bad => Err
  }

  /** The bit count of a mapped prefix is kept, so it may be out of range for v4. */
  function Normalised(p: Prefix): Prefix {
    Masked(PrefixFrom(Unmap(p.addr), p.bits))
  }

  function NormalisedLines(lines: seq<Entry>): (ps: seq<Prefix>) {
    if lines == [] then []
    else
      var last := ExpressionToPrefix(lines[|lines| - 1]);
      NormalisedLines(lines[..|lines| - 1]) + (if last.Ok? then [Normalised(last.value)] else [])
  }

  predicate Is4(p: Prefix) {
    p.addr.fam == V4
  }

  /** The comparison of the sort call. */
  predicate FileLess(p: Prefix, q: Prefix) {
    if Is4(p) != Is4(q) then Is4(p)
    else if p.addr != q.addr then AddrLess(p.addr, q.addr)
    else p.bits < q.bits
  }

  function InsertByFile(ps: seq<Prefix>, p: Prefix): seq<Prefix> {
    if ps == [] then [p]
    else if FileLess(p, ps[|ps| - 1]) then InsertByFile(ps[..|ps| - 1], p) + [ps[|ps| - 1]]
    else ps + [p]
  }

  /** sort.Slice with FileLess; elements it cannot tell apart are equal. */
  function SortByFile(ps: seq<Prefix>): seq<Prefix> {
    if ps == [] then [] else InsertByFile(SortByFile(ps[..|ps| - 1]), ps[|ps| - 1])
  }

  /** The prune test against the last kept block. */
  predicate Pruned(kept: seq<Prefix>, p: Prefix) {
    |kept| > 0 &&
    var last := kept[|kept| - 1];
    Is4(last) == Is4(p) && last.bits <= p.bits && Contains(last, p.addr)
  }

  function Prune(ps: seq<Prefix>): seq<Prefix> {
    if ps == [] then []
    else
      var kept, p := Prune(ps[..|ps| - 1]), ps[|ps| - 1];
      if Pruned(kept, p) then kept else kept + [p]
  }

  function ReadSpec(lines: seq<Entry>): seq<Prefix> {
    Prune(SortByFile(NormalisedLines(lines)))
  }

  // ---- readSet ----

  method SortCall(ps: seq<Prefix>) returns (r: seq<Prefix>)
    ensures r == SortByFile(ps)
  {
    r := [];
    for i := 0 to |ps|
      invariant r == SortByFile(ps[..i])
    {
      assert ps[..i + 1][..i] == ps[..i];
      r := InsertByFile(r, ps[i]);
    }
    assert ps[..|ps|] == ps;
  }

  /** The loop over the parsed lines. */
  method NormaliseCall(lines: seq<Entry>) returns (prefixes: seq<Prefix>)
    ensures prefixes == NormalisedLines(lines)
  {
    hide Masked, Unmap, PrefixFrom;
    prefixes := [];
    for i := 0 to |lines|
      invariant prefixes == NormalisedLines(lines[..i])
    {
      assert lines[..i + 1][..i] == lines[..i];
      var cidr := ExpressionToPrefix(lines[i]);
      if cidr.Ok? {
        prefixes := prefixes + [Masked(PrefixFrom(Unmap(cidr.value.addr), cidr.value.bits))];
      }
    }
    assert lines[..|lines|] == lines;
  }

  /** The loop that drops what the last kept block contains. */
  method PruneCall(prefixes: seq<Prefix>) returns (kept: seq<Prefix>)
    ensures kept == Prune(prefixes)
  {
    hide Contains;
    kept := [];
    for i := 0 to |prefixes|
      invariant kept == Prune(prefixes[..i])
    {
      assert prefixes[..i + 1][..i] == prefixes[..i];
      var p := prefixes[i];
      if |kept| > 0 {
        var last := kept[|kept| - 1];
        if Is4(last) == Is4(p) && last.bits <= p.bits && Contains(last, p.addr) {
          continue;
        }
      }
      kept := kept + [p];
    }
    assert prefixes[..|prefixes|] == prefixes;
  }

  /** The set that readSet stores. */
  method ReadSet(lines: seq<Entry>) returns (kept: seq<Prefix>)
    ensures kept == ReadSpec(lines)
  {
    var prefixes := NormaliseCall(lines);
    prefixes := SortCall(prefixes);
    kept := PruneCall(prefixes);
  }

  /** Match for a parsed remote address. */
  method Match(kept: seq<Prefix>, remote: Addr) returns (hit: bool)
    ensures hit == Hit(kept, Unmap(remote))
  {
    var lo := Search(kept, Unmap(remote));
    if lo == 0 {
      return false;
    }
    hit := Contains(kept[lo - 1], Unmap(remote));
  }

  // ---- What a line means here ----

  predicate IsMappedLine(e: Entry) {
    (e.AsPrefix? && Is4In6(e.prefix.addr)) || (e.AsAddr? && Is4In6(e.addr))
  }

  ghost predicate NoMappedLine(lines: seq<Entry>) {
    forall i :: 0 <= i < |lines| ==> !IsMappedLine(lines[i])
  }

  /** Zones are dropped here, so a zoned line still names its address. */
  ghost predicate SomeLineNames(lines: seq<Entry>, a: Addr) {
    exists i :: 0 <= i < |lines| && LineContains(lines[i], a)
  }

  lemma PlainLineMeaning(e: Entry)
    requires !IsMappedLine(e) && ExpressionToPrefix(e).Ok?
    ensures var p := Normalised(ExpressionToPrefix(e).value);
            && IsMasked(p) && WellFormedAddr(p.addr)
            && forall a :: WellFormedAddr(a) && !Is4In6(a) ==> (Contains(p, a) <==> LineContains(e, a))
  {
    var q := ExpressionToPrefix(e).value;
    MaskedMeaning(q);
  }

  // ---- Sorting and pruning ----

  ghost predicate FileSorted(ps: seq<Prefix>) {
    forall i, j :: 0 <= i < j < |ps| ==> !FileLess(ps[j], ps[i])
  }

  ghost predicate AllMasked(ps: seq<Prefix>) {
    forall i :: 0 <= i < |ps| ==> IsMasked(ps[i])
  }

  /** No element comes after the given one. */
  ghost predicate NoneAfter(ps: seq<Prefix>, p: Prefix) {
    forall i :: 0 <= i < |ps| ==> !FileLess(p, ps[i])
  }

  lemma SortedGrows(ps: seq<Prefix>, p: Prefix)
    requires FileSorted(ps) && NoneAfter(ps, p)
    ensures FileSorted(ps + [p])
  {
    hide FileLess;
  }

  lemma {:induction false} InsertKeeps(ps: seq<Prefix>, p: Prefix)
    requires FileSorted(ps)
    ensures FileSorted(InsertByFile(ps, p))
    ensures multiset(InsertByFile(ps, p)) == multiset(ps) + multiset{p}
  {
    if ps == [] {
    } else {
      var n := |ps| - 1;
      assert ps == ps[..n] + [ps[n]];
      if FileLess(p, ps[n]) {
        InsertKeeps(ps[..n], p);
        var r := InsertByFile(ps[..n], p);
        forall i | 0 <= i < |r| ensures !FileLess(ps[n], r[i]) {
          assert r[i] in multiset(r);
          assert r[i] == p || r[i] in ps[..n];
        }
        SortedGrows(r, ps[n]);
      } else {
        forall i | 0 <= i < |ps| ensures !FileLess(p, ps[i]) {
          assert i < n ==> !FileLess(ps[n], ps[i]);
        }
        SortedGrows(ps, p);
      }
    }
  }

  lemma {:induction false} SortKeeps(ps: seq<Prefix>)
    ensures FileSorted(SortByFile(ps))
    ensures multiset(SortByFile(ps)) == multiset(ps)
  {
    if ps == [] {
    } else {
      var n := |ps| - 1;
      SortKeeps(ps[..n]);
      InsertKeeps(SortByFile(ps[..n]), ps[n]);
      assert ps == ps[..n] + [ps[n]];
    }
  }

  /** Pruning a sorted masked list leaves a searchable list over the same addresses. */
  lemma {:induction false} PruneMeaning(ps: seq<Prefix>)
    requires FileSorted(ps) && AllMasked(ps)
    ensures Searchable(Prune(ps))
    ensures forall q :: q in Prune(ps) ==> q in ps
    ensures forall a :: Covers(Prune(ps), a) <==> Covers(ps, a)
  {
    if ps == [] {
    } else {
      var n := |ps| - 1;
      var kept, p := Prune(ps[..n]), ps[n];
      PruneMeaning(ps[..n]);
      assert ps == ps[..n] + [p];
      forall a ensures Covers(ps, a) <==> Covers(kept, a) || Contains(p, a) {
        CoversAppend(ps[..n], p, a);
      }
      forall i | 0 <= i < |kept| ensures !FileLess(p, kept[i]) {
        assert kept[i] in ps[..n];
      }
      if Pruned(kept, p) {
        forall a | Contains(p, a) ensures Covers(kept, a) {
          WithinIsSubset(p, kept[|kept| - 1], a);
        }
      } else {
        KeepStep(kept, p);
        forall a ensures Covers(kept + [p], a) <==> Covers(kept, a) || Contains(p, a) {
          CoversAppend(kept, p, a);
        }
      }
    }
  }

  lemma KeepStep(kept: seq<Prefix>, p: Prefix)
    requires Searchable(kept) && IsMasked(p) && !Pruned(kept, p)
    requires forall i :: 0 <= i < |kept| ==> !FileLess(p, kept[i])
    ensures Searchable(kept + [p])
  {
    if |kept| > 0 {
      var last := kept[|kept| - 1];
      LastApart(last, p);
      forall i | 0 <= i < |kept| - 1 ensures AddrLess(kept[i].addr, p.addr) && Disjoint(kept[i], p) {
        BelowApart(kept[i], last, p);
      }
    }
  }

  lemma LastApart(last: Prefix, p: Prefix)
    requires IsMasked(last) && IsMasked(p) && !FileLess(p, last)
    requires !(Is4(last) == Is4(p) && last.bits <= p.bits && Contains(last, p.addr))
    ensures AddrLess(last.addr, p.addr) && Disjoint(last, p)
  {
    if Within(last, p) {
      WithinStartsLater(last, p);
    }
  }

  lemma BelowApart(m: Prefix, last: Prefix, p: Prefix)
    requires IsMasked(m) && IsMasked(last) && IsMasked(p)
    requires AddrLess(m.addr, last.addr) && Disjoint(m, last) && AddrLess(last.addr, p.addr)
    ensures AddrLess(m.addr, p.addr) && Disjoint(m, p)
  {
    if Within(m, p) {
      WithinStartsLater(m, p);
    }
    if Within(p, m) {
      LaterStartIsOutside(m, last, p.addr);
    }
  }

  lemma CoversPermutation(ps: seq<Prefix>, qs: seq<Prefix>, a: Addr)
    requires multiset(ps) == multiset(qs) && Covers(ps, a)
    ensures Covers(qs, a)
  {
    var i :| 0 <= i < |ps| && Contains(ps[i], a);
    assert ps[i] in multiset(qs);
    var j :| 0 <= j < |qs| && qs[j] == ps[i];
  }

  lemma {:induction false} NormalisedMeaning(lines: seq<Entry>)
    requires NoMappedLine(lines)
    ensures AllMasked(NormalisedLines(lines))
    ensures forall a :: WellFormedAddr(a) && !Is4In6(a) ==>
              (Covers(NormalisedLines(lines), a) <==> SomeLineNames(lines, a))
  {
    if lines != [] {
      var n := |lines| - 1;
      var init, last := lines[..n], ExpressionToPrefix(lines[n]);
      NormalisedMeaning(init);
      if last.Ok? {
        PlainLineMeaning(lines[n]);
      }
      forall a | WellFormedAddr(a) && !Is4In6(a)
        ensures Covers(NormalisedLines(lines), a) <==> SomeLineNames(lines, a)
      {
        LastLineNames(lines, a);
        if last.Ok? {
          CoversAppend(NormalisedLines(init), Normalised(last.value), a);
        } else {
          assert NormalisedLines(lines) == NormalisedLines(init);
        }
      }
    }
  }

  lemma LastLineNames(lines: seq<Entry>, a: Addr)
    requires |lines| > 0
    ensures var n := |lines| - 1;
            SomeLineNames(lines, a) <==> SomeLineNames(lines[..n], a) || LineContains(lines[n], a)
  {
    var n := |lines| - 1;
    var init := lines[..n];
    if i :| 0 <= i < |lines| && LineContains(lines[i], a) {
      assert i < n ==> init[i] == lines[i];
    }
    if i :| 0 <= i < |init| && LineContains(init[i], a) {
      assert lines[i] == init[i];
    }
  }
}
