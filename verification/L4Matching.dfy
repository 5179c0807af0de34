/** When the layer-4 matcher answers as its lines say, and when a v4-mapped line spoils it. */
module L4Matching {
  import opened Bits
  import opened IpPrefix
  import opened Aggregate
  import opened Entry
  import opened Lookup
  import opened L4IpFile
  import ListFile
  import opened Bytes

  /** The stored set answers as the normalised lines cover. */
  lemma HitIsCover(lines: seq<Entry>, a: Addr)
    requires AllMasked(NormalisedLines(lines))
    ensures Searchable(ReadSpec(lines))
    ensures Hit(ReadSpec(lines), a) <==> Covers(NormalisedLines(lines), a)
  {
    var ps := NormalisedLines(lines);
    var sorted := SortByFile(ps);
    SortKeeps(ps);
    forall i | 0 <= i < |sorted| ensures IsMasked(sorted[i]) {
      assert sorted[i] in multiset(ps);
    }
    PruneMeaning(sorted);
    HitIsLinearScan(Prune(sorted), a);
    if Covers(ps, a) {
      CoversPermutation(ps, sorted, a);
    }
    if Covers(sorted, a) {
      CoversPermutation(sorted, ps, a);
    }
  }

  /** Without mapped lines the matcher is a linear scan of the lines. */
  lemma MatchIsLinearScan(lines: seq<Entry>, a: Addr)
    requires NoMappedLine(lines) && WellFormedAddr(a) && !Is4In6(a)
    ensures Searchable(ReadSpec(lines))
    ensures Hit(ReadSpec(lines), a) <==> SomeLineNames(lines, a)
  {
    NormalisedMeaning(lines);
    HitIsCover(lines, a);
  }

  // ---- Mapped lines ----

  /** A mapped prefix with more than 32 bits; every mapped line that ParseIPEntry accepts is one. */
  predicate IsLongMapped(e: Entry) {
    IsMappedLine(e) && ExpressionToPrefix(e).value.bits > 32
  }

  ghost predicate OnlyLongMapped(lines: seq<Entry>) {
    forall i :: 0 <= i < |lines| && IsMappedLine(lines[i]) ==> IsLongMapped(lines[i])
  }

  /** The bit count is kept and now too large: the line becomes the invalid prefix that matches nothing. */
  lemma LongMappedBecomesZero(e: Entry)
    requires IsLongMapped(e)
    ensures Normalised(ExpressionToPrefix(e).value) == ZERO_PREFIX
    ensures var a := Unmap(ExpressionToPrefix(e).value.addr); a.fam == V4 && WellFormedAddr(a) && LineContains(e, a)
  {
    MapUnmap(ExpressionToPrefix(e).value.addr);
  }

  lemma {:induction false} NormalisedHas(lines: seq<Entry>, i: nat)
    requires i < |lines| && ExpressionToPrefix(lines[i]).Ok?
    ensures Normalised(ExpressionToPrefix(lines[i]).value) in NormalisedLines(lines)
  {
    var n := |lines| - 1;
    if i < n {
      NormalisedHas(lines[..n], i);
    }
  }

  /** The line a stored block came from. */
  lemma {:induction false} SourceLine(lines: seq<Entry>, q: Prefix) returns (i: nat)
    requires q in NormalisedLines(lines)
    ensures i < |lines| && ExpressionToPrefix(lines[i]).Ok? && q == Normalised(ExpressionToPrefix(lines[i]).value)
  {
    i := |lines| - 1;
    var last := ExpressionToPrefix(lines[i]);
    if last.Err? || q != Normalised(last.value) {
      i := SourceLine(lines[..i], q);
    }
  }

  /** Pruning keeps the order and every invalid prefix. */
  lemma {:induction false} PruneShape(ps: seq<Prefix>)
    requires FileSorted(ps)
    ensures FileSorted(Prune(ps))
    ensures forall q :: q in Prune(ps) ==> q in ps
    ensures ZERO_PREFIX in ps ==> ZERO_PREFIX in Prune(ps)
  {
    if ps != [] {
      var n := |ps| - 1;
      var kept, p := Prune(ps[..n]), ps[n];
      PruneShape(ps[..n]);
      assert ps == ps[..n] + [p];
      forall i | 0 <= i < |kept| ensures !FileLess(p, kept[i]) {
        assert kept[i] in ps[..n];
      }
    }
  }

  lemma StoredShape(lines: seq<Entry>)
    ensures FileSorted(ReadSpec(lines))
    ensures forall q :: q in ReadSpec(lines) ==> q in NormalisedLines(lines)
    ensures ZERO_PREFIX in NormalisedLines(lines) ==> ZERO_PREFIX in ReadSpec(lines)
  {
    var ps := NormalisedLines(lines);
    SortKeeps(ps);
    PruneShape(SortByFile(ps));
    assert forall q :: q in ps <==> q in multiset(ps);
    assert forall q :: q in SortByFile(ps) <==> q in multiset(SortByFile(ps));
  }

  /** No v4 block of the list starts after the address. */
  ghost predicate AtTheEnd(ps: seq<Prefix>, a: Addr) {
    a.fam == V4 && forall q :: q in ps && q.addr.fam == V4 ==> q.addr.value <= a.value
  }

  /** From the start of the last v4 block on, the search ends at an invalid prefix behind the v4 blocks. */
  lemma EndIsMissed(ps: seq<Prefix>, a: Addr)
    requires FileSorted(ps) && ZERO_PREFIX in ps && AtTheEnd(ps, a)
    ensures !Hit(ps, a)
  {
    forall i, j | 0 <= i < j < |ps| && AddrLess(a, ps[i].addr) ensures AddrLess(a, ps[j].addr) {
      assert ps[i] in ps && !FileLess(ps[j], ps[i]);
      assert ps[j] in ps;
    }
    SearchBoundary(ps, a, 0, |ps|);
    var r := SearchFrom(ps, a, 0, |ps|);
    var z :| 0 <= z < |ps| && ps[z] == ZERO_PREFIX;
    assert z < r;
    assert z < r - 1 ==> !FileLess(ps[r - 1], ps[z]);
    assert !AddrLess(a, ps[r - 1].addr);
  }

  /** With a long mapped line in the list, every v4 address from the last v4 block on is missed, also those
      that plain lines name. */
  lemma MappedLineHidesTheEnd(lines: seq<Entry>, i: nat, a: Addr)
    requires i < |lines| && IsLongMapped(lines[i]) && AtTheEnd(NormalisedLines(lines), a)
    ensures !Hit(ReadSpec(lines), a)
  {
    LongMappedBecomesZero(lines[i]);
    NormalisedHas(lines, i);
    StoredShape(lines);
    EndIsMissed(ReadSpec(lines), a);
  }

  /** The last v4 block of a list, if there is one. */
  lemma {:induction false} LastV4Block(ps: seq<Prefix>) returns (found: bool, p: Prefix)
    ensures found ==> p in ps && p.addr.fam == V4 && AtTheEnd(ps, p.addr)
    ensures !found ==> forall q :: q in ps ==> q.addr.fam != V4
  {
    found, p := false, ZERO_PREFIX;
    if ps != [] {
      var n := |ps| - 1;
      assert ps == ps[..n] + [ps[n]];
      found, p := LastV4Block(ps[..n]);
      if ps[n].addr.fam == V4 && (!found || p.addr.value <= ps[n].addr.value) {
        found, p := true, ps[n];
      }
    }
  }

  /** A mapped prefix of at most 32 bits also names the address :: but is stored as a v4 block. */
  lemma ShortMappedNamesZero(e: Entry)
    requires IsMappedLine(e) && !IsLongMapped(e)
    ensures var a := Addr(V6, 0); WellFormedAddr(a) && !Is4In6(a) && LineContains(e, a)
  {
    var p := ExpressionToPrefix(e).value;
    var k := HostBits(p);
    ShiftZero(32);
    ShiftZero(k);
    ShiftShift(p.addr.value, 32, k - 32);
    MarkerGone(k - 32);
  }

  lemma MarkerGone(k: nat)
    requires k >= 64
    ensures Shift(0xffff, k) == 0
  {
    ShiftSmall(0xffff, 16);
    RaiseByte(1, 0);
    RaiseByte(1, 8);
    ShiftShift(0xffff, 16, k - 16);
    ShiftZero(k - 16);
  }

  /** What a mapped prefix of this many bits, at most 32, names: every v4 address, and a block at ::. */
  predicate ShortBlock(bits: int, a: Addr) {
    a.fam == V4 || Contains(Prefix(Addr(V6, 0), bits), a)
  }

  lemma ShortMappedNames(e: Entry, a: Addr)
    requires IsMappedLine(e) && !IsLongMapped(e) && WellFormedAddr(a)
    ensures LineContains(e, a) <==> ShortBlock(ExpressionToPrefix(e).value.bits, a)
  {
    var p := ExpressionToPrefix(e).value;
    ShortMappedNamesZero(e);
    ShiftZero(HostBits(p));
    if a.fam == V4 {
      MapUnmap(a);
      ShiftShift(ToMapped(a).value, 32, HostBits(p) - 32);
      MarkerGone(HostBits(p) - 32);
    }
  }

  /** An address that some line names and the matcher misses. */
  lemma MissedAddress(lines: seq<Entry>, i: nat) returns (a: Addr)
    requires i < |lines| && IsLongMapped(lines[i])
    ensures WellFormedAddr(a) && !Is4In6(a) && SomeLineNames(lines, a) && !Hit(ReadSpec(lines), a)
  {
    var found, p := LastV4Block(NormalisedLines(lines));
    if found {
      a := p.addr;
      var j := SourceLine(lines, p);
      V4BlockNamesItsStart(lines[j], p);
      assert LineContains(lines[j], a);
    } else {
      LongMappedBecomesZero(lines[i]);
      a := Unmap(ExpressionToPrefix(lines[i]).value.addr);
      assert LineContains(lines[i], a);
    }
    MappedLineHidesTheEnd(lines, i, a);
  }

  lemma V4BlockNamesItsStart(e: Entry, p: Prefix)
    requires ExpressionToPrefix(e).Ok? && p == Normalised(ExpressionToPrefix(e).value) && p.addr.fam == V4
    ensures WellFormedAddr(p.addr) && LineContains(e, p.addr)
  {
    if IsLongMapped(e) {
      LongMappedBecomesZero(e);
      assert false;
    }
    if IsMappedLine(e) {
      var q := ExpressionToPrefix(e).value;
      MapUnmap(q.addr);
      MaskedMeaning(PrefixFrom(Unmap(q.addr), q.bits));
      ShortMappedNames(e, p.addr);
    } else {
      PlainLineMeaning(e);
      assert Contains(p, p.addr);
    }
  }

  /** Some line that is not mapped names the address. */
  ghost predicate PlainLineNames(lines: seq<Entry>, a: Addr) {
    exists i :: 0 <= i < |lines| && !IsMappedLine(lines[i]) && LineContains(lines[i], a)
  }

  /** A v6 address is only ever found through a plain line. */
  lemma V6HitIsPlain(lines: seq<Entry>, a: Addr)
    requires a.fam == V6 && WellFormedAddr(a) && !Is4In6(a) && Hit(ReadSpec(lines), a)
    ensures PlainLineNames(lines, a)
  {
    var ps := ReadSpec(lines);
    var q := ps[SearchFrom(ps, a, 0, |ps|) - 1];
    StoredShape(lines);
    var i := SourceLine(lines, q);
    if IsMappedLine(lines[i]) {
      assert false;
    }
    PlainLineMeaning(lines[i]);
  }

  ghost predicate AnswersAsLines(lines: seq<Entry>) {
    forall a :: WellFormedAddr(a) && !Is4In6(a) ==> (Hit(ReadSpec(lines), a) <==> SomeLineNames(lines, a))
  }

  /** Every address is answered as the lines say if and only if no line is v4-mapped. RightIff below also speaks
      of lists with both a mapped prefix of at most 32 bits and a plain line for ::, which can make up for it. */
  lemma RightIffNoMappedLine(lines: seq<Entry>)
    requires OnlyLongMapped(lines) || !PlainLineNames(lines, Addr(V6, 0))
    ensures AnswersAsLines(lines) <==> NoMappedLine(lines)
  {
    if NoMappedLine(lines) {
      forall a | WellFormedAddr(a) && !Is4In6(a) ensures Hit(ReadSpec(lines), a) <==> SomeLineNames(lines, a) {
        MatchIsLinearScan(lines, a);
      }
    } else if OnlyLongMapped(lines) {
      var i: nat :| i < |lines| && IsMappedLine(lines[i]);
      var a := MissedAddress(lines, i);
    } else {
      var i: nat :| i < |lines| && IsMappedLine(lines[i]) && !IsLongMapped(lines[i]);
      ShortMappedNamesZero(lines[i]);
      assert SomeLineNames(lines, Addr(V6, 0));
      if Hit(ReadSpec(lines), Addr(V6, 0)) {
        V6HitIsPlain(lines, Addr(V6, 0));
      }
    }
  }

  lemma AcceptedIsLong(e: Entry)
    requires ParseIPEntry(e).Ok? && IsMappedLine(e)
    ensures IsLongMapped(e)
  {
    RejectedExactly(e);
  }

  // ---- Lists with short mapped prefixes ----

  ghost predicate NoLongMapped(lines: seq<Entry>) {
    forall i :: 0 <= i < |lines| ==> !IsLongMapped(lines[i])
  }

  predicate NamedByShort(e: Entry, a: Addr) {
    && IsMappedLine(e) && !IsLongMapped(e) && WellFormedAddr(a) && !Is4In6(a)
    && ShortBlock(ExpressionToPrefix(e).value.bits, a)
  }

  /** The normalised lines cover what each short mapped line names. */
  ghost predicate ShortAreCovered(lines: seq<Entry>) {
    forall i, a :: 0 <= i < |lines| && NamedByShort(lines[i], a) ==> Covers(NormalisedLines(lines), a)
  }

  /** Without long mapped lines every normalised block is sound and covers only what its line names. */
  lemma LineSound(e: Entry, a: Addr)
    requires ExpressionToPrefix(e).Ok? && !IsLongMapped(e) && WellFormedAddr(a) && !Is4In6(a)
    ensures var p := Normalised(ExpressionToPrefix(e).value);
            && IsMasked(p) && (Contains(p, a) ==> LineContains(e, a))
            && (!IsMappedLine(e) && LineContains(e, a) ==> Contains(p, a))
  {
    if IsMappedLine(e) {
      var q := ExpressionToPrefix(e).value;
      MapUnmap(q.addr);
      MaskedMeaning(PrefixFrom(Unmap(q.addr), q.bits));
      ShortMappedNames(e, a);
    } else {
      PlainLineMeaning(e);
    }
  }

  lemma LinesSound(lines: seq<Entry>)
    requires NoLongMapped(lines)
    ensures AllMasked(NormalisedLines(lines))
    ensures forall a :: WellFormedAddr(a) && !Is4In6(a) && Covers(NormalisedLines(lines), a) ==> SomeLineNames(lines, a)
  {
    var ps := NormalisedLines(lines);
    forall k | 0 <= k < |ps| ensures IsMasked(ps[k]) {
      var i := SourceLine(lines, ps[k]);
      LineSound(lines[i], Addr(V4, 0));
    }
    forall a | WellFormedAddr(a) && !Is4In6(a) && Covers(ps, a) ensures SomeLineNames(lines, a) {
      var k :| 0 <= k < |ps| && Contains(ps[k], a);
      var i := SourceLine(lines, ps[k]);
      LineSound(lines[i], a);
    }
  }

  lemma NamedIsCovered(lines: seq<Entry>, a: Addr)
    requires NoLongMapped(lines) && ShortAreCovered(lines) && WellFormedAddr(a) && !Is4In6(a) && SomeLineNames(lines, a)
    ensures Covers(NormalisedLines(lines), a)
  {
    var i :| 0 <= i < |lines| && LineContains(lines[i], a);
    if IsMappedLine(lines[i]) {
      ShortMappedNames(lines[i], a);
    } else {
      var p := Normalised(ExpressionToPrefix(lines[i]).value);
      LineSound(lines[i], a);
      NormalisedHas(lines, i);
      var k :| 0 <= k < |NormalisedLines(lines)| && NormalisedLines(lines)[k] == p;
    }
  }

  /** Every list: it is answered as its lines say if and only if no line is a mapped one of more than 32 bits
      and the normalised lines cover what the shorter mapped ones name. */
  lemma RightIff(lines: seq<Entry>)
    ensures AnswersAsLines(lines) <==> NoLongMapped(lines) && ShortAreCovered(lines)
  {
    if !NoLongMapped(lines) {
      var i: nat :| i < |lines| && IsLongMapped(lines[i]);
      var a := MissedAddress(lines, i);
    } else {
      LinesSound(lines);
      if ShortAreCovered(lines) {
        forall a | WellFormedAddr(a) && !Is4In6(a) ensures Hit(ReadSpec(lines), a) <==> SomeLineNames(lines, a) {
          HitIsCover(lines, a);
          if SomeLineNames(lines, a) {
            NamedIsCovered(lines, a);
          }
        }
      } else {
        ShortIsMissed(lines);
      }
    }
  }

  lemma ShortIsMissed(lines: seq<Entry>)
    requires AllMasked(NormalisedLines(lines)) && !ShortAreCovered(lines)
    ensures !AnswersAsLines(lines)
  {
    var i, a :| 0 <= i < |lines| && NamedByShort(lines[i], a) && !Covers(NormalisedLines(lines), a);
    ShortMappedNames(lines[i], a);
    HitIsCover(lines, a);
    assert SomeLineNames(lines, a) && !Hit(ReadSpec(lines), a);
  }

  // ---- Against the list operator ----

  function Entries(lines: seq<ListFile.Line>, ops: ListFile.TextOps): (es: seq<Entry>)
    ensures |es| == |lines|
    ensures forall i :: 0 <= i < |lines| ==> es[i] == ops.parse(lines[i].text)
  {
    if lines == [] then [] else [ops.parse(lines[0].text)] + Entries(lines[1..], ops)
  }

  lemma SameLines(lines: seq<ListFile.Line>, ops: ListFile.TextOps, a: Addr)
    ensures SomeLineNames(Entries(lines, ops), a) <==> ListFile.SomeLineContains(lines, ops, a)
  {
    var es := Entries(lines, ops);
    if i :| 0 <= i < |es| && LineContains(es[i], a) {
      assert LineContains(ops.parse(lines[i].text), a);
    }
    if i :| 0 <= i < |lines| && LineContains(ops.parse(lines[i].text), a) {
      assert LineContains(es[i], a);
    }
  }

  /** The answer of the list operator's loaded state for an unmapped address. */
  predicate OperatorHit(state: ListFile.Load, a: Addr)
    requires state.Loaded?
  {
    Hit(if a.fam == V6 then state.v6 else state.v4, a)
  }

  /** One file through both programs, its lines already trimmed: the layer-4 matcher parses raw lines and skips
      padded ones. If the operator's strict parser loads it, the matcher gives the same answer for every
      address if and only if no line is v4-mapped. */
  method LoadBoth(raw: seq<Byte>, ops: ListFile.TextOps) returns (state: ListFile.Load, kept: seq<Prefix>)
    ensures state.Loaded? <==> ListFile.Accepted(ListFile.EntryLines(raw, ops), ops)
    ensures state.Loaded? ==>
              ((forall a :: WellFormedAddr(a) && !Is4In6(a) ==> (OperatorHit(state, a) <==> Hit(kept, a))) <==>
               NoMappedLine(Entries(ListFile.EntryLines(raw, ops), ops)))
  {
    state := ListFile.ParseIPListFile(raw, ops);
    var lines := ListFile.EntryLines(raw, ops);
    kept := ReadSet(Entries(lines, ops));
    if state.Loaded? {
      OperatorIsRight(state, lines, ops);
      forall i | 0 <= i < |lines| && IsMappedLine(ops.parse(lines[i].text))
        ensures IsLongMapped(ops.parse(lines[i].text))
      {
        assert ListFile.Parses(lines[i], ops);
        AcceptedIsLong(ops.parse(lines[i].text));
      }
      RightIffNoMappedLine(Entries(lines, ops));
    }
  }

  lemma OperatorIsRight(state: ListFile.Load, lines: seq<ListFile.Line>, ops: ListFile.TextOps)
    requires state.Loaded? && Canonical(state.v4) && Canonical(state.v6)
    requires forall a :: WellFormedAddr(a) && !Is4In6(a) ==>
               (Covers(if a.fam == V6 then state.v6 else state.v4, a) <==> ListFile.SomeLineContains(lines, ops, a))
    ensures forall a :: WellFormedAddr(a) && !Is4In6(a) ==>
              (OperatorHit(state, a) <==> SomeLineNames(Entries(lines, ops), a))
  {
    forall a | WellFormedAddr(a) && !Is4In6(a)
      ensures OperatorHit(state, a) <==> SomeLineNames(Entries(lines, ops), a)
    {
      var ps := if a.fam == V6 then state.v6 else state.v4;
      CanonicalIsSearchable(ps);
      HitIsLinearScan(ps, a);
      SameLines(lines, ops, a);
    }
  }
}
