/** The .fast binary list format: header, entries, crc32c trailer. */
module FastFormat {
  import opened Bytes
  import opened Bits
  import opened IpPrefix
  import opened Entry

  const MAGIC: seq<Byte> := [76, 66, 70, 49]
  const HEADER_SIZE: nat := 16
  const CHECKSUM_FLAG: nat := 1

  type Word32 = w: nat | w < 0x1_0000_0000

  /** crc32c is library code. */
  type Checksum = seq<Byte> -> Word32

  /** The package variables that bound what the reader accepts. */
  datatype Limits = Limits(maxBytes: nat, maxEntries: Word32)

  const DEFAULT_LIMITS := Limits(67108864, 1_000_000)

  datatype State = State(v4: seq<Prefix>, v6: seq<Prefix>)

  datatype WriteError = FamilyMismatch | NotDisjoint | TooManyEntries | TooLarge
  datatype Written = Bytes(data: seq<Byte>) | WriteFailed(error: WriteError)

  // ---- The format ----

  function AddrBytes(fam: Family): nat {
    if fam == V4 then 4 else 16
  }

  function EntrySize(fam: Family): nat {
    AddrBytes(fam) + 1
  }

  /** Bytes taken by n entries. */
  function Area(fam: Family, n: nat): nat {
    if fam == V4 then 5 * n else 17 * n
  }

  predicate PlainOf(fam: Family, p: Prefix) {
    IsValid(p) && p.addr.fam == fam && WellFormedAddr(p.addr) && !Is4In6(p.addr)
  }

  function EntryBytes(fam: Family, p: Prefix): (bs: seq<Byte>)
    requires IsValid(p)
    ensures |bs| == EntrySize(fam)
  {
    Be(AddrBytes(fam), p.addr.value) + [p.bits]
  }

  ghost predicate ValidList(ps: seq<Prefix>) {
    forall i :: 0 <= i < |ps| ==> IsValid(ps[i])
  }

  ghost predicate PlainList(fam: Family, ps: seq<Prefix>) {
    forall i :: 0 <= i < |ps| ==> PlainOf(fam, ps[i])
  }

  ghost predicate MaskedList(fam: Family, ps: seq<Prefix>) {
    forall i :: 0 <= i < |ps| ==> PlainOf(fam, ps[i]) && IsMasked(ps[i])
  }

  function Body(fam: Family, ps: seq<Prefix>): (bs: seq<Byte>)
    requires ValidList(ps)
    ensures |bs| == Area(fam, |ps|)
  {
    if ps == [] then [] else Body(fam, ps[..|ps| - 1]) + EntryBytes(fam, ps[|ps| - 1])
  }

  function Header(v4Count: nat, v6Count: nat, flags: nat): (bs: seq<Byte>)
    ensures |bs| == HEADER_SIZE
  {
    MAGIC + Be(4, v4Count) + Be(4, v6Count) + Be(4, flags)
  }

  function Content(s: State, flags: nat): (bs: seq<Byte>)
    requires AllValid(s)
    ensures |bs| == HEADER_SIZE + 5 * |s.v4| + 17 * |s.v6|
  {
    Header(|s.v4|, |s.v6|, flags) + Body(V4, s.v4) + Body(V6, s.v6)
  }

  function Signed(s: State, crc: Checksum): seq<Byte>
    requires AllValid(s)
  {
    Content(s, CHECKSUM_FLAG) + Be(4, crc(Content(s, CHECKSUM_FLAG)))
  }

  ghost predicate AllValid(s: State) {
    ValidList(s.v4) && ValidList(s.v6)
  }

  /** Plain masked prefixes of the family, ascending, no two sharing an address. */
  ghost predicate Storable(fam: Family, ps: seq<Prefix>) {
    && MaskedList(fam, ps)
    && (forall i, j :: 0 <= i < j < |ps| ==> AddrLess(ps[i].addr, ps[j].addr))
    && (forall i, j :: 0 <= i < j < |ps| ==> Disjoint(ps[i], ps[j]))
  }

  ghost predicate StorableState(s: State, lim: Limits) {
    Storable(V4, s.v4) && Storable(V6, s.v6) && |s.v4| + |s.v6| <= lim.maxEntries
  }

  // ---- Adjacent checks ----

  /** No entry contains its successor's address. */
  predicate AdjacentDisjoint(ps: seq<Prefix>) {
    forall i :: 1 <= i < |ps| ==> !Contains(ps[i - 1], ps[i].addr)
  }

  ghost predicate AddrSorted(ps: seq<Prefix>) {
    forall i, j :: 0 <= i < j < |ps| ==> !AddrLess(ps[j].addr, ps[i].addr)
  }

  ghost predicate Apart(ps: seq<Prefix>) {
    forall i, j :: 0 <= i < |ps| && 0 <= j < |ps| && i != j ==> Disjoint(ps[i], ps[j])
  }

  /** On sorted masked prefixes the adjacent check is the global one. */
  lemma AdjacentIsGlobal(fam: Family, ps: seq<Prefix>)
    requires MaskedList(fam, ps)
    requires AddrSorted(ps)
    ensures AdjacentDisjoint(ps) <==> Storable(fam, ps)
    ensures AdjacentDisjoint(ps) <==> Apart(ps)
  {
    if AdjacentDisjoint(ps) {
      forall i, j | 0 <= i < j < |ps| ensures AddrLess(ps[i].addr, ps[j].addr) && Disjoint(ps[i], ps[j]) {
        AdjacentToPair(fam, ps, i, j);
      }
    } else {
      var i :| 1 <= i < |ps| && Contains(ps[i - 1], ps[i].addr);
      assert Contains(ps[i], ps[i].addr);
      NestedOrDisjoint(ps[i - 1], ps[i], ps[i].addr);
      assert !Disjoint(ps[i - 1], ps[i]);
    }
  }

  lemma AdjacentToPair(fam: Family, ps: seq<Prefix>, i: nat, j: nat)
    requires MaskedList(fam, ps)
    requires AddrSorted(ps) && AdjacentDisjoint(ps) && i < j < |ps|
    ensures AddrLess(ps[i].addr, ps[j].addr) && Disjoint(ps[i], ps[j])
  {
    assert !Contains(ps[i + 1 - 1], ps[i + 1].addr);
    if Contains(ps[i], ps[j].addr) {
      if i + 1 < j {
        assert !AddrLess(ps[j].addr, ps[i + 1].addr) && !AddrLess(ps[i + 1].addr, ps[i].addr);
        BlockIsConvex(ps[i], ps[i].addr, ps[i + 1].addr, ps[j].addr);
      }
    } else {
      if Within(ps[i], ps[j]) {
        WithinStartsLater(ps[i], ps[j]);
      }
    }
  }

  // ---- Writing ----

  function MaskAll(ps: seq<Prefix>): (r: seq<Prefix>)
    ensures |r| == |ps|
    ensures forall i :: 0 <= i < |ps| ==> r[i] == Masked(ps[i])
  {
    if ps == [] then [] else MaskAll(ps[..|ps| - 1]) + [Masked(ps[|ps| - 1])]
  }

  function InsertByAddr(ps: seq<Prefix>, p: Prefix): (r: seq<Prefix>)
    ensures multiset(r) == multiset(ps) + multiset{p}
  {
    if ps == [] then [p]
    else
      assert ps == ps[..|ps| - 1] + [ps[|ps| - 1]];
      if AddrLess(p.addr, ps[|ps| - 1].addr) then InsertByAddr(ps[..|ps| - 1], p) + [ps[|ps| - 1]]
      else ps + [p]
  }

  /** sort.Slice by address; entries that tie are refused afterwards, so their order cannot matter. */
  function SortByAddr(ps: seq<Prefix>): (r: seq<Prefix>)
    ensures multiset(r) == multiset(ps)
  {
    if ps == [] then []
    else
      assert ps == ps[..|ps| - 1] + [ps[|ps| - 1]];
      InsertByAddr(SortByAddr(ps[..|ps| - 1]), ps[|ps| - 1])
  }

  lemma {:induction false} InsertMembers(ps: seq<Prefix>, p: Prefix, q: Prefix)
    requires q in InsertByAddr(ps, p)
    ensures q == p || q in ps
  {
    assert q in multiset(InsertByAddr(ps, p));
  }

  lemma {:induction false} InsertSorted(ps: seq<Prefix>, p: Prefix)
    requires AddrSorted(ps)
    ensures AddrSorted(InsertByAddr(ps, p))
  {
    if ps != [] {
      var n := |ps| - 1;
      var init, last := ps[..n], ps[n];
      if AddrLess(p.addr, last.addr) {
        InsertSorted(init, p);
        var r := InsertByAddr(init, p);
        forall i | 0 <= i < |r| ensures !AddrLess(last.addr, r[i].addr) {
          InsertMembers(init, p, r[i]);
        }
        assert InsertByAddr(ps, p) == r + [last];
      } else {
        assert InsertByAddr(ps, p) == ps + [p];
      }
    }
  }

  lemma {:induction false} SortSorted(ps: seq<Prefix>)
    ensures AddrSorted(SortByAddr(ps))
  {
    if ps == [] {
    } else {
      SortSorted(ps[..|ps| - 1]);
      InsertSorted(SortByAddr(ps[..|ps| - 1]), ps[|ps| - 1]);
    }
  }

  /** What the writer stores for one family. */
  function Prepared(ps: seq<Prefix>): seq<Prefix> {
    SortByAddr(MaskAll(ps))
  }

  /** r is a family's input after masking and sorting; its adjacent check decides the input's disjointness. */
  ghost predicate IsPrepared(fam: Family, ps: seq<Prefix>, r: seq<Prefix>) {
    && |r| == |ps| && MaskedList(fam, r)
    && (AdjacentDisjoint(r) <==> Storable(fam, r))
    && (AdjacentDisjoint(r) <==> Apart(MaskAll(ps)))
  }

  lemma PreparedMeaning(fam: Family, ps: seq<Prefix>)
    requires PlainList(fam, ps)
    ensures IsPrepared(fam, ps, Prepared(ps))
  {
    var m, r := MaskAll(ps), Prepared(ps);
    SortSorted(m);
    assert |multiset(r)| == |r| && |multiset(m)| == |m|;
    forall i | 0 <= i < |r| ensures PlainOf(fam, r[i]) && IsMasked(r[i]) {
      assert r[i] in multiset(m);
      var j :| 0 <= j < |m| && m[j] == r[i];
      MaskedMeaning(ps[j]);
      MaskingNeverMaps(ps[j]);
    }
    AdjacentIsGlobal(fam, r);
    if Apart(r) { ApartPermutation(r, m); }
    if Apart(m) { ApartPermutation(m, r); }
  }

  lemma ApartPermutation(ps: seq<Prefix>, qs: seq<Prefix>)
    requires multiset(ps) == multiset(qs) && Apart(ps)
    requires forall i :: 0 <= i < |qs| ==> IsValid(qs[i])
    ensures Apart(qs)
  {
    forall i, j | 0 <= i < |qs| && 0 <= j < |qs| && i != j ensures Disjoint(qs[i], qs[j]) {
      if qs[i] == qs[j] {
        TwiceHasTwoPositions(qs, i, j);
        var k, l := TwoPositions(ps, qs[i]);
      } else {
        assert qs[i] in multiset(ps) && qs[j] in multiset(ps);
        var k :| 0 <= k < |ps| && ps[k] == qs[i];
        var l :| 0 <= l < |ps| && ps[l] == qs[j];
      }
    }
  }

  lemma TwiceHasTwoPositions(qs: seq<Prefix>, i: nat, j: nat)
    requires i < |qs| && j < |qs| && i != j && qs[i] == qs[j]
    ensures multiset(qs)[qs[i]] >= 2
  {
    var lo, hi := if i < j then i else j, if i < j then j else i;
    assert qs == qs[..hi] + [qs[hi]] + qs[hi + 1..];
    assert qs[lo] in qs[..hi];
  }

  lemma {:induction false} TwoPositions(ps: seq<Prefix>, p: Prefix) returns (k: nat, l: nat)
    requires multiset(ps)[p] >= 2
    ensures k < l < |ps| && ps[k] == p == ps[l]
  {
    var n := |ps| - 1;
    assert ps == ps[..n] + [ps[n]];
    if ps[n] == p {
      assert p in multiset(ps[..n]);
      k :| 0 <= k < n && ps[..n][k] == p;
      l := n;
    } else {
      k, l := TwoPositions(ps[..n], p);
    }
  }

  ghost predicate Writable(v4: seq<Prefix>, v6: seq<Prefix>, lim: Limits) {
    && PlainList(V4, v4) && PlainList(V6, v6)
    && Apart(MaskAll(v4)) && Apart(MaskAll(v6))
    && |v4| + |v6| <= lim.maxEntries
    && FileSize(|v4|, |v6|) <= lim.maxBytes
  }

  lemma WritableMeaning(v4: seq<Prefix>, v6: seq<Prefix>, m4: seq<Prefix>, m6: seq<Prefix>, lim: Limits)
    requires PlainList(V4, v4) && PlainList(V6, v6)
    requires IsPrepared(V4, v4, m4) && IsPrepared(V6, v6, m6)
    ensures AllValid(State(m4, m6))
    ensures Writable(v4, v6, lim) <==>
            AdjacentDisjoint(m4) && AdjacentDisjoint(m6) &&
            |v4| + |v6| <= lim.maxEntries && FileSize(|v4|, |v6|) <= lim.maxBytes
    ensures Writable(v4, v6, lim) ==> StorableState(State(m4, m6), lim)
  {
  }

  function FileSize(n4: nat, n6: nat): nat {
    HEADER_SIZE + n4 * 5 + n6 * 17 + 4
  }

  /** With the shipped limits the size check never refuses what the entry check let through. */
  lemma SizeFollowsFromCount(n4: nat, n6: nat)
    requires n4 + n6 <= DEFAULT_LIMITS.maxEntries
    ensures FileSize(n4, n6) <= DEFAULT_LIMITS.maxBytes
  {
  }

  method MaskCopies(ps: seq<Prefix>) returns (m: seq<Prefix>)
    ensures m == MaskAll(ps)
  {
    m := [];
    for i := 0 to |ps|
      invariant m == MaskAll(ps[..i])
    {
      assert ps[..i + 1][..i] == ps[..i];
      m := m + [Masked(ps[i])];
    }
    assert ps[..|ps|] == ps;
  }

  method SortSlice(ps: seq<Prefix>) returns (r: seq<Prefix>)
    ensures r == SortByAddr(ps)
  {
    r := [];
    for i := 0 to |ps|
      invariant r == SortByAddr(ps[..i])
    {
      assert ps[..i + 1][..i] == ps[..i];
      r := InsertByAddr(r, ps[i]);
    }
    assert ps[..|ps|] == ps;
  }

  method AssertDisjointPrefixes(sorted: seq<Prefix>) returns (ok: bool)
    ensures ok <==> AdjacentDisjoint(sorted)
  {
    var i := 1;
    while i < |sorted|
      invariant 1 <= i
      invariant forall k :: 1 <= k < i && k < |sorted| ==> !Contains(sorted[k - 1], sorted[k].addr)
    {
      if Contains(sorted[i - 1], sorted[i].addr) {
        return false;
      }
      i := i + 1;
    }
    ok := true;
  }

  method CheckFamily(fam: Family, ps: seq<Prefix>) returns (ok: bool)
    ensures ok <==> PlainList(fam, ps)
  {
    for i := 0 to |ps|
      invariant forall k :: 0 <= k < i ==> PlainOf(fam, ps[k])
    {
      if !PlainOf(fam, ps[i]) {
        return false;
      }
    }
    ok := true;
  }

  /** copy(buf[offset:], bytes) */
  method Put(buf: array<Byte>, offset: nat, bytes: seq<Byte>)
    requires offset + |bytes| <= buf.Length
    modifies buf
    ensures buf[..offset] == old(buf[..offset])
    ensures buf[offset..offset + |bytes|] == bytes
    ensures buf[..offset + |bytes|] == old(buf[..offset]) + bytes
  {
    for k := 0 to |bytes|
      invariant buf[..offset] == old(buf[..offset])
      invariant buf[offset..offset + k] == bytes[..k]
    {
      buf[offset + k] := bytes[k];
      assert bytes[..k + 1] == bytes[..k] + [bytes[k]];
    }
    assert bytes[..|bytes|] == bytes;
    assert buf[..offset + |bytes|] == buf[..offset] + buf[offset..offset + |bytes|];
  }

  method PutEntries(buf: array<Byte>, start: nat, fam: Family, ps: seq<Prefix>) returns (offset: nat)
    requires ValidList(ps)
    requires start + Area(fam, |ps|) <= buf.Length
    modifies buf
    ensures offset == start + Area(fam, |ps|)
    ensures buf[..offset] == old(buf[..start]) + Body(fam, ps)
  {
    hide EntryBytes;
    offset := start;
    ghost var done := buf[..start];
    for i := 0 to |ps|
      invariant offset == start + Area(fam, i)
      invariant buf[..offset] == done + Body(fam, ps[..i])
    {
      BodyAppend(fam, ps[..i], ps[i]);
      assert ps[..i + 1] == ps[..i] + [ps[i]];
      Concat(done, Body(fam, ps[..i]), EntryBytes(fam, ps[i]));
      Put(buf, offset, EntryBytes(fam, ps[i]));
      offset := offset + EntrySize(fam);
    }
    assert ps[..|ps|] == ps;
  }

  lemma Concat(a: seq<Byte>, b: seq<Byte>, c: seq<Byte>)
    ensures a + b + c == a + (b + c)
  {
  }

  /** The bytes that WriteFastFile puts on disk. */
  method WriteFastFile(v4: seq<Prefix>, v6: seq<Prefix>, crc: Checksum, lim: Limits) returns (r: Written)
    ensures r.Bytes? <==> Writable(v4, v6, lim)
    ensures r.Bytes? ==> StorableState(State(Prepared(v4), Prepared(v6)), lim) &&
                         r.data == Signed(State(Prepared(v4), Prepared(v6)), crc) && |r.data| <= lim.maxBytes
    ensures r.WriteFailed? && r.error.FamilyMismatch? <==> !PlainList(V4, v4) || !PlainList(V6, v6)
  {
    var ok := CheckFamily(V4, v4);
    if !ok {
      return WriteFailed(FamilyMismatch);
    }
    ok := CheckFamily(V6, v6);
    if !ok {
      return WriteFailed(FamilyMismatch);
    }
    PreparedMeaning(V4, v4);
    PreparedMeaning(V6, v6);
    WritableMeaning(v4, v6, Prepared(v4), Prepared(v6), lim);
    var mv4 := MaskCopies(v4);
    var mv6 := MaskCopies(v6);
    mv4 := SortSlice(mv4);
    mv6 := SortSlice(mv6);
    ok := AssertDisjointPrefixes(mv4);
    if !ok {
      return WriteFailed(NotDisjoint);
    }
    ok := AssertDisjointPrefixes(mv6);
    if !ok {
      return WriteFailed(NotDisjoint);
    }
    if |mv4| + |mv6| > lim.maxEntries {
      return WriteFailed(TooManyEntries);
    }
    var size := HEADER_SIZE + |mv4| * 5 + |mv6| * 17 + 4;
    if size > lim.maxBytes {
      return WriteFailed(TooLarge);
    }
    var data := FillBuffer(State(mv4, mv6), crc);
    r := Bytes(data);
  }

  method FillBuffer(s: State, crc: Checksum) returns (data: seq<Byte>)
    requires AllValid(s)
    ensures data == Signed(s, crc) && |data| == FileSize(|s.v4|, |s.v6|)
  {
    var buf := new Byte[FileSize(|s.v4|, |s.v6|)](_ => 0);
    Put(buf, 0, MAGIC);
    Put(buf, 4, Be(4, |s.v4|));
    Put(buf, 8, Be(4, |s.v6|));
    Put(buf, 12, Be(4, CHECKSUM_FLAG));
    assert buf[..HEADER_SIZE] == Header(|s.v4|, |s.v6|, CHECKSUM_FLAG);
    var offset := PutEntries(buf, HEADER_SIZE, V4, s.v4);
    offset := PutEntries(buf, offset, V6, s.v6);
    assert buf[..offset] == Content(s, CHECKSUM_FLAG);
    Put(buf, offset, Be(4, crc(buf[..offset])));
    assert buf[..offset + 4] == buf[..];
    data := buf[..];
  }

  // ---- Reading ----

  datatype ReadError = SizeLimit | TooShort | BadMagic | EntryCap | UnknownFlags | SizeMismatch | BadChecksum | BadEntry
  datatype Read = Loaded(state: State) | ReadFailed(error: ReadError)

  function EntryOf(fam: Family, bs: seq<Byte>): Prefix
    requires |bs| == EntrySize(fam)
  {
    Prefix(Addr(fam, Value(bs[..AddrBytes(fam)])), bs[AddrBytes(fam)])
  }

  function Entries(fam: Family, area: seq<Byte>, count: nat): (ps: seq<Prefix>)
    requires |area| == Area(fam, count)
    ensures |ps| == count
  {
    if count == 0 then []
    else
      var before := Area(fam, count - 1);
      Entries(fam, area[..before], count - 1) + [EntryOf(fam, area[before..])]
  }

  /** The checks on one entry, given its predecessors. */
  predicate EntryOk(fam: Family, before: seq<Prefix>, p: Prefix) {
    && PlainOf(fam, p) && IsMasked(p)
    && (before != [] ==> !AddrLess(p.addr, before[|before| - 1].addr) && !Contains(before[|before| - 1], p.addr))
  }

  /** The reader's checks on one family, entry by entry. */
  predicate EntriesOk(fam: Family, ps: seq<Prefix>) {
    ps == [] || (EntriesOk(fam, ps[..|ps| - 1]) && EntryOk(fam, ps[..|ps| - 1], ps[|ps| - 1]))
  }

  ghost predicate AdjacentOrder(ps: seq<Prefix>) {
    forall i :: 1 <= i < |ps| ==> !AddrLess(ps[i].addr, ps[i - 1].addr)
  }

  lemma {:induction false} EntriesOkParts(fam: Family, ps: seq<Prefix>)
    ensures EntriesOk(fam, ps) <==> MaskedList(fam, ps) && AdjacentDisjoint(ps) && AdjacentOrder(ps)
  {
    if ps != [] {
      var init, last := ps[..|ps| - 1], ps[|ps| - 1];
      EntriesOkParts(fam, init);
      PartsAppend(fam, init, last);
      assert init + [last] == ps;
    }
  }

  lemma PartsAppend(fam: Family, init: seq<Prefix>, p: Prefix)
    ensures var ps := init + [p];
            MaskedList(fam, ps) && AdjacentDisjoint(ps) && AdjacentOrder(ps) <==>
            MaskedList(fam, init) && AdjacentDisjoint(init) && AdjacentOrder(init) && EntryOk(fam, init, p)
  {
    var ps := init + [p];
    var n := |init|;
    assert forall i :: 0 <= i < n ==> init[i] == ps[i];
    assert ps[n] == p;
  }

  lemma {:induction false} AdjacentOrderIsSorted(ps: seq<Prefix>, i: nat, j: nat)
    requires AdjacentOrder(ps)
    requires i <= j < |ps|
    ensures !AddrLess(ps[j].addr, ps[i].addr)
  {
    if i < j {
      AdjacentOrderIsSorted(ps, i, j - 1);
    }
  }

  lemma EntriesOkIsStorable(fam: Family, ps: seq<Prefix>)
    ensures EntriesOk(fam, ps) <==> Storable(fam, ps)
  {
    EntriesOkParts(fam, ps);
    if EntriesOk(fam, ps) {
      forall i, j | 0 <= i < j < |ps| ensures !AddrLess(ps[j].addr, ps[i].addr) {
        AdjacentOrderIsSorted(ps, i, j);
      }
      AdjacentIsGlobal(fam, ps);
    }
    if Storable(fam, ps) {
      AdjacentIsGlobal(fam, ps);
    }
  }

  lemma DecodedInRange(fam: Family, bs: seq<Byte>)
    requires |bs| == AddrBytes(fam) && (fam == V4 || fam == V6)
    ensures WellFormedAddr(Addr(fam, Value(bs)))
  {
    BeOfValue(bs);
    Caps();
  }

  lemma EntryRoundTrip(fam: Family, p: Prefix)
    requires PlainOf(fam, p)
    ensures EntryOf(fam, EntryBytes(fam, p)) == p
  {
    Caps();
    ValueOfBe(AddrBytes(fam), p.addr.value);
    assert EntryBytes(fam, p)[..AddrBytes(fam)] == Be(AddrBytes(fam), p.addr.value);
  }

  lemma EntryBytesRoundTrip(fam: Family, bs: seq<Byte>)
    requires |bs| == EntrySize(fam) && IsValid(EntryOf(fam, bs))
    ensures EntryBytes(fam, EntryOf(fam, bs)) == bs
  {
    BeOfValue(bs[..AddrBytes(fam)]);
  }

  /** Decoding inverts Body. */
  lemma {:induction false} BodyDecodes(fam: Family, ps: seq<Prefix>)
    requires PlainList(fam, ps)
    ensures Entries(fam, Body(fam, ps), |ps|) == ps
  {
    if ps != [] {
      var n := |ps| - 1;
      BodyDecodes(fam, ps[..n]);
      EntryRoundTrip(fam, ps[n]);
      assert Body(fam, ps)[..Area(fam, n)] == Body(fam, ps[..n]);
      assert Body(fam, ps)[Area(fam, n)..] == EntryBytes(fam, ps[n]);
    }
  }

  lemma BodyAppend(fam: Family, ps: seq<Prefix>, p: Prefix)
    requires ValidList(ps) && IsValid(p)
    ensures ValidList(ps + [p]) && Body(fam, ps + [p]) == Body(fam, ps) + EntryBytes(fam, p)
  {
    assert (ps + [p])[..|ps|] == ps;
  }

  lemma ValidInit(ps: seq<Prefix>, p: Prefix)
    requires ValidList(ps + [p])
    ensures ValidList(ps) && IsValid(p)
  {
    assert (ps + [p])[|ps|] == p;
    assert forall i :: 0 <= i < |ps| ==> ps[i] == (ps + [p])[i];
  }

  lemma EntriesAppend(fam: Family, head: seq<Byte>, tail: seq<Byte>, n: nat)
    requires |head| == Area(fam, n) && |tail| == EntrySize(fam)
    ensures Entries(fam, head + tail, n + 1) == Entries(fam, head, n) + [EntryOf(fam, tail)]
  {
    assert (head + tail)[..Area(fam, n)] == head && (head + tail)[Area(fam, n)..] == tail;
  }

  /** Body inverts decoding. */
  lemma {:induction false} DecodedBody(fam: Family, area: seq<Byte>, count: nat)
    requires |area| == Area(fam, count) && ValidList(Entries(fam, area, count))
    ensures Body(fam, Entries(fam, area, count)) == area
    decreases count, 0
  {
    if count > 0 {
      var before := Area(fam, count - 1);
      var head, tail := area[..before], area[before..];
      assert head + tail == area;
      EntriesAppend(fam, head, tail, count - 1);
      DecodedStep(fam, head, tail, count - 1);
    }
  }

  lemma DecodedStep(fam: Family, head: seq<Byte>, tail: seq<Byte>, n: nat)
    requires |head| == Area(fam, n) && |tail| == EntrySize(fam)
    requires ValidList(Entries(fam, head, n) + [EntryOf(fam, tail)])
    ensures Body(fam, Entries(fam, head, n) + [EntryOf(fam, tail)]) == head + tail
    decreases n, 1
  {
    var init, last := Entries(fam, head, n), EntryOf(fam, tail);
    ValidInit(init, last);
    DecodedBody(fam, head, n);
    EntryBytesRoundTrip(fam, tail);
    BodyAppend(fam, init, last);
  }

  lemma {:induction false} EntriesPrefix(fam: Family, area: seq<Byte>, count: nat, i: nat)
    requires |area| == Area(fam, count) && i <= count
    ensures Area(fam, i) <= |area|
    ensures Entries(fam, area, count)[..i] == Entries(fam, area[..Area(fam, i)], i)
    decreases count
  {
    if i == count {
      assert area[..Area(fam, i)] == area;
    } else {
      var before := Area(fam, count - 1);
      EntriesPrefix(fam, area[..before], count - 1, i);
      assert area[..before][..Area(fam, i)] == area[..Area(fam, i)];
      assert Entries(fam, area, count)[..i] == Entries(fam, area[..before], count - 1)[..i];
    }
  }

  lemma {:induction false} EntriesOkPrefix(fam: Family, ps: seq<Prefix>, i: nat)
    requires i <= |ps| && EntriesOk(fam, ps)
    ensures EntriesOk(fam, ps[..i])
    decreases |ps|
  {
    if i < |ps| {
      EntriesOkPrefix(fam, ps[..|ps| - 1], i);
      assert ps[..|ps| - 1][..i] == ps[..i];
    } else {
      assert ps[..i] == ps;
    }
  }

  lemma EntriesOkStep(fam: Family, ps: seq<Prefix>, i: nat)
    requires i < |ps| && EntriesOk(fam, ps[..i])
    ensures EntriesOk(fam, ps[..i + 1]) <==> EntryOk(fam, ps[..i], ps[i])
    ensures EntriesOk(fam, ps) ==> EntriesOk(fam, ps[..i + 1])
  {
    assert ps[..i + 1][..i] == ps[..i];
    if EntriesOk(fam, ps) {
      EntriesOkPrefix(fam, ps, i + 1);
    }
  }

  method CheckEntry(fam: Family, bs: seq<Byte>, before: seq<Prefix>) returns (ok: bool, p: Prefix)
    requires (fam == V4 || fam == V6) && |bs| == EntrySize(fam)
    ensures ok <==> EntryOk(fam, before, EntryOf(fam, bs))
    ensures ok ==> p == EntryOf(fam, bs)
  {
    ok, p := false, ZERO_PREFIX;
    var entryAddr := Addr(fam, Value(bs[..AddrBytes(fam)]));
    DecodedInRange(fam, bs[..AddrBytes(fam)]);
    var bits := bs[AddrBytes(fam)];
    if bits > Width(fam) {
      return;
    }
    if Is4In6(entryAddr) {
      return;
    }
    p := PrefixFrom(entryAddr, bits);
    if p != Masked(p) {
      return;
    }
    if |before| > 0 && AddrLess(p.addr, before[|before| - 1].addr) {
      return;
    }
    if |before| > 0 && Contains(before[|before| - 1], p.addr) {
      return;
    }
    ok := true;
  }

  /** One family of entries, checked while decoding. */
  method ReadEntries(fam: Family, area: seq<Byte>, count: nat) returns (r: Result<seq<Prefix>>)
    requires (fam == V4 || fam == V6) && |area| == Area(fam, count)
    ensures r.Ok? <==> EntriesOk(fam, Entries(fam, area, count))
    ensures r.Ok? ==> r.value == Entries(fam, area, count)
  {
    ghost var all := Entries(fam, area, count);
    var ps: seq<Prefix> := [];
    var offset := 0;
    for i := 0 to count
      invariant offset == Area(fam, i)
      invariant ps == all[..i] && EntriesOk(fam, ps)
    {
      var entry := area[offset..offset + EntrySize(fam)];
      NextEntry(fam, area, count, i, all, ps);
      var ok, p := CheckEntry(fam, entry, ps);
      if !ok {
        return Err;
      }
      ps := ps + [p];
      offset := offset + EntrySize(fam);
    }
    assert all[..count] == all;
    r := Ok(ps);
  }

  lemma NextEntry(fam: Family, area: seq<Byte>, count: nat, i: nat, all: seq<Prefix>, ps: seq<Prefix>)
    requires |area| == Area(fam, count) && i < count && all == Entries(fam, area, count)
    requires ps == all[..i] && EntriesOk(fam, ps)
    ensures Area(fam, i) + EntrySize(fam) <= |area|
    ensures var p := EntryOf(fam, area[Area(fam, i)..Area(fam, i) + EntrySize(fam)]);
            && ps + [p] == all[..i + 1]
            && (EntryOk(fam, ps, p) ==> EntriesOk(fam, ps + [p]))
            && (EntriesOk(fam, all) ==> EntryOk(fam, ps, p))
  {
    EntryPosition(fam, area, count, i);
    EntriesOkStep(fam, all, i);
    assert all[..i + 1] == ps + [all[i]];
  }

  lemma EntryPosition(fam: Family, area: seq<Byte>, count: nat, i: nat)
    requires |area| == Area(fam, count) && i < count
    ensures Area(fam, i) + EntrySize(fam) <= |area|
    ensures Entries(fam, area, count)[i] == EntryOf(fam, area[Area(fam, i)..Area(fam, i) + EntrySize(fam)])
  {
    EntriesPrefix(fam, area, count, i + 1);
    var head := area[..Area(fam, i + 1)];
    assert head[Area(fam, i)..] == area[Area(fam, i)..Area(fam, i) + EntrySize(fam)];
    assert Entries(fam, area, count)[..i + 1][i] == Entries(fam, head, i + 1)[i];
  }

  /** The byte strings that stand for a state: signed, or the old form without a trailer. */
  ghost predicate StandsFor(data: seq<Byte>, s: State, crc: Checksum)
    requires AllValid(s)
  {
    data == Signed(s, crc) || data == Content(s, 0)
  }

  lemma Slices(a: seq<Byte>, b: seq<Byte>, c: seq<Byte>, d: seq<Byte>)
    ensures var s := a + b + c + d;
            && s[..|a|] == a && s[|a|..|a| + |b|] == b
            && s[|a| + |b|..|a| + |b| + |c|] == c && s[|a| + |b| + |c|..] == d
  {
  }

  function Area4(data: seq<Byte>, n4: nat): seq<Byte>
    requires HEADER_SIZE + 5 * n4 <= |data|
  {
    data[HEADER_SIZE..HEADER_SIZE + 5 * n4]
  }

  function Area6(data: seq<Byte>, n4: nat, n6: nat): seq<Byte>
    requires HEADER_SIZE + 5 * n4 + 17 * n6 <= |data|
  {
    data[HEADER_SIZE + 5 * n4..HEADER_SIZE + 5 * n4 + 17 * n6]
  }

  /** The four header words. */
  ghost predicate HeaderSays(data: seq<Byte>, n4: nat, n6: nat, flags: nat) {
    && |data| >= HEADER_SIZE && data[..4] == MAGIC
    && Value(data[4..8]) == n4 && Value(data[8..12]) == n6 && Value(data[12..16]) == flags
  }

  lemma HeaderRoundTrip(data: seq<Byte>, n4: nat, n6: nat, flags: nat)
    requires |data| >= HEADER_SIZE && n4 < 0x1_0000_0000 && n6 < 0x1_0000_0000 && flags < 0x1_0000_0000
    ensures HeaderSays(data, n4, n6, flags) <==> data[..HEADER_SIZE] == Header(n4, n6, flags)
  {
    Caps();
    var h := data[..HEADER_SIZE];
    assert h == h[..4] + h[4..8] + h[8..12] + h[12..];
    Slices(MAGIC, Be(4, n4), Be(4, n6), Be(4, flags));
    ValueOfBe(4, n4);
    ValueOfBe(4, n6);
    ValueOfBe(4, flags);
    assert h[4..8] == data[4..8] && h[8..12] == data[8..12] && h[12..] == data[12..16] && h[..4] == data[..4];
    BeOfValue(data[4..8]);
    BeOfValue(data[8..12]);
    BeOfValue(data[12..16]);
  }

  /** Areas that hold the two bodies decode to the state. */
  lemma AreasDecode(a4: seq<Byte>, a6: seq<Byte>, s: State)
    requires PlainList(V4, s.v4) && PlainList(V6, s.v6) && AllValid(s)
    requires |a4| == 5 * |s.v4| && |a6| == 17 * |s.v6|
    ensures a4 == Body(V4, s.v4) && a6 == Body(V6, s.v6) <==>
            Entries(V4, a4, |s.v4|) == s.v4 && Entries(V6, a6, |s.v6|) == s.v6
  {
    BodyDecodes(V4, s.v4);
    BodyDecodes(V6, s.v6);
    if Entries(V4, a4, |s.v4|) == s.v4 {
      DecodedBody(V4, a4, |s.v4|);
    }
    if Entries(V6, a6, |s.v6|) == s.v6 {
      DecodedBody(V6, a6, |s.v6|);
    }
  }

  /** Header and areas are those of a state exactly when the bytes start with its content. */
  lemma FieldsOf(data: seq<Byte>, s: State, flags: nat)
    requires PlainList(V4, s.v4) && PlainList(V6, s.v6) && AllValid(s)
    requires |s.v4| < 0x1_0000_0000 && |s.v6| < 0x1_0000_0000 && flags <= 1
    requires |data| >= HEADER_SIZE + 5 * |s.v4| + 17 * |s.v6|
    ensures data[..|Content(s, flags)|] == Content(s, flags) <==>
            HeaderSays(data, |s.v4|, |s.v6|, flags) &&
            Entries(V4, Area4(data, |s.v4|), |s.v4|) == s.v4 &&
            Entries(V6, Area6(data, |s.v4|, |s.v6|), |s.v6|) == s.v6
  {
    var h, b4, b6 := Header(|s.v4|, |s.v6|, flags), Body(V4, s.v4), Body(V6, s.v6);
    var a4, a6 := Area4(data, |s.v4|), Area6(data, |s.v4|, |s.v6|);
    assert data[..|Content(s, flags)|] == Content(s, flags) <==> data[..|h|] == h && a4 == b4 && a6 == b6 by {
      ThreeParts(data, h, b4, b6);
    }
    assert data[..|h|] == h <==> HeaderSays(data, |s.v4|, |s.v6|, flags) by {
      HeaderRoundTrip(data, |s.v4|, |s.v6|, flags);
    }
    AreasDecode(a4, a6, s);
  }

  lemma ThreeParts(data: seq<Byte>, h: seq<Byte>, b4: seq<Byte>, b6: seq<Byte>)
    requires |data| >= |h| + |b4| + |b6|
    ensures data[..|h| + |b4| + |b6|] == h + b4 + b6 <==>
            data[..|h|] == h && data[|h|..|h| + |b4|] == b4 && data[|h| + |b4|..|h| + |b4| + |b6|] == b6
  {
    var x, y, z := data[..|h|], data[|h|..|h| + |b4|], data[|h| + |b4|..|h| + |b4| + |b6|];
    assert data[..|h| + |b4| + |b6|] == x + y + z;
    if x + y + z == h + b4 + b6 {
      assert x == (x + y + z)[..|h|] == (h + b4 + b6)[..|h|] == h;
      assert y == (x + y + z)[|h|..|h| + |b4|] == (h + b4 + b6)[|h|..|h| + |b4|] == b4;
      assert z == (x + y + z)[|h| + |b4|..] == (h + b4 + b6)[|h| + |b4|..] == b6;
    }
  }

  /** The checks of the reader up to the entries; the counts and the checksum flag when they pass. */
  datatype Head = Head(v4Count: nat, v6Count: nat, hasChecksum: bool)

  ghost predicate HeadOk(data: seq<Byte>, crc: Checksum, lim: Limits, h: Head) {
    && |data| <= lim.maxBytes
    && HeaderSays(data, h.v4Count, h.v6Count, if h.hasChecksum then 1 else 0)
    && h.v4Count + h.v6Count <= lim.maxEntries
    && |data| == HEADER_SIZE + 5 * h.v4Count + 17 * h.v6Count + (if h.hasChecksum then 4 else 0)
    && (h.hasChecksum ==> Value(data[|data| - 4..]) == crc(data[..|data| - 4]))
  }

  method ReadHead(data: seq<Byte>, crc: Checksum, lim: Limits) returns (h: Head, error: ReadError, ok: bool)
    ensures ok ==> HeadOk(data, crc, lim, h)
    ensures !ok ==> forall g :: !HeadOk(data, crc, lim, g)
  {
    ok, h, error := false, Head(0, 0, false), SizeLimit;
    if |data| > lim.maxBytes {
      return;
    }
    error := TooShort;
    if |data| < HEADER_SIZE {
      return;
    }
    error := BadMagic;
    if data[0..4] != MAGIC {
      return;
    }
    var v4Count, v6Count := Value(data[4..8]), Value(data[8..12]);
    error := EntryCap;
    if v4Count + v6Count > lim.maxEntries {
      return;
    }
    var flags := Value(data[12..16]);
    error := UnknownFlags;
    if flags / 2 != 0 {
      return;
    }
    h := Head(v4Count, v6Count, flags % 2 != 0);
    var expectedSize := HEADER_SIZE + 5 * v4Count + 17 * v6Count;
    if h.hasChecksum {
      expectedSize := expectedSize + 4;
    }
    error := SizeMismatch;
    if |data| != expectedSize {
      return;
    }
    error := BadChecksum;
    if h.hasChecksum {
      var want := Value(data[|data| - 4..]);
      if crc(data[..|data| - 4]) != want {
        return;
      }
    }
    ok := true;
  }

  /** The state that accepted bytes stand for, entry checks aside. */
  function Decoded(data: seq<Byte>, h: Head): State
    requires HEADER_SIZE + 5 * h.v4Count + 17 * h.v6Count <= |data|
  {
    State(Entries(V4, Area4(data, h.v4Count), h.v4Count), Entries(V6, Area6(data, h.v4Count, h.v6Count), h.v6Count))
  }

  lemma ContentDecodes(data: seq<Byte>, s: State, flags: nat, crc: Checksum, lim: Limits)
    requires StorableState(s, lim) && |data| <= lim.maxBytes && flags <= 1
    requires Content(s, flags) <= data && |data| == |Content(s, flags)| + 4 * flags
    requires flags == 1 ==> Value(data[|data| - 4..]) == crc(Content(s, flags))
    ensures HeadOk(data, crc, lim, Head(|s.v4|, |s.v6|, flags == 1))
    ensures Decoded(data, Head(|s.v4|, |s.v6|, flags == 1)) == s
  {
    FieldsOf(data, s, flags);
  }

  /** A storable state behind the bytes is the decoded one, and its head passes. */
  lemma StandsForDecoded(data: seq<Byte>, s: State, crc: Checksum, lim: Limits)
    requires StorableState(s, lim) && |data| <= lim.maxBytes && StandsFor(data, s, crc)
    ensures exists h :: HeadOk(data, crc, lim, h) && s == Decoded(data, h)
  {
    if data == Signed(s, crc) {
      var c := Content(s, CHECKSUM_FLAG);
      Trailer(data, c, crc(c));
      ContentDecodes(data, s, CHECKSUM_FLAG, crc, lim);
    } else {
      ContentDecodes(data, s, 0, crc, lim);
    }
  }

  lemma Trailer(data: seq<Byte>, c: seq<Byte>, w: Word32)
    requires data == c + Be(4, w)
    ensures |data| == |c| + 4 && data[..|c|] == c && Value(data[|c|..]) == w
  {
    Caps();
    ValueOfBe(4, w);
    assert data[|c|..] == Be(4, w);
  }

  lemma HeadIsUnique(data: seq<Byte>, crc: Checksum, lim: Limits, g: Head, h: Head)
    requires HeadOk(data, crc, lim, g) && HeadOk(data, crc, lim, h)
    ensures g == h
  {
  }

  lemma DecodedStandsFor(data: seq<Byte>, crc: Checksum, lim: Limits, h: Head)
    requires HeadOk(data, crc, lim, h) && StorableState(Decoded(data, h), lim)
    ensures StandsFor(data, Decoded(data, h), crc)
  {
    var s := Decoded(data, h);
    var flags := if h.hasChecksum then 1 else 0;
    FieldsOf(data, s, flags);
    if h.hasChecksum {
      BeOfValue(data[|data| - 4..]);
      assert data == data[..|data| - 4] + data[|data| - 4..];
    } else {
      assert data == data[..|data|];
    }
  }

  /** Accepts exactly the byte strings that stand for a storable state, and returns that state. */
  method ReadFastFile(data: seq<Byte>, crc: Checksum, lim: Limits) returns (r: Read)
    ensures r.Loaded? ==> StorableState(r.state, lim) && |data| <= lim.maxBytes && StandsFor(data, r.state, crc)
    ensures forall s :: StorableState(s, lim) && |data| <= lim.maxBytes && StandsFor(data, s, crc) ==> r == Loaded(s)
  {
    var h, error, ok := ReadHead(data, crc, lim);
    forall s | StorableState(s, lim) && |data| <= lim.maxBytes && StandsFor(data, s, crc)
      ensures ok && s == Decoded(data, h)
    {
      StandsForDecoded(data, s, crc, lim);
      var g :| HeadOk(data, crc, lim, g) && s == Decoded(data, g);
      HeadIsUnique(data, crc, lim, g, h);
    }
    if !ok {
      return ReadFailed(error);
    }
    ghost var s := Decoded(data, h);
    EntriesOkIsStorable(V4, s.v4);
    EntriesOkIsStorable(V6, s.v6);
    var v4 := ReadEntries(V4, Area4(data, h.v4Count), h.v4Count);
    if v4.Err? {
      return ReadFailed(BadEntry);
    }
    var v6 := ReadEntries(V6, Area6(data, h.v4Count, h.v6Count), h.v6Count);
    if v6.Err? {
      return ReadFailed(BadEntry);
    }
    DecodedStandsFor(data, crc, lim, h);
    r := Loaded(State(v4.value, v6.value));
  }

  // ---- Round trips ----

  lemma {:induction false} SortedIsFixed(ps: seq<Prefix>)
    requires AddrSorted(ps)
    ensures SortByAddr(ps) == ps
  {
    if ps != [] {
      SortedIsFixed(ps[..|ps| - 1]);
      assert ps == ps[..|ps| - 1] + [ps[|ps| - 1]];
    }
  }

  lemma StorableIsPrepared(fam: Family, ps: seq<Prefix>)
    requires Storable(fam, ps)
    ensures PlainList(fam, ps) && Prepared(ps) == ps && Apart(MaskAll(ps))
  {
    assert MaskAll(ps) == ps;
    SortedIsFixed(ps);
    forall i, j | 0 <= i < |ps| && 0 <= j < |ps| && i != j ensures Disjoint(ps[i], ps[j]) {
      assert i < j ==> Disjoint(ps[i], ps[j]);
      assert j < i ==> Disjoint(ps[j], ps[i]);
    }
  }

  /** Whatever the writer produces, the reader loads as the masked, sorted input. */
  method WriteThenRead(v4: seq<Prefix>, v6: seq<Prefix>, crc: Checksum, lim: Limits) returns (w: Written, r: Read)
    ensures w.Bytes? <==> Writable(v4, v6, lim)
    ensures w.Bytes? ==> r == Loaded(State(Prepared(v4), Prepared(v6)))
  {
    w := WriteFastFile(v4, v6, crc, lim);
    r := ReadFailed(TooShort);
    if w.Bytes? {
      r := ReadFastFile(w.data, crc, lim);
    }
  }

  /** Whatever the reader accepts and is checksummed, the writer reproduces byte for byte. */
  method ReadThenWrite(data: seq<Byte>, crc: Checksum, lim: Limits) returns (r: Read, w: Written)
    ensures r.Loaded? ==> AllValid(r.state) && (data == Signed(r.state, crc) ==> w == Bytes(data))
  {
    r := ReadFastFile(data, crc, lim);
    w := WriteFailed(TooLarge);
    if r.Loaded? {
      StorableIsPrepared(V4, r.state.v4);
      StorableIsPrepared(V6, r.state.v6);
      w := WriteFastFile(r.state.v4, r.state.v6, crc, lim);
    }
  }
}
