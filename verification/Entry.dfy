/** One list line after netip has parsed it, 4in6 unmapping, and the normalisation of an entry
    to the prefix that the lookups search. */
module Entry {
  import opened Bits
  import opened IpPrefix

  datatype Result<+T> = Ok(value: T) | Err

  /** What netip.ParsePrefix, else netip.ParseAddr, makes of a line. */
  datatype RawEntry = AsPrefix(prefix: Prefix) | AsAddr(addr: Addr, zone: bool) | Bad

  predicate GoodEntry(e: RawEntry) {
    match e
    case AsPrefix(p) => IsValid(p) && WellFormedAddr(p.addr)
    case AsAddr(a, _) => a.fam != Zero && WellFormedAddr(a)
    case Bad => true
  }

  type Entry = e: RawEntry | GoodEntry(e) witness Bad

  /** ::ffff:0:0/96 */
  const MAPPED_BASE: nat := 0xffff_0000_0000

  lemma MappedBaseIsMarker(w: nat, d: nat)
    requires w == 32 && d == 0xffff
    ensures Raise(d, w) == MAPPED_BASE
  {
    Raise32(d);
  }

  predicate Is4In6(a: Addr) {
    a.fam == V6 && Shift(a.value, 32) == 0xffff
  }

  function Unmap(a: Addr): Addr {
    if Is4In6(a) then MappedIsAboveBase(a); Addr(V4, a.value - MAPPED_BASE) else a
  }

  function ToMapped(a: Addr): Addr {
    Addr(V6, a.value + MAPPED_BASE)
  }

  lemma MappedIsAboveBase(a: Addr)
    requires Is4In6(a)
    ensures MAPPED_BASE <= a.value
  {
    MaskBelow(a.value, 32);
    MappedBaseIsMarker(32, 0xffff);
  }

  lemma MarkerShift(v: nat)
    ensures Shift(v + MAPPED_BASE, 32) == Shift(v, 32) + 0xffff
  {
    MappedBaseIsMarker(32, 0xffff);
    ShiftRaise(v, 0xffff, 32);
  }

  /** Unmap and ToMapped are inverse on v4 addresses. */
  lemma MapUnmap(a: Addr)
    ensures a.fam == V4 && WellFormedAddr(a) ==> Is4In6(ToMapped(a)) && Unmap(ToMapped(a)) == a
    ensures Is4In6(a) ==> ToMapped(Unmap(a)) == a && WellFormedAddr(Unmap(a))
  {
    MarkerShift(a.value);
    WellFormedMeaning(Addr(V4, a.value));
    if Is4In6(a) {
      MappedIsAboveBase(a);
      var v := a.value - MAPPED_BASE;
      MarkerShift(v);
      WellFormedMeaning(Addr(V4, v));
    }
  }

  lemma UnmapWellFormed(a: Addr)
    requires WellFormedAddr(a)
    ensures WellFormedAddr(Unmap(a)) && !Is4In6(Unmap(a))
  {
    MapUnmap(a);
  }

  /** Moving two addresses by the marker keeps whether they share a block. */
  lemma MappedSameBlock(v: nat, w: nat, k: nat)
    requires k <= 32
    ensures Shift(v, k) == Shift(w, k) <==> Shift(v + MAPPED_BASE, k) == Shift(w + MAPPED_BASE, k)
  {
    var word, marker := 32, 0xffff;
    MappedBaseIsMarker(word, marker);
    ShiftRaiseFiner(v, marker, word, k);
    ShiftRaiseFiner(w, marker, word, k);
  }

  /** Bare addresses become /32 or /128, host bits are cleared, and a mapped prefix loses 96 bits. */
  function ParseIPEntry(e: Entry): Result<Prefix> {
    match e
    case AsPrefix(p) =>
      var addr := Unmap(p.addr);
      var mapped := addr.fam == V4 && Is4In6(p.addr);
      var bits := if mapped then p.bits - 96 else p.bits;
      if mapped && bits < 0 then Err else Ok(Masked(PrefixFrom(addr, bits)))
    case AsAddr(a, zone) =>
      if zone then Err
      else
        var addr := Unmap(a);
        Ok(PrefixFrom(addr, if addr.fam == V6 then 128 else 32))
    case Bad => Err
  }

  /** Which unmapped addresses the line itself names, before any normalisation: a mapped prefix
      names the v4 addresses whose mapped form it contains. */
  predicate LineContains(e: Entry, a: Addr) {
    match e
    case AsPrefix(p) => Contains(p, a) || (Is4In6(p.addr) && a.fam == V4 && Contains(p, ToMapped(a)))
    case AsAddr(b, _) => Unmap(b) == a
    case Bad => false
  }

  /** Normalisation keeps exactly the addresses of the line. */
  lemma EntryMeaning(e: Entry, a: Addr)
    requires ParseIPEntry(e).Ok? && WellFormedAddr(a) && !Is4In6(a)
    ensures var p := ParseIPEntry(e).value;
            && IsMasked(p) && WellFormedAddr(p.addr) && !Is4In6(p.addr)
            && (Contains(p, a) <==> LineContains(e, a))
  {
    var p := ParseIPEntry(e).value;
    match e
    case AsPrefix(q) =>
      MapUnmap(q.addr);
      if Is4In6(q.addr) {
        MappedPrefixMeaning(q, a);
      } else {
        MaskedMeaning(q);
        MaskingNeverMaps(q);
      }
    case AsAddr(b, _) =>
      MapUnmap(b);
  }

  lemma MappedPrefixMeaning(q: Prefix, a: Addr)
    requires IsValid(q) && Is4In6(q.addr) && q.bits >= 96 && !Is4In6(a)
    ensures var p := Masked(PrefixFrom(Unmap(q.addr), q.bits - 96));
            && IsMasked(p) && WellFormedAddr(p.addr)
            && (Contains(p, a) <==> Contains(q, a) || (a.fam == V4 && Contains(q, ToMapped(a))))
  {
    MapUnmap(q.addr);
    if a.fam == V4 {
      MappedBlock(q, a);
    }
    var v4 := PrefixFrom(Unmap(q.addr), q.bits - 96);
    MaskedMeaning(v4);
    assert Contains(Masked(v4), a) <==> Contains(v4, a);
    PlainOutsideMappedBlock(q, a);
  }

  lemma MappedBlock(q: Prefix, a: Addr)
    requires IsValid(q) && Is4In6(q.addr) && q.bits >= 96 && a.fam == V4
    ensures Contains(PrefixFrom(Unmap(q.addr), q.bits - 96), a) <==> Contains(q, ToMapped(a))
  {
    MappedIsAboveBase(q.addr);
    var p := PrefixFrom(Unmap(q.addr), q.bits - 96);
    assert HostBits(p) == HostBits(q);
    assert p.addr.value + MAPPED_BASE == q.addr.value;
    MappedSameBlock(p.addr.value, a.value, HostBits(q));
  }

  lemma PlainOutsideMappedBlock(q: Prefix, a: Addr)
    requires IsValid(q) && Is4In6(q.addr) && q.bits >= 96 && !Is4In6(a)
    ensures !Contains(q, a)
  {
    if Contains(q, a) {
      ShiftEqual(a.value, q.addr.value, HostBits(q), 32);
    }
  }

  /** Clearing host bits never turns a plain v6 prefix into a mapped one: bit 32 of ::ffff:0:0 is set. */
  lemma MaskingNeverMaps(p: Prefix)
    requires IsValid(p) && !Is4In6(p.addr)
    ensures !Is4In6(Masked(p).addr)
  {
    var k := HostBits(p);
    if p.addr.fam == V6 {
      if k <= 32 {
        MaskKeepsCoarser(p.addr.value, k, 32);
      } else {
        MaskMask(p.addr.value, k, k);
        AlignedEven(Mask(p.addr.value, k), 32, k);
      }
    }
  }

  /** Exactly which lines are refused. */
  lemma RejectedExactly(e: Entry)
    ensures ParseIPEntry(e).Err? <==>
            e.Bad? || (e.AsAddr? && e.zone) || (e.AsPrefix? && Is4In6(e.prefix.addr) && e.prefix.bits < 96)
  {
    match e
    case AsPrefix(p) => MapUnmap(p.addr);
    case _ =>
  }
}
