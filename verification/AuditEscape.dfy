/** Escaped lengths of audit strings without escaping them, against the escaping itself, and the clip that
    keeps a field within a cap of escaped bytes. */
module AuditEscape {
  import opened Bytes
  import J = AuditJson

  // ---- UTF-8 (section 4 of RFC 3629), as utf8.DecodeRuneInString ----

  predicate Cont(b: Byte) {
    128 <= b <= 191
  }

  /** The second byte that the lead byte allows. */
  predicate Second(lead: Byte, b: Byte) {
    if lead == 224 then 160 <= b <= 191
    else if lead == 237 then 128 <= b <= 159
    else if lead == 240 then 144 <= b <= 191
    else if lead == 244 then 128 <= b <= 143
    else Cont(b)
  }

  /** Bytes of the rune that the lead byte announces; 1 for ASCII and for what is no lead byte. */
  function Announced(lead: Byte): (n: nat)
    ensures 1 <= n <= 4
  {
    if 194 <= lead <= 223 then 2 else if 224 <= lead <= 239 then 3 else if 240 <= lead <= 244 then 4 else 1
  }

  predicate WellFormed(s: seq<Byte>, n: nat) {
    && 2 <= n <= |s| && Second(s[0], s[1]) && (n >= 3 ==> Cont(s[2])) && (n >= 4 ==> Cont(s[3]))
  }

  /** The size of the first rune; an invalid byte counts as a rune of one byte. */
  function RuneSize(s: seq<Byte>): (n: nat)
    requires s != []
    ensures 1 <= n <= |s| && n <= 4
  {
    var n := Announced(s[0]);
    if n >= 2 && WellFormed(s, n) then n else 1
  }

  predicate Invalid(s: seq<Byte>)
    requires s != []
  {
    s[0] >= 128 && RuneSize(s) == 1
  }

  // ---- The escaping ----

  const LINE_SEPARATOR := [226, 128, 168]
  const PARAGRAPH_SEPARATOR := [226, 128, 169]
  const REPLACEMENT := [J.Plain(239), J.Plain(191), J.Plain(189)]

  function HexDigit(n: nat): Byte
    requires n < 16
  {
    if n < 10 then 48 + n else 87 + n
  }

  function PlainUnits(s: seq<Byte>): (us: seq<J.Unit>)
    ensures |us| == |s| && forall i :: 0 <= i < |s| ==> us[i] == J.Plain(s[i])
  {
    seq(|s|, i requires 0 <= i < |s| => J.Plain(s[i]))
  }

  /** One ASCII byte by the case table of jsonStringEscapedLenSlow. */
  function AsciiUnit(c: Byte): J.Unit
    requires c < 128
  {
    if c == 34 || c == 92 then J.Escape(c)
    else if c == 8 then J.Escape(98)
    else if c == 12 then J.Escape(102)
    else if c == 10 then J.Escape(110)
    else if c == 13 then J.Escape(114)
    else if c == 9 then J.Escape(116)
    else if c == 60 || c == 62 || c == 38 || c < 32 then J.Unicode(48, 48, HexDigit(c / 16), HexDigit(c % 16))
    else J.Plain(c)
  }

  /** The first rune of the string, escaped. */
  function RuneUnits(s: seq<Byte>): seq<J.Unit>
    requires s != []
  {
    if s[0] < 128 then [AsciiUnit(s[0])]
    else if Invalid(s) then REPLACEMENT
    else if s[..RuneSize(s)] == LINE_SEPARATOR then [J.Unicode(50, 48, 50, 56)]
    else if s[..RuneSize(s)] == PARAGRAPH_SEPARATOR then [J.Unicode(50, 48, 50, 57)]
    else PlainUnits(s[..RuneSize(s)])
  }

  function Units(s: seq<Byte>): seq<J.Unit> {
    if s == [] then [] else RuneUnits(s) + Units(s[RuneSize(s)..])
  }

  /** The string as it stands between quotes in the audit line. */
  function Escaped(s: seq<Byte>): seq<Byte> {
    J.UnitsText(Units(s))
  }

  // ---- The lengths as the code counts them ----

  /** jsonStringLengthPreservingByte */
  predicate LengthPreserving(c: Byte) {
    32 <= c < 128 && c != 34 && c != 92 && c != 60 && c != 62 && c != 38
  }

  function RuneLen(s: seq<Byte>): nat
    requires s != []
  {
    var c := s[0];
    if c < 128 then
      if c == 34 || c == 92 || c == 8 || c == 12 || c == 10 || c == 13 || c == 9 then 2
      else if c == 60 || c == 62 || c == 38 || c < 32 then 6 else 1
    else if RuneSize(s) == 1 then 3
    else if s[..RuneSize(s)] == LINE_SEPARATOR || s[..RuneSize(s)] == PARAGRAPH_SEPARATOR then 6
    else RuneSize(s)
  }

  function SlowLen(s: seq<Byte>): nat {
    if s == [] then 0 else RuneLen(s) + SlowLen(s[RuneSize(s)..])
  }

  /** jsonStringEscapedLenSlow */
  method EscapedLenSlow(s: seq<Byte>) returns (n: nat)
    ensures n == SlowLen(s)
  {
    hide SlowLen, RuneSize;
    n := 0;
    var i: nat := 0;
    assert s[0..] == s;
    while i < |s|
      invariant i <= |s| && n + SlowLen(s[i..]) == SlowLen(s)
    {
      var c := s[i];
      SlowStep(s, i);
      if c < 128 {
        i := i + 1;
        if c == 34 || c == 92 || c == 8 || c == 12 || c == 10 || c == 13 || c == 9 {
          n := n + 2;
        } else if c == 60 || c == 62 || c == 38 || c < 32 {
          n := n + 6;
        } else {
          n := n + 1;
        }
        continue;
      }
      var rest := s[i..];
      var size := RuneSize(rest);
      var rune := rest[..size];
      i := i + size;
      if size == 1 {
        n := n + 3;
      } else if rune == LINE_SEPARATOR || rune == PARAGRAPH_SEPARATOR {
        n := n + 6;
      } else {
        n := n + size;
      }
    }
    SlowEnd(s[i..]);
  }

  lemma SlowStep(s: seq<Byte>, i: nat)
    requires i < |s|
    ensures s[i..][0] == s[i] && (s[i] < 128 ==> RuneSize(s[i..]) == 1)
    ensures SlowLen(s[i..]) == RuneLen(s[i..]) + SlowLen(s[i + RuneSize(s[i..])..])
  {
    var rest := s[i..];
    assert rest[RuneSize(rest)..] == s[i + RuneSize(rest)..];
  }

  lemma SlowEnd(s: seq<Byte>)
    requires s == []
    ensures SlowLen(s) == 0
  {
  }

  /** jsonStringEscapeFreePrefixLen */
  method EscapeFreePrefixLen(s: seq<Byte>) returns (n: nat)
    ensures n <= |s| && (forall i :: 0 <= i < n ==> LengthPreserving(s[i])) && (n < |s| ==> !LengthPreserving(s[n]))
  {
    for i := 0 to |s|
      invariant forall j :: 0 <= j < i ==> LengthPreserving(s[j])
    {
      if !LengthPreserving(s[i]) {
        return i;
      }
    }
    n := |s|;
  }

  /** jsonStringEscapedLen: the fast prefix and the slow rest together count the escaped text. */
  method EscapedLen(s: seq<Byte>) returns (n: nat)
    ensures n == |Escaped(s)|
  {
    var prefix := EscapeFreePrefixLen(s);
    FastPrefix(s, prefix);
    SlowCountsEscaped(s);
    if prefix == |s| {
      assert s[prefix..] == [];
      return prefix;
    }
    var rest := EscapedLenSlow(s[prefix..]);
    n := prefix + rest;
  }

  lemma {:induction false} FastPrefix(s: seq<Byte>, n: nat)
    requires n <= |s| && forall i :: 0 <= i < n ==> LengthPreserving(s[i])
    ensures SlowLen(s) == n + SlowLen(s[n..])
  {
    if n == 0 {
      assert s[0..] == s;
    } else {
      FastPrefix(s[1..], n - 1);
      assert s[1..][n - 1..] == s[n..];
    }
  }

  lemma {:induction false} UnitsTextJoin(a: seq<J.Unit>, b: seq<J.Unit>)
    ensures J.UnitsText(a + b) == J.UnitsText(a) + J.UnitsText(b)
  {
    if a == [] {
      assert a + b == b;
    } else {
      assert (a + b)[1..] == a[1..] + b;
      UnitsTextJoin(a[1..], b);
    }
  }

  lemma {:induction false} PlainUnitsText(s: seq<Byte>)
    ensures J.UnitsText(PlainUnits(s)) == s
  {
    if s != [] {
      assert PlainUnits(s)[1..] == PlainUnits(s[1..]);
      PlainUnitsText(s[1..]);
    }
  }

  lemma OneUnitText(u: J.Unit)
    ensures J.UnitsText([u]) == J.UnitText(u)
  {
    assert [u][1..] == [];
  }

  lemma RuneText(s: seq<Byte>)
    requires s != []
    ensures |J.UnitsText(RuneUnits(s))| == RuneLen(s)
  {
    if s[0] < 128 {
      OneUnitText(AsciiUnit(s[0]));
    } else if Invalid(s) {
      assert REPLACEMENT == PlainUnits([239, 191, 189]);
      PlainUnitsText([239, 191, 189]);
    } else if s[..RuneSize(s)] == LINE_SEPARATOR {
      OneUnitText(J.Unicode(50, 48, 50, 56));
    } else if s[..RuneSize(s)] == PARAGRAPH_SEPARATOR {
      OneUnitText(J.Unicode(50, 48, 50, 57));
    } else {
      PlainUnitsText(s[..RuneSize(s)]);
    }
  }

  lemma {:induction false} SlowCountsEscaped(s: seq<Byte>)
    ensures SlowLen(s) == |Escaped(s)|
  {
    if s != [] {
      RuneText(s);
      UnitsTextJoin(RuneUnits(s), Units(s[RuneSize(s)..]));
      SlowCountsEscaped(s[RuneSize(s)..]);
    }
  }

  /** The escaping is a JSON string whatever the bytes are. */
  lemma {:induction false} EscapedIsJson(s: seq<Byte>)
    ensures J.GoodUnits(Units(s))
  {
    if s != [] {
      RuneUnitsGood(s);
      EscapedIsJson(s[RuneSize(s)..]);
    }
  }

  lemma RuneUnitsGood(s: seq<Byte>)
    requires s != []
    ensures J.GoodUnits(RuneUnits(s))
  {
    if s[0] >= 128 && !Invalid(s) {
      forall i | 0 <= i < RuneSize(s) ensures s[i] >= 128 {
      }
    }
  }

  // ---- Reading it back (section 7 of RFC 8259) ----

  function HexValue(b: Byte): (n: nat)
    ensures n < 16
  {
    if 48 <= b <= 57 then b - 48 else if 65 <= b <= 70 then b - 55 else if 97 <= b <= 102 then b - 87 else 0
  }

  /** The UTF-8 text of a code point below 65536. */
  function Utf8(code: nat): seq<Byte>
    requires code < 65536
  {
    if code < 128 then [code]
    else if code < 2048 then [192 + code / 64, 128 + code % 64]
    else [224 + code / 4096, 128 + code / 64 % 64, 128 + code % 64]
  }

  function ReadUnit(u: J.Unit): seq<Byte> {
    match u
    case Plain(b) => [b]
    case Escape(b) =>
      [if b == 98 then 8 else if b == 102 then 12 else if b == 110 then 10 else if b == 114 then 13
       else if b == 116 then 9 else b]
    case Unicode(h1, h2, h3, h4) =>
      Utf8(4096 * HexValue(h1) + 256 * HexValue(h2) + 16 * HexValue(h3) + HexValue(h4))
  }

  function ReadUnits(us: seq<J.Unit>): seq<Byte> {
    if us == [] then [] else ReadUnit(us[0]) + ReadUnits(us[1..])
  }

  /** The string with every invalid byte replaced by U+FFFD. */
  function Repaired(s: seq<Byte>): seq<Byte> {
    if s == [] then []
    else (if Invalid(s) then [239, 191, 189] else s[..RuneSize(s)]) + Repaired(s[RuneSize(s)..])
  }

  lemma {:induction false} ReadJoin(a: seq<J.Unit>, b: seq<J.Unit>)
    ensures ReadUnits(a + b) == ReadUnits(a) + ReadUnits(b)
  {
    if a == [] {
      assert a + b == b;
    } else {
      assert (a + b)[1..] == a[1..] + b;
      ReadJoin(a[1..], b);
    }
  }

  lemma {:induction false} ReadPlain(s: seq<Byte>)
    ensures ReadUnits(PlainUnits(s)) == s
  {
    if s != [] {
      assert PlainUnits(s)[1..] == PlainUnits(s[1..]);
      ReadPlain(s[1..]);
    }
  }

  lemma ReadOne(u: J.Unit)
    ensures ReadUnits([u]) == ReadUnit(u)
  {
    assert [u][1..] == [];
  }

  lemma HexReads(c: nat)
    requires c < 256
    ensures HexValue(HexDigit(c / 16)) == c / 16 && HexValue(HexDigit(c % 16)) == c % 16
    ensures 16 * (c / 16) + c % 16 == c
  {
  }

  lemma AsciiReads(c: Byte)
    requires c < 128
    ensures ReadUnit(AsciiUnit(c)) == [c]
  {
    HexReads(c);
  }

  lemma RuneReads(s: seq<Byte>)
    requires s != []
    ensures ReadUnits(RuneUnits(s)) == if Invalid(s) then [239, 191, 189] else s[..RuneSize(s)]
  {
    hide ReadUnit, AsciiUnit;
    if s[0] < 128 {
      AsciiReads(s[0]);
      ReadOne(AsciiUnit(s[0]));
    } else if Invalid(s) {
      assert REPLACEMENT == PlainUnits([239, 191, 189]);
      ReadPlain([239, 191, 189]);
    } else if s[..RuneSize(s)] == LINE_SEPARATOR {
      ReadOne(J.Unicode(50, 48, 50, 56));
      SeparatorsRead();
    } else if s[..RuneSize(s)] == PARAGRAPH_SEPARATOR {
      ReadOne(J.Unicode(50, 48, 50, 57));
      SeparatorsRead();
    } else {
      ReadPlain(s[..RuneSize(s)]);
    }
  }

  lemma SeparatorsRead()
    ensures ReadUnit(J.Unicode(50, 48, 50, 56)) == LINE_SEPARATOR
    ensures ReadUnit(J.Unicode(50, 48, 50, 57)) == PARAGRAPH_SEPARATOR
  {
  }

  /** A reader of the audit line gets the string back, with invalid bytes replaced. */
  lemma {:induction false} EscapedReadsBack(s: seq<Byte>)
    ensures ReadUnits(Units(s)) == Repaired(s)
  {
    hide RuneUnits, Invalid, RuneSize;
    if s != [] {
      RuneReads(s);
      ReadJoin(RuneUnits(s), Units(s[RuneSize(s)..]));
      EscapedReadsBack(s[RuneSize(s)..]);
    }
  }

  // ---- Decode boundaries ----

  /** i is where a rune begins when decoding from the start, or the end. */
  predicate Boundary(s: seq<Byte>, i: nat)
    requires i <= |s|
  {
    i == 0 || (RuneSize(s) <= i && Boundary(s[RuneSize(s)..], i - RuneSize(s)))
  }

  /** The first rune is decided by its own bytes and by what follows not being its continuation. */
  lemma RuneIsLocal(a: seq<Byte>, b: seq<Byte>, c: seq<Byte>)
    requires a != [] && RuneSize(a + b) <= |a| && (c == [] || !Cont(c[0]))
    ensures RuneSize(a + c) == RuneSize(a + b)
    ensures RuneLen(a + c) == RuneLen(a + b) && RuneUnits(a + c) == RuneUnits(a + b)
    ensures (a + c)[RuneSize(a + b)..] == a[RuneSize(a + b)..] + c &&
            (a + b)[RuneSize(a + b)..] == a[RuneSize(a + b)..] + b
  {
    var x, y, n := a + b, a + c, RuneSize(a + b);
    assert x[0] == y[0];
    SameSize(a, b, c);
    assert x[..n] == a[..n] && y[..n] == a[..n];
  }

  lemma SameSize(a: seq<Byte>, b: seq<Byte>, c: seq<Byte>)
    requires a != [] && RuneSize(a + b) <= |a| && (c == [] || !Cont(c[0]))
    ensures RuneSize(a + c) == RuneSize(a + b)
  {
    var x, y := a + b, a + c;
    var m := Announced(a[0]);
    assert x[0] == a[0] && y[0] == a[0];
    if m <= |a| {
      assert forall i :: 0 <= i < m ==> x[i] == a[i] && y[i] == a[i];
    }
  }

  /** Up to a boundary the text decodes the same whatever non-continuation follows. */
  lemma {:induction false} PrefixIsLocal(a: seq<Byte>, b: seq<Byte>, c: seq<Byte>)
    requires Boundary(a + b, |a|) && (c == [] || !Cont(c[0]))
    ensures SlowLen(a + c) == SlowLen(a) + SlowLen(c) && SlowLen(a + b) == SlowLen(a) + SlowLen(b)
    ensures Boundary(a + c, |a|)
    decreases |a|
  {
    if a == [] {
      assert a + b == b && a + c == c;
    } else {
      var n := RuneSize(a + b);
      RuneIsLocal(a, b, c);
      RuneIsLocal(a, b, []);
      assert a + [] == a;
      assert a[n..] + [] == a[n..];
      PrefixIsLocal(a[n..], b, c);
    }
  }

  /** Escaped lengths add up exactly at decode boundaries. */
  lemma AdditiveAtBoundary(s: seq<Byte>, i: nat)
    requires i <= |s| && Boundary(s, i)
    ensures |Escaped(s)| == |Escaped(s[..i])| + |Escaped(s[i..])|
  {
    hide Escaped, Boundary, SlowLen;
    assert s[..i] + s[i..] == s;
    PrefixIsLocal(s[..i], s[i..], []);
    SlowCountsEscaped(s);
    SlowCountsEscaped(s[..i]);
    SlowCountsEscaped(s[i..]);
  }

  // ---- Clipping ----

  const TRUNCATED: seq<Byte> := [46, 46, 46, 91, 84, 82, 85, 78, 67, 65, 84, 69, 68, 93] // ...[TRUNCATED]
  const NEWLINE: seq<Byte> := [10]

  /** auditTruncatedMarker */
  function Marker(): seq<Byte> {
    NEWLINE + TRUNCATED
  }

  lemma {:induction false} BoundaryNext(s: seq<Byte>, i: nat)
    requires i < |s| && Boundary(s, i)
    ensures Boundary(s, i + RuneSize(s[i..]))
    decreases |s|
  {
    hide RuneSize;
    if i > 0 {
      var n := RuneSize(s);
      assert s[n..][i - n..] == s[i..];
      BoundaryNext(s[n..], i - n);
    } else {
      assert s[0..] == s;
      assert Boundary(s[RuneSize(s)..], 0);
    }
  }

  /** Between a boundary and the end of its rune there is no boundary. */
  lemma {:induction false} NoBoundaryInside(s: seq<Byte>, i: nat, j: nat)
    requires i < |s| && Boundary(s, i) && i < j <= |s| && Boundary(s, j)
    ensures i + RuneSize(s[i..]) <= j
    decreases |s|
  {
    hide RuneSize;
    if i > 0 {
      var n := RuneSize(s);
      assert s[n..][i - n..] == s[i..];
      NoBoundaryInside(s[n..], i - n, j - n);
    } else {
      assert s[0..] == s;
    }
  }

  /** snapshotClipEscaped */
  method ClipEscaped(s: seq<Byte>, maxEscaped: int) returns (text: seq<Byte>, clipped: bool, ghost cut: nat)
    ensures !clipped ==> text == s && (maxEscaped <= 0 || |Escaped(s)| <= maxEscaped)
    ensures clipped ==> maxEscaped > 0 && |Escaped(s)| > maxEscaped
    ensures clipped ==> IsClip(s, maxEscaped, cut) && text == s[..cut] + Marker()
  {
    hide ClipAt, IsClip, Escaped, RuneSize, SlowLen, Boundary;
    cut := 0;
    if maxEscaped <= 0 || s == [] {
      NothingEscaped();
      return s, false, 0;
    }
    var used: nat, at: nat := 0, 0;
    NothingClipped(s, maxEscaped);
    while at < |s|
      invariant ClipAt(s, at, used, maxEscaped)
      decreases |s| - at
    {
      var size := RuneSize(s[at..]);
      var esc := EscapedLen(s[at..at + size]);
      if used + esc > maxEscaped {
        ClipHere(s, maxEscaped, at, used, esc);
        return s[..at] + Marker(), true, at;
      }
      ClipStep(s, maxEscaped, at, used, esc);
      used := used + esc;
      at := at + size;
    }
    AllFits(s, maxEscaped, at, used);
    text, clipped := s, false;
  }

  /** The loop stands at a decode boundary; what lies before it has the counted escaped length and fits. */
  predicate ClipAt(s: seq<Byte>, at: nat, used: nat, maxEscaped: int) {
    at <= |s| && Boundary(s, at) && used == SlowLen(s[..at]) && used <= maxEscaped
  }

  lemma AllFits(s: seq<Byte>, maxEscaped: int, at: nat, used: nat)
    requires ClipAt(s, at, used, maxEscaped) && at >= |s|
    ensures |Escaped(s)| <= maxEscaped
  {
    assert s[..at] == s;
    SlowCountsEscaped(s);
  }

  lemma NothingEscaped()
    ensures Escaped([]) == []
  {
  }

  lemma NothingClipped(s: seq<Byte>, maxEscaped: int)
    requires maxEscaped > 0
    ensures ClipAt(s, 0, 0, maxEscaped)
  {
  }

  lemma ClipStep(s: seq<Byte>, maxEscaped: int, at: nat, used: nat, esc: nat)
    requires at < |s| && ClipAt(s, at, used, maxEscaped) && used + esc <= maxEscaped
    requires esc == |Escaped(s[at..at + RuneSize(s[at..])])|
    ensures ClipAt(s, at + RuneSize(s[at..]), used + esc, maxEscaped)
  {
    hide Escaped, Boundary, SlowLen, RuneSize;
    GrowPrefix(s, at);
    SlowCountsEscaped(s[at..at + RuneSize(s[at..])]);
  }

  lemma GrowPrefix(s: seq<Byte>, at: nat)
    requires at < |s| && Boundary(s, at)
    ensures var size := RuneSize(s[at..]);
            && Boundary(s, at + size) && SlowLen(s[..at + size]) == SlowLen(s[..at]) + SlowLen(s[at..at + size])
  {
    hide RuneSize, SlowLen, Boundary;
    var size := RuneSize(s[at..]);
    BoundaryNext(s, at);
    var a, b := s[..at], s[at..at + size];
    BoundaryCut(s, at, at + size);
    assert a + b == s[..at + size];
    PrefixIsLocal(a, b, []);
  }

  /** A boundary of the whole is a boundary of a prefix that ends at a boundary. */
  lemma {:induction false} BoundaryCut(s: seq<Byte>, i: nat, j: nat)
    requires i <= j <= |s| && Boundary(s, i) && Boundary(s, j)
    ensures Boundary(s[..j], i)
    decreases |s|
  {
    if i > 0 {
      var n := RuneSize(s);
      assert s[..j] + s[j..] == s && s[..j] + [] == s[..j];
      RuneIsLocal(s[..j], s[j..], []);
      assert s[..j][n..] == s[n..][..j - n];
      BoundaryCut(s[n..], i - n, j - n);
    }
  }

  /** The cut is the longest prefix at a decode boundary whose escaped length fits. */
  ghost predicate IsClip(s: seq<Byte>, maxEscaped: int, cut: nat) {
    && cut <= |s| && Boundary(s, cut) && |Escaped(s[..cut])| <= maxEscaped
    && forall j :: cut < j <= |s| && Boundary(s, j) ==> |Escaped(s[..j])| > maxEscaped
  }

  lemma {:induction false} LongerIsMore(s: seq<Byte>, i: nat, j: nat)
    requires i <= j <= |s| && Boundary(s, i) && Boundary(s, j)
    ensures SlowLen(s[..i]) <= SlowLen(s[..j])
    decreases j - i
  {
    hide Boundary, SlowLen, RuneSize;
    if i < j {
      NoBoundaryInside(s, i, j);
      GrowPrefix(s, i);
      LongerIsMore(s, i + RuneSize(s[i..]), j);
    }
  }

  lemma ClipHere(s: seq<Byte>, maxEscaped: int, at: nat, used: nat, esc: nat)
    requires at < |s| && ClipAt(s, at, used, maxEscaped) && used + esc > maxEscaped
    requires esc == |Escaped(s[at..at + RuneSize(s[at..])])|
    ensures IsClip(s, maxEscaped, at) && |Escaped(s)| > maxEscaped
  {
    hide Escaped, Boundary, SlowLen, RuneSize;
    var next := at + RuneSize(s[at..]);
    GrowPrefix(s, at);
    SlowCountsEscaped(s[at..next]);
    SlowCountsEscaped(s[..at]);
    forall j | at < j <= |s| && Boundary(s, j) ensures |Escaped(s[..j])| > maxEscaped {
      NoBoundaryInside(s, at, j);
      LongerIsMore(s, next, j);
      SlowCountsEscaped(s[..j]);
    }
    EndIsBoundary(s);
    assert s[..|s|] == s;
  }

  lemma {:induction false} EndIsBoundary(s: seq<Byte>)
    ensures Boundary(s, |s|)
    decreases |s|
  {
    if s != [] {
      EndIsBoundary(s[RuneSize(s)..]);
    }
  }

  lemma NewlineThen(t: seq<Byte>)
    requires forall i :: 0 <= i < |t| ==> LengthPreserving(t[i])
    ensures SlowLen(NEWLINE + t) == 2 + |t|
  {
    var s := NEWLINE + t;
    assert s[0] == 10 && s[1..] == t;
    FastPrefix(t, |t|);
    assert t[|t|..] == [];
  }

  /** The marker is fifteen bytes and sixteen when escaped. */
  lemma MarkerLen()
    ensures |Marker()| == 15 && SlowLen(Marker()) == 16 && !Cont(Marker()[0])
  {
    NewlineThen(TRUNCATED);
  }

  /** Some decode boundary of the text has exactly this escaped length before it. */
  ghost predicate Reaches(s: seq<Byte>, n: int) {
    exists k :: 0 <= k <= |s| && Boundary(s, k) && |Escaped(s[..k])| == n
  }

  lemma CutReachesIff(s: seq<Byte>, maxEscaped: int, cut: nat)
    requires IsClip(s, maxEscaped, cut)
    ensures |Escaped(s[..cut])| == maxEscaped <==> Reaches(s, maxEscaped)
  {
    hide Escaped, Boundary, SlowLen;
    if k :| 0 <= k <= |s| && Boundary(s, k) && |Escaped(s[..k])| == maxEscaped {
      LongerIsMore(s, k, cut);
      SlowCountsEscaped(s[..k]);
      SlowCountsEscaped(s[..cut]);
    }
  }

  lemma MarkedLen(s: seq<Byte>, cut: nat)
    requires cut <= |s| && Boundary(s, cut)
    ensures |Escaped(s[..cut] + Marker())| == |Escaped(s[..cut])| + 16
  {
    MarkerLen();
    hide Marker, SlowLen, Escaped, Boundary;
    var a, b := s[..cut], s[cut..];
    assert a + b == s;
    PrefixIsLocal(a, b, Marker());
    SlowCountsEscaped(a);
    SlowCountsEscaped(a + Marker());
  }

  /** A field clipped at its cap less the marker's raw length: at most one byte above the cap, and above it
      exactly when the text has a decode boundary that fills its share to the last byte. */
  lemma ClippedFieldLen(s: seq<Byte>, limit: int, cut: nat)
    requires IsClip(s, limit - |Marker()|, cut)
    ensures |Escaped(s[..cut] + Marker())| == |Escaped(s[..cut])| + 16
    ensures |Escaped(s[..cut] + Marker())| <= limit + 1
    ensures |Escaped(s[..cut] + Marker())| > limit <==> Reaches(s, limit - 15)
  {
    hide Marker, Escaped, Boundary, Reaches, IsClip, SlowLen;
    MarkerLen();
    ClipFits(s, limit - 15, cut);
    MarkedLen(s, cut);
    CutReachesIff(s, limit - 15, cut);
  }

  lemma ClipFits(s: seq<Byte>, maxEscaped: int, cut: nat)
    requires IsClip(s, maxEscaped, cut)
    ensures cut <= |s| && Boundary(s, cut) && |Escaped(s[..cut])| <= maxEscaped
  {
  }

  predicate PlainText(s: seq<Byte>) {
    forall i :: 0 <= i < |s| ==> LengthPreserving(s[i])
  }

  lemma {:induction false} PlainBoundary(s: seq<Byte>, i: nat)
    requires PlainText(s) && i <= |s|
    ensures Boundary(s, i)
    decreases |s|
  {
    if i > 0 {
      PlainBoundary(s[1..], i - 1);
    }
  }

  lemma PlainLen(s: seq<Byte>)
    requires PlainText(s)
    ensures |Escaped(s)| == |s|
  {
    FastPrefix(s, |s|);
    assert s[|s|..] == [];
    SlowCountsEscaped(s);
  }

  /** The promised cap is broken by every text of harmless bytes that is clipped at all: it ends one byte above. */
  lemma PlainTextEndsAboveCap(s: seq<Byte>, limit: int)
    requires PlainText(s) && 15 < limit < |s| + 15
    ensures IsClip(s, limit - |Marker()|, limit - 15)
    ensures |Escaped(s[..limit - 15] + Marker())| == limit + 1
  {
    MarkerLen();
    var cut := limit - 15;
    PlainBoundary(s, cut);
    PlainLen(s[..cut]);
    forall j | cut < j <= |s| && Boundary(s, j) ensures |Escaped(s[..j])| > cut {
      PlainLen(s[..j]);
    }
    ClippedFieldLen(s, limit, cut);
  }
}
