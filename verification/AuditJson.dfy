/** Byte-level insertion of the timing member into one audit line, against JSON values and their compact
    text (sections 4 to 7 of RFC 8259). */
module AuditJson {
  import opened Bytes
  import opened Options

  const QUOTE: Byte := 34
  const COMMA: Byte := 44
  const COLON: Byte := 58
  const BACKSLASH: Byte := 92
  const OPEN: Byte := 123
  const CLOSE: Byte := 125

  // ---- JSON values and their compact text ----

  /** One character of a string as written. */
  datatype Unit = Plain(b: Byte) | Escape(b: Byte) | Unicode(h1: Byte, h2: Byte, h3: Byte, h4: Byte)

  datatype Json = Word(text: seq<Byte>) | Str(units: seq<Unit>) | Arr(items: Items) | Obj(members: Members)
  datatype Items = NoItems | Item(value: Json, rest: Items)
  datatype Members = NoMembers | Member(key: seq<Unit>, value: Json, rest: Members)

  predicate Hex(b: Byte) {
    48 <= b <= 57 || 65 <= b <= 70 || 97 <= b <= 102
  }

  predicate GoodUnit(u: Unit) {
    match u
    case Plain(b) => b != QUOTE && b != BACKSLASH && b >= 32
    case Escape(b) => b in {34, 92, 47, 98, 102, 110, 114, 116}
    case Unicode(h1, h2, h3, h4) => Hex(h1) && Hex(h2) && Hex(h3) && Hex(h4)
  }

  predicate GoodUnits(us: seq<Unit>) {
    forall i :: 0 <= i < |us| ==> GoodUnit(us[i])
  }

  /** A byte of a number, true, false or null. */
  predicate WordByte(b: Byte) {
    48 <= b <= 57 || b == 43 || b == 45 || b == 46 || b == 69 || 97 <= b <= 122
  }

  predicate GoodWord(text: seq<Byte>) {
    |text| > 0 && forall i :: 0 <= i < |text| ==> WordByte(text[i])
  }

  predicate Good(v: Json) {
    match v
    case Word(text) => GoodWord(text)
    case Str(us) => GoodUnits(us)
    case Arr(items) => GoodItems(items)
    case Obj(members) => GoodMembers(members)
  }

  predicate GoodItems(items: Items) {
    match items
    case NoItems => true
    case Item(v, rest) => Good(v) && GoodItems(rest)
  }

  predicate GoodMembers(members: Members) {
    match members
    case NoMembers => true
    case Member(k, v, rest) => GoodUnits(k) && Good(v) && GoodMembers(rest)
  }

  function UnitText(u: Unit): seq<Byte> {
    match u
    case Plain(b) => [b]
    case Escape(b) => [BACKSLASH, b]
    case Unicode(h1, h2, h3, h4) => [BACKSLASH, 117, h1, h2, h3, h4]
  }

  function UnitsText(us: seq<Unit>): seq<Byte> {
    if us == [] then [] else UnitText(us[0]) + UnitsText(us[1..])
  }

  function StrText(us: seq<Unit>): seq<Byte> {
    [QUOTE] + UnitsText(us) + [QUOTE]
  }

  function Print(v: Json): seq<Byte> {
    match v
    case Word(text) => text
    case Str(us) => StrText(us)
    case Arr(items) => [91] + PrintItems(items) + [93]
    case Obj(members) => [OPEN] + PrintMembers(members) + [CLOSE]
  }

  function PrintItems(items: Items): seq<Byte> {
    match items
    case NoItems => []
    case Item(v, rest) => Print(v) + (if rest.NoItems? then [] else [COMMA] + PrintItems(rest))
  }

  function PrintMembers(members: Members): seq<Byte> {
    match members
    case NoMembers => []
    case Member(k, v, rest) =>
      StrText(k) + [COLON] + Print(v) + (if rest.NoMembers? then [] else [COMMA] + PrintMembers(rest))
  }

  /** The object with one more member at the end. */
  function Append(members: Members, k: seq<Unit>, v: Json): Members {
    match members
    case NoMembers => Member(k, v, NoMembers)
    case Member(k0, v0, rest) => Member(k0, v0, Append(rest, k, v))
  }

  // ---- The scanner ----

  /** depth of braces outside strings, inside a string, after a backslash in it. */
  datatype Scan = Scan(depth: int, inStr: bool, esc: bool)

  function Next(s: Scan, c: Byte): Scan {
    if s.inStr then
      if s.esc then s.(esc := false)
      else if c == BACKSLASH then s.(esc := true)
      else if c == QUOTE then s.(inStr := false)
      else s
    else if c == QUOTE then s.(inStr := true)
    else if c == OPEN then s.(depth := s.depth + 1)
    else if c == CLOSE then s.(depth := s.depth - 1)
    else s
  }

  function After(s: Scan, b: seq<Byte>): Scan {
    if b == [] then s else Next(After(s, b[..|b| - 1]), b[|b| - 1])
  }

  /** A closing brace brings the depth below one before the end, or below zero at the end. */
  predicate FailsAt(b: seq<Byte>, i: nat)
    requires i < |b|
  {
    var s := After(Scan(0, false, false), b[..i]);
    !s.inStr && b[i] == CLOSE && (s.depth - 1 < 0 || (s.depth - 1 == 0 && i != |b| - 1))
  }

  predicate Balanced(b: seq<Byte>) {
    var s := After(Scan(0, false, false), b);
    (forall i :: 0 <= i < |b| ==> !FailsAt(b, i)) && s.depth == 0 && !s.inStr
  }

  /** balancedSingleLineObject */
  method BalancedSingleLineObject(b: seq<Byte>) returns (ok: bool)
    ensures ok == Balanced(b)
  {
    var depth, inStr, esc := 0, false, false;
    for i := 0 to |b|
      invariant Scan(depth, inStr, esc) == After(Scan(0, false, false), b[..i])
      invariant forall j :: 0 <= j < i ==> !FailsAt(b, j)
    {
      var c := b[i];
      assert b[..i + 1][..i] == b[..i] && b[..i + 1][i] == c;
      if inStr {
        if esc {
          esc := false;
        } else if c == BACKSLASH {
          esc := true;
        } else if c == QUOTE {
          inStr := false;
        }
        continue;
      }
      if c == QUOTE {
        inStr := true;
      } else if c == OPEN {
        depth := depth + 1;
      } else if c == CLOSE {
        depth := depth - 1;
        if depth < 0 || (depth == 0 && i != |b| - 1) {
          assert FailsAt(b, i);
          return false;
        }
      }
    }
    assert b[..|b|] == b;
    ok := depth == 0 && !inStr;
  }

  // ---- The insertion ----

  datatype Timing = Timing(preUs: Option<int>, endUs: Option<int>)

  predicate HasAny(t: Timing) {
    t.preUs.Some? || t.endUs.Some?
  }

  function Digits(n: nat): seq<Byte> {
    (if n < 10 then [] else Digits(n / 10)) + [48 + n % 10]
  }

  /** The number that decimal digits stand for. */
  function Value(digits: seq<Byte>): int {
    if digits == [] then 0 else Value(digits[..|digits| - 1]) * 10 + digits[|digits| - 1] - 48
  }

  lemma LastDigit(n: nat)
    ensures 0 <= n % 10 <= 9 && n / 10 * 10 + n % 10 == n
    ensures n >= 10 ==> 0 < n / 10 < n
  {
  }

  lemma ValueNext(digits: seq<Byte>, d: Byte)
    ensures Value(digits + [d]) == Value(digits) * 10 + d - 48
  {
    assert (digits + [d])[..|digits|] == digits;
  }

  /** The decimal text is all digits, has no leading zero, and stands for the number. */
  lemma {:induction false} DigitsAreDecimal(n: nat)
    ensures var d := Digits(n);
            && |d| > 0 && (forall i :: 0 <= i < |d| ==> 48 <= d[i] <= 57)
            && (d[0] == 48 ==> n == 0 && |d| == 1) && Value(d) == n
  {
    hide Value;
    LastDigit(n);
    if n >= 10 {
      DigitsAreDecimal(n / 10);
      ValueNext(Digits(n / 10), 48 + n % 10);
    } else {
      ValueNext([], 48 + n);
      assert [] + [48 + n] == [48 + n];
      ValueOfNone();
    }
  }

  lemma ValueOfNone()
    ensures Value([]) == 0
  {
  }

  /** strconv.AppendInt(…, 10) */
  function Decimal(n: int): seq<Byte> {
    if n < 0 then [45] + Digits(-n) else Digits(n)
  }

  const PRE_NAME := [112, 114, 101, 95, 117, 115] // pre_us
  const END_NAME := [101, 110, 100, 95, 117, 115] // end_us
  const TIMING_NAME := [108, 98, 95, 116, 105, 109, 105, 110, 103] // lb_timing

  /** "name": */
  function KeyText(name: seq<Byte>): seq<Byte> {
    [QUOTE] + name + [QUOTE] + [COLON]
  }

  /** The payload built by injectAuditTiming. */
  function Payload(t: Timing): seq<Byte> {
    [OPEN]
    + (if t.preUs.Some? then KeyText(PRE_NAME) + Decimal(t.preUs.value) + (if t.endUs.Some? then [COMMA] else [])
       else [])
    + (if t.endUs.Some? then KeyText(END_NAME) + Decimal(t.endUs.value) else [])
    + [CLOSE]
  }

  predicate IsBlank(b: Byte) {
    b == 32 || b == 9 || b == 13 || b == 10
  }

  /** bytes.TrimRight(body, " \t\r\n") */
  function TrimRight(b: seq<Byte>): (t: seq<Byte>)
    ensures t <= b
  {
    if b != [] && IsBlank(b[|b| - 1]) then TrimRight(b[..|b| - 1]) else b
  }

  predicate Injectable(trimmed: seq<Byte>) {
    |trimmed| >= 2 && trimmed[0] == OPEN && trimmed[|trimmed| - 1] == CLOSE && Balanced(trimmed)
  }

  /** bytes.TrimSpace leaves nothing: library code, a parameter here. */
  type BlankTest = seq<Byte> -> bool

  function Insert(trimmed: seq<Byte>, t: Timing, blank: BlankTest): seq<Byte>
    requires |trimmed| >= 2
  {
    trimmed[..|trimmed| - 1] + (if blank(trimmed[1..|trimmed| - 1]) then [] else [COMMA])
    + KeyText(TIMING_NAME) + Payload(t) + [CLOSE]
  }

  /** The object with the recorded segments. */
  method BuildPayload(t: Timing) returns (payload: seq<Byte>)
    ensures payload == Payload(t)
  {
    hide KeyText, Decimal;
    payload := [OPEN];
    if t.preUs.Some? {
      payload := payload + KeyText(PRE_NAME) + Decimal(t.preUs.value);
      if t.endUs.Some? {
        payload := payload + [COMMA];
      }
    }
    if t.endUs.Some? {
      payload := payload + KeyText(END_NAME) + Decimal(t.endUs.value);
    }
    payload := payload + [CLOSE];
  }

  /** bytes.TrimRight */
  method TrimBlanks(body: seq<Byte>) returns (trimmed: seq<Byte>)
    ensures trimmed == TrimRight(body)
  {
    var n := |body|;
    while n > 0 && IsBlank(body[n - 1])
      invariant 0 <= n <= |body| && TrimRight(body[..n]) == TrimRight(body[..|body|])
    {
      assert body[..n][..n - 1] == body[..n - 1];
      n := n - 1;
    }
    assert body[..|body|] == body;
    trimmed := body[..n];
  }

  /** injectAuditTiming */
  method InjectAuditTiming(body: seq<Byte>, t: Timing, blank: BlankTest) returns (out: seq<Byte>)
    ensures out == Injected(body, t, blank)
  {
    hide KeyText, Payload, TrimRight, Balanced;
    if !HasAny(t) {
      return body;
    }
    var payload := BuildPayload(t);
    var trimmed := TrimBlanks(body);
    if |trimmed| < 2 || trimmed[0] != OPEN || trimmed[|trimmed| - 1] != CLOSE {
      return body;
    }
    var ok := BalancedSingleLineObject(trimmed);
    if !ok {
      return body;
    }
    out := trimmed[..|trimmed| - 1];
    if !blank(trimmed[1..|trimmed| - 1]) {
      out := out + [COMMA];
    }
    out := out + KeyText(TIMING_NAME) + payload + [CLOSE];
  }

  function Injected(body: seq<Byte>, t: Timing, blank: BlankTest): seq<Byte> {
    var trimmed := TrimRight(body);
    if HasAny(t) && Injectable(trimmed) then Insert(trimmed, t, blank) else body
  }

  // ---- The scanner on compact text ----

  lemma {:induction false} AfterJoin(s: Scan, a: seq<Byte>, b: seq<Byte>)
    ensures After(s, a + b) == After(After(s, a), b)
  {
    if b == [] {
      assert a + b == a;
    } else {
      assert (a + b)[..|a + b| - 1] == a + b[..|b| - 1];
      AfterJoin(s, a, b[..|b| - 1]);
    }
  }

  /** From depth d outside strings the text returns to where it started and no closing brace takes the
      depth below d. */
  ghost predicate Neutral(d: int, b: seq<Byte>) {
    && After(Scan(d, false, false), b) == Scan(d, false, false)
    && forall i :: 0 <= i < |b| ==> StaysAbove(d, b, i)
  }

  predicate StaysAbove(d: int, b: seq<Byte>, i: nat)
    requires i < |b|
  {
    var s := After(Scan(d, false, false), b[..i]);
    !s.inStr && b[i] == CLOSE ==> s.depth > d
  }

  lemma NeutralJoin(d: int, a: seq<Byte>, b: seq<Byte>)
    requires Neutral(d, a) && Neutral(d, b)
    ensures Neutral(d, a + b)
  {
    var s := Scan(d, false, false);
    AfterJoin(s, a, b);
    forall i | 0 <= i < |a + b| ensures StaysAbove(d, a + b, i) {
      if i < |a| {
        assert (a + b)[..i] == a[..i];
        assert StaysAbove(d, a, i);
      } else {
        assert (a + b)[..i] == a + b[..i - |a|];
        AfterJoin(s, a, b[..i - |a|]);
        assert StaysAbove(d, b, i - |a|);
      }
    }
  }

  lemma NeutralOne(d: int, c: Byte)
    requires c != QUOTE && c != OPEN && c != CLOSE
    ensures Neutral(d, [c])
  {
    assert [c][..0] == [];
    assert After(Scan(d, false, false), [c]) == Next(After(Scan(d, false, false), []), c);
  }

  lemma {:induction false} NeutralWord(d: int, text: seq<Byte>)
    requires forall i :: 0 <= i < |text| ==> WordByte(text[i])
    ensures Neutral(d, text)
  {
    if text != [] {
      var n := |text| - 1;
      NeutralWord(d, text[..n]);
      NeutralOne(d, text[n]);
      NeutralJoin(d, text[..n], [text[n]]);
      assert text == text[..n] + [text[n]];
    }
  }

  /** Inside a string the text stays inside it, outside an escape at its end. */
  ghost predicate Quoted(d: int, b: seq<Byte>) {
    && After(Scan(d, true, false), b) == Scan(d, true, false)
    && forall i :: 0 <= i <= |b| ==> InString(d, b, i)
  }

  predicate InString(d: int, b: seq<Byte>, i: nat)
    requires i <= |b|
  {
    After(Scan(d, true, false), b[..i]).inStr
  }

  lemma QuotedJoin(d: int, a: seq<Byte>, b: seq<Byte>)
    requires Quoted(d, a) && Quoted(d, b)
    ensures Quoted(d, a + b)
  {
    var s := Scan(d, true, false);
    AfterJoin(s, a, b);
    forall i | 0 <= i <= |a + b| ensures InString(d, a + b, i) {
      if i <= |a| {
        assert (a + b)[..i] == a[..i];
        assert InString(d, a, i);
      } else {
        assert (a + b)[..i] == a + b[..i - |a|];
        AfterJoin(s, a, b[..i - |a|]);
        assert InString(d, b, i - |a|);
      }
    }
  }

  lemma QuotedOne(d: int, b: Byte)
    requires b != QUOTE && b != BACKSLASH
    ensures Quoted(d, [b])
  {
    var s := Scan(d, true, false);
    assert [b][..0] == [] && [b][..1] == [b];
    assert After(s, [b]) == Next(After(s, []), b);
  }

  lemma QuotedEscape(d: int, b: Byte)
    ensures Quoted(d, [BACKSLASH, b])
  {
    var s, t := Scan(d, true, false), [BACKSLASH, b];
    assert t[..0] == [] && t[..1] == [BACKSLASH] && t[..2] == t;
    assert After(s, [BACKSLASH]) == Next(After(s, []), BACKSLASH);
    assert After(s, t) == Next(After(s, t[..1]), b);
  }

  lemma QuotedUnit(d: int, u: Unit)
    requires GoodUnit(u)
    ensures Quoted(d, UnitText(u))
  {
    match u
    case Plain(b) => QuotedOne(d, b);
    case Escape(b) => QuotedEscape(d, b);
    case Unicode(h1, h2, h3, h4) =>
      QuotedEscape(d, 117);
      QuotedOne(d, h1);
      QuotedOne(d, h2);
      QuotedOne(d, h3);
      QuotedOne(d, h4);
      QuotedJoin(d, [h1], [h2]);
      QuotedJoin(d, [h3], [h4]);
      assert [h1] + [h2] == [h1, h2] && [h3] + [h4] == [h3, h4];
      QuotedJoin(d, [h1, h2], [h3, h4]);
      assert [h1, h2] + [h3, h4] == [h1, h2, h3, h4];
      QuotedJoin(d, [BACKSLASH, 117], [h1, h2, h3, h4]);
      assert UnitText(u) == [BACKSLASH, 117] + [h1, h2, h3, h4];
  }

  lemma {:induction false} QuotedUnits(d: int, us: seq<Unit>)
    requires GoodUnits(us)
    ensures Quoted(d, UnitsText(us))
  {
    if us != [] {
      QuotedUnit(d, us[0]);
      QuotedUnits(d, us[1..]);
      QuotedJoin(d, UnitText(us[0]), UnitsText(us[1..]));
    } else {
      assert UnitsText(us)[..0] == [];
    }
  }

  /** A whole string token: quote, units, quote. */
  lemma NeutralStr(d: int, us: seq<Unit>)
    requires GoodUnits(us)
    ensures Neutral(d, StrText(us))
  {
    QuotedUnits(d, us);
    var s, b, t := Scan(d, false, false), UnitsText(us), StrText(us);
    assert After(s, [QUOTE]) == Next(After(s, []), QUOTE) by {
      assert [QUOTE][..0] == [];
    }
    AfterJoin(s, [QUOTE], b);
    assert t[..|t| - 1] == [QUOTE] + b;
    forall i | 0 <= i < |t| ensures StaysAbove(d, t, i) {
      if i > 0 {
        assert t[..i] == [QUOTE] + b[..i - 1];
        AfterJoin(s, [QUOTE], b[..i - 1]);
        assert InString(d, b, i - 1);
      }
    }
  }

  /** Braces around neutral text: one level deeper inside, back at the end. */
  lemma NeutralBraces(d: int, b: seq<Byte>)
    requires Neutral(d + 1, b)
    ensures Neutral(d, [OPEN] + b + [CLOSE])
    ensures forall i :: 0 < i <= |b| ==> Inside(d, [OPEN] + b + [CLOSE], i)
  {
    var s, t := Scan(d, false, false), [OPEN] + b + [CLOSE];
    assert After(s, [OPEN]) == Next(After(s, []), OPEN) by {
      assert [OPEN][..0] == [];
    }
    AfterJoin(s, [OPEN], b);
    assert t[..|t| - 1] == [OPEN] + b;
    forall i | 0 < i <= |b| ensures Inside(d, t, i) {
      assert t[..i] == [OPEN] + b[..i - 1];
      AfterJoin(s, [OPEN], b[..i - 1]);
      assert StaysAbove(d + 1, b, i - 1);
    }
    forall i | 0 <= i < |t| ensures StaysAbove(d, t, i) {
      assert 0 < i <= |b| ==> Inside(d, t, i);
      assert i == |t| - 1 ==> t[..i] == [OPEN] + b;
    }
  }

  /** A closing brace here leaves at least one level open above d. */
  predicate Inside(d: int, t: seq<Byte>, i: nat)
    requires i < |t|
  {
    var s := After(Scan(d, false, false), t[..i]);
    !s.inStr && t[i] == CLOSE ==> s.depth > d + 1
  }

  lemma {:induction false} NeutralValue(d: int, v: Json)
    requires Good(v)
    ensures Neutral(d, Print(v))
    decreases v
  {
    match v
    case Word(text) => NeutralWord(d, text);
    case Str(us) => NeutralStr(d, us);
    case Arr(items) =>
      NeutralItems(d, items);
      NeutralOne(d, 91);
      NeutralOne(d, 93);
      NeutralJoin(d, [91], PrintItems(items));
      NeutralJoin(d, [91] + PrintItems(items), [93]);
    case Obj(members) =>
      NeutralMembers(d + 1, members);
      NeutralBraces(d, PrintMembers(members));
  }

  lemma {:induction false} NeutralItems(d: int, items: Items)
    requires GoodItems(items)
    ensures Neutral(d, PrintItems(items))
    decreases items
  {
    match items
    case NoItems =>
    case Item(v, rest) =>
      NeutralValue(d, v);
      NeutralItems(d, rest);
      NeutralOne(d, COMMA);
      NeutralJoin(d, [COMMA], PrintItems(rest));
      NeutralJoin(d, Print(v), [COMMA] + PrintItems(rest));
      assert Print(v) + [] == Print(v);
  }

  lemma {:induction false} NeutralMembers(d: int, members: Members)
    requires GoodMembers(members)
    ensures Neutral(d, PrintMembers(members))
    decreases members
  {
    match members
    case NoMembers =>
    case Member(k, v, rest) =>
      NeutralStr(d, k);
      NeutralOne(d, COLON);
      NeutralValue(d, v);
      NeutralMembers(d, rest);
      NeutralOne(d, COMMA);
      var head := StrText(k) + [COLON] + Print(v);
      NeutralJoin(d, StrText(k), [COLON]);
      NeutralJoin(d, StrText(k) + [COLON], Print(v));
      NeutralJoin(d, [COMMA], PrintMembers(rest));
      NeutralJoin(d, head, [COMMA] + PrintMembers(rest));
      assert head + [] == head;
  }

  lemma InsideNeverFails(t: seq<Byte>, i: nat)
    requires i < |t| && (Inside(0, t, i) || (StaysAbove(0, t, i) && (i == 0 || i == |t| - 1))) && t[0] == OPEN
    ensures !FailsAt(t, i)
  {
  }

  /** The scanner accepts the compact text of every object. */
  lemma ObjectIsBalanced(members: Members)
    requires GoodMembers(members)
    ensures Injectable(Print(Obj(members)))
  {
    hide After, Inside, StaysAbove, FailsAt, GoodMembers;
    var b := PrintMembers(members);
    NeutralMembers(1, members);
    NeutralBraces(0, b);
    hide PrintMembers;
    var t := [OPEN] + b + [CLOSE];
    assert Print(Obj(members)) == t;
    forall i | 0 <= i < |t| ensures !FailsAt(t, i) {
      assert 0 < i <= |b| ==> Inside(0, t, i);
      assert StaysAbove(0, t, i);
      InsideNeverFails(t, i);
    }
  }

  // ---- Insertion is appending a member ----

  function Units(text: seq<Byte>): seq<Unit> {
    if text == [] then [] else [Plain(text[0])] + Units(text[1..])
  }

  lemma {:induction false} UnitsPrint(text: seq<Byte>)
    ensures UnitsText(Units(text)) == text
  {
    if text != [] {
      UnitsPrint(text[1..]);
    }
  }

  lemma KeyPrints(name: seq<Byte>)
    ensures StrText(Units(name)) + [COLON] == KeyText(name)
  {
    UnitsPrint(name);
  }

  function EndMember(end: Option<int>, name: seq<Byte>): Members {
    if end.Some? then Member(Units(name), Word(Decimal(end.value)), NoMembers) else NoMembers
  }

  /** The timing as a JSON object: absent segments left out. */
  function TimingValue(t: Timing): Json {
    var end := EndMember(t.endUs, END_NAME);
    Obj(if t.preUs.Some? then Member(Units(PRE_NAME), Word(Decimal(t.preUs.value)), end) else end)
  }

  lemma WordMemberPrints(name: seq<Byte>, text: seq<Byte>, rest: Members)
    ensures PrintMembers(Member(Units(name), Word(text), rest)) ==
            KeyText(name) + text + (if rest.NoMembers? then [] else [COMMA] + PrintMembers(rest))
  {
    KeyPrints(name);
    assert Print(Word(text)) == text;
  }

  lemma PayloadIsPrinted(t: Timing)
    requires HasAny(t)
    ensures Print(TimingValue(t)) == Payload(t)
  {
    hide Decimal, KeyText, Units;
    var pre, end, rest := PRE_NAME, END_NAME, EndMember(t.endUs, END_NAME);
    if t.endUs.Some? {
      WordMemberPrints(end, Decimal(t.endUs.value), NoMembers);
      assert PrintMembers(rest) == KeyText(end) + Decimal(t.endUs.value);
    }
    if t.preUs.Some? {
      WordMemberPrints(pre, Decimal(t.preUs.value), rest);
    }
  }

  lemma {:induction false} AppendPrints(members: Members, k: seq<Unit>, v: Json)
    ensures PrintMembers(Append(members, k, v)) ==
            PrintMembers(members) + (if members.NoMembers? then [] else [COMMA]) + (StrText(k) + [COLON] + Print(v))
  {
    match members
    case NoMembers =>
    case Member(k0, v0, rest) =>
      AppendPrints(rest, k, v);
      assert !Append(rest, k, v).NoMembers?;
  }

  /** TrimSpace of nothing is nothing; a text with a quote in it is not all space. */
  ghost predicate TestsBlank(blank: BlankTest) {
    blank([]) && forall x: seq<Byte> :: QUOTE in x ==> !blank(x)
  }

  lemma TrimsBlanks(b: seq<Byte>, ws: seq<Byte>)
    requires b != [] && !IsBlank(b[|b| - 1]) && forall i :: 0 <= i < |ws| ==> IsBlank(ws[i])
    ensures TrimRight(b + ws) == b
  {
    if ws == [] {
      assert b + ws == b;
    } else {
      assert (b + ws)[..|b + ws| - 1] == b + ws[..|ws| - 1];
      TrimsBlanks(b, ws[..|ws| - 1]);
    }
  }

  lemma QuoteInside(members: Members)
    requires !members.NoMembers?
    ensures QUOTE in PrintMembers(members)
  {
    assert PrintMembers(members)[0] == QUOTE;
  }

  /** For every JSON object, empty or not, and any trailing line blanks, the byte-level insertion yields
      the compact text of the object with one more member, lb_timing, at its end. */
  lemma InsertionAppendsMember(members: Members, ws: seq<Byte>, t: Timing, blank: BlankTest)
    requires GoodMembers(members) && HasAny(t) && TestsBlank(blank) && forall i :: 0 <= i < |ws| ==> IsBlank(ws[i])
    ensures Injected(Print(Obj(members)) + ws, t, blank) ==
            Print(Obj(Append(members, Units(TIMING_NAME), TimingValue(t))))
  {
    hide GoodMembers, Balanced, TrimRight, Payload, TimingValue, KeyText, Units, PrintMembers, Append, Print, StrText;
    var b := PrintMembers(members);
    var text := [OPEN] + b + [CLOSE];
    ObjectPrints(members);
    ObjectIsBalanced(members);
    TrimsBlanks(text, ws);
    assert text[1..|text| - 1] == b && text[..|text| - 1] == [OPEN] + b;
    if members.NoMembers? {
      NothingInside(members);
    } else {
      QuoteInside(members);
    }
    KeyPrints(TIMING_NAME);
    PayloadIsPrinted(t);
    AppendedText(members, Units(TIMING_NAME), TimingValue(t), KeyText(TIMING_NAME), Payload(t));
  }

  lemma ObjectPrints(members: Members)
    ensures Print(Obj(members)) == [OPEN] + PrintMembers(members) + [CLOSE]
  {
  }

  lemma AppendedText(members: Members, k: seq<Unit>, v: Json, key: seq<Byte>, text: seq<Byte>)
    requires StrText(k) + [COLON] == key && Print(v) == text
    ensures Print(Obj(Append(members, k, v))) ==
            [OPEN] + PrintMembers(members) + (if members.NoMembers? then [] else [COMMA]) + key + text + [CLOSE]
  {
    hide PrintMembers, StrText;
    AppendPrints(members, k, v);
  }

  lemma NothingInside(members: Members)
    requires members.NoMembers?
    ensures PrintMembers(members) == []
  {
  }

  /** A line changes exactly when there is something to report and it is, up to trailing blanks, one
      balanced object. */
  lemma ChangedIff(body: seq<Byte>, t: Timing, blank: BlankTest)
    ensures Injected(body, t, blank) != body <==> HasAny(t) && Injectable(TrimRight(body))
  {
    hide Balanced, Payload;
    var trimmed := TrimRight(body);
    if HasAny(t) && Injectable(trimmed) {
      var out := Insert(trimmed, t, blank);
      assert out[|out| - 1] == CLOSE && |out| > |trimmed|;
    }
  }
}
