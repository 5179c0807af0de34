/** From the bytes of a list file to the answer for an address. */
module ListFile {
  import opened Bytes
  import opened IpPrefix
  import opened Aggregate
  import opened Entry
  import opened Lookup

  const NEWLINE: Byte := 10
  const HASH: Byte := 35
  const SEMICOLON: Byte := 59
  const MAX_ENTRIES := 1_000_000

  datatype Line = Line(no: nat, text: seq<Byte>)

  /** bytes.TrimSpace and netip parsing, both library code. */
  datatype TextOps = TextOps(trim: seq<Byte> -> seq<Byte>, parse: seq<Byte> -> Entry)

  // ---- Lines ----

  /** strings.Split(raw, "\n"). */
  function Split(raw: seq<Byte>): (pieces: seq<seq<Byte>>)
    ensures |pieces| >= 1
  {
    if raw == [] then [[]]
    else if raw[0] == NEWLINE then [[]] + Split(raw[1..])
    else
      var rest := Split(raw[1..]);
      [[raw[0]] + rest[0]] + rest[1..]
  }

  predicate IsEntryLine(text: seq<Byte>) {
    |text| > 0 && text[0] != HASH && text[0] != SEMICOLON
  }

  /** Trimmed pieces with their line numbers, blank and comment lines left out. */
  function Filtered(pieces: seq<seq<Byte>>, no: nat, ops: TextOps): seq<Line> {
    if pieces == [] then []
    else
      var text := ops.trim(pieces[0]);
      (if IsEntryLine(text) then [Line(no, text)] else []) + Filtered(pieces[1..], no + 1, ops)
  }

  function EntryLines(raw: seq<Byte>, ops: TextOps): seq<Line> {
    Filtered(Split(raw), 1, ops)
  }

  lemma {:induction false} FilteredAre(pieces: seq<seq<Byte>>, no: nat, ops: TextOps, l: Line)
    ensures l in Filtered(pieces, no, ops) <==>
            && no <= l.no < no + |pieces| && l.text == ops.trim(pieces[l.no - no])
            && l.text != [] && l.text[0] != 35 && l.text[0] != 59
  {
    if pieces != [] {
      FilteredAre(pieces[1..], no + 1, ops, l);
      assert l.no > no && l.no < no + |pieces| ==> pieces[1..][l.no - no - 1] == pieces[l.no - no];
    }
  }

  /** The lines of a file that count are its trimmed lines that are neither blank nor begin with # or ;, each under
      its number in the file. */
  lemma EntryLinesAre(raw: seq<Byte>, ops: TextOps, l: Line)
    ensures l in EntryLines(raw, ops) <==>
            && 1 <= l.no <= |Split(raw)| && l.text == ops.trim(Split(raw)[l.no - 1])
            && l.text != [] && l.text[0] != 35 && l.text[0] != 59
  {
    FilteredAre(Split(raw), 1, ops, l);
  }

  /** The lines a callback sees: up to and including the first on which it answers false. */
  function Through(lines: seq<Line>, visited: nat, fn: (nat, Line) -> bool): seq<Line> {
    if lines == [] then []
    else [lines[0]] + (if fn(visited, lines[0]) then Through(lines[1..], visited + 1, fn) else [])
  }

  method IndexByte(s: seq<Byte>, c: Byte) returns (i: int)
    ensures -1 <= i < |s|
    ensures i >= 0 ==> s[i] == c && c !in s[..i]
    ensures i < 0 ==> c !in s
  {
    i := 0;
    while i < |s|
      invariant 0 <= i <= |s| && c !in s[..i]
    {
      if s[i] == c {
        return;
      }
      i := i + 1;
    }
    i := -1;
  }

  /** fn is told how many lines it saw before; its answer false stops the walk. */
  method ForEachIPListLine(raw: seq<Byte>, ops: TextOps, fn: (nat, Line) -> bool) returns (visited: seq<Line>)
    ensures visited == Through(EntryLines(raw, ops), 0, fn)
  {
    visited := [];
    var lineNo, start := 1, 0;
    while start <= |raw|
      invariant 0 <= start <= |raw| + 1
      invariant Through(EntryLines(raw, ops), 0, fn) ==
                visited + Through(Remaining(raw, start, lineNo, ops), |visited|, fn)
      decreases |raw| + 1 - start
    {
      var line := raw[start..];
      var i := IndexByte(line, NEWLINE);
      NextPiece(raw, start, i, lineNo, ops);
      if i >= 0 {
        line := line[..i];
        start := start + i + 1;
      } else {
        start := |raw| + 1;
      }
      line := ops.trim(line);
      WalkStep(visited, Line(lineNo, line), Remaining(raw, start, lineNo + 1, ops), fn);
      if |line| == 0 || line[0] == HASH || line[0] == SEMICOLON {
        lineNo := lineNo + 1;
        continue;
      }
      var more := fn(|visited|, Line(lineNo, line));
      visited := visited + [Line(lineNo, line)];
      if !more {
        return;
      }
      lineNo := lineNo + 1;
    }
  }

  lemma WalkStep(visited: seq<Line>, line: Line, rest: seq<Line>, fn: (nat, Line) -> bool)
    ensures [] + rest == rest
    ensures visited + Through([line] + rest, |visited|, fn) ==
            visited + [line] + (if fn(|visited|, line) then Through(rest, |visited| + 1, fn) else [])
  {
    assert ([line] + rest)[1..] == rest;
  }

  /** The lines that remain when the walk stands at byte start, the end of input past the last piece. */
  function Remaining(raw: seq<Byte>, start: nat, no: nat, ops: TextOps): seq<Line>
    requires start <= |raw| + 1
  {
    if start <= |raw| then Filtered(Split(raw[start..]), no, ops) else []
  }

  lemma NextPiece(raw: seq<Byte>, start: nat, i: int, no: nat, ops: TextOps)
    requires start <= |raw| && -1 <= i < |raw| - start
    requires i >= 0 ==> raw[start..][i] == NEWLINE && NEWLINE !in raw[start..][..i]
    requires i < 0 ==> NEWLINE !in raw[start..]
    ensures var text := ops.trim(if i >= 0 then raw[start..][..i] else raw[start..]);
            var next := if i >= 0 then start + i + 1 else |raw| + 1;
            Remaining(raw, start, no, ops) ==
            (if IsEntryLine(text) then [Line(no, text)] else []) + Remaining(raw, next, no + 1, ops)
  {
    var line := raw[start..];
    if i >= 0 {
      SplitAtNewline(line, i);
      assert line[i + 1..] == raw[start + i + 1..];
    } else {
      SplitLastLine(line);
      assert Filtered([line], no, ops) ==
             (if IsEntryLine(ops.trim(line)) then [Line(no, ops.trim(line))] else []) + Filtered([], no + 1, ops);
    }
  }

  lemma {:induction false} SplitAtNewline(line: seq<Byte>, i: nat)
    requires i < |line| && line[i] == NEWLINE && NEWLINE !in line[..i]
    ensures Split(line) == [line[..i]] + Split(line[i + 1..])
  {
    if i > 0 {
      assert line[1..][..i - 1] == line[..i][1..];
      assert line[0] in line[..i];
      SplitAtNewline(line[1..], i - 1);
      assert line[1..][i..] == line[i + 1..];
      assert [line[0]] + line[1..][..i - 1] == line[..i];
    }
  }

  lemma {:induction false} SplitLastLine(line: seq<Byte>)
    requires NEWLINE !in line
    ensures Split(line) == [line]
  {
    if line != [] {
      SplitLastLine(line[1..]);
      assert [line[0]] + line[1..] == line;
    }
  }

  // ---- Loading ----

  datatype LoadError = BadLine(no: nat) | TooManyEntries

  datatype Load = Loaded(v4: seq<Prefix>, v6: seq<Prefix>, combined: seq<Prefix>) | Failed(error: LoadError)

  predicate Parses(line: Line, ops: TextOps) {
    ParseIPEntry(ops.parse(line.text)).Ok?
  }

  function PrefixOf(line: Line, ops: TextOps): Prefix {
    match ParseIPEntry(ops.parse(line.text))
    case Ok(p) => p
    case Err => ZERO_PREFIX
  }

  predicate Accepted(lines: seq<Line>, ops: TextOps) {
    |lines| <= MAX_ENTRIES && forall i :: 0 <= i < |lines| ==> Parses(lines[i], ops)
  }

  /** Some line of the file names the address. */
  ghost predicate SomeLineContains(lines: seq<Line>, ops: TextOps, a: Addr) {
    exists i :: 0 <= i < |lines| && LineContains(ops.parse(lines[i].text), a)
  }

  function Prefixes(lines: seq<Line>, ops: TextOps): (ps: seq<Prefix>)
    ensures |ps| == |lines|
    ensures forall i :: 0 <= i < |lines| ==> ps[i] == PrefixOf(lines[i], ops)
  {
    if lines == [] then [] else [PrefixOf(lines[0], ops)] + Prefixes(lines[1..], ops)
  }

  lemma PrefixesWellFormed(lines: seq<Line>, ops: TextOps)
    requires forall i :: 0 <= i < |lines| ==> Parses(lines[i], ops)
    ensures WellFormed(Prefixes(lines, ops))
    ensures forall a :: WellFormedAddr(a) && !Is4In6(a) ==>
              (Covers(Prefixes(lines, ops), a) <==> SomeLineContains(lines, ops, a))
  {
    var ps := Prefixes(lines, ops);
    forall i | 0 <= i < |ps| ensures WellFormedAddr(ps[i].addr) {
      PlainAddressExists();
      EntryMeaning(ops.parse(lines[i].text), Addr(V4, 0));
    }
    forall a | WellFormedAddr(a) && !Is4In6(a) ensures Covers(ps, a) <==> SomeLineContains(lines, ops, a) {
      forall i | 0 <= i < |ps| ensures Contains(ps[i], a) <==> LineContains(ops.parse(lines[i].text), a) {
        EntryMeaning(ops.parse(lines[i].text), a);
      }
      if SomeLineContains(lines, ops, a) {
        var i :| 0 <= i < |lines| && LineContains(ops.parse(lines[i].text), a);
        assert Contains(ps[i], a);
      }
    }
  }

  lemma PlainAddressExists()
    ensures WellFormedAddr(Addr(V4, 0)) && !Is4In6(Addr(V4, 0))
  {
  }

  /** The strict loader's callback. */
  function Strictly(ops: TextOps): (nat, Line) -> bool {
    (n: nat, line: Line) => Parses(line, ops) && n + 1 <= MAX_ENTRIES
  }

  /** Every line but the last one seen was accepted, and an unseen line means the last was not. */
  ghost predicate Stopped(lines: seq<Line>, seen: seq<Line>, visited: nat, ops: TextOps) {
    && seen <= lines
    && (forall i :: 0 <= i < |seen| - 1 ==> Parses(seen[i], ops))
    && (|seen| > 1 ==> visited + |seen| - 1 <= MAX_ENTRIES)
    && (|seen| < |lines| ==> |seen| > 0)
    && (|seen| < |lines| && Parses(seen[|seen| - 1], ops) ==> visited + |seen| > MAX_ENTRIES)
  }

  /** Where the strict loader stops. */
  lemma {:induction false} StopsAtFirstProblem(lines: seq<Line>, visited: nat, ops: TextOps)
    ensures Stopped(lines, Through(lines, visited, Strictly(ops)), visited, ops)
  {
    if lines != [] {
      var more := Strictly(ops)(visited, lines[0]);
      var rest := Through(lines[1..], visited + 1, Strictly(ops));
      if more {
        StopsAtFirstProblem(lines[1..], visited + 1, ops);
        StoppedOneEarlier(lines, rest, visited, ops);
      }
    }
  }

  lemma StoppedOneEarlier(lines: seq<Line>, rest: seq<Line>, visited: nat, ops: TextOps)
    requires lines != [] && Parses(lines[0], ops) && visited + 1 <= MAX_ENTRIES
    requires Stopped(lines[1..], rest, visited + 1, ops)
    ensures Stopped(lines, [lines[0]] + rest, visited, ops)
  {
    var seen := [lines[0]] + rest;
    assert lines == [lines[0]] + lines[1..];
    forall i | 0 <= i < |seen| - 1 ensures Parses(seen[i], ops) {
      assert i > 0 ==> seen[i] == rest[i - 1];
    }
    assert rest != [] ==> seen[|seen| - 1] == rest[|rest| - 1];
  }

  ghost predicate FirstBadLine(lines: seq<Line>, ops: TextOps, i: int) {
    0 <= i < |lines| && i <= MAX_ENTRIES && !Parses(lines[i], ops) && forall j :: 0 <= j < i ==> Parses(lines[j], ops)
  }

  datatype Strict = Lines(prefixes: seq<Prefix>) | Refused(error: LoadError)

  /** What the callback does with the lines it sees. */
  method CollectPrefixes(visited: seq<Line>, ops: TextOps) returns (r: Strict)
    requires |visited| <= MAX_ENTRIES + 1
    ensures r.Lines? <==> Accepted(visited, ops)
    ensures r.Lines? ==> r.prefixes == Prefixes(visited, ops)
    ensures r.Refused? && r.error.BadLine? ==>
              exists i :: FirstBadLine(visited, ops, i) && visited[i].no == r.error.no
    ensures r.Refused? && r.error.TooManyEntries? ==> |visited| > MAX_ENTRIES
  {
    hide ParseIPEntry, Prefixes;
    var prefixes: seq<Prefix> := [];
    NoPrefixes(visited, ops);
    for i := 0 to |visited|
      invariant i <= MAX_ENTRIES
      invariant forall j :: 0 <= j < i ==> Parses(visited[j], ops)
      invariant prefixes == Prefixes(visited[..i], ops)
    {
      var parsed := ParseIPEntry(ops.parse(visited[i].text));
      if parsed.Err? {
        assert FirstBadLine(visited, ops, i);
        return Refused(BadLine(visited[i].no));
      }
      PrefixesAppend(visited, i, ops);
      prefixes := prefixes + [parsed.value];
      if |prefixes| > MAX_ENTRIES {
        return Refused(TooManyEntries);
      }
    }
    assert visited[..|visited|] == visited;
    r := Lines(prefixes);
  }

  /** The strict line loop: every line parses, and no more than MAX_ENTRIES of them. */
  method StrictPrefixes(raw: seq<Byte>, ops: TextOps) returns (r: Strict)
    ensures r.Lines? <==> Accepted(EntryLines(raw, ops), ops)
    ensures r.Lines? ==> r.prefixes == Prefixes(EntryLines(raw, ops), ops)
    ensures r.Refused? && r.error.BadLine? ==>
              exists i :: FirstBadLine(EntryLines(raw, ops), ops, i) && EntryLines(raw, ops)[i].no == r.error.no
    ensures r.Refused? && r.error.TooManyEntries? ==> |EntryLines(raw, ops)| > MAX_ENTRIES
  {
    ghost var lines := EntryLines(raw, ops);
    StopsAtFirstProblem(lines, 0, ops);
    var visited := ForEachIPListLine(raw, ops, Strictly(ops));
    r := CollectPrefixes(visited, ops);
    if r.Refused? && r.error.BadLine? {
      ghost var i :| FirstBadLine(visited, ops, i) && visited[i].no == r.error.no;
      assert FirstBadLine(lines, ops, i) && lines[i] == visited[i];
    }
  }

  /** parseIPListFile after the read: strict lines, aggregation, family split. */
  method ParseIPListFile(raw: seq<Byte>, ops: TextOps) returns (r: Load)
    ensures r.Loaded? <==> Accepted(EntryLines(raw, ops), ops)
    ensures r.Loaded? ==> Canonical(r.v4) && Canonical(r.v6) && Canonical(r.combined) && r.combined == r.v4 + r.v6
    ensures r.Loaded? ==> forall a :: WellFormedAddr(a) && !Is4In6(a) ==>
              (Covers(if a.fam == V6 then r.v6 else r.v4, a) <==> SomeLineContains(EntryLines(raw, ops), ops, a))
    ensures r.Failed? && r.error.BadLine? ==>
              exists i :: FirstBadLine(EntryLines(raw, ops), ops, i) && EntryLines(raw, ops)[i].no == r.error.no
    ensures r.Failed? && r.error.TooManyEntries? ==> |EntryLines(raw, ops)| > MAX_ENTRIES
  {
    var strict: Strict := StrictPrefixes(raw, ops);
    if strict.Refused? {
      return Failed(strict.error);
    }
    PrefixesWellFormed(EntryLines(raw, ops), ops);
    var prefixes := AggregateParsedPrefixes(strict.prefixes);
    var v4, v6 := SplitFamilies(prefixes);
    forall a: Addr ensures Covers(if a.fam == V6 then v6 else v4, a) <==> Covers(prefixes, a) {
      FamilyCovers(v4, v6, a);
    }
    r := Loaded(v4, v6, v4 + v6);
  }

  lemma NoPrefixes(lines: seq<Line>, ops: TextOps)
    ensures Prefixes(lines[..0], ops) == []
  {
  }

  lemma PrefixesAppend(lines: seq<Line>, i: nat, ops: TextOps)
    requires i < |lines|
    ensures Prefixes(lines[..i + 1], ops) == Prefixes(lines[..i], ops) + [PrefixOf(lines[i], ops)]
  {
  }

  /** The order puts every v4 block first, so the split is a cut. */
  method SplitFamilies(ps: seq<Prefix>) returns (v4: seq<Prefix>, v6: seq<Prefix>)
    requires Canonical(ps)
    ensures ps == v4 + v6
    ensures Canonical(v4) && Canonical(v6)
    ensures forall i :: 0 <= i < |v4| ==> v4[i].addr.fam == V4
    ensures forall i :: 0 <= i < |v6| ==> v6[i].addr.fam == V6
  {
    v4, v6 := [], [];
    for i := 0 to |ps|
      invariant ps[..i] == v4 + v6
      invariant forall j :: 0 <= j < |v4| ==> v4[j].addr.fam == V4
      invariant forall j :: 0 <= j < |v6| ==> v6[j].addr.fam == V6
    {
      if v6 != [] {
        assert ps[..i][|v4|] == v6[0];
        V6First(ps, |v4|, i);
      }
      if ps[i].addr.fam == V4 {
        v4 := v4 + [ps[i]];
      } else {
        v6 := v6 + [ps[i]];
      }
      assert ps[..i + 1] == ps[..i] + [ps[i]];
    }
    assert ps[..|ps|] == ps;
    assert v4 == ps[..|v4|] && v6 == ps[|v4|..];
    CanonicalCut(ps, |v4|);
  }

  lemma CanonicalCut(ps: seq<Prefix>, k: nat)
    requires Canonical(ps) && k <= |ps|
    ensures Canonical(ps[..k]) && Canonical(ps[k..])
  {
  }

  lemma V6First(ps: seq<Prefix>, k: nat, i: nat)
    requires Canonical(ps) && k < i < |ps| && ps[k].addr.fam == V6
    ensures ps[i].addr.fam == V6
  {
    assert AddrLess(ps[k].addr, ps[i].addr);
  }

  lemma FamilyCovers(v4: seq<Prefix>, v6: seq<Prefix>, a: Addr)
    requires forall i :: 0 <= i < |v4| ==> v4[i].addr.fam == V4
    requires forall i :: 0 <= i < |v6| ==> v6[i].addr.fam == V6
    ensures Covers(if a.fam == V6 then v6 else v4, a) <==> Covers(v4 + v6, a)
  {
    var all := v4 + v6;
    if i :| 0 <= i < |all| && Contains(all[i], a) {
      assert if i < |v4| then all[i] == v4[i] else all[i] == v6[i - |v4|];
    }
    if i :| 0 <= i < |v4| && Contains(v4[i], a) {
      assert all[i] == v4[i];
    }
    if i :| 0 <= i < |v6| && Contains(v6[i], a) {
      assert all[|v4| + i] == v6[i];
    }
  }

  // ---- Answers ----

  /** The operator's Evaluate for a parsed address and a loaded state. */
  method Evaluate(state: Load, value: Addr) returns (hit: bool)
    requires state.Loaded?
    ensures hit == Hit(if Unmap(value).fam == V6 then state.v6 else state.v4, Unmap(value))
  {
    var addr := Unmap(value);
    var ps := state.v4;
    if addr.fam == V6 {
      ps := state.v6;
    }
    hit := Lookup.Lookup(ps, addr);
  }

  /** End to end: an accepted file answers true exactly when one of its lines names the unmapped address. */
  method FileAnswers(raw: seq<Byte>, ops: TextOps, value: Addr) returns (loaded: bool, hit: bool)
    requires value.fam != Zero && WellFormedAddr(value)
    ensures loaded <==> Accepted(EntryLines(raw, ops), ops)
    ensures loaded ==> (hit <==> SomeLineContains(EntryLines(raw, ops), ops, Unmap(value)))
  {
    var state := ParseIPListFile(raw, ops);
    loaded, hit := state.Loaded?, false;
    if loaded {
      UnmapWellFormed(value);
      CanonicalIsSearchable(state.v4);
      CanonicalIsSearchable(state.v6);
      HitIsLinearScan(if Unmap(value).fam == V6 then state.v6 else state.v4, Unmap(value));
      hit := Evaluate(state, value);
    }
  }

  // ---- The crawler range check: lenient entries, one unsplit list ----

  datatype Verdict = Transient | Verified | Spoof

  ghost predicate SomeEntryContains(entries: seq<Entry>, a: Addr) {
    exists i :: 0 <= i < |entries| && ParseIPEntry(entries[i]).Ok? && LineContains(entries[i], a)
  }

  predicate AnyUsable(entries: seq<Entry>) {
    exists i :: 0 <= i < |entries| && ParseIPEntry(entries[i]).Ok?
  }

  function Usable(entries: seq<Entry>): (ps: seq<Prefix>) {
    if entries == [] then []
    else
      var parsed := ParseIPEntry(entries[|entries| - 1]);
      Usable(entries[..|entries| - 1]) + (if parsed.Ok? then [parsed.value] else [])
  }

  lemma {:induction false} UsableMeaning(entries: seq<Entry>)
    ensures WellFormed(Usable(entries))
    ensures forall i :: 0 <= i < |Usable(entries)| ==> IsMasked(Usable(entries)[i])
    ensures Usable(entries) == [] <==> !AnyUsable(entries)
  {
    if entries != [] {
      var n := |entries| - 1;
      var init := entries[..n];
      UsableMeaning(init);
      assert forall i :: 0 <= i < n ==> init[i] == entries[i];
      var parsed := ParseIPEntry(entries[n]);
      if parsed.Ok? {
        PlainAddressExists();
        EntryMeaning(entries[n], Addr(V4, 0));
      }
    }
  }

  lemma {:induction false} UsableCovers(entries: seq<Entry>, a: Addr)
    requires WellFormedAddr(a) && !Is4In6(a)
    ensures Covers(Usable(entries), a) <==> SomeEntryContains(entries, a)
  {
    if entries != [] {
      var n := |entries| - 1;
      UsableCovers(entries[..n], a);
      OneMoreEntry(entries, a);
      var parsed := ParseIPEntry(entries[n]);
      if parsed.Ok? {
        EntryMeaning(entries[n], a);
        CoversAppend(Usable(entries[..n]), parsed.value, a);
      } else {
        assert Usable(entries) == Usable(entries[..n]);
      }
    }
  }

  lemma OneMoreEntry(entries: seq<Entry>, a: Addr)
    requires |entries| > 0
    ensures var n := |entries| - 1;
            SomeEntryContains(entries, a) <==>
            SomeEntryContains(entries[..n], a) || (ParseIPEntry(entries[n]).Ok? && LineContains(entries[n], a))
  {
    var n := |entries| - 1;
    var t := entries[..n];
    if k :| 0 <= k < |entries| && ParseIPEntry(entries[k]).Ok? && LineContains(entries[k], a) {
      assert k < n ==> t[k] == entries[k];
    }
    if k :| 0 <= k < |t| && ParseIPEntry(t[k]).Ok? && LineContains(t[k], a) {
      assert entries[k] == t[k];
    }
  }

  /** One engine's entries: bad ones are skipped, the rest aggregated. */
  method ParseEngine(entries: seq<Entry>) returns (ps: seq<Prefix>)
    ensures Canonical(ps)
    ensures forall a :: WellFormedAddr(a) && !Is4In6(a) ==> (Covers(ps, a) <==> SomeEntryContains(entries, a))
    ensures ps == [] <==> !AnyUsable(entries)
  {
    var usable: seq<Prefix> := [];
    for i := 0 to |entries|
      invariant usable == Usable(entries[..i])
    {
      var parsed := ParseIPEntry(entries[i]);
      assert entries[..i + 1][..i] == entries[..i];
      if parsed.Err? {
        continue;
      }
      usable := usable + [parsed.value];
    }
    assert entries[..|entries|] == entries;
    UsableMeaning(entries);
    forall a | WellFormedAddr(a) && !Is4In6(a) ensures Covers(usable, a) <==> SomeEntryContains(entries, a) {
      UsableCovers(entries, a);
    }
    ps := AggregateParsedPrefixes(usable);
    SameEmptiness(ps, usable);
  }

  lemma SameEmptiness(ps: seq<Prefix>, qs: seq<Prefix>)
    requires forall i :: 0 <= i < |ps| ==> IsMasked(ps[i])
    requires forall i :: 0 <= i < |qs| ==> IsMasked(qs[i])
    requires forall a :: Covers(ps, a) <==> Covers(qs, a)
    ensures ps == [] <==> qs == []
  {
    if ps != [] {
      assert Contains(ps[0], ps[0].addr);
      assert Covers(qs, ps[0].addr);
    }
    if qs != [] {
      assert Contains(qs[0], qs[0].addr);
      assert Covers(ps, qs[0].addr);
    }
  }

  /** Verdict of the range check on a readable snapshot: addr is None for an unparsable or zoned address. */
  method VerifyIPRange(entries: seq<Entry>, addr: Result<Addr>) returns (v: Verdict)
    requires addr.Ok? ==> addr.value.fam != Zero && WellFormedAddr(addr.value)
    ensures v.Transient? <==> !AnyUsable(entries)
    ensures v.Verified? <==> AnyUsable(entries) && addr.Ok? && SomeEntryContains(entries, Unmap(addr.value))
  {
    var ps := ParseEngine(entries);
    if |ps| == 0 {
      return Transient;
    }
    if addr.Err? {
      return Spoof;
    }
    var ip := Unmap(addr.value);
    UnmapWellFormed(addr.value);
    CanonicalIsSearchable(ps);
    HitIsLinearScan(ps, ip);
    var hit := Lookup.Lookup(ps, ip);
    v := if hit then Verified else Spoof;
  }
}
