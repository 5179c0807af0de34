/** The header table of one audit line: forged marker keys stripped, the largest entries dropped first until
    the rest and a marker fit 64 KiB. */
module AuditHeaders {
  import opened Bytes
  import opened AuditEscape
  import J = AuditJson
  import Sets

  const HEADERS_MAX_BYTES := 65536

  /** `"_lb_dropped_headers":["000000"]` and a comma; the same with nothing in the quotes. */
  const MARKER_RESERVED := 33
  const MARKER_EMPTY := 26
  const RESERVED_DIGITS := 6

  type Key = seq<Byte>
  type Headers = map<Key, seq<seq<Byte>>>

  /** _lb_dropped_headers */
  const DROPPED_KEY: Key := [95, 108, 98, 95, 100, 114, 111, 112, 112, 101, 100, 95, 104, 101, 97, 100, 101, 114, 115]

  datatype KeySize = KeySize(key: Key, size: nat)

  // ---- Sizes ----

  function ValuesSize(vs: seq<seq<Byte>>): nat {
    if vs == [] then 0 else ValuesSize(vs[..|vs| - 1]) + |Escaped(vs[|vs| - 1])| + 2
  }

  /** auditHeaderEntrySerializedBytes */
  function EntrySize(k: Key, vs: seq<seq<Byte>>): nat {
    |Escaped(k)| + 3 + 2 + (if vs == [] then 0 else ValuesSize(vs) + |vs| - 1) + 1
  }

  method EntrySerializedBytes(k: Key, vs: seq<seq<Byte>>) returns (size: nat)
    ensures size == EntrySize(k, vs)
  {
    var key := EscapedLen(k);
    size := key + 3;
    if |vs| == 0 {
      size := size + 2;
    } else {
      size := size + 2;
      for i := 0 to |vs|
        invariant size == |Escaped(k)| + 5 + ValuesSize(vs[..i])
      {
        assert vs[..i + 1][..i] == vs[..i];
        var n := EscapedLen(vs[i]);
        size := size + n + 2;
      }
      assert vs[..|vs|] == vs;
      size := size + |vs| - 1;
    }
    size := size + 1;
  }

  /** Sum of the entry sizes of some keys. */
  ghost function SumOver(m: Headers, keys: set<Key>): nat {
    if keys == {} then 0
    else
      var k :| k in keys;
      (if k in m then EntrySize(k, m[k]) else 0) + SumOver(m, keys - {k})
  }

  lemma {:induction false} SumOverPick(m: Headers, keys: set<Key>, p: Key)
    requires p in keys
    ensures SumOver(m, keys) == (if p in m then EntrySize(p, m[p]) else 0) + SumOver(m, keys - {p})
  {
    hide EntrySize;
    var q :| q in keys && SumOver(m, keys) == (if q in m then EntrySize(q, m[q]) else 0) + SumOver(m, keys - {q});
    if q != p {
      SumOverPick(m, keys - {q}, p);
      SumOverPick(m, keys - {p}, q);
      assert keys - {q} - {p} == keys - {p} - {q};
    }
  }

  lemma {:induction false} SumOverSplit(m: Headers, keys: set<Key>, part: set<Key>)
    requires part <= keys
    ensures SumOver(m, keys) == SumOver(m, part) + SumOver(m, keys - part)
  {
    if part == {} {
      assert keys - part == keys;
    } else {
      var p :| p in part;
      SumOverPick(m, keys, p);
      SumOverPick(m, part, p);
      SumOverSplit(m, keys - {p}, part - {p});
      assert keys - {p} - (part - {p}) == keys - part;
    }
  }

  // ---- The order of dropping ----

  predicate SizesOf(m: Headers, ks: seq<KeySize>) {
    forall i :: 0 <= i < |ks| ==> ks[i].key in m && ks[i].size == EntrySize(ks[i].key, m[ks[i].key])
  }

  ghost predicate Distinct(ks: seq<KeySize>) {
    forall i, j :: 0 <= i < j < |ks| ==> ks[i].key != ks[j].key
  }

  ghost predicate Descending(ks: seq<KeySize>) {
    forall i, j :: 0 <= i < j < |ks| ==> ks[i].size >= ks[j].size
  }

  ghost function KeysOf(ks: seq<KeySize>): set<Key> {
    set i | 0 <= i < |ks| :: ks[i].key
  }

  function Sum(ks: seq<KeySize>): nat {
    if ks == [] then 0 else Sum(ks[..|ks| - 1]) + ks[|ks| - 1].size
  }

  lemma {:induction false} SumFront(ks: seq<KeySize>)
    requires ks != []
    ensures Sum(ks) == ks[0].size + Sum(ks[1..])
  {
    var n := |ks| - 1;
    if n > 0 {
      SumFront(ks[..n]);
      assert ks[..n][1..] == ks[1..][..n - 1];
    }
  }

  lemma InFirst(ks: seq<KeySize>, d: nat, i: nat)
    requires i < d <= |ks|
    ensures ks[i].key in KeysOf(ks[..d])
  {
    assert ks[..d][i].key == ks[i].key;
  }

  lemma KeysFront(ks: seq<KeySize>)
    requires ks != [] && Distinct(ks)
    ensures var n := |ks| - 1; KeysOf(ks) == KeysOf(ks[..n]) + {ks[n].key} && ks[n].key !in KeysOf(ks[..n])
  {
    var n := |ks| - 1;
    forall k ensures k in KeysOf(ks) <==> k in KeysOf(ks[..n]) || k == ks[n].key {
      if k in KeysOf(ks) {
        var i :| 0 <= i < |ks| && ks[i].key == k;
        if i < n {
          InFirst(ks, n, i);
        }
      }
      if k in KeysOf(ks[..n]) {
        var i :| 0 <= i < n && ks[..n][i].key == k;
        assert ks[i].key == k;
      }
    }
  }

  /** A listing of all its keys sums up the table. */
  lemma {:induction false} ListingSums(m: Headers, ks: seq<KeySize>)
    requires SizesOf(m, ks) && Distinct(ks)
    ensures SumOver(m, KeysOf(ks)) == Sum(ks)
  {
    hide EntrySize, KeysOf, SumOver;
    if ks != [] {
      var n := |ks| - 1;
      ListingSums(m, ks[..n]);
      KeysFront(ks);
      SumOverPick(m, KeysOf(ks), ks[n].key);
      assert KeysOf(ks) - {ks[n].key} == KeysOf(ks[..n]);
    } else {
      NoKeys(m);
    }
  }

  lemma NoKeys(m: Headers)
    ensures KeysOf([]) == {} && SumOver(m, {}) == 0
  {
  }

  ghost predicate ListingOk(m: Headers, ks: seq<KeySize>) {
    SizesOf(m, ks) && Distinct(ks) && Descending(ks)
  }

  lemma RestOk(m: Headers, ks: seq<KeySize>)
    requires ListingOk(m, ks) && ks != []
    ensures ListingOk(m, ks[1..])
  {
  }

  lemma OthersInRest(ks: seq<KeySize>, chosen: set<Key>, k: Key)
    requires ks != [] && chosen <= KeysOf(ks) && k in chosen && (ks[0].key in chosen ==> k == ks[0].key)
    ensures chosen - {k} <= KeysOf(ks[1..])
  {
    forall x | x in chosen && x != k ensures x in KeysOf(ks[1..]) {
      var j :| 0 <= j < |ks| && ks[j].key == x;
      assert j > 0 && ks[1..][j - 1].key == x;
    }
  }

  lemma FirstIsLargest(m: Headers, ks: seq<KeySize>, k: Key)
    requires ListingOk(m, ks) && k in KeysOf(ks)
    ensures ks != [] && k in m && EntrySize(k, m[k]) <= ks[0].size
  {
    hide EntrySize;
    var i :| 0 <= i < |ks| && ks[i].key == k;
    assert i > 0 ==> ks[0].size >= ks[i].size;
  }

  /** A chosen entry to exchange for the first of the listing. */
  lemma ChosenFor(m: Headers, ks: seq<KeySize>, chosen: set<Key>) returns (k: Key)
    requires ListingOk(m, ks) && chosen <= KeysOf(ks) && chosen != {}
    ensures ks != [] && k in chosen && k in m && EntrySize(k, m[k]) <= ks[0].size
    ensures chosen - {k} <= KeysOf(ks[1..]) && ListingOk(m, ks[1..])
  {
    hide EntrySize, ListingOk;
    k := AnyOf(chosen);
    FirstIsLargest(m, ks, k);
    if ks[0].key in chosen {
      k := ks[0].key;
      FirstIsLargest(m, ks, k);
    }
    OthersInRest(ks, chosen, k);
    RestOk(m, ks);
  }

  /** Exchange: no choice of at most n entries is larger than the first n of the descending listing. */
  lemma {:induction false} FirstAreLargest(m: Headers, ks: seq<KeySize>, chosen: set<Key>, n: nat)
    requires ListingOk(m, ks) && chosen <= KeysOf(ks) && |chosen| <= n <= |ks|
    ensures SumOver(m, chosen) <= Sum(ks[..n])
    decreases |ks|
  {
    hide EntrySize, ListingOk, KeysOf, SumOver, Sum;
    if chosen == {} {
      NoKeys(m);
    } else {
      var k := ChosenFor(m, ks, chosen);
      SumOverPick(m, chosen, k);
      FirstAreLargest(m, ks[1..], chosen - {k}, n - 1);
      SumFront(ks[..n]);
      assert ks[..n][1..] == ks[1..][..n - 1] && ks[..n][0] == ks[0];
    }
  }

  ghost function AnyOf(s: set<Key>): (k: Key)
    requires s != {}
    ensures k in s
  {
    var k :| k in s;
    k
  }

  // ---- The sort ----

  predicate Before(a: KeySize, b: KeySize) {
    a.size > b.size || (a.size == b.size && KeyLess(a.key, b.key))
  }

  predicate KeyLess(a: Key, b: Key) {
    if b == [] then false else if a == [] then true else a[0] < b[0] || (a[0] == b[0] && KeyLess(a[1..], b[1..]))
  }

  method PlaceFor(r: seq<KeySize>, x: KeySize) returns (at: nat)
    ensures at <= |r| && (at > 0 ==> r[at - 1].size >= x.size)
    ensures forall j :: at <= j < |r| ==> r[j].size <= x.size
  {
    at := |r|;
    while at > 0 && Before(x, r[at - 1])
      invariant at <= |r| && forall j :: at <= j < |r| ==> r[j].size <= x.size
    {
      at := at - 1;
    }
  }

  /** sort.Slice by size, larger first, then by key. */
  method SortBySize(ks: seq<KeySize>) returns (r: seq<KeySize>)
    ensures multiset(r) == multiset(ks) && Descending(r)
  {
    r := [];
    hide Descending;
    assert Descending(r) by { DescendingEmpty(); }
    for i := 0 to |ks|
      invariant multiset(r) == multiset(ks[..i]) && Descending(r)
    {
      var at := PlaceFor(r, ks[i]);
      assert ks[..i + 1] == ks[..i] + [ks[i]];
      InsertedDescends(r, at, ks[i]);
      Inserted(r, at, ks[i]);
      r := r[..at] + [ks[i]] + r[at..];
    }
    assert ks[..|ks|] == ks;
  }

  lemma DescendingEmpty()
    ensures Descending([])
  {
  }

  lemma Inserted(r: seq<KeySize>, at: nat, x: KeySize)
    requires at <= |r|
    ensures multiset(r[..at] + [x] + r[at..]) == multiset(r) + multiset{x}
  {
    assert r == r[..at] + r[at..];
  }

  lemma InsertedDescends(r: seq<KeySize>, at: nat, x: KeySize)
    requires Descending(r) && at <= |r| && (at > 0 ==> r[at - 1].size >= x.size)
    requires forall j :: at <= j < |r| ==> r[j].size <= x.size
    ensures Descending(r[..at] + [x] + r[at..])
  {
  }

  /** A permutation lists the same entries. */
  lemma Permuted(m: Headers, ks: seq<KeySize>, r: seq<KeySize>)
    requires SizesOf(m, ks) && Distinct(ks) && multiset(r) == multiset(ks)
    ensures SizesOf(m, r) && Distinct(r) && KeysOf(r) == KeysOf(ks) && |r| == |ks|
  {
    assert |multiset(r)| == |r| && |multiset(ks)| == |ks|;
    forall i | 0 <= i < |r| ensures r[i].key in m && r[i].size == EntrySize(r[i].key, m[r[i].key]) {
      assert r[i] in multiset(r) && r[i] in ks;
    }
    hide EntrySize;
    forall i, j | 0 <= i < j < |r| ensures r[i].key != r[j].key {
      if r[i].key == r[j].key {
        TwiceInMultiset(r, i, j);
        OnceInDistinct(ks, r[i]);
      }
    }
    forall k ensures k in KeysOf(r) <==> k in KeysOf(ks) {
      SameKeys(r, ks, k);
      SameKeys(ks, r, k);
    }
  }

  lemma SameKeys(a: seq<KeySize>, b: seq<KeySize>, k: Key)
    requires multiset(a) == multiset(b)
    ensures k in KeysOf(a) ==> k in KeysOf(b)
  {
    if k in KeysOf(a) {
      var i :| 0 <= i < |a| && a[i].key == k;
      assert a[i] in multiset(b);
      var j :| 0 <= j < |b| && b[j] == a[i];
    }
  }

  lemma TwiceInMultiset(r: seq<KeySize>, i: nat, j: nat)
    requires i < j < |r| && r[i] == r[j]
    ensures multiset(r)[r[i]] >= 2
  {
    assert r == r[..i] + [r[i]] + r[i + 1..j] + [r[j]] + r[j + 1..];
  }

  lemma {:induction false} OnceInDistinct(ks: seq<KeySize>, x: KeySize)
    requires Distinct(ks)
    ensures multiset(ks)[x] <= 1
  {
    if ks != [] {
      var n := |ks| - 1;
      OnceInDistinct(ks[..n], x);
      assert ks == ks[..n] + [ks[n]];
      assert ks[n] !in ks[..n] by {
        forall i | 0 <= i < n ensures ks[..n][i] != ks[n] {
          assert ks[i].key != ks[n].key;
        }
      }
      assert ks[n] !in multiset(ks[..n]);
    }
  }

  // ---- The snapshot ----

  /** What the snapshot does with the table m: nothing, or a set of keys gives way to a marker. */
  ghost predicate SnapshotOk(m: Headers, out: Headers, total: int) {
    if m == map[] then out == map[] && total == 0
    else if 2 + SumOver(m, m.Keys) <= HEADERS_MAX_BYTES then out == m && total == 2 + SumOver(m, m.Keys)
    else exists gone: set<Key> :: Trimmed(m, out, total, gone)
  }

  /** gone is a smallest choice, taken from the largest entries, that leaves room for the reserved marker. */
  ghost predicate Trimmed(m: Headers, out: Headers, total: int, gone: set<Key>) {
    && gone <= m.Keys && out == (m - gone)[DROPPED_KEY := [J.Decimal(|gone|)]]
    && 2 + SumOver(m, m.Keys - gone) + MARKER_RESERVED <= HEADERS_MAX_BYTES
    && (forall k, j :: k in gone && j in m && j !in gone ==> EntrySize(k, m[k]) >= EntrySize(j, m[j]))
    && (forall fewer :: fewer <= m.Keys && |fewer| < |gone| ==>
        2 + SumOver(m, m.Keys - fewer) + MARKER_RESERVED > HEADERS_MAX_BYTES)
    && total == 2 + SumOver(m, m.Keys - gone) + MARKER_EMPTY + |J.Decimal(|gone|)| + 1
  }

  /** The entries seen so far that are not forged. */
  function Clean(hs: Headers, todo: set<Key>, forged: Key -> bool): Headers {
    map k | k in hs && k !in todo && !forged(k) :: hs[k]
  }

  ghost predicate Listed(m: Headers, keys: seq<KeySize>) {
    SizesOf(m, keys) && Distinct(keys) && KeysOf(keys) == m.Keys
  }

  /** The copying loop without the client's forgeries. */
  method CopyClean(hs: Headers, forged: Key -> bool) returns (out: Headers, keys: seq<KeySize>, total: int)
    ensures out == Clean(hs, {}, forged)
    ensures Listed(out, keys) && total == 2 + SumOver(out, out.Keys)
  {
    hide EntrySize, Listed, Clean, Sum, SumOver;
    out, keys, total := map[], [], 2;
    var todo := hs.Keys;
    NothingCopied(hs, forged);
    while todo != {}
      invariant todo <= hs.Keys && out == Clean(hs, todo, forged)
      invariant Listed(out, keys) && total == 2 + Sum(keys)
      decreases |todo|
    {
      var k :| k in todo;
      CleanStep(hs, todo, k, forged);
      todo := todo - {k};
      if !forged(k) {
        var size := EntrySerializedBytes(k, hs[k]);
        Copied(out, keys, k, hs[k], size);
        out := out[k := hs[k]];
        keys := keys + [KeySize(k, size)];
        total := total + size;
      }
    }
    ListedTotal(out, keys);
  }

  lemma NothingCopied(hs: Headers, forged: Key -> bool)
    ensures Clean(hs, hs.Keys, forged) == map[] && Listed(map[], []) && Sum([]) == 0
  {
  }

  lemma CleanStep(hs: Headers, todo: set<Key>, k: Key, forged: Key -> bool)
    requires k in todo && k in hs
    ensures k !in Clean(hs, todo, forged)
    ensures Clean(hs, todo - {k}, forged) ==
            if forged(k) then Clean(hs, todo, forged) else Clean(hs, todo, forged)[k := hs[k]]
  {
  }

  lemma ListedTotal(m: Headers, keys: seq<KeySize>)
    requires Listed(m, keys)
    ensures SumOver(m, m.Keys) == Sum(keys)
  {
    ListingSums(m, keys);
  }

  lemma Copied(m: Headers, keys: seq<KeySize>, k: Key, vs: seq<seq<Byte>>, size: nat)
    requires Listed(m, keys) && k !in m && size == EntrySize(k, vs)
    ensures var next := keys + [KeySize(k, size)]; Listed(m[k := vs], next) && Sum(next) == Sum(keys) + size
  {
    hide EntrySize;
    var next := keys + [KeySize(k, size)];
    assert next[..|keys|] == keys && next[|keys|].key == k;
    forall i | 0 <= i < |keys| ensures next[i].key in m {
      assert next[i] == keys[i];
    }
    forall x ensures x in KeysOf(next) <==> x in m.Keys + {k} {
      if x in m {
        var i :| 0 <= i < |keys| && keys[i].key == x;
        assert next[i].key == x;
      }
    }
  }

  lemma NothingGone(m: Headers, ks: seq<KeySize>)
    ensures m - KeysOf(ks[..0]) == m && Sum(ks[..0]) == 0
  {
  }

  lemma OneMoreGone(m: Headers, ks: seq<KeySize>, d: nat)
    requires d < |ks|
    ensures Sum(ks[..d + 1]) == Sum(ks[..d]) + ks[d].size
    ensures m - KeysOf(ks[..d + 1]) == m - KeysOf(ks[..d]) - {ks[d].key}
  {
    assert ks[..d + 1][..d] == ks[..d];
    forall k ensures k in KeysOf(ks[..d + 1]) <==> k in KeysOf(ks[..d]) || k == ks[d].key {
      if k in KeysOf(ks[..d]) {
        var i :| 0 <= i < d && ks[..d][i].key == k;
        assert ks[..d + 1][i].key == k;
      }
      assert ks[..d + 1][d].key == ks[d].key;
      if k in KeysOf(ks[..d + 1]) && k != ks[d].key {
        var i :| 0 <= i < d + 1 && ks[..d + 1][i].key == k;
        assert ks[..d][i].key == k;
      }
    }
  }

  lemma {:induction false} KeysCount(ks: seq<KeySize>)
    requires Distinct(ks)
    ensures |KeysOf(ks)| == |ks|
  {
    hide KeysOf;
    if ks != [] {
      KeysCount(ks[..|ks| - 1]);
      KeysFront(ks);
    } else {
      NoKeys(map[]);
    }
  }

  /** The first d of a listing, as a set of keys: how many, and what is left without them. */
  lemma FirstGone(m: Headers, ks: seq<KeySize>, d: nat)
    requires ListingOk(m, ks) && KeysOf(ks) == m.Keys && d <= |ks|
    ensures KeysOf(ks[..d]) <= m.Keys && |KeysOf(ks[..d])| == d
    ensures SumOver(m, m.Keys - KeysOf(ks[..d])) == Sum(ks) - Sum(ks[..d])
  {
    hide EntrySize;
    var first := ks[..d];
    assert SizesOf(m, first) && Distinct(first);
    KeysCount(first);
    forall k | k in KeysOf(first) ensures k in KeysOf(ks) {
      var i :| 0 <= i < d && first[i].key == k;
      assert ks[i].key == k;
    }
    ListingSums(m, ks);
    ListingSums(m, first);
    SumOverSplit(m, m.Keys, KeysOf(first));
  }

  lemma LargestGone(m: Headers, ks: seq<KeySize>, d: nat, k: Key, j: Key)
    requires ListingOk(m, ks) && KeysOf(ks) == m.Keys && d <= |ks| && k in KeysOf(ks[..d]) && j in m &&
             j !in KeysOf(ks[..d])
    ensures k in m && EntrySize(k, m[k]) >= EntrySize(j, m[j])
  {
    hide EntrySize;
    var a :| 0 <= a < d && ks[..d][a].key == k;
    assert j in KeysOf(ks);
    var b :| 0 <= b < |ks| && ks[b].key == j;
    if b < d {
      InFirst(ks, d, b);
    }
    assert ks[a].key == k && ks[a].size >= ks[b].size;
  }

  lemma ListingTotal(m: Headers, ks: seq<KeySize>)
    requires ListingOk(m, ks)
    ensures SumOver(m, KeysOf(ks)) == Sum(ks)
  {
    ListingSums(m, ks);
  }

  lemma FewerDoNotFit(m: Headers, ks: seq<KeySize>, d: nat, fewer: set<Key>)
    requires ListingOk(m, ks) && KeysOf(ks) == m.Keys && 0 < d <= |ks| && fewer <= m.Keys && |fewer| < d
    ensures SumOver(m, m.Keys - fewer) >= Sum(ks) - Sum(ks[..d - 1])
  {
    hide EntrySize, ListingOk, KeysOf, SumOver, Sum;
    ListingTotal(m, ks);
    FirstAreLargest(m, ks, fewer, d - 1);
    SumOverSplit(m, m.Keys, fewer);
  }

  lemma GoneIsMinimal(m: Headers, ks: seq<KeySize>, d: nat, out: Headers, total: int)
    requires ListingOk(m, ks) && KeysOf(ks) == m.Keys && 0 < d <= |ks|
    requires 2 + Sum(ks) - Sum(ks[..d]) + MARKER_RESERVED <= HEADERS_MAX_BYTES
    requires 2 + Sum(ks) - Sum(ks[..d - 1]) + MARKER_RESERVED > HEADERS_MAX_BYTES
    requires out == (m - KeysOf(ks[..d]))[DROPPED_KEY := [J.Decimal(d)]]
    requires total == 2 + Sum(ks) - Sum(ks[..d]) + MARKER_EMPTY + |J.Decimal(d)| + 1
    ensures Trimmed(m, out, total, KeysOf(ks[..d]))
  {
    hide EntrySize, ListingOk, SumOver, KeysOf, Sum;
    FirstGone(m, ks, d);
    var gone := KeysOf(ks[..d]);
    forall k, j | k in gone && j in m && j !in gone ensures EntrySize(k, m[k]) >= EntrySize(j, m[j]) {
      LargestGone(m, ks, d, k, j);
    }
    forall fewer: set<Key> | fewer <= m.Keys && |fewer| < |gone|
      ensures 2 + SumOver(m, m.Keys - fewer) + MARKER_RESERVED > HEADERS_MAX_BYTES
    {
      FewerDoNotFit(m, ks, d, fewer);
    }
  }

  /** The dropping loop over the descending listing. */
  method DropLargest(m: Headers, ks: seq<KeySize>, start: int) returns (out: Headers, total: int, dropped: nat)
    requires ListingOk(m, ks) && KeysOf(ks) == m.Keys && ks != [] && start == 2 + Sum(ks) > HEADERS_MAX_BYTES
    ensures 0 < dropped <= |ks| && out == m - KeysOf(ks[..dropped]) && total == 2 + Sum(ks) - Sum(ks[..dropped])
    ensures total + MARKER_RESERVED <= HEADERS_MAX_BYTES
    ensures 2 + Sum(ks) - Sum(ks[..dropped - 1]) + MARKER_RESERVED > HEADERS_MAX_BYTES
  {
    hide EntrySize, ListingOk, KeysOf, Sum;
    out, total, dropped := m, start, 0;
    NothingGone(m, ks);
    while dropped < |ks|
      invariant dropped <= |ks| && out == m - KeysOf(ks[..dropped]) && total == 2 + Sum(ks) - Sum(ks[..dropped])
      invariant dropped == 0 ==> total > HEADERS_MAX_BYTES
      invariant dropped > 0 ==> 2 + Sum(ks) - Sum(ks[..dropped - 1]) + MARKER_RESERVED > HEADERS_MAX_BYTES
    {
      if total + MARKER_RESERVED <= HEADERS_MAX_BYTES {
        return;
      }
      OneMoreGone(m, ks, dropped);
      out := out - {ks[dropped].key};
      total := total - ks[dropped].size;
      dropped := dropped + 1;
    }
    assert ks[..dropped] == ks;
  }

  /** snapshotAuditHeaders */
  method SnapshotAuditHeaders(hs: Headers, forged: Key -> bool) returns (out: Headers, total: int)
    ensures SnapshotOk(Clean(hs, {}, forged), out, total)
  {
    var keys;
    out, keys, total := CopyClean(hs, forged);
    ghost var clean := out;
    if |out| == 0 {
      return map[], 0;
    }
    if total <= HEADERS_MAX_BYTES {
      return;
    }
    var sorted := SortBySize(keys);
    Permuted(clean, keys, sorted);
    ListingSums(clean, sorted);
    assert sorted != [];
    hide EntrySize, SumOver, KeysOf;
    var dropped;
    out, total, dropped := DropLargest(out, sorted, total);
    var marker := J.Decimal(dropped);
    out := out[DROPPED_KEY := [marker]];
    total := total + MARKER_EMPTY + |marker| + 1;
    GoneIsMinimal(clean, sorted, dropped, out, total);
  }

  lemma {:induction false} DigitsCount(n: nat, digits: nat)
    requires digits >= 1 && n < Power10(digits)
    ensures |J.Digits(n)| <= digits
  {
    if n >= 10 {
      DigitsCount(n / 10, digits - 1);
    }
  }

  function Power10(n: nat): nat {
    if n == 0 then 1 else 10 * Power10(n - 1)
  }

  /** With fewer than a million entries the result fits the cap by the code's own measure, marker included;
      beyond that it may pass it by the digits that the reserved six do not cover. */
  lemma TrimmedFits(m: Headers, out: Headers, total: int, gone: set<Key>, digits: nat)
    requires Trimmed(m, out, total, gone) && digits >= RESERVED_DIGITS && |gone| < Power10(digits)
    ensures total <= HEADERS_MAX_BYTES + (digits - RESERVED_DIGITS)
  {
    DigitsCount(|gone|, digits);
  }

  lemma MillionEntries(m: Headers, out: Headers, total: int)
    requires SnapshotOk(m, out, total) && |m| < 1_000_000
    ensures total <= HEADERS_MAX_BYTES
  {
    if m != map[] && 2 + SumOver(m, m.Keys) > HEADERS_MAX_BYTES {
      var gone: set<Key> :| Trimmed(m, out, total, gone);
      Sets.SubsetSize(gone, m.Keys);
      assert Power10(RESERVED_DIGITS) == 1_000_000;
      TrimmedFits(m, out, total, gone, RESERVED_DIGITS);
    }
  }

  // ---- The measure against the JSON text ----

  function ValueItems(vs: seq<seq<Byte>>): J.Items {
    if vs == [] then J.NoItems else J.Item(J.Str(Units(vs[0])), ValueItems(vs[1..]))
  }

  function Table(m: Headers, ks: seq<KeySize>): J.Members
    requires SizesOf(m, ks)
  {
    if ks == [] then J.NoMembers
    else J.Member(Units(ks[0].key), J.Arr(ValueItems(m[ks[0].key])), Table(m, ks[1..]))
  }

  lemma {:induction false} ValuesFront(vs: seq<seq<Byte>>)
    requires vs != []
    ensures ValuesSize(vs) == |Escaped(vs[0])| + 2 + ValuesSize(vs[1..])
  {
    var n := |vs| - 1;
    if n > 0 {
      ValuesFront(vs[..n]);
      assert vs[..n][1..] == vs[1..][..n - 1];
    }
  }

  lemma {:induction false} ItemsText(vs: seq<seq<Byte>>)
    requires vs != []
    ensures |J.PrintItems(ValueItems(vs))| == ValuesSize(vs) + |vs| - 1
  {
    ValuesFront(vs);
    if |vs| > 1 {
      ItemsText(vs[1..]);
    } else {
      assert vs[1..] == [];
    }
  }

  lemma MemberText(k: Key, vs: seq<seq<Byte>>)
    requires vs != []
    ensures |J.StrText(Units(k))| + 1 + |J.Print(J.Arr(ValueItems(vs)))| + 1 == EntrySize(k, vs)
  {
    ItemsText(vs);
  }

  /** One byte more than the compact JSON text of the table, whatever order its entries are printed in. */
  lemma MeasureIsJsonLength(m: Headers, ks: seq<KeySize>)
    requires SizesOf(m, ks) && ks != [] && forall i :: 0 <= i < |ks| ==> m[ks[i].key] != []
    ensures 2 + Sum(ks) == |J.Print(J.Obj(Table(m, ks)))| + 1
  {
    TableText(m, ks);
  }

  lemma {:induction false} TableText(m: Headers, ks: seq<KeySize>)
    requires SizesOf(m, ks) && ks != [] && forall i :: 0 <= i < |ks| ==> m[ks[i].key] != []
    ensures Sum(ks) == |J.PrintMembers(Table(m, ks))| + 1
  {
    hide EntrySize, Sum, J.Print, J.StrText, ValueItems, Units;
    var rest := ks[1..];
    SumFront(ks);
    MemberText(ks[0].key, m[ks[0].key]);
    if rest != [] {
      TableText(m, rest);
    } else {
      NothingSummed();
    }
  }

  lemma NothingSummed()
    ensures Sum([]) == 0
  {
  }
}
