/** The per-second fuse of the traffic counters: full counting, sampling by eight, fallback, and how far the
    estimate is from the truth. */
module TrafficStats {
  import Sets

  const WORD := 0x1_0000_0000
  const HITS_MASK := 0xffff_ffff
  const FUSE_QPS := 4000
  const SAMPLE_N := 8
  const FALLBACK := 1000
  const COUNTRY_LIMIT := 512

  datatype Count = Count(attack: nat, normal: nat)

  /** packed is (second << 32 | hits) in 64 bits, so only the second's low 32 bits are kept. */
  datatype Stats = Stats(packed: nat, sampleN: nat, countries: map<string, Count>, dropped: nat)

  datatype Bump = Bump(packed: nat, hits: nat, prevHits: nat, rolled: bool)

  datatype Request = Request(country: string, attack: bool, sec: nat)

  function Pack(sec: nat, hits: nat): nat {
    sec % WORD * WORD + hits
  }

  /** trafficBumpSecond as one step. */
  function BumpSecond(packed: nat, sec: nat): Bump {
    var oldSec, oldHits := packed / WORD, packed % WORD;
    if oldSec == sec && oldHits < HITS_MASK then Bump(Pack(sec, oldHits + 1), oldHits + 1, oldHits, false)
    else if oldSec != sec then Bump(Pack(sec, 1), 1, oldHits, true)
    else Bump(packed, oldHits, oldHits, false)
  }

  /** The sampling factor after a request. */
  function NextN(n: nat, b: Bump): nat {
    var fallen := if b.rolled && b.prevHits < FALLBACK then 1 else n;
    var started := if fallen == 0 then 1 else fallen;
    if b.hits == FUSE_QPS + 1 then SAMPLE_N else started
  }

  predicate Counted(n: nat, hits: nat) {
    n <= 1 || hits % n == 0
  }

  function Added(c: Count, attack: bool, n: nat): Count {
    if attack then c.(attack := c.attack + n) else c.(normal := c.normal + n)
  }

  /** trafficRecord for a valid country */
  function Record(s: Stats, q: Request): Stats {
    var b := BumpSecond(s.packed, q.sec);
    var n := NextN(s.sampleN, b);
    var t := s.(packed := b.packed, sampleN := n);
    if !Counted(n, b.hits) then t
    else if q.country in t.countries then
      t.(countries := t.countries[q.country := Added(t.countries[q.country], q.attack, n)])
    else if |t.countries| >= COUNTRY_LIMIT then t.(dropped := t.dropped + 1)
    else t.(countries := t.countries[q.country := Added(Count(0, 0), q.attack, n)])
  }

  class TrafficCounters {
    var packed: nat
    var sampleN: nat
    var countries: map<string, Count>
    var dropped: nat

    function State(): Stats
      reads this
    {
      Stats(packed, sampleN, countries, dropped)
    }

    constructor ()
      ensures State() == Stats(0, 0, map[], 0)
    {
      packed, sampleN, countries, dropped := 0, 0, map[], 0;
    }

    method BumpNow(sec: nat) returns (hits: nat, prevHits: nat, rolled: bool)
      modifies this`packed
      ensures Bump(packed, hits, prevHits, rolled) == BumpSecond(old(packed), sec)
    {
      var oldSec, oldHits := packed / WORD, packed % WORD;
      if oldSec == sec && oldHits < HITS_MASK {
        packed := Pack(sec, oldHits + 1);
        return oldHits + 1, oldHits, false;
      }
      if oldSec != sec {
        packed := Pack(sec, 1);
        return 1, oldHits, true;
      }
      return oldHits, oldHits, false;
    }

    /** The fuse, the fallback and the first start. */
    method AdjustFactor(hits: nat, prevHits: nat, rolled: bool) returns (n: nat)
      modifies this`sampleN
      ensures forall before: nat :: n == sampleN == NextN(old(sampleN), Bump(before, hits, prevHits, rolled))
    {
      if rolled && prevHits < FALLBACK {
        sampleN := 1;
      }
      if sampleN == 0 {
        sampleN := 1;
      }
      if hits == FUSE_QPS + 1 {
        sampleN := SAMPLE_N;
      }
      n := sampleN;
    }

    method RecordRequest(q: Request)
      modifies this
      ensures State() == Record(old(State()), q)
    {
      hide BumpSecond, NextN;
      var hits, prevHits, rolled := BumpNow(q.sec);
      var n := AdjustFactor(hits, prevHits, rolled);
      assert n == NextN(old(sampleN), Bump(packed, hits, prevHits, rolled));
      if n > 1 && hits % n != 0 {
        return;
      }
      if q.country !in countries {
        if |countries| >= COUNTRY_LIMIT {
          dropped := dropped + 1;
          return;
        }
        countries := countries[q.country := Count(0, 0)];
      }
      countries := countries[q.country := Added(countries[q.country], q.attack, n)];
    }
  }

  // ---- The estimate ----

  /** Everything counted so far, over all countries and both counters. */
  ghost function TotalOf(m: map<string, Count>): nat {
    if m == map[] then 0
    else
      var k :| k in m;
      m[k].attack + m[k].normal + TotalOf(m - {k})
  }

  lemma {:induction false} TotalPick(m: map<string, Count>, k: string)
    requires k in m
    ensures TotalOf(m) == m[k].attack + m[k].normal + TotalOf(m - {k})
  {
    var p :| p in m && TotalOf(m) == m[p].attack + m[p].normal + TotalOf(m - {p});
    if p != k {
      TotalPick(m - {p}, k);
      TotalPick(m - {k}, p);
      assert m - {p} - {k} == m - {k} - {p};
    }
  }

  lemma TotalAdd(m: map<string, Count>, k: string, attack: bool, n: nat)
    ensures TotalOf(m[k := Added(if k in m then m[k] else Count(0, 0), attack, n)]) == TotalOf(m) + n
  {
    var t := m[k := Added(if k in m then m[k] else Count(0, 0), attack, n)];
    TotalPick(t, k);
    if k in m {
      TotalPick(m, k);
      assert t - {k} == m - {k};
    } else {
      assert t - {k} == m;
    }
  }

  function RecordAll(s: Stats, qs: seq<Request>): Stats {
    if qs == [] then s else Record(RecordAll(s, qs[..|qs| - 1]), qs[|qs| - 1])
  }

  predicate StatsOk(s: Stats) {
    s.packed < WORD * WORD && (s.sampleN == 0 || s.sampleN == 1 || s.sampleN == SAMPLE_N)
  }

  /** The counters do not stand in this second, or nothing was counted in it yet. */
  predicate Fresh(s: Stats, sec: nat) {
    s.packed / WORD != sec || s.packed % WORD == 0
  }

  /** The country table has room for all of these. */
  predicate Roomy(m: map<string, Count>, names: set<string>) {
    |m.Keys + names| <= COUNTRY_LIMIT
  }

  /** With room, a counted request adds its factor to the total and an uncounted one adds nothing. */
  lemma RecordTotal(s: Stats, q: Request, names: set<string>)
    requires Roomy(s.countries, names) && q.country in names
    ensures var b := BumpSecond(s.packed, q.sec); var n := NextN(s.sampleN, b); var t := Record(s, q);
            && Roomy(t.countries, names)
            && TotalOf(t.countries) == TotalOf(s.countries) + (if Counted(n, b.hits) then n else 0)
  {
    hide BumpSecond, TotalOf;
    var b := BumpSecond(s.packed, q.sec);
    var n := NextN(s.sampleN, b);
    if Counted(n, b.hits) {
      TotalAdd(s.countries, q.country, q.attack, n);
      if q.country !in s.countries {
        assert s.countries.Keys + {q.country} <= s.countries.Keys + names;
        Sets.SubsetSize(s.countries.Keys + {q.country}, s.countries.Keys + names);
      }
      assert Record(s, q).countries.Keys + names == s.countries.Keys + names;
    }
  }

  lemma Unpack(sec: nat, hits: nat)
    requires hits < WORD
    ensures Pack(sec, hits) / WORD == sec % WORD && Pack(sec, hits) % WORD == hits && Pack(sec, hits) < WORD * WORD
  {
  }

  /** The first request of a run of this second is counted in full: no sampling was on, or the second before it
      had fewer than 1000 hits. */
  predicate StartsFull(s: Stats, sec: nat) {
    s.sampleN != SAMPLE_N || (s.packed / WORD != sec && s.packed % WORD < FALLBACK)
  }

  /** What request number h of a run adds to the counters. A second beyond 32 bits never equals what the word
      kept of it, so each of its requests starts a second of one hit. */
  function Weight(full: bool, sec: nat, h: nat): nat {
    if sec >= WORD then (if full || h > 1 then 1 else 0)
    else if full && h <= FUSE_QPS then 1
    else if h % SAMPLE_N == 0 then SAMPLE_N
    else 0
  }

  /** What h requests of a run add together. */
  function Estimate(full: bool, sec: nat, h: nat): nat {
    if sec >= WORD then (if full || h == 0 then h else h - 1)
    else if full && h <= FUSE_QPS then h
    else h - h % SAMPLE_N
  }

  /** After h > 0 requests of one second. */
  predicate InRun(s: Stats, full: bool, sec: nat, h: nat) {
    && StatsOk(s) && h > 0
    && if sec < WORD then
         s.packed == Pack(sec, h) && s.sampleN == if full && h <= FUSE_QPS then 1 else SAMPLE_N
       else
         s.packed == Pack(sec, 1) && s.sampleN == if full || h > 1 then 1 else SAMPLE_N
  }

  lemma Multiple8(h: nat)
    ensures (h + 1) % SAMPLE_N == 0 <==> h % SAMPLE_N == SAMPLE_N - 1
    ensures (h + 1) % SAMPLE_N != 0 ==> (h + 1) % SAMPLE_N == h % SAMPLE_N + 1
  {
  }

  /** What one request adds, as the packed word and the factor say. */
  function Share(s: Stats, q: Request): nat {
    var b := BumpSecond(s.packed, q.sec);
    var n := NextN(s.sampleN, b);
    if Counted(n, b.hits) then n else 0
  }

  lemma FirstOfRun(s: Stats, q: Request)
    requires StatsOk(s) && Fresh(s, q.sec)
    ensures var full := StartsFull(s, q.sec);
            InRun(Record(s, q), full, q.sec, 1) && Share(s, q) == Weight(full, q.sec, 1)
  {
    RecordMoves(s, q);
    Unpack(q.sec, 1);
  }

  lemma RecordMoves(s: Stats, q: Request)
    ensures var b, t := BumpSecond(s.packed, q.sec), Record(s, q);
            t.packed == b.packed && t.sampleN == NextN(s.sampleN, b)
  {
    hide BumpSecond, NextN;
  }

  lemma BumpGoesOn(sec: nat, h: nat)
    requires sec < WORD && h < HITS_MASK
    ensures BumpSecond(Pack(sec, h), sec) == Bump(Pack(sec, h + 1), h + 1, h, false)
  {
    Unpack(sec, h);
  }

  /** A second beyond 32 bits never equals what the word kept of it: every request starts anew. */
  lemma BumpStartsAnew(sec: nat)
    requires sec >= WORD
    ensures BumpSecond(Pack(sec, 1), sec) == Bump(Pack(sec, 1), 1, 1, true)
  {
    Unpack(sec, 1);
  }

  lemma NextOfRun(s: Stats, q: Request, full: bool, h: nat)
    requires InRun(s, full, q.sec, h) && h < HITS_MASK
    ensures InRun(Record(s, q), full, q.sec, h + 1) && Share(s, q) == Weight(full, q.sec, h + 1)
  {
    hide Record, Pack, BumpSecond;
    RecordMoves(s, q);
    if q.sec < WORD {
      BumpGoesOn(q.sec, h);
      Packed(q.sec, h + 1);
      Multiple8(h);
    } else {
      BumpStartsAnew(q.sec);
    }
  }

  lemma Packed(sec: nat, hits: nat)
    requires hits < WORD
    ensures Pack(sec, hits) < WORD * WORD
  {
    Unpack(sec, hits);
  }

  /** A run of requests that share one second value, from a fresh start. */
  predicate RunOf(s: Stats, qs: seq<Request>, sec: nat) {
    qs != [] && |qs| < HITS_MASK && Fresh(s, sec) && forall i :: 0 <= i < |qs| ==> qs[i].sec == sec
  }

  lemma {:induction false} RunGoes(s: Stats, qs: seq<Request>, sec: nat)
    requires StatsOk(s) && RunOf(s, qs, sec)
    ensures InRun(RecordAll(s, qs), StartsFull(s, sec), sec, |qs|)
  {
    hide Record, InRun, StartsFull;
    var n := |qs| - 1;
    if n == 0 {
      assert qs[..0] == [];
      FirstOfRun(s, qs[0]);
    } else {
      RunGoes(s, qs[..n], sec);
      NextOfRun(RecordAll(s, qs[..n]), qs[n], StartsFull(s, sec), n);
    }
  }

  /** What request number h adds when it comes. */
  lemma ShareOfRun(s: Stats, qs: seq<Request>, sec: nat)
    requires StatsOk(s) && RunOf(s, qs, sec)
    ensures Share(RecordAll(s, qs[..|qs| - 1]), qs[|qs| - 1]) == Weight(StartsFull(s, sec), sec, |qs|)
  {
    hide Record, InRun, StartsFull, Share, Weight;
    var n := |qs| - 1;
    if n == 0 {
      assert qs[..0] == [];
      FirstOfRun(s, qs[0]);
    } else {
      RunGoes(s, qs[..n], sec);
      NextOfRun(RecordAll(s, qs[..n]), qs[n], StartsFull(s, sec), n);
    }
  }

  lemma EstimateNext(full: bool, sec: nat, h: nat)
    ensures Estimate(full, sec, h + 1) == Estimate(full, sec, h) + Weight(full, sec, h + 1)
  {
    Multiple8(h);
  }

  lemma EstimateNone(full: bool, sec: nat)
    ensures Estimate(full, sec, 0) == 0
  {
  }

  lemma {:induction false} RunTotal(s: Stats, qs: seq<Request>, sec: nat, names: set<string>)
    requires StatsOk(s) && (qs == [] || RunOf(s, qs, sec)) && Roomy(s.countries, names)
    requires forall i :: 0 <= i < |qs| ==> qs[i].country in names
    ensures var t := RecordAll(s, qs);
            && TotalOf(t.countries) == TotalOf(s.countries) + Estimate(StartsFull(s, sec), sec, |qs|)
            && Roomy(t.countries, names)
  {
    hide Record, TotalOf, Roomy, StartsFull, Estimate, Weight;
    var full := StartsFull(s, sec);
    if qs == [] {
      EstimateNone(full, sec);
    } else {
      var n := |qs| - 1;
      var init := qs[..n];
      assert init == [] || RunOf(s, init, sec);
      RunTotal(s, init, sec, names);
      RecordTotal(RecordAll(s, init), qs[n], names);
      ShareOfRun(s, qs, sec);
      EstimateNext(full, sec, n);
    }
  }

  /** Each run of requests sharing one second value is estimated at its true number while it is counted in full,
      and at that number rounded down to a multiple of eight when it is sampled: at most seven less, across full
      counting, the fuse, sampling and fallback, for any second value. It starts in full unless sampling was on
      and the second before had a thousand hits or more. */
  lemma RunEstimate(s: Stats, qs: seq<Request>, sec: nat, names: set<string>)
    requires StatsOk(s) && RunOf(s, qs, sec) && Roomy(s.countries, names)
    requires forall i :: 0 <= i < |qs| ==> qs[i].country in names
    ensures var t, full, n := RecordAll(s, qs), StartsFull(s, sec), |qs|;
            var est := TotalOf(t.countries) - TotalOf(s.countries);
            && n - 7 <= est <= n
            && (sec < WORD ==> est == if full && n <= 4000 then n else n - n % 8)
            && (sec >= WORD ==> est == if full then n else n - 1)
            && StatsOk(t) && t.packed / WORD == sec % WORD && Roomy(t.countries, names)
  {
    hide TotalOf, RecordAll, StartsFull;
    RunTotal(s, qs, sec, names);
    RunGoes(s, qs, sec);
    Unpack(sec, if sec < WORD then |qs| else 1);
  }

  // ---- By country and kind ----

  function CountOf(m: map<string, Count>, country: string, attack: bool): nat {
    if country !in m then 0 else if attack then m[country].attack else m[country].normal
  }

  lemma RecordCount(s: Stats, q: Request, names: set<string>, country: string, attack: bool)
    requires Roomy(s.countries, names) && q.country in names
    ensures CountOf(Record(s, q).countries, country, attack) ==
            CountOf(s.countries, country, attack)
              + (if q.country == country && q.attack == attack then Share(s, q) else 0)
    ensures Record(s, q).dropped == s.dropped
  {
    hide BumpSecond, NextN;
    if q.country !in s.countries {
      assert s.countries.Keys + {q.country} <= s.countries.Keys + names;
      Sets.SubsetSize(s.countries.Keys + {q.country}, s.countries.Keys + names);
    }
  }

  /** A new country that finds the table full changes no counter, and is counted as dropped if it would have
      been counted. */
  lemma FullTableDrops(s: Stats, q: Request)
    requires |s.countries| >= 512 && q.country !in s.countries
    ensures var t := Record(s, q);
            t.countries == s.countries && t.dropped == s.dropped + if Share(s, q) > 0 then 1 else 0
  {
    hide BumpSecond;
  }

  /** The weights of a run's requests from one country and of one kind. */
  function Tally(qs: seq<Request>, full: bool, country: string, attack: bool): nat {
    if qs == [] then 0
    else
      var q := qs[|qs| - 1];
      Tally(qs[..|qs| - 1], full, country, attack)
        + (if q.country == country && q.attack == attack then Weight(full, q.sec, |qs|) else 0)
  }

  /** Every country's attack and normal counters grow by the weights of its own requests of that kind, and by
      nothing else; while there is room no request is dropped. */
  lemma {:induction false} RunByCountry(s: Stats, qs: seq<Request>, sec: nat, names: set<string>, country: string,
                                        attack: bool)
    requires StatsOk(s) && (qs == [] || RunOf(s, qs, sec)) && Roomy(s.countries, names)
    requires forall i :: 0 <= i < |qs| ==> qs[i].country in names
    ensures var t := RecordAll(s, qs);
            && CountOf(t.countries, country, attack) ==
               CountOf(s.countries, country, attack) + Tally(qs, StartsFull(s, sec), country, attack)
            && t.dropped == s.dropped
  {
    hide Record, CountOf, Roomy, StartsFull, Weight, Share;
    if qs != [] {
      var n := |qs| - 1;
      var init := qs[..n];
      assert init == [] || RunOf(s, init, sec);
      RunByCountry(s, init, sec, names, country, attack);
      RunTotal(s, init, sec, names);
      RecordCount(RecordAll(s, init), qs[n], names, country, attack);
      ShareOfRun(s, qs, sec);
    }
  }

  /** The requests from one country and of one kind. */
  function Matching(qs: seq<Request>, country: string, attack: bool): seq<Request> {
    if qs == [] then []
    else
      var q := qs[|qs| - 1];
      Matching(qs[..|qs| - 1], country, attack) + (if q.country == country && q.attack == attack then [q] else [])
  }

  lemma FullWeight(sec: nat, h: nat)
    requires h <= FUSE_QPS
    ensures Weight(true, sec, h) == 1
  {
  }

  /** A run counted in full counts each country's attacks and its other requests exactly. */
  lemma {:induction false} FullTally(qs: seq<Request>, country: string, attack: bool)
    requires |qs| <= FUSE_QPS
    ensures Tally(qs, true, country, attack) == |Matching(qs, country, attack)|
  {
    hide Weight;
    if qs != [] {
      FullTally(qs[..|qs| - 1], country, attack);
      FullWeight(qs[|qs| - 1].sec, |qs|);
    }
  }

  // ---- Many runs ----

  function RunsFrom(s: Stats, runs: seq<seq<Request>>): Stats {
    if runs == [] then s else RecordAll(RunsFrom(s, runs[..|runs| - 1]), runs[|runs| - 1])
  }

  function Requests(runs: seq<seq<Request>>): nat {
    if runs == [] then 0 else Requests(runs[..|runs| - 1]) + |runs[|runs| - 1]|
  }

  /** Each run has one second value, and it differs from what the packed word kept of the one before. */
  ghost predicate RunsOf(first: Stats, runs: seq<seq<Request>>, names: set<string>) {
    && (forall i :: 0 <= i < |runs| ==> OneSecond(runs[i], names))
    && (runs != [] ==> Fresh(first, runs[0][0].sec))
    && (forall i :: 0 < i < |runs| ==> runs[i][0].sec != runs[i - 1][0].sec % WORD)
  }

  predicate OneSecond(qs: seq<Request>, names: set<string>) {
    qs != [] && |qs| < HITS_MASK && forall i :: 0 <= i < |qs| ==> qs[i].sec == qs[0].sec && qs[i].country in names
  }

  /** Over all runs the estimate is never above the truth and at most seven per run below it. */
  lemma {:induction false} TotalError(s: Stats, runs: seq<seq<Request>>, names: set<string>)
    requires StatsOk(s) && RunsOf(s, runs, names) && Roomy(s.countries, names)
    ensures var t := RunsFrom(s, runs);
            && Requests(runs) - 7 * |runs| <= TotalOf(t.countries) - TotalOf(s.countries) <= Requests(runs)
            && StatsOk(t) && Roomy(t.countries, names)
            && (runs != [] ==> t.packed / WORD == runs[|runs| - 1][0].sec % WORD)
  {
    hide TotalOf, RecordAll, Roomy, StatsOk;
    if runs != [] {
      var n := |runs| - 1;
      assert RunsOf(s, runs[..n], names);
      TotalError(s, runs[..n], names);
      var t, qs := RunsFrom(s, runs[..n]), runs[n];
      assert OneSecond(qs, names);
      assert Fresh(t, qs[0].sec);
      RunEstimate(t, qs, qs[0].sec, names);
    }
  }
}
