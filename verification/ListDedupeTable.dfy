/** The migration over mutable tables: its loops build the plan, the merge and the rewritten references that
    ListDedupe specifies. */
module ListDedupeTable {
  import opened Options
  import opened ListDedupe

  lemma LeastIs(m: int, s: set<int>)
    requires IsLeast(m, s)
    ensures s != {} && Least(s) == m
  {
  }

  method LeastOf(s: set<int>) returns (m: int)
    requires s != {}
    ensures m == Least(s)
  {
    m := SomeOf(s);
    var todo := s;
    while todo != {}
      invariant todo <= s && m in s
      invariant forall x :: x in s && x !in todo ==> m <= x
      decreases |todo|
    {
      var x := SomeOf(todo);
      m := if x < m then x else m;
      todo := todo - {x};
    }
    LeastIs(m, s);
  }

  method SomeOf(s: set<int>) returns (x: int)
    requires s != {}
    ensures x in s
  {
    ghost var w := SomeMember(s);
    x :| x in s;
  }

  lemma AscendingStep(s: set<int>)
    requires s != {}
    ensures Ascending(s) == [Least(s)] + Ascending(s - {Least(s)})
  {
  }

  /** slices.Sort of ids that are all different. */
  method Sorted(s: set<int>) returns (r: seq<int>)
    ensures r == Ascending(s)
  {
    hide Ascending, Least;
    var todo := s;
    r := [];
    assert [] + Ascending(s) == Ascending(s);
    while todo != {}
      invariant r + Ascending(todo) == Ascending(s)
      decreases |todo|
    {
      var m := LeastOf(todo);
      AscendingStep(todo);
      assert r + ([m] + Ascending(todo - {m})) == r + [m] + Ascending(todo - {m});
      r := r + [m];
      todo := todo - {m};
    }
    assert Ascending(todo) == [];
    assert r + [] == r;
  }

  function OfName(lists: map<int, Row>, listing: seq<int>, name: string): seq<int> {
    if listing == [] then []
    else
      var last := listing[|listing| - 1];
      OfName(lists, listing[..|listing| - 1], name) +
      (if last in lists && lists[last].name == name then [last] else [])
  }

  lemma OfNameStep(lists: map<int, Row>, listing: seq<int>, i: nat, name: string)
    requires i < |listing| && listing[i] in lists
    ensures OfName(lists, listing[..i + 1], name) ==
            OfName(lists, listing[..i], name) + (if name == lists[listing[i]].name then [listing[i]] else [])
  {
    assert listing[..i + 1][..i] == listing[..i];
  }

  /** SELECT id, name … WHERE system=1 ORDER BY name, id: each system row once, equal names by id. */
  ghost predicate Listing(lists: map<int, Row>, listing: seq<int>) {
    && (forall id :: id in listing <==> id in lists && lists[id].system)
    && ByNameAndId(lists, listing)
  }

  predicate SameName(lists: map<int, Row>, a: int, b: int) {
    a in lists && b in lists && lists[a].name == lists[b].name
  }

  ghost predicate ByNameAndId(lists: map<int, Row>, listing: seq<int>) {
    forall i, j :: 0 <= i < j < |listing| && SameName(lists, listing[i], listing[j]) ==> listing[i] < listing[j]
  }

  lemma {:induction false} OfNameMembers(lists: map<int, Row>, listing: seq<int>, name: string)
    ensures forall id :: id in OfName(lists, listing, name) <==> id in listing && id in lists && lists[id].name == name
  {
    if listing != [] {
      OfNameMembers(lists, listing[..|listing| - 1], name);
      assert listing == listing[..|listing| - 1] + [listing[|listing| - 1]];
    }
  }

  ghost predicate Increasing(ids: seq<int>) {
    forall i, j :: 0 <= i < j < |ids| ==> ids[i] < ids[j]
  }

  lemma {:induction false} OfNameIncreases(lists: map<int, Row>, listing: seq<int>, name: string)
    requires ByNameAndId(lists, listing)
    ensures Increasing(OfName(lists, listing, name))
  {
    if listing != [] {
      var before, last := listing[..|listing| - 1], listing[|listing| - 1];
      OfNameIncreases(lists, before, name);
      OfNameMembers(lists, before, name);
      forall k | 0 <= k < |OfName(lists, before, name)| && last in lists && lists[last].name == name
        ensures OfName(lists, before, name)[k] < last
      {
        var id := OfName(lists, before, name)[k];
        assert id in before;
        var i :| 0 <= i < |before| && before[i] == id;
        assert listing[i] == id && SameName(lists, listing[i], listing[|listing| - 1]);
      }
    }
  }

  lemma GroupOfName(lists: map<int, Row>, listing: seq<int>, name: string)
    requires Listing(lists, listing)
    ensures Increasing(OfName(lists, listing, name))
    ensures Group(lists, name) == Members(OfName(lists, listing, name))
  {
    OfNameMembers(lists, listing, name);
    OfNameIncreases(lists, listing, name);
    var ids := OfName(lists, listing, name);
    forall id ensures id in Group(lists, name) <==> id in Members(ids) {
      assert id in ids <==> id in listing && id in lists && lists[id].name == name;
    }
  }

  ghost function Members(ids: seq<int>): set<int> {
    set id | id in ids
  }

  /** The survivor of a group listed by id. */
  method KeepIn(ids: seq<int>, referenced: set<int>) returns (keep: int)
    requires Members(ids) != {} && Increasing(ids)
    ensures keep == Keep(Members(ids), referenced)
  {
    ghost var group := Members(ids);
    for i := 0 to |ids|
      invariant forall j :: 0 <= j < i ==> ids[j] !in referenced
    {
      if ids[i] in referenced {
        assert ids[i] in group * referenced;
        LeastIs(ids[i], group * referenced);
        return ids[i];
      }
    }
    assert group * referenced == {};
    ghost var w := SomeMember(group);
    assert ids[0] in group;
    LeastIs(ids[0], group);
    keep := ids[0];
  }

  /** The entries of a dropped row that are not there yet are appended. */
  method AppendNew(es: seq<Entry>, more: seq<Entry>) returns (r: seq<Entry>)
    ensures r == AddAll(es, more)
  {
    r := es;
    for i := 0 to |more|
      invariant AddAll(r, more[i..]) == AddAll(es, more)
    {
      assert more[i..][1..] == more[i + 1..];
      if Identity(more[i]) !in Identities(r) {
        r := r + [more[i]];
      }
    }
  }

  predicate AllParse(lists: map<int, Row>, ids: seq<int>) {
    forall id :: id in ids ==> id in lists && lists[id].entries.Some?
  }

  ghost function MergedRow(lists: map<int, Row>, remap: map<int, int>, id: int): Row
    requires id in lists
  {
    if id in remap.Values && !Deferred(lists, remap, id) then lists[id].(entries := Some(Merged(lists, remap, id)))
    else lists[id]
  }

  lemma KeyOf<K, V>(m: map<K, V>, v: V) returns (k: K)
    requires v in m.Values
    ensures k in m && m[k] == v
  {
    k :| k in m && m[k] == v;
  }

  lemma PlanIs(db: Db, remap: map<int, int>)
    requires forall id :: id in remap <==> id in db.lists && Drops(db, id)
    requires forall id :: id in remap && Drops(db, id) ==> remap[id] == KeepOf(db, id)
    ensures remap == Plan(db)
  {
    forall id | id in remap ensures id in Plan(db) && Plan(db)[id] == remap[id] {
    }
    forall id | id in Plan(db) ensures id in remap {
    }
    SameMap(remap, Plan(db));
  }

  lemma SameMap<K, V>(a: map<K, V>, b: map<K, V>)
    requires forall k :: k in a <==> k in b
    requires forall k :: k in a && k in b ==> a[k] == b[k]
    ensures a == b
  {
  }

  /** Dropped rows and survivors exist, and no survivor is dropped. */
  ghost predicate PlanShaped(lists: map<int, Row>, remap: map<int, int>) {
    forall id :: id in remap ==> id in lists && remap[id] in lists && remap[id] !in remap
  }

  /** The groups of these survivors are merged, all other rows are as before. */
  ghost predicate MergedUpTo(before: map<int, Row>, lists: map<int, Row>, remap: map<int, int>, done: set<int>) {
    && lists.Keys == before.Keys
    && forall id :: id in before ==> lists[id] == if id in done then MergedRow(before, remap, id) else before[id]
  }

  ghost function DeferredIn(lists: map<int, Row>, remap: map<int, int>, keeps: set<int>): set<int> {
    set id | id in keeps && Deferred(lists, remap, id)
  }

  lemma NoneMerged(lists: map<int, Row>, remap: map<int, int>)
    ensures MergedUpTo(lists, lists, remap, {}) && DeferredIn(lists, remap, {}) == {}
  {
  }

  lemma MergeStep(before: map<int, Row>, lists: map<int, Row>, lists': map<int, Row>, remap: map<int, int>, keep: int,
                  done: set<int>, parses: bool, entries: seq<Entry>)
    requires MergedUpTo(before, lists, remap, done) && keep in before && keep in lists &&
             lists[keep] == before[keep] && keep in remap.Values
    requires parses == !Deferred(before, remap, keep) && (parses ==> entries == Merged(before, remap, keep))
    requires lists' == if parses then lists[keep := lists[keep].(entries := Some(entries))] else lists
    ensures MergedUpTo(before, lists', remap, done + {keep})
    ensures DeferredIn(before, remap, done + {keep}) ==
            DeferredIn(before, remap, done) + (if parses then {} else {keep})
  {
    hide Deferred, Merged;
  }

  class ListTable {
    var lists: map<int, Row>
    var refs: map<RefKey, Option<seq<int>>>
    var indexed: bool

    function State(): Db
      reads this
    {
      Db(lists, refs, indexed)
    }

    constructor (db: Db)
      ensures State() == db
    {
      lists, refs, indexed := db.lists, db.refs, db.indexed;
    }

    /** collectReferencedSystemIPListIDs: malformed text is an error. */
    method CollectReferenced() returns (ok: bool, ids: set<int>)
      ensures ok == !Malformed(refs)
      ensures ok ==> ids == Referenced(refs)
    {
      ids := {};
      var todo := refs.Keys;
      while todo != {}
        invariant todo <= refs.Keys && ids <= Referenced(refs)
        invariant forall k :: k in refs && k !in todo ==> refs[k].Some? && forall i :: 0 <= i < |refs[k].value| ==>
                  refs[k].value[i] in ids
        decreases |todo|
      {
        var k :| k in todo;
        if refs[k].None? {
          return false, {};
        }
        var row := refs[k].value;
        for i := 0 to |row|
          invariant ids <= Referenced(refs)
          invariant forall j :: 0 <= j < i ==> row[j] in ids
          invariant forall m :: m in refs && m !in todo ==> forall j :: 0 <= j < |refs[m].value| ==>
                    refs[m].value[j] in ids
        {
          ids := ids + {row[i]};
        }
        todo := todo - {k};
      }
      ok := true;
    }

    /** The loop over the listing. */
    method GroupRows(listing: seq<int>) returns (groups: map<string, seq<int>>)
      requires forall id :: id in listing ==> id in lists
      ensures forall name :: name in groups ==> groups[name] == OfName(lists, listing, name) != []
      ensures forall name :: name !in groups ==> OfName(lists, listing, name) == []
    {
      groups := map[];
      assert forall name :: OfName(lists, [], name) == [];
      hide OfName;
      for i := 0 to |listing|
        invariant forall name :: name in groups ==> groups[name] == OfName(lists, listing[..i], name) != []
        invariant forall name :: name !in groups ==> OfName(lists, listing[..i], name) == []
      {
        var id := listing[i];
        assert id in listing;
        var name := lists[id].name;
        forall n
          ensures OfName(lists, listing[..i + 1], n) ==
                  OfName(lists, listing[..i], n) + (if n == name then [id] else [])
        {
          OfNameStep(lists, listing, i, n);
        }
        groups := groups[name := (if name in groups then groups[name] else []) + [id]];
      }
      assert listing[..|listing|] == listing;
    }

    /** The rows by name; each name's ids in order. */
    method Groups(listing: seq<int>) returns (groups: map<string, seq<int>>)
      requires Listing(lists, listing)
      ensures forall name :: name in groups ==>
                Increasing(groups[name]) && Group(lists, name) == Members(groups[name]) != {}
      ensures forall id :: id in lists && lists[id].system ==> lists[id].name in groups
    {
      hide OfName, Increasing, Group;
      groups := GroupRows(listing);
      forall name | name in groups
        ensures Increasing(groups[name]) && Group(lists, name) == Members(groups[name]) != {}
      {
        GroupOfName(lists, listing, name);
        assert groups[name][0] in Members(groups[name]);
      }
      forall id | id in lists && lists[id].system ensures lists[id].name in groups {
        OfNameMembers(lists, listing, lists[id].name);
      }
    }

    /** Every other row of the group goes to the survivor. */
    method PlanGroup(ids: seq<int>, referenced: set<int>) returns (part: map<int, int>)
      requires Members(ids) != {} && Increasing(ids)
      ensures forall id :: id in part <==> id in ids && id != Keep(Members(ids), referenced)
      ensures forall id :: id in part ==> part[id] == Keep(Members(ids), referenced)
    {
      var keep := KeepIn(ids, referenced);
      part := map[];
      for i := 0 to |ids|
        invariant forall id :: id in part <==> id in ids[..i] && id != keep
        invariant forall id :: id in part ==> part[id] == keep
      {
        if ids[i] != keep {
          part := part[ids[i] := keep];
        }
        assert ids[..i + 1] == ids[..i] + [ids[i]];
      }
      assert ids[..|ids|] == ids;
    }

    /** planSystemIPListDedupe */
    method PlanDedupe(listing: seq<int>) returns (ok: bool, remap: map<int, int>)
      requires Listing(lists, listing)
      ensures ok == !Malformed(refs)
      ensures ok ==> remap == Plan(State())
    {
      hide Keep, Listing, Malformed, Referenced;
      remap := map[];
      var referenced: set<int>;
      ok, referenced := CollectReferenced();
      if !ok {
        return;
      }
      var groups := Groups(listing);
      var todo := groups.Keys;
      while todo != {}
        invariant todo <= groups.Keys
        invariant forall id :: id in remap <==> id in lists && Drops(State(), id) && lists[id].name !in todo
        invariant forall id :: id in remap ==> remap[id] == KeepOf(State(), id)
        decreases |todo|
      {
        var name :| name in todo;
        var part := PlanGroup(groups[name], referenced);
        ghost var group := Members(groups[name]);
        assert forall id :: id in groups[name] <==> id in group;
        remap := remap + part;
        todo := todo - {name};
      }
      PlanIs(State(), remap);
    }

    /** One group: its merged entries, or that some row does not parse. */
    method MergeGroup(remap: map<int, int>, keep: int) returns (parses: bool, entries: seq<Entry>)
      requires keep in lists && forall id :: id in remap ==> id in lists
      ensures parses == !Deferred(lists, remap, keep)
      ensures parses ==> entries == Merged(lists, remap, keep)
    {
      hide Ascending;
      entries := [];
      if lists[keep].entries.None? {
        return false, entries;
      }
      parses, entries := true, lists[keep].entries.value;
      var drops := Sorted(DroppedInto(remap, keep));
      for i := 0 to |drops|
        invariant parses == AllParse(lists, drops[..i])
        invariant parses ==> AddRows(entries, lists, drops[i..]) == Merged(lists, remap, keep)
      {
        var drop := drops[i];
        assert drop in drops;
        assert drops[i..] == [drop] + drops[i + 1..] && drops[..i + 1] == drops[..i] + [drop];
        if lists[drop].entries.None? {
          parses := false;
        } else {
          entries := AppendNew(entries, lists[drop].entries.value);
        }
      }
      assert drops[..|drops|] == drops;
    }

    /** mergeSystemIPListEntries, group by group in id order; returns the survivors whose group is deferred. */
    method MergeEntries(remap: map<int, int>) returns (deferred: set<int>)
      requires PlanShaped(lists, remap)
      modifies this`lists
      ensures MergedUpTo(old(lists), lists, remap, remap.Values)
      ensures deferred == DeferredIn(old(lists), remap, remap.Values)
    {
      hide MergedRow, Deferred, Merged, MergedUpTo, DeferredIn, AllParse;
      ghost var before := lists;
      deferred := {};
      NoneMerged(before, remap);
      ghost var done: set<int> := {};
      var todo := remap.Values;
      while todo != {}
        invariant done !! todo && done + todo == remap.Values
        invariant MergedUpTo(before, lists, remap, done) && deferred == DeferredIn(before, remap, done)
        decreases |todo|
      {
        var keep := LeastOf(todo);
        KeepFacts(before, lists, remap, keep, done);
        var parses, entries := MergeGroup(remap, keep);
        ghost var was := lists;
        if !parses {
          deferred := deferred + {keep};
        } else {
          lists := lists[keep := lists[keep].(entries := Some(entries))];
        }
        MergeStep(before, was, lists, remap, keep, done, parses, entries);
        done, todo := done + {keep}, todo - {keep};
      }
      assert done == remap.Values;
    }

    /** One row's ids, in place and in order. */
    method RewriteRow(remap: map<int, int>, ids: seq<int>) returns (parsed: seq<int>, changed: bool)
      ensures parsed == Rewritten(remap, ids) && (!changed ==> parsed == ids)
    {
      parsed, changed := ids, false;
      for i := 0 to |parsed|
        invariant |parsed| == |ids|
        invariant forall j :: 0 <= j < i ==> parsed[j] == Mapped(remap, ids[j])
        invariant forall j :: i <= j < |parsed| ==> parsed[j] == ids[j]
        invariant !changed ==> parsed == ids
      {
        if parsed[i] in remap {
          parsed := parsed[i := remap[parsed[i]]];
          changed := true;
        }
      }
      assert parsed == Rewritten(remap, ids);
    }

    /** rewriteSystemIPListRefs */
    method RewriteRefs(remap: map<int, int>)
      requires !Malformed(refs)
      modifies this`refs
      ensures refs == NewRefs(old(refs), remap)
    {
      hide Rewritten;
      ghost var before := refs;
      var todo := refs.Keys;
      while todo != {}
        invariant todo <= before.Keys && refs.Keys == before.Keys
        invariant forall k :: k in before ==>
                  refs[k] == if k in todo then before[k] else Some(Rewritten(remap, before[k].value))
        decreases |todo|
      {
        var k :| k in todo;
        var parsed, changed := RewriteRow(remap, refs[k].value);
        if changed {
          refs := refs[k := Some(parsed)];
        }
        todo := todo - {k};
      }
    }

    /** Merge, delete and rewrite by the plan. */
    method ApplyPlan(remap: map<int, int>)
      requires !indexed && !Malformed(refs) && remap == Plan(State())
      modifies this
      ensures Migrate(old(State())) == Ok(State())
    {
      hide Plan, SafePlan, NewLists, AnyDeferred, MergedRow, Deferred, MergedUpTo, DeferredIn, NewRefs, Kept,
        Malformed, Migrate;
      ghost var db := State();
      PlanIsShaped(db);
      var deferred := MergeEntries(remap);
      var safe := Kept(remap, deferred);
      SafeIs(db, remap, deferred, safe);
      NewListsIs(db, lists, remap, safe);
      lists := lists - safe.Keys;
      RewriteRefs(safe);
      indexed := deferred == {};
      MigratedIs(db, State(), safe);
    }

    /** migrateSystemIPListUniqueIndex: an error leaves the tables as they were. */
    method MigrateUniqueIndex(listing: seq<int>) returns (ok: bool)
      requires Listing(lists, listing)
      modifies this
      ensures ok ==> Migrate(old(State())) == Ok(State())
      ensures !ok ==> Migrate(old(State())) == Err && State() == old(State())
    {
      if indexed {
        return true;
      }
      hide Plan, Malformed, Listing, NewLists, NewRefs, SafePlan, AnyDeferred;
      var planned, remap := PlanDedupe(listing);
      if !planned {
        return false;
      }
      ApplyPlan(remap);
      ok := true;
    }
  }

  lemma MigratedIs(db: Db, d: Db, safe: map<int, int>)
    requires !db.indexed && !Malformed(db.refs) && safe == SafePlan(db)
    requires d.lists == NewLists(db) && d.refs == NewRefs(db.refs, safe) && d.indexed == !AnyDeferred(db)
    ensures Migrate(db) == Ok(d)
  {
  }

  /** The part of the plan whose group is not deferred. */
  function Kept(remap: map<int, int>, deferred: set<int>): map<int, int> {
    map id | id in remap && remap[id] !in deferred :: remap[id]
  }

  lemma PlanIsShaped(db: Db)
    ensures PlanShaped(db.lists, Plan(db))
  {
    forall id | id in Plan(db) ensures id in db.lists && Plan(db)[id] in db.lists && Plan(db)[id] !in Plan(db) {
      PlanFacts(db, id);
    }
  }

  lemma NewListsIs(db: Db, merged: map<int, Row>, remap: map<int, int>, safe: map<int, int>)
    requires remap == Plan(db) && safe == SafePlan(db) && MergedUpTo(db.lists, merged, remap, remap.Values)
    requires forall id :: id in safe.Values <==> id in remap.Values && !Deferred(db.lists, remap, id)
    ensures merged - safe.Keys == NewLists(db)
  {
    hide Plan, SafePlan, Deferred, Merged;
  }

  /** A group is untouched while other groups are merged. */
  lemma KeepFacts(before: map<int, Row>, lists: map<int, Row>, remap: map<int, int>, keep: int, done: set<int>)
    requires PlanShaped(before, remap) && MergedUpTo(before, lists, remap, done) && keep in remap.Values &&
             keep !in done && done <= remap.Values
    ensures keep in before && keep in lists && lists[keep] == before[keep] && forall id :: id in remap ==> id in lists
    ensures Deferred(lists, remap, keep) == Deferred(before, remap, keep) &&
            Merged(lists, remap, keep) == Merged(before, remap, keep)
  {
    forall v | v in remap.Values ensures v !in remap && v in before {
      var k := KeyOf(remap, v);
    }
    forall id | id in DroppedInto(remap, keep) ensures id in lists && lists[id] == before[id] {
      assert id !in done;
    }
    SameDeferred(before, lists, remap, keep);
    hide Deferred, Ascending, MergedRow;
    var ids := Ascending(DroppedInto(remap, keep));
    forall id | id in ids ensures EntriesOf(before, id) == EntriesOf(lists, id) {
    }
    SameRows(before, lists, EntriesOf(before, keep), ids);
  }

  lemma SameDeferred(before: map<int, Row>, lists: map<int, Row>, remap: map<int, int>, keep: int)
    requires keep in before && keep in lists && lists[keep] == before[keep]
    requires forall id :: id in DroppedInto(remap, keep) ==> id in before && id in lists && lists[id] == before[id]
    ensures Deferred(lists, remap, keep) == Deferred(before, remap, keep)
  {
  }

  lemma {:induction false} SameRows(a: map<int, Row>, b: map<int, Row>, es: seq<Entry>, ids: seq<int>)
    requires forall id :: id in ids ==> EntriesOf(a, id) == EntriesOf(b, id)
    ensures AddRows(es, a, ids) == AddRows(es, b, ids)
    decreases |ids|
  {
    if ids != [] {
      SameRows(a, b, AddAll(es, EntriesOf(a, ids[0])), ids[1..]);
    }
  }

  lemma SafeIs(db: Db, remap: map<int, int>, deferred: set<int>, safe: map<int, int>)
    requires remap == Plan(db) && deferred == DeferredIn(db.lists, remap, remap.Values)
    requires safe == Kept(remap, deferred)
    ensures safe == SafePlan(db) && (deferred == {} <==> !AnyDeferred(db))
    ensures forall id :: id in safe.Values <==> id in remap.Values && !Deferred(db.lists, remap, id)
  {
    hide Plan, Deferred;
    forall id | id in remap ensures remap[id] in deferred <==> Deferred(db.lists, remap, remap[id]) {
      assert remap[id] in remap.Values;
    }
    SafeValues(db.lists, remap, deferred, safe);
    if deferred != {} {
      var keep := SomeMember(deferred);
      var id := KeyOf(remap, keep);
      assert Deferred(db.lists, remap, remap[id]);
    }
  }

  lemma SafeValues(lists: map<int, Row>, remap: map<int, int>, deferred: set<int>, safe: map<int, int>)
    requires deferred == DeferredIn(lists, remap, remap.Values)
    requires safe == Kept(remap, deferred)
    ensures forall id :: id in safe.Values <==> id in remap.Values && !Deferred(lists, remap, id)
  {
    hide Deferred;
    forall id | id in safe.Values ensures id in remap.Values && !Deferred(lists, remap, id) {
      var from := KeyOf(safe, id);
      assert remap[from] == id;
    }
    forall id | id in remap.Values && !Deferred(lists, remap, id) ensures id in safe.Values {
      var from := KeyOf(remap, id);
      assert safe[from] == id;
    }
  }
}
