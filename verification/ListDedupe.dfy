/** The de-duplication of system IP lists: plan, merge, delete and rewrite of references, as maps instead of
    tables. Row texts that do not parse are None. */
module ListDedupe {
  import opened Options

  datatype Entry = Entry(value: string, remark: string, createdAt: string, expiresAt: string)
  datatype Row = Row(name: string, system: bool, entries: Option<seq<Entry>>)

  /** One row of one referencing column. */
  datatype RefKey = RefKey(column: nat, row: int)

  /** indexed: the unique index on the names of system rows is in place. */
  datatype Db = Db(lists: map<int, Row>, refs: map<RefKey, Option<seq<int>>>, indexed: bool)

  datatype Result = Ok(db: Db) | Err

  const NUL: char := '\0'

  /** systemIPListEntryIdentity */
  function Identity(e: Entry): string {
    e.value + [NUL] + e.remark + [NUL] + e.createdAt + [NUL] + e.expiresAt
  }

  function Identities(es: seq<Entry>): set<string> {
    set i | 0 <= i < |es| :: Identity(es[i])
  }

  // ---- Least elements ----

  ghost predicate IsLeast(m: int, s: set<int>) {
    m in s && forall x :: x in s ==> m <= x
  }

  lemma SomeMember<T>(s: set<T>) returns (x: T)
    requires s != {}
    ensures x in s
  {
    x :| x in s;
  }

  lemma {:induction false} LeastExists(s: set<int>)
    requires s != {}
    ensures exists m :: IsLeast(m, s)
  {
    var x := SomeMember(s);
    var rest := s - {x};
    if rest == {} {
      assert s == {x};
      assert IsLeast(x, s);
    } else {
      LeastExists(rest);
      var m :| IsLeast(m, rest);
      assert s == rest + {x};
      assert IsLeast(if m <= x then m else x, s);
    }
  }

  ghost function Least(s: set<int>): (m: int)
    requires s != {}
    ensures IsLeast(m, s)
  {
    LeastExists(s);
    var m :| IsLeast(m, s);
    m
  }

  ghost function Ascending(s: set<int>): (r: seq<int>)
    ensures forall x :: x in r <==> x in s
    ensures |r| == |s|
  {
    if s == {} then [] else [Least(s)] + Ascending(s - {Least(s)})
  }

  // ---- The plan ----

  /** System rows of the same name. */
  function Group(lists: map<int, Row>, name: string): set<int> {
    set id | id in lists && lists[id].system && lists[id].name == name
  }

  function Referenced(refs: map<RefKey, Option<seq<int>>>): set<int> {
    set k, i | k in refs && refs[k].Some? && 0 <= i < |refs[k].value| :: refs[k].value[i]
  }

  /** Referenced rows come first, then the least id. */
  ghost function Keep(group: set<int>, referenced: set<int>): (keep: int)
    requires group != {}
    ensures keep in group
  {
    if group * referenced != {} then Least(group * referenced) else Least(group)
  }

  ghost function KeepOf(db: Db, id: int): int
    requires id in db.lists && db.lists[id].system
  {
    assert id in Group(db.lists, db.lists[id].name);
    Keep(Group(db.lists, db.lists[id].name), Referenced(db.refs))
  }

  ghost predicate Drops(db: Db, id: int) {
    id in db.lists && db.lists[id].system && KeepOf(db, id) != id
  }

  /** planSystemIPListDedupe: dropped id to surviving id. */
  ghost function Plan(db: Db): map<int, int> {
    map id | id in db.lists && Drops(db, id) :: KeepOf(db, id)
  }

  /** Rows that the plan folds into keep. */
  function DroppedInto(remap: map<int, int>, keep: int): set<int> {
    set id | id in remap && remap[id] == keep
  }

  /** Some row of the group does not parse: the group stays as it is. */
  predicate Deferred(lists: map<int, Row>, remap: map<int, int>, keep: int) {
    exists id :: (id == keep || id in DroppedInto(remap, keep)) && id in lists && lists[id].entries.None?
  }

  ghost function SafePlan(db: Db): map<int, int> {
    var remap := Plan(db);
    map id | id in remap && !Deferred(db.lists, remap, remap[id]) :: remap[id]
  }

  // ---- The merge ----

  /** Entries of the second list whose identity is not there yet follow the first list. */
  function AddAll(es: seq<Entry>, more: seq<Entry>): seq<Entry>
    decreases |more|
  {
    if more == [] then es
    else if Identity(more[0]) in Identities(es) then AddAll(es, more[1..])
    else AddAll(es + [more[0]], more[1..])
  }

  function EntriesOf(lists: map<int, Row>, id: int): seq<Entry> {
    if id in lists && lists[id].entries.Some? then lists[id].entries.value else []
  }

  function AddRows(es: seq<Entry>, lists: map<int, Row>, ids: seq<int>): seq<Entry>
    decreases |ids|
  {
    if ids == [] then es else AddRows(AddAll(es, EntriesOf(lists, ids[0])), lists, ids[1..])
  }

  ghost function Merged(lists: map<int, Row>, remap: map<int, int>, keep: int): seq<Entry> {
    AddRows(EntriesOf(lists, keep), lists, Ascending(DroppedInto(remap, keep)))
  }

  ghost function NewRow(db: Db, id: int): Row
    requires id in db.lists
  {
    if id in SafePlan(db).Values then db.lists[id].(entries := Some(Merged(db.lists, Plan(db), id))) else db.lists[id]
  }

  ghost function NewLists(db: Db): map<int, Row> {
    map id | id in db.lists && id !in SafePlan(db) :: NewRow(db, id)
  }

  // ---- The references ----

  function Mapped(remap: map<int, int>, id: int): int {
    if id in remap then remap[id] else id
  }

  function Rewritten(remap: map<int, int>, ids: seq<int>): (r: seq<int>)
    ensures |r| == |ids| && forall i :: 0 <= i < |ids| ==> r[i] == Mapped(remap, ids[i])
  {
    seq(|ids|, i requires 0 <= i < |ids| => Mapped(remap, ids[i]))
  }

  function NewRefs(refs: map<RefKey, Option<seq<int>>>, remap: map<int, int>): map<RefKey, Option<seq<int>>> {
    map k | k in refs :: if refs[k].Some? then Some(Rewritten(remap, refs[k].value)) else None
  }

  predicate Malformed(refs: map<RefKey, Option<seq<int>>>) {
    exists k :: k in refs && refs[k].None?
  }

  ghost predicate AnyDeferred(db: Db) {
    exists id :: id in Plan(db) && Deferred(db.lists, Plan(db), Plan(db)[id])
  }

  /** migrateSystemIPListUniqueIndex; an error rolls the transaction back. */
  ghost function Migrate(db: Db): Result {
    if db.indexed then Ok(db)
    else if Malformed(db.refs) then Err
    else Ok(Db(NewLists(db), NewRefs(db.refs, SafePlan(db)), !AnyDeferred(db)))
  }

  // ---- Which row survives ----

  /** Of the system rows of one name exactly one survives and all others are mapped to it: the least referenced one
      if any is referenced, else the least. */
  lemma SurvivorOfGroup(db: Db, id: int) returns (keep: int)
    requires id in db.lists && db.lists[id].system
    ensures keep in db.lists && db.lists[keep].system && db.lists[keep].name == db.lists[id].name
    ensures forall x :: x in db.lists && db.lists[x].system && db.lists[x].name == db.lists[id].name ==>
              && (x in Plan(db) <==> x != keep) && (x != keep ==> Plan(db)[x] == keep)
              && (x in Referenced(db.refs) ==> keep in Referenced(db.refs) && keep <= x)
              && (keep !in Referenced(db.refs) ==> keep <= x)
  {
    hide Referenced;
    var group := Group(db.lists, db.lists[id].name);
    keep := KeepOf(db, id);
    assert keep in group;
    forall x | x in db.lists && db.lists[x].system && db.lists[x].name == db.lists[id].name
      ensures && (x in Plan(db) <==> x != keep) && (x != keep ==> Plan(db)[x] == keep)
              && (x in Referenced(db.refs) ==> keep in Referenced(db.refs) && keep <= x)
              && (keep !in Referenced(db.refs) ==> keep <= x)
    {
      assert x in group && KeepOf(db, x) == keep;
      assert x in Referenced(db.refs) ==> x in group * Referenced(db.refs);
    }
  }

  /** A row that is the only referenced one of its name is not dropped, so no reference to it changes. */
  lemma LoneReferenceStays(db: Db, id: int)
    requires id in db.lists && db.lists[id].system && id in Referenced(db.refs)
    requires forall x :: x in Group(db.lists, db.lists[id].name) && x in Referenced(db.refs) ==> x == id
    ensures id !in Plan(db) && Mapped(SafePlan(db), id) == id
  {
    hide Referenced;
    var keep := SurvivorOfGroup(db, id);
    assert keep in Group(db.lists, db.lists[id].name);
  }

  /** The migration fails exactly if a reference column does not parse before the index is in place. */
  lemma FailsIff(db: Db)
    ensures Migrate(db).Err? <==> !db.indexed && exists k :: k in db.refs && db.refs[k].None?
  {
    hide NewLists, SafePlan, AnyDeferred;
  }

  // ---- What a reference reaches ----

  /** The entry identities that a list id stands for; nothing if it does not resolve. */
  function Reach(lists: map<int, Row>, id: int): set<string> {
    Identities(EntriesOf(lists, id))
  }

  lemma {:induction false} AddAllIdentities(es: seq<Entry>, more: seq<Entry>)
    ensures Identities(AddAll(es, more)) == Identities(es) + Identities(more)
    ensures es <= AddAll(es, more)
    decreases |more|
  {
    if more != [] {
      var rest := more[1..];
      assert Identities(more) == {Identity(more[0])} + Identities(rest) by {
        assert forall i :: 0 <= i < |rest| ==> rest[i] == more[i + 1];
        forall x | x in Identities(more) ensures x in {Identity(more[0])} + Identities(rest) {
          var i :| 0 <= i < |more| && x == Identity(more[i]);
          assert i > 0 ==> rest[i - 1] == more[i];
        }
      }
      if Identity(more[0]) in Identities(es) {
        AddAllIdentities(es, rest);
      } else {
        var next := es + [more[0]];
        assert Identities(next) == Identities(es) + {Identity(more[0])} by {
          assert next[|es|] == more[0];
          forall x | x in Identities(es) ensures x in Identities(next) {
            var i :| 0 <= i < |es| && x == Identity(es[i]);
            assert next[i] == es[i];
          }
        }
        AddAllIdentities(next, rest);
      }
    }
  }

  ghost predicate SomeReach(lists: map<int, Row>, ids: seq<int>, x: string) {
    exists id :: id in ids && x in Reach(lists, id)
  }

  lemma SomeReachStep(lists: map<int, Row>, ids: seq<int>, x: string)
    requires ids != []
    ensures SomeReach(lists, ids, x) <==> x in Reach(lists, ids[0]) || SomeReach(lists, ids[1..], x)
  {
    if SomeReach(lists, ids, x) {
      var id :| id in ids && x in Reach(lists, id);
      assert id == ids[0] || id in ids[1..];
    }
    if SomeReach(lists, ids[1..], x) {
      var id :| id in ids[1..] && x in Reach(lists, id);
      assert id in ids;
    }
  }

  lemma {:induction false} AddRowsIdentities(es: seq<Entry>, lists: map<int, Row>, ids: seq<int>)
    ensures forall x :: x in Identities(AddRows(es, lists, ids)) <==> x in Identities(es) || SomeReach(lists, ids, x)
    ensures es <= AddRows(es, lists, ids)
    decreases |ids|
  {
    hide Identities, SomeReach;
    if ids == [] {
      NoReach(lists);
    } else {
      var next := AddAll(es, EntriesOf(lists, ids[0]));
      AddAllIdentities(es, EntriesOf(lists, ids[0]));
      AddRowsIdentities(next, lists, ids[1..]);
      forall x ensures x in Identities(AddRows(es, lists, ids)) <==> x in Identities(es) || SomeReach(lists, ids, x) {
        SomeReachStep(lists, ids, x);
      }
    }
  }

  lemma NoReach(lists: map<int, Row>)
    ensures forall x :: !SomeReach(lists, [], x)
  {
  }

  /** A merged row stands for its whole group: its own entries first and unchanged, then the others. */
  lemma MergedReach(lists: map<int, Row>, remap: map<int, int>, keep: int)
    ensures forall x :: x in Identities(Merged(lists, remap, keep)) <==>
              x in Reach(lists, keep) || exists id :: id in DroppedInto(remap, keep) && x in Reach(lists, id)
    ensures EntriesOf(lists, keep) <= Merged(lists, remap, keep)
  {
    var ids := Ascending(DroppedInto(remap, keep));
    AddRowsIdentities(EntriesOf(lists, keep), lists, ids);
    forall x
      ensures SomeReach(lists, ids, x) <==> exists id :: id in DroppedInto(remap, keep) && x in Reach(lists, id)
    {
    }
  }

  // ---- The plan is sound ----

  /** The survivor is another system row of the same name, and survives. */
  lemma PlanFacts(db: Db, id: int)
    requires id in Plan(db)
    ensures var keep := Plan(db)[id];
            && keep != id && keep in db.lists && keep !in Plan(db) && db.lists[id].system && db.lists[keep].system
            && db.lists[keep].name == db.lists[id].name && keep == KeepOf(db, id) == KeepOf(db, keep)
  {
  }

  lemma SafeFacts(db: Db, id: int)
    requires id in SafePlan(db)
    ensures id in Plan(db) && SafePlan(db)[id] == Plan(db)[id] && SafePlan(db)[id] in db.lists &&
            SafePlan(db)[id] !in SafePlan(db)
    ensures SafePlan(db)[id] in SafePlan(db).Values && id in DroppedInto(Plan(db), SafePlan(db)[id])
  {
    PlanFacts(db, id);
  }

  /** A list that absorbs others belongs to a group whose rows all parse. */
  lemma AbsorbsParses(db: Db, keep: int)
    requires keep in SafePlan(db).Values
    ensures keep in db.lists && keep !in SafePlan(db) && !Deferred(db.lists, Plan(db), keep)
    ensures forall id :: id in DroppedInto(Plan(db), keep) ==> id in SafePlan(db) && SafePlan(db)[id] == keep
  {
    var id :| id in SafePlan(db) && SafePlan(db)[id] == keep;
    SafeFacts(db, id);
  }

  // ---- Nothing is lost ----

  lemma NewEntries(db: Db, id: int)
    requires id in db.lists && id !in SafePlan(db)
    ensures id in NewLists(db)
    ensures EntriesOf(NewLists(db), id) ==
            if id in SafePlan(db).Values then Merged(db.lists, Plan(db), id) else EntriesOf(db.lists, id)
  {
    hide SafePlan, Plan, Merged;
  }

  /** A list keeps its entries where its references now point, and that place exists. */
  lemma ListIsKept(db: Db, id: int)
    requires id in db.lists
    ensures var to := Mapped(SafePlan(db), id);
            to in NewLists(db) && Reach(db.lists, id) <= Reach(NewLists(db), to)
  {
    hide SafePlan, NewLists, Merged, Identities, Plan;
    if id in SafePlan(db) {
      SafeFacts(db, id);
      var keep := SafePlan(db)[id];
      MergedReach(db.lists, Plan(db), keep);
      NewEntries(db, keep);
    } else {
      if id in SafePlan(db).Values {
        MergedReach(db.lists, Plan(db), id);
      }
      NewEntries(db, id);
    }
  }

  ghost predicate Migrates(db: Db, d: Db) {
    Migrate(db) == Ok(d) && !db.indexed
  }

  /** Each referencing row has the same ids at the same places, except that a deleted list's id is its
      survivor's: every place that resolved still does, and still reaches every entry identity it reached. */
  lemma ReferencesReachAsBefore(db: Db, d: Db, k: RefKey, i: nat)
    requires Migrates(db, d) && k in db.refs && i < |db.refs[k].value|
    ensures k in d.refs && d.refs[k].Some? && |d.refs[k].value| == |db.refs[k].value|
    ensures var old', new' := db.refs[k].value[i], d.refs[k].value[i];
            && (old' in db.lists ==> new' in d.lists) && (old' !in db.lists ==> new' == old')
            && Reach(db.lists, old') <= Reach(d.lists, new')
  {
    var old' := db.refs[k].value[i];
    if old' in db.lists {
      ListIsKept(db, old');
    } else if old' in SafePlan(db) {
      SafeFacts(db, old');
    }
  }

  /** No identity appears out of nowhere: what a list holds now, it or a duplicate of it held before. */
  lemma NothingNew(db: Db, d: Db, id: int, x: string)
    requires Migrates(db, d) && id in d.lists && x in Reach(d.lists, id)
    ensures exists from :: from in db.lists && x in Reach(db.lists, from) && Mapped(SafePlan(db), from) == id
  {
    if id in SafePlan(db).Values {
      AbsorbsParses(db, id);
      MergedReach(db.lists, Plan(db), id);
      assert EntriesOf(d.lists, id) == Merged(db.lists, Plan(db), id);
      if x in Reach(db.lists, id) {
        assert Mapped(SafePlan(db), id) == id;
      } else {
        var from :| from in DroppedInto(Plan(db), id) && x in Reach(db.lists, from);
        assert Mapped(SafePlan(db), from) == id;
      }
    } else {
      assert EntriesOf(d.lists, id) == EntriesOf(db.lists, id);
      assert Mapped(SafePlan(db), id) == id;
    }
  }

  /** User lists, rows without duplicates and every row of a group with an unparseable row stay exactly as
      they are, and references to them too. */
  lemma UntouchedRows(db: Db, d: Db, id: int)
    requires Migrates(db, d) && id in db.lists
    requires !db.lists[id].system || Deferred(db.lists, Plan(db), KeepOf(db, id)) ||
             Group(db.lists, db.lists[id].name) == {id}
    ensures id in d.lists && d.lists[id] == db.lists[id] && Mapped(SafePlan(db), id) == id
  {
    if id in SafePlan(db) {
      SafeFacts(db, id);
      PlanFacts(db, id);
    }
    if id in SafePlan(db).Values {
      AbsorbsOther(db, id);
    }
  }

  lemma AbsorbsOther(db: Db, keep: int)
    requires keep in SafePlan(db).Values
    ensures keep in db.lists && db.lists[keep].system && keep == KeepOf(db, keep) && !Deferred(db.lists, Plan(db), keep)
    ensures Group(db.lists, db.lists[keep].name) != {keep}
  {
    AbsorbsParses(db, keep);
    var from :| from in SafePlan(db) && SafePlan(db)[from] == keep;
    SafeFacts(db, from);
    PlanFacts(db, from);
    assert from in Group(db.lists, db.lists[keep].name);
  }

  // ---- Names ----

  ghost predicate UniqueNames(lists: map<int, Row>) {
    forall a, b :: a in lists && b in lists && lists[a].system && lists[b].system && lists[a].name == lists[b].name ==>
      a == b
  }

  lemma SameRowHead(db: Db, d: Db, id: int)
    requires Migrates(db, d) && id in d.lists
    ensures id in db.lists && d.lists[id].name == db.lists[id].name && d.lists[id].system == db.lists[id].system
  {
  }

  /** A deferred group has a duplicate and all of it is still there. */
  lemma DeferredStays(db: Db, d: Db, id: int)
    requires Migrates(db, d) && id in Plan(db) && Deferred(db.lists, Plan(db), Plan(db)[id])
    ensures var keep := Plan(db)[id];
            id in d.lists && keep in d.lists && id != keep && d.lists[id] == db.lists[id] &&
              d.lists[keep] == db.lists[keep]
            && d.lists[id].system && d.lists[keep].system && d.lists[id].name == d.lists[keep].name
  {
    PlanFacts(db, id);
    UntouchedRows(db, d, id);
    UntouchedRows(db, d, Plan(db)[id]);
  }

  /** The unique index is put in place exactly when it can be: names are unique if and only if no group
      had to be deferred. */
  lemma IndexedIffUnique(db: Db, d: Db)
    requires Migrates(db, d)
    ensures d.indexed <==> UniqueNames(d.lists)
  {
    if AnyDeferred(db) {
      var id :| id in Plan(db) && Deferred(db.lists, Plan(db), Plan(db)[id]);
      DeferredStays(db, d, id);
    } else {
      forall a, b | a in d.lists && b in d.lists && d.lists[a].system && d.lists[b].system &&
        d.lists[a].name == d.lists[b].name
        ensures a == b
      {
        NotDeferred(db, d, a);
        NotDeferred(db, d, b);
        SameRowHead(db, d, a);
        SameRowHead(db, d, b);
      }
    }
  }

  lemma NotDeferred(db: Db, d: Db, id: int)
    requires Migrates(db, d) && !AnyDeferred(db) && id in d.lists && d.lists[id].system
    ensures id in db.lists && db.lists[id].system && id == KeepOf(db, id)
  {
    SameRowHead(db, d, id);
    assert id != KeepOf(db, id) ==> id in Plan(db) && id in SafePlan(db);
  }

  // ---- Running it again ----

  /** A row of a group that stays as it is. */
  ghost predicate Stays(db: Db, id: int) {
    id in db.lists && db.lists[id].system && Deferred(db.lists, Plan(db), KeepOf(db, id))
  }

  /** The whole group of such a row stays, and nothing is mapped into it. */
  lemma GroupStays(db: Db, d: Db, id: int, other: int)
    requires Migrates(db, d) && Stays(db, id) && other in Group(db.lists, db.lists[id].name)
    ensures Stays(db, other) && KeepOf(db, other) == KeepOf(db, id)
    ensures other in d.lists && d.lists[other] == db.lists[other] && Mapped(SafePlan(db), other) == other
    ensures other !in SafePlan(db) && other !in SafePlan(db).Values
  {
    UntouchedRows(db, d, other);
    if other in SafePlan(db) {
      SafeFacts(db, other);
    }
    if other in SafePlan(db).Values {
      AbsorbsOther(db, other);
    }
  }

  lemma SameGroup(db: Db, d: Db, id: int)
    requires Migrates(db, d) && Stays(db, id)
    ensures Group(d.lists, db.lists[id].name) == Group(db.lists, db.lists[id].name)
  {
    var name := db.lists[id].name;
    forall x ensures x in Group(d.lists, name) <==> x in Group(db.lists, name) {
      if x in Group(db.lists, name) {
        GroupStays(db, d, id, x);
      }
      if x in d.lists {
        SameRowHead(db, d, x);
      }
    }
  }

  /** References to the group are the same as before. */
  lemma SameReferences(db: Db, d: Db, id: int, x: int)
    requires Migrates(db, d) && Stays(db, id) && x in Group(db.lists, db.lists[id].name)
    ensures x in Referenced(d.refs) <==> x in Referenced(db.refs)
  {
    GroupStays(db, d, id, x);
    if x in Referenced(d.refs) {
      var k, i :| k in d.refs && d.refs[k].Some? && 0 <= i < |d.refs[k].value| && d.refs[k].value[i] == x;
      var old' := db.refs[k].value[i];
      assert x == Mapped(SafePlan(db), old');
      if old' in SafePlan(db) {
        SafeFacts(db, old');
      }
    }
    if x in Referenced(db.refs) {
      var k, i :| k in db.refs && db.refs[k].Some? && 0 <= i < |db.refs[k].value| && db.refs[k].value[i] == x;
      assert d.refs[k].value[i] == x;
    }
  }

  lemma SameKeep(db: Db, d: Db, id: int)
    requires Migrates(db, d) && Stays(db, id)
    ensures id in d.lists && d.lists[id] == db.lists[id] && KeepOf(d, id) == KeepOf(db, id)
  {
    var group := Group(db.lists, db.lists[id].name);
    assert id in group;
    GroupStays(db, d, id, id);
    SameGroup(db, d, id);
    forall x ensures x in group * Referenced(d.refs) <==> x in group * Referenced(db.refs) {
      if x in group {
        SameReferences(db, d, id, x);
      }
    }
    assert group * Referenced(d.refs) == group * Referenced(db.refs);
  }

  lemma StillDeferred(db: Db, d: Db, id: int)
    requires Migrates(db, d) && Stays(db, id)
    ensures id in d.lists && d.lists[id].system && Deferred(d.lists, Plan(d), KeepOf(d, id))
  {
    var keep := KeepOf(db, id);
    SameKeep(db, d, id);
    var u :| (u == keep || u in DroppedInto(Plan(db), keep)) && u in db.lists && db.lists[u].entries.None?;
    if u != keep {
      PlanFacts(db, u);
    }
    assert u in Group(db.lists, db.lists[id].name) && keep in Group(db.lists, db.lists[id].name);
    GroupStays(db, d, id, u);
    SameKeep(db, d, u);
    assert u == keep || u in DroppedInto(Plan(d), keep);
  }

  /** What the second plan would drop is in a group that stays. */
  lemma SecondPlanIsDeferred(db: Db, d: Db, id: int)
    requires Migrates(db, d) && id in Plan(d)
    ensures Deferred(d.lists, Plan(d), Plan(d)[id])
  {
    PlanFacts(d, id);
    var keep := Plan(d)[id];
    SameRowHead(db, d, id);
    SameRowHead(db, d, keep);
    if !Stays(db, id) {
      assert id !in Plan(db) && keep !in Plan(db) by {
        assert KeepOf(db, id) == KeepOf(db, keep);
        assert id in Plan(db) ==> id in SafePlan(db);
        assert keep in Plan(db) ==> keep in SafePlan(db);
      }
    }
    assert Stays(db, id);
    StillDeferred(db, d, id);
  }

  lemma DeferredAgain(db: Db, d: Db)
    requires Migrates(db, d) && !d.indexed
    ensures AnyDeferred(d) && SafePlan(d) == map[]
  {
    var id :| id in Plan(db) && Deferred(db.lists, Plan(db), Plan(db)[id]);
    PlanFacts(db, id);
    StillDeferred(db, d, id);
    SameKeep(db, d, id);
    assert id in Plan(d);
    hide Deferred;
    forall id | id in Plan(d) ensures Deferred(d.lists, Plan(d), Plan(d)[id]) {
      SecondPlanIsDeferred(db, d, id);
    }
  }

  /** Running the migration on its own result changes nothing. */
  lemma SecondRunIsNoOp(db: Db, d: Db)
    requires Migrates(db, d)
    ensures Migrate(d) == Ok(d)
  {
    hide SafePlan, AnyDeferred, NewLists;
    if !d.indexed {
      DeferredAgain(db, d);
      NothingToDo(d);
    }
  }

  lemma NothingToDo(d: Db)
    requires SafePlan(d) == map[]
    ensures NewLists(d) == d.lists && NewRefs(d.refs, SafePlan(d)) == d.refs
  {
    forall k | k in d.refs && d.refs[k].Some? ensures Rewritten(map[], d.refs[k].value) == d.refs[k].value {
    }
  }

  // ---- Identities ----

  predicate NoNul(e: Entry) {
    NUL !in e.value && NUL !in e.remark && NUL !in e.createdAt && NUL !in e.expiresAt
  }

  lemma {:induction false} SplitAtNul(a: string, b: string, x: string, y: string)
    requires NUL !in a && NUL !in x && a + [NUL] + b == x + [NUL] + y
    ensures a == x && b == y
  {
    assert x == [] <==> (x + [NUL] + y)[0] == NUL;
    var l, r := a + [NUL] + b, x + [NUL] + y;
    if a == [] {
      assert l[0] == NUL;
      assert x == [];
      assert l[1..] == b && r[1..] == y;
    } else if x != [] {
      assert l[0] == a[0] && r[0] == x[0];
      assert l[1..] == a[1..] + [NUL] + b && r[1..] == x[1..] + [NUL] + y;
      SplitAtNul(a[1..], b, x[1..], y);
    }
  }

  function Nuls(s: string): nat {
    if s == [] then 0 else Nuls(s[..|s| - 1]) + (if s[|s| - 1] == NUL then 1 else 0)
  }

  lemma {:induction false} NulsOfSum(s: string, t: string)
    ensures Nuls(s + t) == Nuls(s) + Nuls(t)
  {
    if t == [] {
      assert s + t == s;
    } else {
      assert (s + t)[..|s + t| - 1] == s + t[..|t| - 1];
      NulsOfSum(s, t[..|t| - 1]);
    }
  }

  lemma {:induction false} NulsZero(s: string)
    ensures Nuls(s) == 0 <==> NUL !in s
  {
    if s != [] {
      assert s == s[..|s| - 1] + [s[|s| - 1]];
      NulsZero(s[..|s| - 1]);
    }
  }

  lemma NulsOfIdentity(e: Entry)
    ensures Nuls(Identity(e)) == Nuls(e.value) + Nuls(e.remark) + Nuls(e.createdAt) + Nuls(e.expiresAt) + 3
  {
    assert Nuls([NUL]) == 1 by { assert [NUL][..0] == []; }
    var a, b := e.value + [NUL] + e.remark, e.value + [NUL] + e.remark + [NUL] + e.createdAt;
    NulsOfSum(e.value, [NUL]);
    NulsOfSum(e.value + [NUL], e.remark);
    NulsOfSum(a, [NUL]);
    NulsOfSum(a + [NUL], e.createdAt);
    NulsOfSum(b, [NUL]);
    NulsOfSum(b + [NUL], e.expiresAt);
  }

  lemma NoNulIsThree(e: Entry)
    ensures NoNul(e) <==> Nuls(Identity(e)) == 3
  {
    NulsOfIdentity(e);
    NulsZero(e.value);
    NulsZero(e.remark);
    NulsZero(e.createdAt);
    NulsZero(e.expiresAt);
  }

  /** An entry without NUL shares its identity with no other entry, not even with one that has some. */
  lemma IdentityTellsApart(e: Entry, f: Entry)
    requires NoNul(e) && Identity(e) == Identity(f)
    ensures e == f
  {
    NoNulIsThree(e);
    NoNulIsThree(f);
    var e2, f2 := e.createdAt + [NUL] + e.expiresAt, f.createdAt + [NUL] + f.expiresAt;
    var e1, f1 := e.remark + [NUL] + e2, f.remark + [NUL] + f2;
    assert Identity(e) == e.value + [NUL] + e1 && Identity(f) == f.value + [NUL] + f1;
    SplitAtNul(e.value, e1, f.value, f1);
    SplitAtNul(e.remark, e2, f.remark, f2);
    SplitAtNul(e.createdAt, e.expiresAt, f.createdAt, f.expiresAt);
  }

  lemma CutAtNul(s: string) returns (x: string, y: string)
    requires NUL in s
    ensures s == x + [NUL] + y
  {
    var i :| 0 <= i < |s| && s[i] == NUL;
    x, y := s[..i], s[i + 1..];
  }

  /** Moving a field boundary to a NUL inside a field gives another entry with the same identity. */
  lemma BoundaryMoves(e: Entry) returns (f: Entry)
    requires !NoNul(e)
    ensures f != e && Identity(f) == Identity(e)
  {
    if NUL in e.value {
      var x, y := CutAtNul(e.value);
      f := Entry(x, y, e.remark, e.createdAt + [NUL] + e.expiresAt);
      assert |f.value| < |e.value|;
      assert Identity(f) == x + [NUL] + y + [NUL] + e.remark + [NUL] + e.createdAt + [NUL] + e.expiresAt;
    } else if NUL in e.remark {
      var x, y := CutAtNul(e.remark);
      f := Entry(e.value + [NUL] + x, y, e.createdAt, e.expiresAt);
      assert |f.remark| < |e.remark|;
      assert Identity(f) == e.value + [NUL] + (x + [NUL] + y) + [NUL] + e.createdAt + [NUL] + e.expiresAt;
    } else if NUL in e.createdAt {
      var x, y := CutAtNul(e.createdAt);
      f := Entry(e.value, e.remark + [NUL] + x, y, e.expiresAt);
      assert |f.createdAt| < |e.createdAt|;
      assert Identity(f) == e.value + [NUL] + e.remark + [NUL] + (x + [NUL] + y) + [NUL] + e.expiresAt;
    } else {
      var x, y := CutAtNul(e.expiresAt);
      f := Entry(e.value, e.remark, e.createdAt + [NUL] + x, y);
      assert |f.expiresAt| < |e.expiresAt|;
      assert Identity(f) == e.value + [NUL] + e.remark + [NUL] + e.createdAt + [NUL] + (x + [NUL] + y);
    }
  }

  lemma DroppedIff(e: Entry, f: Entry)
    ensures AddAll([e], [f]) == [e] <==> Identity(f) == Identity(e)
  {
    assert [e][0] == e;
    assert [f][1..] == [];
    assert Identities([e]) == {Identity(e)} by {
      assert Identity([e][0]) in Identities([e]);
    }
  }

  /** The merge takes some different entry for this one and drops it exactly if a field of this one holds a NUL. */
  lemma NulMergesDifferentEntries(e: Entry)
    ensures (exists f :: f != e && Identity(f) == Identity(e)) <==> !NoNul(e)
    ensures (exists f :: f != e && AddAll([e], [f]) == [e]) <==> !NoNul(e)
  {
    if !NoNul(e) {
      var f := BoundaryMoves(e);
      DroppedIff(e, f);
    } else {
      forall f | f != e ensures Identity(f) != Identity(e) && AddAll([e], [f]) != [e] {
        if Identity(f) == Identity(e) {
          IdentityTellsApart(e, f);
        }
        DroppedIff(e, f);
      }
    }
  }
}
