/** What a cascade leaves behind: exactly when a relation ends up as the list says, and what it leaves alone. */
module CascadeLaws {
  import opened Prelude
  import opened CascadeHandler

  // ---- what a list names ----

  /** An item names a row by being its id or an object that holds it. */
  function NameOf(item: Item): Option<nat> {
    match item
    case Bare(id) => Some(id)
    case Object(IdOf(id), _) => Some(id)
    case _ => None
  }

  function Named(items: seq<Item>): set<nat> {
    set i | 0 <= i < |items| && NameOf(items[i]).Some? :: NameOf(items[i]).value
  }

  predicate NamesApart(items: seq<Item>) {
    forall i, j :: 0 <= i < j < |items| && NameOf(items[i]).Some? ==> NameOf(items[i]) != NameOf(items[j])
  }

  /** Neither a null item nor an object without an `id`; a null `id` is allowed. */
  predicate AllNamed(items: seq<Item>) {
    forall i :: 0 <= i < |items| ==> !items[i].NullItem? && !(items[i].Object? && items[i].key.Absent?)
  }

  lemma NamedSnoc(items: seq<Item>)
    requires items != []
    ensures var init, last := items[..|items| - 1], NameOf(items[|items| - 1]);
            && Named(items) == Named(init) + (if last.Some? then {last.value} else {})
            && (NamesApart(items) <==> NamesApart(init) && !(last.Some? && last.value in Named(init)))
  {
    var init, last := items[..|items| - 1], NameOf(items[|items| - 1]);
    forall i | 0 <= i < |init| ensures init[i] == items[i] {
    }
    forall x | x in Named(items) && last != Some(x) ensures x in Named(init) {
      var i :| 0 <= i < |items| && NameOf(items[i]) == Some(x);
      assert init[i] == items[i];
    }
    forall x | x in Named(init) ensures x in Named(items) && (last == Some(x) ==> !NamesApart(items)) {
      var i :| 0 <= i < |init| && NameOf(init[i]) == Some(x);
      assert items[i] == init[i];
    }
    if last.Some? && last.value !in Named(init) {
      forall i | 0 <= i < |init| ensures NameOf(items[i]) != last {
        assert init[i] == items[i];
      }
    }
  }

  // ---- many-to-many ----

  /** The ids a junction table links to `id`. */
  function Linked(rows: set<JunctionRow>, r: Relation, id: nat): set<nat> {
    set row | row in rows && r.sourceColumn in row && r.targetColumn in row && row[r.sourceColumn] == id :: row[r.targetColumn]
  }

  function Link(r: Relation, id: nat, x: nat): JunctionRow {
    map[r.sourceColumn := id][r.targetColumn := x]
  }

  /** The junction table that the list asks for. */
  function MeantLinks(rows: set<JunctionRow>, r: Relation, id: nat, items: seq<Item>): set<JunctionRow> {
    WithoutSource(rows, r.sourceColumn, id) + set x | x in Named(items) :: Link(r, id, x)
  }

  /** ... links the source to exactly the named ids and every other source as before. */
  lemma MeantLinksExactly(rows: set<JunctionRow>, r: Relation, id: nat, items: seq<Item>, other: nat)
    requires r.sourceColumn != r.targetColumn && other != id
    ensures Linked(MeantLinks(rows, r, id, items), r, id) == Named(items)
    ensures Linked(MeantLinks(rows, r, id, items), r, other) == Linked(rows, r, other)
  {
    hide Named;
    var after := MeantLinks(rows, r, id, items);
    forall x | x in Named(items) ensures x in Linked(after, r, id) {
      assert Link(r, id, x) in after && Link(r, id, x)[r.sourceColumn] == id && Link(r, id, x)[r.targetColumn] == x;
    }
    forall x | x in Linked(rows, r, other) ensures x in Linked(after, r, other) {
      var row :| row in rows && r.sourceColumn in row && r.targetColumn in row && row[r.sourceColumn] == other && row[r.targetColumn] == x;
      assert row in after;
    }
  }

  function Values(ids: seq<Option<nat>>): set<nat> {
    set i | 0 <= i < |ids| && ids[i].Some? :: ids[i].value
  }

  predicate Distinct(ids: seq<Option<nat>>) {
    forall i, j :: 0 <= i < j < |ids| ==> ids[i] != ids[j]
  }

  lemma ValuesSnoc(ids: seq<Option<nat>>, id: nat)
    requires None !in ids
    ensures Values(ids + [Some(id)]) == Values(ids) + {id}
    ensures Distinct(ids + [Some(id)]) <==> Distinct(ids) && id !in Values(ids)
  {
    var all := ids + [Some(id)];
    assert all[..|ids|] == ids && all[|ids|] == Some(id);
    forall i | 0 <= i < |ids| ensures all[i] == ids[i] {
    }
    forall x | x in Values(all) && x != id ensures x in Values(ids) {
      var i :| 0 <= i < |all| && all[i] == Some(x);
      assert ids[i] == Some(x);
    }
    forall x | x in Values(ids) ensures x in Values(all) && (x == id ==> !Distinct(all)) {
      var i :| 0 <= i < |ids| && ids[i] == Some(x);
      assert all[i] == Some(x);
    }
    assert id in Values(all);
    if id !in Values(ids) {
      forall i | 0 <= i < |ids| ensures ids[i] != Some(id) {
      }
    }
  }

  lemma {:induction false} IdsOfNames(items: seq<Item>)
    ensures !HasNull(items) ==> (AllNamed(items) <==> None !in IdsOf(items))
    ensures AllNamed(items) ==> Values(IdsOf(items)) == Named(items)
    ensures AllNamed(items) ==> (Distinct(IdsOf(items)) <==> NamesApart(items))
  {
    hide Values, Named, Distinct, NamesApart, AllNamed, HasNull;
    if items == [] {
      NothingNamed();
    } else {
      var init, last := items[..|items| - 1], items[|items| - 1];
      IdsOfNames(init);
      NamedSnoc(items);
      AllNamedSnoc(items);
      if AllNamed(items) && NameOf(last).Some? {
        ValuesSnoc(IdsOf(init), NameOf(last).value);
      }
      assert IdsOf(init) + [] == IdsOf(init);
    }
  }

  lemma AllNamedSnoc(items: seq<Item>)
    requires items != []
    ensures var init, last := items[..|items| - 1], items[|items| - 1];
            && (HasNull(items) <==> HasNull(init) || last.NullItem?)
            && (AllNamed(items) <==> AllNamed(init) && !last.NullItem? && !(last.Object? && last.key.Absent?))
            && (AllNamed(items) ==> !HasNull(items))
  {
    var init := items[..|items| - 1];
    assert forall i :: 0 <= i < |init| ==> items[i] == init[i];
  }

  lemma NothingNamed()
    ensures Values([]) == {} && Named([]) == {} && Distinct([]) && NamesApart([]) && AllNamed([])
  {
  }

  /** What a caller can check before saving a many-to-many list. */
  predicate Linkable(rows: set<JunctionRow>, r: Relation, id: nat, items: seq<Item>, sources: set<nat>, targets: set<nat>) {
    && (items == [] ==> WithoutSource(rows, r.sourceColumn, id) == rows)
    && AllNamed(items) && NamesApart(items)
    && Named(items) <= targets
    && (Named(items) != {} ==> id in sources)
  }

  lemma InsertableIff(items: seq<Item>, targets: set<nat>)
    requires !HasNull(items)
    ensures Insertable(IdsOf(items), targets) <==> AllNamed(items) && NamesApart(items) && Named(items) <= targets
    ensures AllNamed(items) ==> (IdsOf(items) == [] <==> Named(items) == {})
  {
    hide IdsOf, Named, NamesApart, AllNamed, HasNull;
    IdsOfNames(items);
    var ids := IdsOf(items);
    if None !in ids {
      forall i | 0 <= i < |ids| ensures ids[i].Some? && ids[i].value in Values(ids) {
        assert ids[i] in ids;
      }
      assert ids != [] ==> ids[0].value in Values(ids);
      assert (forall i :: 0 <= i < |ids| ==> ids[i].Some? && ids[i].value in targets) <==> Values(ids) <= targets;
    }
  }

  lemma RowsAreLinks(r: Relation, id: nat, items: seq<Item>)
    requires AllNamed(items)
    ensures JunctionRows(r, id, IdsOf(items)) == set x | x in Named(items) :: Link(r, id, x)
  {
    hide IdsOf, Named;
    IdsOfNames(items);
    var ids := IdsOf(items);
    forall x | x in Values(ids) ensures Link(r, id, x) in JunctionRows(r, id, ids) {
      var i :| 0 <= i < |ids| && ids[i] == Some(x);
      assert Link(r, id, ids[i].value) in JunctionRows(r, id, ids);
    }
    forall row | row in JunctionRows(r, id, ids) ensures exists x :: x in Values(ids) && row == Link(r, id, x) {
      var i :| 0 <= i < |ids| && ids[i].Some? && row == Link(r, id, ids[i].value);
      assert ids[i].value in Values(ids);
    }
  }

  lemma SyncManyToManyIff(rows: set<JunctionRow>, r: Relation, id: nat, items: seq<Item>, sources: set<nat>, targets: set<nat>)
    requires items != []
    ensures var out := SyncManyToMany(rows, r, id, items, sources, targets);
            out.1 <==> Linkable(rows, r, id, items, sources, targets)
    ensures var out := SyncManyToMany(rows, r, id, items, sources, targets);
            out.0 == if out.1 then MeantLinks(rows, r, id, items)
                     else if HasNull(items) then rows
                     else WithoutSource(rows, r.sourceColumn, id)
  {
    hide WithoutSource, JunctionRows, Insertable, NamesApart, Named, IdsOf;
    if !HasNull(items) {
      InsertableIff(items, targets);
      if AllNamed(items) {
        RowsAreLinks(r, id, items);
        if IdsOf(items) == [] {
          NothingNamed();
          IdsOfNames(items);
          assert MeantLinks(rows, r, id, items) == WithoutSource(rows, r.sourceColumn, id);
        }
      } else {
        IdsOfNames(items);
      }
    }
  }

  /** A list saved through the cascade leaves the source linked to exactly the ids it names, and the call goes on, if
      and only if the list is linkable; otherwise a list that is sent and refused costs the source all its links. */
  lemma JunctionReplacedIff(db: Db, tableName: string, id: nat, r: Relation, items: seq<Item>)
    requires tableName in db.tables && Provided(db, r) && r.kind == ManyToMany
    requires r.junctionTable != "" && r.sourceColumn != "" && r.targetColumn != ""
    ensures var rows := db.junctions[r.junctionTable];
            CascadeOne(db, tableName, id, r, Array(items))
            == (db.(junctions := db.junctions[r.junctionTable := MeantLinks(rows, r, id, items)]), true)
            <==> Linkable(rows, r, id, items, Ids(db.tables[tableName]), Ids(db.tables[r.targetTable]))
    ensures var (after, done) := CascadeOne(db, tableName, id, r, Array(items));
            && (done <==> items == [] || Linkable(db.junctions[r.junctionTable], r, id, items, Ids(db.tables[tableName]), Ids(db.tables[r.targetTable])))
            && (!done && !HasNull(items) ==> Linked(after.junctions[r.junctionTable], r, id) == {})
  {
    hide SyncManyToMany, Linkable, Named;
    var rows := db.junctions[r.junctionTable];
    if items == [] {
      NothingLinked(rows, r, id, Ids(db.tables[tableName]), Ids(db.tables[r.targetTable]));
      assert db.junctions[r.junctionTable := rows] == db.junctions;
    } else {
      SyncManyToManyIff(rows, r, id, items, Ids(db.tables[tableName]), Ids(db.tables[r.targetTable]));
    }
  }

  lemma NothingLinked(rows: set<JunctionRow>, r: Relation, id: nat, sources: set<nat>, targets: set<nat>)
    ensures MeantLinks(rows, r, id, []) == rows <==> Linkable(rows, r, id, [], sources, targets)
  {
    assert MeantLinks(rows, r, id, []) == WithoutSource(rows, r.sourceColumn, id);
  }

  // ---- one-to-many: the table that the list asks for ----

  predicate RowsBelow(t: Table) {
    forall k :: k in t.rows ==> k < t.nextId
  }

  /** Whether an item asks for a new row: an object with no id, or with a null one. */
  predicate IsNew(item: Item) {
    item.Object? && !item.key.IdOf?
  }

  /** What the new rows hold, in order. */
  function Created(items: seq<Item>): seq<Row> {
    if items == [] then []
    else Created(items[..|items| - 1]) + (if IsNew(items[|items| - 1]) then [items[|items| - 1].data] else [])
  }

  function NewIds(start: nat, n: nat): (ids: set<nat>)
    ensures forall k :: k in ids <==> start <= k < start + n
  {
    if n == 0 then {} else NewIds(start, n - 1) + {start + n - 1}
  }

  /** Named rows refer to the parent, its other children to nothing, and each item without an id has its row. */
  function MeantRow(t: Table, fk: string, parent: nat, items: seq<Item>, k: nat): Row
    requires k in t.rows || t.nextId <= k < t.nextId + |Created(items)|
  {
    if k !in t.rows then Created(items)[k - t.nextId][fk := Ref(parent)]
    else if k in Named(items) then t.rows[k][fk := Ref(parent)]
    else if k in Children(t, fk, parent) then t.rows[k][fk := Null]
    else t.rows[k]
  }

  function MeantTable(t: Table, fk: string, parent: nat, items: seq<Item>): Table {
    t.(rows := map k | k in t.rows.Keys + NewIds(t.nextId, |Created(items)|) :: MeantRow(t, fk, parent, items, k),
       nextId := t.nextId + |Created(items)|)
  }

  /** ... so the children are the named rows that exist and the new ones, and no other row is touched. */
  lemma MeantChildren(t: Table, fk: string, parent: nat, items: seq<Item>)
    requires RowsBelow(t)
    ensures var t' := MeantTable(t, fk, parent, items);
            && Children(t', fk, parent) == Named(items) * t.rows.Keys + NewIds(t.nextId, |Created(items)|)
            && (forall k :: k in t.rows.Keys - Children(t', fk, parent) - Children(t, fk, parent) ==> t'.rows[k] == t.rows[k])
  {
    hide Named, Created;
  }

  // ---- one-to-many: the statements, were none refused ----

  ghost function ProcessItems(t: Table, fk: string, parent: nat, items: seq<Item>): Table {
    if items == [] then t
    else ProcessItem(ProcessItems(t, fk, parent, items[..|items| - 1]), fk, parent, items[|items| - 1])
  }

  /** How many rows the items insert. */
  function Inserts(items: seq<Item>): nat {
    if items == [] then 0 else Inserts(items[..|items| - 1]) + (if HasId(items[|items| - 1]) then 0 else 1)
  }

  /** Objects only, and none with the id zero, which the code takes for no id. */
  predicate AllObjects(items: seq<Item>) {
    forall i :: 0 <= i < |items| ==> items[i].Object? && items[i].key != IdOf(0)
  }

  lemma {:induction false} ProcessCounts(t: Table, fk: string, parent: nat, items: seq<Item>)
    ensures var t' := ProcessItems(t, fk, parent, items);
            t'.nextId == t.nextId + Inserts(items) && t'.uniques == t.uniques && t'.accepts == t.accepts
  {
    if items != [] {
      ProcessCounts(t, fk, parent, items[..|items| - 1]);
    }
  }

  lemma {:induction false} ObjectsInsertCreated(items: seq<Item>)
    requires !HasNull(items)
    ensures |Created(items)| <= Inserts(items)
    ensures |Created(items)| == Inserts(items) <==> AllObjects(items)
  {
    if items != [] {
      var init := items[..|items| - 1];
      assert forall i :: 0 <= i < |init| ==> items[i] == init[i];
      ObjectsInsertCreated(init);
      assert AllObjects(items) <==> AllObjects(init) && items[|items| - 1].Object? && items[|items| - 1].key != IdOf(0);
    }
  }

  lemma ListedSnoc(items: seq<Item>)
    requires items != []
    ensures var last := items[|items| - 1];
            Listed(items) == Listed(items[..|items| - 1]) + (if HasId(last) then {last.key.id} else {})
  {
    var init := items[..|items| - 1];
    forall x | x in Listed(init) ensures x in Listed(items) {
      var i :| 0 <= i < |init| && HasId(init[i]) && init[i].key.id == x;
      assert items[i] == init[i];
    }
    forall x | x in Listed(items) && !(HasId(items[|items| - 1]) && x == items[|items| - 1].key.id) ensures x in Listed(init) {
      var i :| 0 <= i < |items| && HasId(items[i]) && items[i].key.id == x;
      assert init[i] == items[i];
    }
  }

  ghost predicate Processed(t: Table, t': Table, fk: string, parent: nat, items: seq<Item>) {
    var created := Created(items);
    && t'.nextId == t.nextId + |created|
    && (forall k :: k in t'.rows <==> k in t.rows || t.nextId <= k < t'.nextId)
    && (forall k :: k in t.rows ==> t'.rows[k] == if k in Listed(items) then t.rows[k][fk := Ref(parent)] else t.rows[k])
    && (forall k :: t.nextId <= k < t'.nextId ==> t'.rows[k] == created[k - t.nextId][fk := Ref(parent)])
  }

  lemma {:induction false} ItemsProcessed(t: Table, fk: string, parent: nat, items: seq<Item>)
    requires RowsBelow(t) && AllObjects(items)
    ensures Processed(t, ProcessItems(t, fk, parent, items), fk, parent, items)
  {
    hide Listed, Processed, ProcessItem, RowsBelow;
    if items == [] {
      NothingProcessed(t, fk, parent);
    } else {
      var init, last := items[..|items| - 1], items[|items| - 1];
      ItemsProcessed(t, fk, parent, init);
      ListedSnoc(items);
      if HasId(last) {
        ItemLinked(t, ProcessItems(t, fk, parent, init), fk, parent, items);
      } else {
        ItemCreated(t, ProcessItems(t, fk, parent, init), fk, parent, items);
      }
    }
  }

  lemma ItemLinked(t: Table, mid: Table, fk: string, parent: nat, items: seq<Item>)
    requires items != [] && HasId(items[|items| - 1]) && Processed(t, mid, fk, parent, items[..|items| - 1])
    requires Listed(items) == Listed(items[..|items| - 1]) + {items[|items| - 1].key.id}
    ensures Processed(t, ProcessItem(mid, fk, parent, items[|items| - 1]), fk, parent, items)
  {
    hide Listed;
  }

  lemma ItemCreated(t: Table, mid: Table, fk: string, parent: nat, items: seq<Item>)
    requires items != [] && IsNew(items[|items| - 1]) && Processed(t, mid, fk, parent, items[..|items| - 1])
    requires RowsBelow(t) && Listed(items) == Listed(items[..|items| - 1])
    ensures Processed(t, ProcessItem(mid, fk, parent, items[|items| - 1]), fk, parent, items)
  {
    hide Listed;
  }

  lemma NothingProcessed(t: Table, fk: string, parent: nat)
    ensures Processed(t, t, fk, parent, [])
  {
  }

  // ---- one-to-many: what is refused ----

  /** A row of `m` is as in `goal`, or as in `t` and about to refer to the parent. */
  ghost predicate Between(t: Table, m: Table, goal: Table, fk: string, parent: nat) {
    && t.uniques == m.uniques == goal.uniques && t.accepts == m.accepts == goal.accepts
    && (forall k :: k in m.rows ==>
          && k in goal.rows
          && (m.rows[k] == goal.rows[k]
              || (k in t.rows && m.rows[k] == t.rows[k] && goal.rows[k] == t.rows[k][fk := Ref(parent)])))
    && (forall k :: k in goal.rows ==>
          FieldOf(goal.rows[k], fk) in {Null, Ref(parent)} || (k in t.rows && goal.rows[k] == t.rows[k]))
  }

  lemma PointingKeepsApart(a: Row, b: Row, fk: string, parent: nat, g: set<string>)
    requires !Agree(a[fk := Ref(parent)], b, g)
    requires FieldOf(b, fk) in {Null, Ref(parent)} || !Agree(a, b, g)
    ensures !Agree(a, b, g)
  {
    if fk !in g {
      assert forall c :: c in g ==> FieldOf(a[fk := Ref(parent)], c) == FieldOf(a, c);
    } else if FieldOf(a, fk) == Ref(parent) {
      assert a[fk := Ref(parent)] == a;
    }
  }

  lemma BetweenIsLawful(t: Table, m: Table, goal: Table, fk: string, parent: nat)
    requires Between(t, m, goal, fk, parent) && Lawful(t) && Lawful(goal)
    ensures Lawful(m)
  {
    hide Agree;
    forall k, l, g | k in m.rows && l in m.rows && k != l && g in m.uniques ensures !Agree(m.rows[k], m.rows[l], g) {
      if m.rows[k] == goal.rows[k] && m.rows[l] == goal.rows[l] {
        assert !Agree(goal.rows[k], goal.rows[l], g);
      } else if m.rows[k] == goal.rows[k] {
        assert !Agree(goal.rows[l], goal.rows[k], g);
        PointingKeepsApart(t.rows[l], goal.rows[k], fk, parent, g);
        AgreeIsSymmetric(m.rows[k], m.rows[l], g);
      } else if m.rows[l] == goal.rows[l] {
        PointingKeepsApart(t.rows[k], goal.rows[l], fk, parent, g);
      } else {
        assert !Agree(t.rows[k], t.rows[l], g);
      }
    }
  }

  lemma AgreeIsSymmetric(a: Row, b: Row, g: set<string>)
    ensures Agree(a, b, g) <==> Agree(b, a, g)
  {
  }

  lemma ListedIsNamed(items: seq<Item>)
    requires AllObjects(items)
    ensures Listed(items) == Named(items)
  {
    assert forall i :: 0 <= i < |items| ==> (HasId(items[i]) <==> NameOf(items[i]).Some?);
  }

  lemma {:induction false} PrefixOf(items: seq<Item>, n: nat)
    requires n <= |items|
    ensures Listed(items[..n]) <= Listed(items) && Created(items[..n]) <= Created(items)
    decreases |items| - n
  {
    if n == |items| {
      assert items[..n] == items;
    } else {
      PrefixOf(items, n + 1);
      assert items[..n + 1][..n] == items[..n];
      ListedSnoc(items[..n + 1]);
    }
  }

  lemma ProcessedIsBetween(t: Table, m: Table, fk: string, parent: nat, items: seq<Item>, some: seq<Item>)
    requires RowsBelow(t) && Listed(items) == Named(items) && m.uniques == t.uniques && m.accepts == t.accepts
    requires Processed(Unlinked(t, fk, parent, items), m, fk, parent, some)
    requires Listed(some) <= Listed(items) && Created(some) <= Created(items)
    ensures Between(t, m, MeantTable(t, fk, parent, items), fk, parent)
  {
    hide Listed, Created, Named;
    var goal := MeantTable(t, fk, parent, items);
    assert m.rows.Keys <= goal.rows.Keys;
    forall k | k in m.rows ensures m.rows[k] == goal.rows[k] || (k in t.rows && m.rows[k] == t.rows[k] && goal.rows[k] == t.rows[k][fk := Ref(parent)]) {
    }
  }

  /** After any number of items the table lies between the old one and the one that is meant. */
  lemma PrefixBetween(t: Table, fk: string, parent: nat, items: seq<Item>, n: nat)
    requires RowsBelow(t) && AllObjects(items) && n <= |items|
    ensures var m := ProcessItems(Unlinked(t, fk, parent, items), fk, parent, items[..n]);
            Between(t, m, MeantTable(t, fk, parent, items), fk, parent)
  {
    hide Listed, Created, Named, ProcessItems, HasId, Processed, MeantTable, Between;
    var u := Unlinked(t, fk, parent, items);
    ListedIsNamed(items);
    PrefixOf(items, n);
    ItemsProcessed(u, fk, parent, items[..n]);
    ProcessCounts(u, fk, parent, items[..n]);
    ProcessedIsBetween(t, ProcessItems(u, fk, parent, items[..n]), fk, parent, items, items[..n]);
  }

  lemma AllProcessed(t: Table, fk: string, parent: nat, items: seq<Item>)
    requires RowsBelow(t) && AllObjects(items)
    ensures ProcessItems(Unlinked(t, fk, parent, items), fk, parent, items) == MeantTable(t, fk, parent, items)
  {
    hide Listed, Created, Named, ProcessItems, HasId, Processed, MeantTable;
    var u := Unlinked(t, fk, parent, items);
    ListedIsNamed(items);
    ItemsProcessed(u, fk, parent, items);
    ProcessCounts(u, fk, parent, items);
    ProcessedIsMeant(t, ProcessItems(u, fk, parent, items), fk, parent, items);
  }

  lemma ProcessedIsMeant(t: Table, m: Table, fk: string, parent: nat, items: seq<Item>)
    requires RowsBelow(t) && Listed(items) == Named(items) && m.uniques == t.uniques && m.accepts == t.accepts
    requires Processed(Unlinked(t, fk, parent, items), m, fk, parent, items)
    ensures m == MeantTable(t, fk, parent, items)
  {
    hide Listed, Created, Named;
    var goal := MeantTable(t, fk, parent, items);
    assert m.rows.Keys == goal.rows.Keys;
    forall k | k in goal.rows ensures m.rows[k] == goal.rows[k] {
    }
    assert m.rows == goal.rows;
  }

  /** Whether saving the list writes a reference to the parent. */
  predicate Touches(t: Table, items: seq<Item>) {
    exists i :: 0 <= i < |items| && Refers(t, items[i])
  }

  lemma {:induction false} KeysGrow(t: Table, fk: string, parent: nat, items: seq<Item>)
    ensures t.rows.Keys <= ProcessItems(t, fk, parent, items).rows.Keys
    ensures (forall i :: 0 <= i < |items| ==> HasId(items[i])) ==> ProcessItems(t, fk, parent, items).rows.Keys == t.rows.Keys
  {
    if items != [] {
      KeysGrow(t, fk, parent, items[..|items| - 1]);
      assert forall i :: 0 <= i < |items| - 1 ==> items[..|items| - 1][i] == items[i];
    }
  }

  lemma {:induction false} DoneMeansProcessed(t: Table, parentExists: bool, fk: string, parent: nat, items: seq<Item>)
    requires Lawful(t) && TryItems(t, parentExists, fk, parent, items).1
    ensures TryItems(t, parentExists, fk, parent, items).0 == ProcessItems(t, fk, parent, items)
    ensures Lawful(ProcessItems(t, fk, parent, items)) && (Touches(t, items) ==> parentExists)
  {
    hide Lawful, ProcessItem;
    if items != [] {
      var init := items[..|items| - 1];
      DoneMeansProcessed(t, parentExists, fk, parent, init);
      KeysGrow(t, fk, parent, init);
      if !parentExists {
        forall i | 0 <= i < |items| ensures !Refers(t, items[i]) {
          assert i < |init| ==> items[i] == init[i] && !Refers(t, init[i]);
        }
      }
    }
  }

  lemma {:induction false} LawfulMeansDone(t: Table, parentExists: bool, fk: string, parent: nat, items: seq<Item>)
    requires forall n :: 0 <= n <= |items| ==> Lawful(ProcessItems(t, fk, parent, items[..n]))
    requires Touches(t, items) ==> parentExists
    ensures TryItems(t, parentExists, fk, parent, items) == (ProcessItems(t, fk, parent, items), true)
  {
    hide Lawful, ProcessItem;
    if items != [] {
      var init := items[..|items| - 1];
      forall n | 0 <= n <= |init| ensures Lawful(ProcessItems(t, fk, parent, init[..n])) {
        assert init[..n] == items[..n];
      }
      if i :| 0 <= i < |init| && Refers(t, init[i]) {
        assert items[i] == init[i];
      }
      LawfulMeansDone(t, parentExists, fk, parent, init);
      assert items[..|items|] == items;
      if !parentExists {
        forall i | 0 <= i < |init| ensures HasId(init[i]) {
          assert items[i] == init[i] && !Refers(t, items[i]);
        }
        KeysGrow(t, fk, parent, init);
        assert !Refers(t, items[|items| - 1]);
      }
    }
  }

  lemma UnlinkedKeepsRows(t: Table, fk: string, parent: nat, items: seq<Item>)
    ensures Ids(Unlinked(t, fk, parent, items)) == Ids(t)
    ensures Children(t, fk, parent) <= Listed(items) ==> Unlinked(t, fk, parent, items) == t
  {
    if Children(t, fk, parent) <= Listed(items) {
      assert Children(t, fk, parent) - Listed(items) == {};
      assert Unlinked(t, fk, parent, items).rows == t.rows;
    }
  }

  /** What a caller can check before saving a one-to-many list: objects only, nothing to drop when it is empty, the
      constraints admit the table that it asks for (so a NOT NULL key has no child to drop), and the parent exists. */
  predicate Savable(t: Table, parentExists: bool, fk: string, parent: nat, items: seq<Item>) {
    && AllObjects(items) && (items == [] ==> Children(t, fk, parent) == {})
    && Lawful(MeantTable(t, fk, parent, items))
    && (Touches(t, items) ==> parentExists)
  }

  lemma SavableIsDone(t: Table, parentExists: bool, fk: string, parent: nat, items: seq<Item>)
    requires Lawful(t) && RowsBelow(t) && Savable(t, parentExists, fk, parent, items)
    ensures SyncOneToMany(t, parentExists, fk, parent, items) == (MeantTable(t, fk, parent, items), true)
  {
    hide Lawful, Unlinked, TryItems, ProcessItems, MeantTable, Between, RowsBelow, Children, Listed;
    var u, goal := Unlinked(t, fk, parent, items), MeantTable(t, fk, parent, items);
    UnlinkedKeepsRows(t, fk, parent, items);
    forall n | 0 <= n <= |items| ensures Lawful(ProcessItems(u, fk, parent, items[..n])) {
      PrefixBetween(t, fk, parent, items, n);
      BetweenIsLawful(t, ProcessItems(u, fk, parent, items[..n]), goal, fk, parent);
    }
    assert Touches(u, items) <==> Touches(t, items);
    assert Lawful(u) by {
      NothingToProcess(u, fk, parent, items);
    }
    LawfulMeansDone(u, parentExists, fk, parent, items);
    AllProcessed(t, fk, parent, items);
    assert !HasNull(items);
  }

  lemma NothingToProcess(t: Table, fk: string, parent: nat, items: seq<Item>)
    ensures ProcessItems(t, fk, parent, items[..0]) == t
  {
    assert items[..0] == [];
  }

  lemma DoneIsSavable(t: Table, parentExists: bool, fk: string, parent: nat, items: seq<Item>)
    requires Lawful(t) && RowsBelow(t) && items != []
    requires SyncOneToMany(t, parentExists, fk, parent, items) == (MeantTable(t, fk, parent, items), true)
    ensures Savable(t, parentExists, fk, parent, items)
  {
    hide Lawful, Unlinked, TryItems, ProcessItems, RowsBelow, Children, Listed;
    var u := Unlinked(t, fk, parent, items);
    UnlinkedKeepsRows(t, fk, parent, items);
    DoneMeansProcessed(u, parentExists, fk, parent, items);
    ProcessCounts(u, fk, parent, items);
    UnlinkedKeepsCount(t, fk, parent, items);
    ObjectsInsertCreated(items);
    assert Touches(u, items) <==> Touches(t, items);
  }

  lemma UnlinkedKeepsCount(t: Table, fk: string, parent: nat, items: seq<Item>)
    ensures Unlinked(t, fk, parent, items).nextId == t.nextId
  {
  }

  /** A list saved through the cascade leaves the table as it asks, and the call goes on, if and only if it is savable. */
  lemma ChildrenReplacedIff(db: Db, tableName: string, id: nat, r: Relation, items: seq<Item>)
    requires tableName in db.tables && Provided(db, r) && r.kind == OneToMany
    requires r.targetTable != "" && r.foreignKeyColumn != ""
    requires Lawful(db.tables[r.targetTable]) && RowsBelow(db.tables[r.targetTable])
    ensures var t, fk := db.tables[r.targetTable], r.foreignKeyColumn;
            CascadeOne(db, tableName, id, r, Array(items))
            == (db.(tables := db.tables[r.targetTable := MeantTable(t, fk, id, items)]), true)
            <==> Savable(t, id in db.tables[tableName].rows, fk, id, items)
  {
    hide SyncOneToMany, MeantTable, Lawful, RowsBelow, Savable, Children;
    var t, fk := db.tables[r.targetTable], r.foreignKeyColumn;
    var parentExists := id in db.tables[tableName].rows;
    if items == [] {
      NothingMeant(t, parentExists, fk, id);
      assert db.tables[r.targetTable := t] == db.tables;
    } else if Savable(t, parentExists, fk, id, items) {
      SavableIsDone(t, parentExists, fk, id, items);
    } else if SyncOneToMany(t, parentExists, fk, id, items) == (MeantTable(t, fk, id, items), true) {
      DoneIsSavable(t, parentExists, fk, id, items);
    }
  }

  lemma NothingMeant(t: Table, parentExists: bool, fk: string, parent: nat)
    requires Lawful(t)
    ensures MeantTable(t, fk, parent, []) == t <==> Savable(t, parentExists, fk, parent, [])
  {
    hide Lawful;
    var goal := MeantTable(t, fk, parent, []);
    assert goal.rows.Keys == t.rows.Keys;
    if k :| k in Children(t, fk, parent) {
      assert FieldOf(goal.rows[k], fk) == Null;
    } else {
      assert goal.rows == t.rows;
    }
  }

  /** Saving a savable list of existing children once more changes nothing. */
  lemma ResavingChangesNothing(db: Db, tableName: string, id: nat, r: Relation, items: seq<Item>)
    requires tableName in db.tables && Provided(db, r) && r.kind == OneToMany
    requires r.targetTable != "" && r.foreignKeyColumn != ""
    requires Lawful(db.tables[r.targetTable]) && RowsBelow(db.tables[r.targetTable]) && Created(items) == []
    requires Savable(db.tables[r.targetTable], id in db.tables[tableName].rows, r.foreignKeyColumn, id, items)
    ensures var after := CascadeOne(db, tableName, id, r, Array(items)).0;
            CascadeOne(after, tableName, id, r, Array(items)) == (after, true)
  {
    hide CascadeOne, MeantTable, Lawful, RowsBelow, Created, Children, AllObjects;
    ChildrenReplacedIff(db, tableName, id, r, items);
    var t, fk := db.tables[r.targetTable], r.foreignKeyColumn;
    var t' := MeantTable(t, fk, id, items);
    var after := CascadeOne(db, tableName, id, r, Array(items)).0;
    MeantTwice(t, fk, id, items);
    assert Touches(t', items) <==> Touches(t, items);
    assert id in after.tables[tableName].rows <==> id in db.tables[tableName].rows;
    ChildrenReplacedIff(after, tableName, id, r, items);
    assert after.tables[r.targetTable := t'] == after.tables;
  }

  lemma MeantTwice(t: Table, fk: string, parent: nat, items: seq<Item>)
    requires RowsBelow(t) && Created(items) == []
    ensures var t' := MeantTable(t, fk, parent, items);
            && t'.rows.Keys == t.rows.Keys && RowsBelow(t') && MeantTable(t', fk, parent, items) == t'
            && (items == [] && Children(t, fk, parent) == {} ==> Children(t', fk, parent) == {})
  {
    hide Created, Named;
    var t' := MeantTable(t, fk, parent, items);
    assert t'.rows.Keys == t.rows.Keys;
    var t'' := MeantTable(t', fk, parent, items);
    assert t''.rows.Keys == t'.rows.Keys;
    forall k | k in t'.rows ensures t''.rows[k] == t'.rows[k] {
      assert t'.rows[k] == MeantRow(t, fk, parent, items, k) && t''.rows[k] == MeantRow(t', fk, parent, items, k);
    }
    assert t''.rows == t'.rows;
    if items == [] {
      NothingNamed();
    }
  }

  /** Whatever the list, a call that goes on leaves as children the existing rows that objects list and the rows that
      it inserted: bare ids are dropped, and every one of them inserts a row. */
  lemma ChildrenAfter(t: Table, parentExists: bool, fk: string, parent: nat, items: seq<Item>)
    requires Lawful(t) && RowsBelow(t) && SyncOneToMany(t, parentExists, fk, parent, items).1
    ensures var t' := SyncOneToMany(t, parentExists, fk, parent, items).0;
            Children(t', fk, parent) == Listed(items) * t.rows.Keys + NewIds(t.nextId, Inserts(items))
  {
    hide Lawful, Listed, Inserts, ProcessItems, TryItems;
    var u := Unlinked(t, fk, parent, items);
    UnlinkedKeepsRows(t, fk, parent, items);
    DoneMeansProcessed(u, parentExists, fk, parent, items);
    ProcessChildren(u, fk, parent, items);
  }

  lemma {:induction false} ProcessChildren(t: Table, fk: string, parent: nat, items: seq<Item>)
    requires RowsBelow(t)
    ensures var t' := ProcessItems(t, fk, parent, items);
            && Children(t', fk, parent) ==
               Children(t, fk, parent) + Listed(items) * t.rows.Keys + NewIds(t.nextId, Inserts(items))
            && t'.rows.Keys == t.rows.Keys + NewIds(t.nextId, Inserts(items))
  {
    hide Children, Listed, ProcessItem, HasId, NewIds;
    if items == [] {
      NothingProcessed(t, fk, parent);
      assert Listed(items) == {} by {
        NothingListed();
      }
      assert NewIds(t.nextId, 0) == {};
    } else {
      var init, last := items[..|items| - 1], items[|items| - 1];
      ProcessChildren(t, fk, parent, init);
      ProcessCounts(t, fk, parent, init);
      ListedSnoc(items);
      ItemChildren(ProcessItems(t, fk, parent, init), fk, parent, last);
    }
  }

  lemma NothingListed()
    ensures Listed([]) == {}
  {
  }

  lemma ItemChildren(t: Table, fk: string, parent: nat, item: Item)
    requires t.nextId !in t.rows
    ensures var t' := ProcessItem(t, fk, parent, item);
            if HasId(item)
            then Children(t', fk, parent) == Children(t, fk, parent) + {item.key.id} * t.rows.Keys && t'.rows.Keys == t.rows.Keys
            else Children(t', fk, parent) == Children(t, fk, parent) + {t.nextId} && t'.rows.Keys == t.rows.Keys + {t.nextId}
  {
  }

  // ---- one-to-one, owner side ----

  function LastObject(items: seq<Item>): Option<Item> {
    if items == [] then None
    else if items[|items| - 1].Object? then Some(items[|items| - 1])
    else LastObject(items[..|items| - 1])
  }

  /** What a record points at. */
  function Pointer(db: Db, tableName: string, id: nat, r: Relation): Value
    requires tableName in db.tables && id in db.tables[tableName].rows
  {
    FieldOf(db.tables[tableName].rows[id], r.foreignKeyColumn)
  }

  /** The record points where `item` says: at the row it names, or at one with its data that `before` does not have. */
  predicate PointsBy(before: Db, after: Db, tableName: string, id: nat, r: Relation, item: Item)
    requires tableName in after.tables && r.targetTable in before.tables && r.targetTable in after.tables
  {
    && id in after.tables[tableName].rows
    && Pointer(after, tableName, id, r).Ref?
    && Pointer(after, tableName, id, r).id in Ids(after.tables[r.targetTable])
    && (HasId(item) ==> Pointer(after, tableName, id, r).id == item.key.id)
    && (!HasId(item) ==>
          && Pointer(after, tableName, id, r).id !in Ids(before.tables[r.targetTable])
          && item.Object? && after.tables[r.targetTable].rows[Pointer(after, tableName, id, r).id] == item.data)
  }

  lemma LinkOnePoints(db: Db, tableName: string, id: nat, r: Relation, item: Item)
    requires tableName in db.tables && r.targetTable in db.tables && id in db.tables[tableName].rows
    requires RowsBelow(db.tables[r.targetTable]) && LinkOne(db, tableName, id, r, item).1
    ensures var after := LinkOne(db, tableName, id, r, item).0;
            && id in after.tables[tableName].rows && RowsBelow(after.tables[r.targetTable])
            && Ids(db.tables[r.targetTable]) <= Ids(after.tables[r.targetTable])
            && (item.Object? ==> PointsBy(db, after, tableName, id, r, item))
  {
    hide Lawful;
  }

  /** Of the items of a one-to-one value the last object decides where the record points; bare ids do nothing. */
  lemma {:induction false} LastObjectDecides(db: Db, tableName: string, id: nat, r: Relation, items: seq<Item>)
    requires tableName in db.tables && r.targetTable in db.tables && id in db.tables[tableName].rows
    requires RowsBelow(db.tables[r.targetTable]) && LinkAll(db, tableName, id, r, items).1
    ensures var after := LinkAll(db, tableName, id, r, items).0;
            && id in after.tables[tableName].rows && RowsBelow(after.tables[r.targetTable])
            && Ids(db.tables[r.targetTable]) <= Ids(after.tables[r.targetTable])
            && match LastObject(items)
               case None => after == db
               case Some(item) => PointsBy(db, after, tableName, id, r, item)
  {
    hide LinkOne, RowsBelow, HasId;
    if items != [] {
      var init := items[..|items| - 1];
      LastObjectDecides(db, tableName, id, r, init);
      var before := LinkAll(db, tableName, id, r, init).0;
      LinkOnePoints(before, tableName, id, r, items[|items| - 1]);
      assert !items[|items| - 1].Object? ==> LinkOne(before, tableName, id, r, items[|items| - 1]) == (before, true) by {
        BareIsSkipped(before, tableName, id, r, items[|items| - 1]);
      }
    }
  }

  lemma BareIsSkipped(db: Db, tableName: string, id: nat, r: Relation, item: Item)
    requires tableName in db.tables && r.targetTable in db.tables
    ensures !item.Object? ==> LinkOne(db, tableName, id, r, item) == (db, true)
  {
  }

  // ---- lists that are not saved as they ask ----

  const STUDENTS := Relation("students", ManyToMany, "student", "", "courses_students", "courseId", "studentId", false)
  const LESSONS := Relation("lessons", OneToMany, "lesson", "courseId", "", "", "", false)

  /** Course 1 with student 5 and lesson 3. */
  function School(accepts: Row -> bool): Db {
    Db(map["course" := Table(map[1 := map[]], 2, {}, row => true),
           "student" := Table(map[5 := map[]], 6, {}, row => true),
           "lesson" := Table(map[3 := map["courseId" := Ref(1)]], 4, {}, accepts)],
       map["courses_students" := {map["courseId" := 1, "studentId" := 5]}])
  }

  function Nullable(): Row -> bool {
    row => true
  }

  function Required(): Row -> bool {
    row => FieldOf(row, "courseId") != Null
  }

  /** Linking course 1 to student 7, whom nobody knows, leaves it without student 5 as well. */
  lemma DanglingIdLosesLinks()
    ensures var (after, done) := CascadeOne(School(Nullable()), "course", 1, STUDENTS, Array([Bare(7)]));
            !done && after.junctions["courses_students"] == {}
  {
    var db := School(Nullable());
    assert Ids(db.tables["student"]) == {5};
    assert NameOf([Bare(7)][0]) == Some(7);
    assert 7 in Named([Bare(7)]);
    SyncManyToManyIff(db.junctions["courses_students"], STUDENTS, 1, [Bare(7)], {1}, {5});
    assert [Bare(7)][0].Bare?;
  }

  /** A child named by its bare id is dropped, and an empty row takes its place. */
  lemma BareIdDrops(t: Table, fk: string, parent: nat, child: nat)
    requires t.rows == map[child := map[fk := Ref(parent)]] && t.nextId == child + 1 && t.uniques == {}
    requires forall row :: t.accepts(row)
    ensures SyncOneToMany(t, true, fk, parent, [Bare(child)])
         == (t.(rows := map[child := map[fk := Null], child + 1 := map[fk := Ref(parent)]], nextId := child + 2), true)
  {
    var items := [Bare(child)];
    var dropped := t.(rows := map[child := map[fk := Null]]);
    assert Children(t, fk, parent) == {child} && Listed(items) == {};
    assert t.rows[child][fk := Null] == map[fk := Null];
    assert Unlinked(t, fk, parent, items).rows == dropped.rows;
    assert items[..0] == [] && TryItems(dropped, true, fk, parent, []) == (dropped, true);
  }

  /** Naming lesson 3 by its bare id takes it from course 1 and gives the course an empty lesson 4 in its place. */
  lemma BareIdLosesChild()
    ensures CascadeOne(School(Nullable()), "course", 1, LESSONS, Array([Bare(3)])).0.tables["lesson"].rows
            == map[3 := map["courseId" := Null], 4 := map["courseId" := Ref(1)]]
  {
    hide SyncOneToMany;
    BareIdDrops(School(Nullable()).tables["lesson"], "courseId", 1, 3);
  }

  /** A lesson that must have a course cannot be dropped: nothing of the list is saved. */
  lemma RequiredChildStays(items: seq<Item>)
    requires items != [] && 3 !in Listed(items)
    ensures CascadeOne(School(Required()), "course", 1, LESSONS, Array(items)) == (School(Required()), false)
  {
    hide Listed;
    var db := School(Required());
    var t := db.tables["lesson"];
    assert 3 in Children(t, "courseId", 1);
    assert !Lawful(Unlinked(t, "courseId", 1, items)) by {
      assert FieldOf(Unlinked(t, "courseId", 1, items).rows[3], "courseId") == Null;
    }
    assert db.tables["lesson" := t] == db.tables;
  }

  /** An empty list is not taken for an order to drop the lesson. */
  lemma EmptyListKeepsChild()
    ensures Children(CascadeOne(School(Nullable()), "course", 1, LESSONS, Array([])).0.tables["lesson"], "courseId", 1) == {3}
    ensures !Savable(School(Nullable()).tables["lesson"], true, "courseId", 1, [])
  {
  }

  // ---- what is passed over ----

  /** Nothing happens for a relation that is many-to-one, is a one-to-one inverse, lacks a name in its metadata, or is
      not given a list; a one-to-one relation also takes a single item. */
  lemma PassedOver(db: Db, tableName: string, id: nat, r: Relation, v: RelationValue)
    requires tableName in db.tables && Provided(db, r)
    requires || r.kind == ManyToOne || v == Nothing || (v.Single? && r.kind != OneToOne)
             || (r.kind == OneToOne && (r.isInverse || r.targetTable == "" || r.foreignKeyColumn == ""))
             || (r.kind == OneToMany && (r.targetTable == "" || r.foreignKeyColumn == ""))
             || (r.kind == ManyToMany && (r.junctionTable == "" || r.sourceColumn == "" || r.targetColumn == ""))
    ensures CascadeOne(db, tableName, id, r, v) == (db, true)
  {
  }

  /** The owner side of a one-to-one relation takes a single item or a list, one after another. */
  lemma OwnerLinksItems(db: Db, tableName: string, id: nat, r: Relation, v: RelationValue)
    requires tableName in db.tables && Provided(db, r)
    requires r.kind == OneToOne && r.targetTable != "" && r.foreignKeyColumn != "" && !r.isInverse && v != Nothing
    ensures CascadeOne(db, tableName, id, r, v)
         == LinkAll(db, tableName, id, r, if v.Single? then [v.item] else v.items)
  {
  }

  // ---- what one relation leaves to the others ----

  /** The tables a relation may write. */
  function Writes(tableName: string, r: Relation): set<string> {
    match r.kind
    case OneToMany => {r.targetTable}
    case OneToOne => {tableName, r.targetTable}
    case _ => {}
  }

  predicate WritesJunction(r: Relation, junction: string) {
    r.kind == ManyToMany && r.junctionTable == junction
  }

  lemma {:induction false} LinkAllFrame(db: Db, tableName: string, id: nat, r: Relation, items: seq<Item>, table: string)
    requires tableName in db.tables && r.targetTable in db.tables && table in db.tables && table !in {tableName, r.targetTable}
    ensures LinkAll(db, tableName, id, r, items).0.tables[table] == db.tables[table]
  {
    if items != [] {
      LinkAllFrame(db, tableName, id, r, items[..|items| - 1], table);
    }
  }

  lemma CascadeOneFrame(db: Db, tableName: string, id: nat, r: Relation, v: RelationValue, table: string)
    requires tableName in db.tables && Provided(db, r) && table in db.tables && table !in Writes(tableName, r)
    ensures CascadeOne(db, tableName, id, r, v).0.tables[table] == db.tables[table]
  {
    hide SyncManyToMany, SyncOneToMany;
    if r.kind == OneToOne && Applies(r, v) {
      LinkAllFrame(db, tableName, id, r, ItemsOf(v), table);
    }
  }

  lemma {:induction false} CascadeAllFrame(db: Db, tableName: string, id: nat, relations: seq<Relation>,
                                           values: RelationData, table: string)
    requires tableName in db.tables && forall i :: 0 <= i < |relations| ==> Provided(db, relations[i])
    requires table in db.tables && forall i :: 0 <= i < |relations| ==> table !in Writes(tableName, relations[i])
    ensures CascadeAll(db, tableName, id, relations, values).0.tables[table] == db.tables[table]
  {
    hide CascadeOne;
    if relations != [] {
      var init, last := relations[..|relations| - 1], relations[|relations| - 1];
      CascadeAllFrame(db, tableName, id, init, values, table);
      var before := CascadeAll(db, tableName, id, init, values);
      assert Provided(db, last) && table !in Writes(tableName, last);
      if before.1 {
        CascadeOneFrame(before.0, tableName, id, last, ValueFor(values, last), table);
      }
    }
  }

  lemma {:induction false} JunctionFrame(db: Db, tableName: string, id: nat, relations: seq<Relation>,
                                         values: RelationData, junction: string)
    requires tableName in db.tables && forall i :: 0 <= i < |relations| ==> Provided(db, relations[i])
    requires junction in db.junctions && forall i :: 0 <= i < |relations| ==> !WritesJunction(relations[i], junction)
    ensures CascadeAll(db, tableName, id, relations, values).0.junctions[junction] == db.junctions[junction]
  {
    hide SyncManyToMany, SyncOneToMany, LinkAll;
    if relations != [] {
      var init, last := relations[..|relations| - 1], relations[|relations| - 1];
      JunctionFrame(db, tableName, id, init, values, junction);
      assert Provided(db, last) && !WritesJunction(last, junction);
    }
  }

  /** In a whole cascade a one-to-many relation whose table no other relation writes has exactly its own effect:
      one that comes after it does not undo it, one before does not disturb it, and a refused statement later
      does not take it back. */
  lemma {:induction false} OneToManyInCascade(db: Db, tableName: string, id: nat, relations: seq<Relation>,
                                              values: RelationData, n: nat, items: seq<Item>)
    requires tableName in db.tables && forall i :: 0 <= i < |relations| ==> Provided(db, relations[i])
    requires n < |relations| && relations[n].kind == OneToMany && relations[n].targetTable != "" && relations[n].foreignKeyColumn != ""
    requires relations[n].propertyName in values && values[relations[n].propertyName] == Array(items) && items != []
    requires forall i :: 0 <= i < |relations| && i != n ==> relations[n].targetTable !in Writes(tableName, relations[i])
    requires CascadeAll(db, tableName, id, relations[..n], values).1
    ensures var r, before := relations[n], CascadeAll(db, tableName, id, relations[..n], values).0;
            CascadeAll(db, tableName, id, relations, values).0.tables[r.targetTable]
            == SyncOneToMany(db.tables[r.targetTable], id in before.tables[tableName].rows, r.foreignKeyColumn, id,
                             items).0
  {
    hide SyncOneToMany, SyncManyToMany, LinkAll, Writes;
    var r := relations[n];
    var init, last := relations[..|relations| - 1], relations[|relations| - 1];
    assert Provided(db, r) && Provided(db, last);
    if n == |relations| - 1 {
      CascadeAllFrame(db, tableName, id, init, values, r.targetTable);
    } else {
      assert init[..n] == relations[..n] && init[n] == r;
      OneToManyInCascade(db, tableName, id, init, values, n, items);
      var before := CascadeAll(db, tableName, id, init, values);
      if before.1 {
        CascadeOneFrame(before.0, tableName, id, last, ValueFor(values, last), r.targetTable);
      }
    }
  }

  lemma JunctionOneFrame(db: Db, tableName: string, id: nat, r: Relation, v: RelationValue, junction: string)
    requires tableName in db.tables && Provided(db, r) && junction in db.junctions && !WritesJunction(r, junction)
    ensures CascadeOne(db, tableName, id, r, v).0.junctions[junction] == db.junctions[junction]
  {
    hide SyncManyToMany, SyncOneToMany, LinkAll;
  }

  lemma ManyToManyAlone(db: Db, tableName: string, id: nat, r: Relation, values: RelationData, items: seq<Item>)
    requires tableName in db.tables && Provided(db, r) && r.kind == ManyToMany
    requires r.junctionTable != "" && r.sourceColumn != "" && r.targetColumn != ""
    requires r.propertyName in values && values[r.propertyName] == Array(items) && items != []
    ensures CascadeOne(db, tableName, id, r, ValueFor(values, r)).0.junctions[r.junctionTable]
         == SyncManyToMany(db.junctions[r.junctionTable], r, id, items, Ids(db.tables[tableName]), Ids(db.tables[r.targetTable])).0
  {
    hide SyncManyToMany;
  }

  /** ... and likewise a many-to-many relation whose junction no other relation writes. */
  lemma {:induction false} ManyToManyInCascade(db: Db, tableName: string, id: nat, relations: seq<Relation>,
                                               values: RelationData, n: nat, items: seq<Item>)
    requires tableName in db.tables && forall i :: 0 <= i < |relations| ==> Provided(db, relations[i])
    requires n < |relations| && relations[n].kind == ManyToMany && relations[n].junctionTable != ""
    requires relations[n].sourceColumn != "" && relations[n].targetColumn != ""
    requires relations[n].propertyName in values && values[relations[n].propertyName] == Array(items) && items != []
    requires forall i :: 0 <= i < |relations| && i != n ==> !WritesJunction(relations[i], relations[n].junctionTable)
    requires CascadeAll(db, tableName, id, relations[..n], values).1
    ensures var r, before := relations[n], CascadeAll(db, tableName, id, relations[..n], values).0;
            CascadeAll(db, tableName, id, relations, values).0.junctions[r.junctionTable]
            == SyncManyToMany(db.junctions[r.junctionTable], r, id, items,
                              Ids(before.tables[tableName]), Ids(before.tables[r.targetTable])).0
  {
    hide CascadeOne, SyncManyToMany, ValueFor;
    var r := relations[n];
    var init, last := relations[..|relations| - 1], relations[|relations| - 1];
    assert Provided(db, r) && Provided(db, last);
    var before := CascadeAll(db, tableName, id, init, values).0;
    if n == |relations| - 1 {
      JunctionFrame(db, tableName, id, init, values, r.junctionTable);
      ManyToManyAlone(before, tableName, id, r, values, items);
    } else {
      assert init[..n] == relations[..n] && init[n] == r;
      ManyToManyInCascade(db, tableName, id, init, values, n, items);
      JunctionOneFrame(before, tableName, id, last, ValueFor(values, last), r.junctionTable);
    }
  }
}
