/** What a table looks like after it was synced with a snapshot, and when a second sync has nothing left to do. */
module SchemaConvergence {
  import opened Prelude
  import opened Naming
  import opened SchemaComparison

  /** No column twice, one constraint per foreign-key column. */
  predicate TableOk(t: TableState) {
    Distinct(t.columns) && Distinct(t.foreignKeys) && forall f :: f in t.foreignKeys ==> f in t.columns
  }

  function Scalars(s: Snapshot): seq<string> {
    NamesOf(s.columns)
  }

  function Wanted(s: Snapshot): seq<string> {
    ForeignKeysOf(s.relations)
  }

  /** Names do not clash, `id` is the primary key, and no one-to-one inverse was generated. */
  predicate SnapshotOk(s: Snapshot) {
    && Distinct(Scalars(s)) && Distinct(Wanted(s)) && "id" !in Scalars(s)
    && (forall n :: n in Scalars(s) ==> n !in Wanted(s))
    && (forall i :: 0 <= i < |s.relations| && s.relations[i].kind == OneToOne ==> !s.relations[i].isInverseGenerated)
  }

  // ---- lists of names ----

  lemma {:induction false} MissingDistinct(names: seq<string>, present: set<string>)
    requires Distinct(names)
    ensures Distinct(Missing(names, present))
  {
    if names != [] {
      var init := names[..|names| - 1];
      MissingDistinct(init, present);
      var last := names[|names| - 1];
      assert last !in Missing(init, present);
    }
  }

  lemma {:induction false} MissingNone(names: seq<string>, present: set<string>)
    ensures Missing(names, present) == [] <==> forall n :: n in names ==> n in present
  {
    if names != [] {
      MissingNone(names[..|names| - 1], present);
      assert names[|names| - 1] in names;
    }
  }

  lemma {:induction false} RemoveFirstOfDistinct(names: seq<string>, name: string)
    requires Distinct(names)
    ensures Distinct(RemoveFirst(names, name))
    ensures forall n :: n in RemoveFirst(names, name) <==> n in names && n != name
  {
    if names != [] {
      assert Distinct(names[1..]);
      RemoveFirstOfDistinct(names[1..], name);
      if names[0] != name {
        assert names[0] !in names[1..];
        assert RemoveFirst(names, name)[1..] == RemoveFirst(names[1..], name);
      }
    }
  }

  lemma WantedVisible(s: Snapshot, n: string)
    requires n in Wanted(s)
    ensures !Excluded(n)
  {
    var p :| n == ForeignKeyColumnName(p);
    var camel := SnakeToCamel(p);
    assert n == camel + "Id" && n[|camel|] == 'I' && n[|camel| + 1] == 'd' && |n| == |camel| + 2;
  }

  // ---- the groups of statements ----

  lemma {:induction false} ForeignKeysDropped(t: TableState, names: seq<string>)
    requires TableOk(t) && Distinct(names) && forall n :: n in names ==> n in t.foreignKeys
    ensures match DropForeignKeys(t, names)
            case None => false
            case Some(u) =>
              && TableOk(u)
              && (forall n :: n in u.columns <==> n in t.columns && n !in names)
              && (forall n :: n in u.foreignKeys <==> n in t.foreignKeys && n !in names)
  {
    if names != [] {
      var init, last := names[..|names| - 1], names[|names| - 1];
      ForeignKeysDropped(t, init);
      var u := DropForeignKeys(t, init).value;
      assert last in t.foreignKeys && last !in init;
      RemoveFirstOfDistinct(u.foreignKeys, last);
      MissingDistinct(u.columns, {last});
    }
  }

  predicate NoneGenerated(relations: seq<Relation>) {
    forall i :: 0 <= i < |relations| && relations[i].kind == OneToOne ==> !relations[i].isInverseGenerated
  }

  lemma {:induction false} ForeignKeysAdded(t: TableState, relations: seq<Relation>)
    requires TableOk(t) && NoneGenerated(relations)
    requires Distinct(ForeignKeysOf(relations)) && forall n :: n in ForeignKeysOf(relations) ==> n !in t.columns
    ensures match AddForeignKeys(t, relations)
            case None => false
            case Some(u) =>
              && TableOk(u)
              && (forall n :: n in u.columns <==> n in t.columns || n in ForeignKeysOf(relations))
              && (forall n :: n in u.foreignKeys <==> n in t.foreignKeys || n in ForeignKeysOf(relations))
  {
    if relations != [] {
      var init, last := relations[..|relations| - 1], relations[|relations| - 1];
      var names := ForeignKeysOf(relations);
      assert names[..|ForeignKeysOf(init)|] == ForeignKeysOf(init);
      assert Distinct(ForeignKeysOf(init)) && NoneGenerated(init);
      ForeignKeysAdded(t, init);
      if OnTable(last) {
        var name := ForeignKeyColumnName(last.propertyName);
        assert names[|names| - 1] == name;
        assert name !in ForeignKeysOf(init);
      }
    }
  }

  lemma ForeignKeysOfSnoc(relations: seq<Relation>, last: Relation)
    ensures ForeignKeysOf(relations + [last]) ==
            ForeignKeysOf(relations) + (if OnTable(last) then [ForeignKeyColumnName(last.propertyName)] else [])
  {
    assert (relations + [last])[..|relations|] == relations;
  }

  lemma {:induction false} KeysToAdd(relations: seq<Relation>, present: set<string>)
    ensures ForeignKeysOf(RelationsToAdd(relations, present)) == Missing(ForeignKeysOf(relations), present)
  {
    hide Missing, ForeignKeysOf, ForeignKeyColumnName;
    if relations == [] {
      NoKeys(present);
    } else {
      var init, last := relations[..|relations| - 1], relations[|relations| - 1];
      KeysToAdd(init, present);
      assert relations == init + [last];
      ForeignKeysOfSnoc(init, last);
      ForeignKeysOfSnoc(RelationsToAdd(init, present), last);
      MissingOfSnoc(ForeignKeysOf(init), ForeignKeyColumnName(last.propertyName), present);
      assert RelationsToAdd(init, present) + [] == RelationsToAdd(init, present);
      assert ForeignKeysOf(init) + [] == ForeignKeysOf(init);
    }
  }

  lemma NoKeys(present: set<string>)
    ensures ForeignKeysOf([]) == [] == Missing([], present)
  {
  }

  lemma {:induction false} AddsNoneGenerated(relations: seq<Relation>, present: set<string>)
    requires NoneGenerated(relations)
    ensures NoneGenerated(RelationsToAdd(relations, present))
  {
    hide ForeignKeyColumnName;
    if relations != [] {
      AddsNoneGenerated(relations[..|relations| - 1], present);
    }
  }

  lemma MissingOfSnoc(names: seq<string>, last: string, present: set<string>)
    ensures Missing(names + [last], present) == Missing(names, present) + (if last in present then [] else [last])
  {
    assert (names + [last])[..|names|] == names;
  }

  // ---- main results ----

  /** The visible columns of the table and its constraints after a sync. */
  ghost predicate Result(t: TableState, s: Snapshot, u: TableState) {
    && TableOk(u)
    && (forall n :: n in u.columns <==>
          if n in Wanted(s) then true
          else if n in t.foreignKeys then false
          else n in Scalars(s) || (Excluded(n) && n in t.columns))
    && (forall n :: n in u.foreignKeys <==> n in Wanted(s) && (n in t.foreignKeys || n !in t.columns))
  }

  lemma DistinctConcat(a: seq<string>, b: seq<string>)
    requires Distinct(a) && Distinct(b) && forall n :: n in b ==> n !in a
    ensures Distinct(a + b)
  {
    forall i, j | 0 <= i < j < |a + b| ensures (a + b)[i] != (a + b)[j] {
      if i < |a| && |a| <= j {
        assert b[j - |a|] in b;
      }
    }
  }

  lemma ColumnsAdded(t: TableState, s: Snapshot) returns (added: TableState)
    requires TableOk(t) && SnapshotOk(s)
    ensures AddColumns(t, Compare(s, Visible(t.columns), t.foreignKeys).columnsToAdd) == Some(added)
    ensures TableOk(added) && added.foreignKeys == t.foreignKeys
    ensures forall n :: n in added.columns <==> n in t.columns || n in Scalars(s)
  {
    hide NamesOf, ForeignKeysOf, Missing, RelationsToAdd, Excluded;
    var toAdd := Missing(Scalars(s), SetOf(Visible(t.columns)));
    MissingDistinct(Scalars(s), SetOf(Visible(t.columns)));
    ScalarsVisible(s);
    forall n | n in Scalars(s) ensures n in toAdd <==> n !in t.columns {
      VisibleIs(t.columns, n);
    }
    assert forall n :: n in toAdd ==> n in Scalars(s) && n !in t.columns;
    DistinctConcat(t.columns, toAdd);
    added := t.(columns := t.columns + toAdd);
  }

  lemma ColumnsMigrated(t: TableState, s: Snapshot) returns (dropped: TableState)
    requires TableOk(t) && SnapshotOk(s)
    ensures var d := Compare(s, Visible(t.columns), t.foreignKeys);
            && AddColumns(t, d.columnsToAdd).Some?
            && DropColumns(AddColumns(t, d.columnsToAdd).value, d.columnsToRemove) == Some(dropped)
    ensures TableOk(dropped) && forall n :: n in dropped.foreignKeys <==> n in t.foreignKeys
    ensures forall n :: n in dropped.columns <==>
              n in Scalars(s) || n in t.foreignKeys || (n in t.columns && (n in Wanted(s) || Excluded(n)))
  {
    hide NamesOf, ForeignKeysOf, Missing, RelationsToAdd, Excluded, AddColumns;
    var added := ColumnsAdded(t, s);
    var known := SetOf(Scalars(s)) + SetOf(t.foreignKeys) + SetOf(Wanted(s));
    var toRemove := Missing(Visible(t.columns), known);
    MissingDistinct(t.columns, {"id", "createdAt", "updatedAt"});
    MissingDistinct(Visible(t.columns), known);
    MissingDistinct(added.columns, SetOf(toRemove));
    MissingDistinct(added.foreignKeys, SetOf(toRemove));
    forall n ensures n in toRemove <==> n in t.columns && !Excluded(n) && n !in Scalars(s) && n !in t.foreignKeys && n !in Wanted(s) {
      VisibleIs(t.columns, n);
    }
    dropped := DropColumns(added, toRemove).value;
  }

  lemma ScalarsVisible(s: Snapshot)
    requires SnapshotOk(s)
    ensures forall n :: n in Scalars(s) ==> !Excluded(n)
  {
  }

  /** The sync is never refused, and this is what it leaves. */
  lemma SyncResult(t: TableState, s: Snapshot)
    requires TableOk(t) && SnapshotOk(s)
    ensures Sync(t, s).Some? && Result(t, s, Sync(t, s).value)
  {
    hide NamesOf, ForeignKeysOf, Missing, DropColumns, AddColumns, RelationsToAdd, Excluded;
    var d := Compare(s, Visible(t.columns), t.foreignKeys);
    var dropped := ColumnsMigrated(t, s);
    MissingDistinct(t.foreignKeys, SetOf(Wanted(s)));
    ForeignKeysDropped(dropped, d.relationsToRemove);
    var freed := DropForeignKeys(dropped, d.relationsToRemove).value;
    var present := SetOf(t.foreignKeys) + SetOf(Visible(t.columns));
    KeysToAdd(s.relations, present);
    AddsNoneGenerated(s.relations, present);
    MissingDistinct(Wanted(s), present);
    forall n | n in Wanted(s) ensures !Excluded(n) && (n in Visible(t.columns) <==> n in t.columns) {
      WantedVisible(s, n);
      VisibleIs(t.columns, n);
    }
    ScalarsVisible(s);
    ForeignKeysAdded(freed, d.relationsToAdd);
  }

  lemma VisibleIs(columns: seq<string>, n: string)
    ensures n in Visible(columns) <==> n in columns && !Excluded(n)
  {
  }

  /** The table has exactly the snapshot's scalars and foreign keys, and the columns outside the comparison as before. */
  ghost predicate Converged(t: TableState, s: Snapshot, u: TableState) {
    && (forall n :: n in Visible(u.columns) <==> n in Scalars(s) || n in Wanted(s))
    && (forall n :: n in u.columns && Excluded(n) <==> n in t.columns && Excluded(n))
  }

  /** No foreign key that the snapshot has given up is on a column the snapshot keeps, as a scalar or outside
      the comparison: dropping the foreign key would drop that column. */
  predicate DropsSafely(t: TableState, s: Snapshot) {
    forall f :: f in t.foreignKeys ==> f in Wanted(s) || (f !in Scalars(s) && !Excluded(f))
  }

  /** A sync never fails, and gives the table the snapshot's columns exactly when it drops safely; otherwise a
      column the snapshot keeps is lost. */
  lemma SyncConverges(t: TableState, s: Snapshot)
    requires TableOk(t) && SnapshotOk(s)
    ensures Sync(t, s).Some?
    ensures Converged(t, s, Sync(t, s).value) <==> DropsSafely(t, s)
  {
    hide NamesOf, ForeignKeysOf, Missing, Sync, Excluded;
    SyncResult(t, s);
    var u := Sync(t, s).value;
    forall n ensures n in Visible(u.columns) <==> n in u.columns && !Excluded(n) {
      VisibleIs(u.columns, n);
    }
    ScalarsVisible(s);
    forall n | n in Wanted(s) ensures !Excluded(n) {
      WantedVisible(s, n);
    }
    assert forall f :: f in t.foreignKeys ==> f in t.columns;
    if Converged(t, s, u) {
      forall f | f in t.foreignKeys && f !in Wanted(s) ensures f !in Scalars(s) && !Excluded(f) {
        assert f !in u.columns;
      }
    }
  }

  /** Every foreign-key column of the snapshot ends up constrained, except those that stood there unconstrained. */
  lemma ConstraintsAfterSync(t: TableState, s: Snapshot)
    requires TableOk(t) && SnapshotOk(s)
    ensures Sync(t, s).Some?
    ensures (forall n :: n in Wanted(s) <==> n in Sync(t, s).value.foreignKeys) <==>
            (forall n :: n in Wanted(s) && n in t.columns ==> n in t.foreignKeys)
  {
    hide NamesOf, ForeignKeysOf, Missing, Sync;
    SyncResult(t, s);
  }

  predicate OnlyManyToMany(relations: seq<Relation>) {
    forall i :: 0 <= i < |relations| ==> relations[i].kind == ManyToMany
  }

  lemma {:induction false} OnlyManyToManyLeft(relations: seq<Relation>, present: set<string>)
    requires forall n :: n in ForeignKeysOf(relations) ==> n in present
    ensures OnlyManyToMany(RelationsToAdd(relations, present))
  {
    hide ForeignKeyColumnName;
    if relations != [] {
      var init, last := relations[..|relations| - 1], relations[|relations| - 1];
      ForeignKeysOfSnoc(init, last);
      assert relations == init + [last];
      OnlyManyToManyLeft(init, present);
    }
  }

  lemma {:induction false} ManyToManyAddsNothing(t: TableState, relations: seq<Relation>)
    requires OnlyManyToMany(relations)
    ensures AddForeignKeys(t, relations) == Some(t)
  {
    if relations != [] {
      ManyToManyAddsNothing(t, relations[..|relations| - 1]);
    }
  }

  /** After a sync that dropped safely, a second comparison lists nothing but many-to-many relations, and a second
      sync leaves the table as it is. */
  lemma SecondSyncDoesNothing(t: TableState, s: Snapshot)
    requires TableOk(t) && SnapshotOk(s) && DropsSafely(t, s)
    ensures Sync(t, s).Some?
    ensures var u := Sync(t, s).value;
            var d := Compare(s, Visible(u.columns), u.foreignKeys);
            && d.columnsToAdd == [] && d.columnsToRemove == [] && d.relationsToRemove == []
            && OnlyManyToMany(d.relationsToAdd)
            && Sync(u, s) == Some(u)
  {
    hide NamesOf, ForeignKeysOf, Missing, RelationsToAdd, AddForeignKeys, Excluded;
    SyncResult(t, s);
    SyncConverges(t, s);
    var u := Sync(t, s).value;
    var d := Compare(s, Visible(u.columns), u.foreignKeys);
    NothingToDo(t, s, u);
    ManyToManyAddsNothing(u, d.relationsToAdd);
    NoStatement(u);
    assert DropForeignKeys(u, []) == Some(u);
  }

  lemma NothingToDo(t: TableState, s: Snapshot, u: TableState)
    requires Result(t, s, u) && Converged(t, s, u)
    ensures var d := Compare(s, Visible(u.columns), u.foreignKeys);
            && d.columnsToAdd == [] && d.columnsToRemove == [] && d.relationsToRemove == []
            && OnlyManyToMany(d.relationsToAdd)
  {
    hide NamesOf, ForeignKeysOf, Missing, RelationsToAdd, Excluded;
    MissingNone(Scalars(s), SetOf(Visible(u.columns)));
    MissingNone(Visible(u.columns), SetOf(Scalars(s)) + SetOf(u.foreignKeys) + SetOf(Wanted(s)));
    MissingNone(u.foreignKeys, SetOf(Wanted(s)));
    OnlyManyToManyLeft(s.relations, SetOf(u.foreignKeys) + SetOf(Visible(u.columns)));
  }

  /** The family that does not converge is not empty: a relation turned into a plain column of the same name
      loses the column. */
  lemma ScalarLosesItsColumn() returns (t: TableState, s: Snapshot)
    ensures TableOk(t) && SnapshotOk(s) && !DropsSafely(t, s)
    ensures Sync(t, s).Some? && "authorId" in Scalars(s) && "authorId" in t.columns && "authorId" !in Sync(t, s).value.columns
  {
    t := TableState(["id", "authorId"], ["authorId"]);
    s := Snapshot([Column("authorId", false)], []);
    assert NamesOf(s.columns) == ["authorId"] by {
      assert s.columns[..0] == [];
    }
    SyncResult(t, s);
  }

  // ---- the lists in terms of the snapshot ----

  /** A column of the snapshot is compared unless it is the primary key or a timestamp. */
  ghost predicate HasScalar(s: Snapshot, name: string) {
    name != "createdAt" && name != "updatedAt"
    && exists i :: 0 <= i < |s.columns| && s.columns[i].name == name && !s.columns[i].isPrimary
  }

  /** A many-to-one or one-to-one relation of the snapshot is stored in this column. */
  ghost predicate HasForeignKey(s: Snapshot, name: string) {
    exists i :: 0 <= i < |s.relations| && s.relations[i].kind in {ManyToOne, OneToOne}
                && ForeignKeyColumnName(s.relations[i].propertyName) == name
  }

  lemma {:induction false} ScalarsIff(columns: seq<Column>, relations: seq<Relation>, name: string)
    ensures name in NamesOf(columns) <==> HasScalar(Snapshot(columns, relations), name)
  {
    if columns != [] {
      var init := columns[..|columns| - 1];
      ScalarsIff(init, relations, name);
      assert forall i :: 0 <= i < |init| ==> columns[i] == init[i];
    }
  }

  lemma {:induction false} WantedIff(columns: seq<Column>, relations: seq<Relation>, name: string)
    ensures name in ForeignKeysOf(relations) <==> HasForeignKey(Snapshot(columns, relations), name)
  {
    hide ForeignKeyColumnName;
    if relations != [] {
      var init := relations[..|relations| - 1];
      WantedIff(columns, init, name);
      assert forall i :: 0 <= i < |init| ==> relations[i] == init[i];
    }
  }

  lemma {:induction false} AddedIff(relations: seq<Relation>, present: set<string>, r: Relation)
    ensures r in RelationsToAdd(relations, present)
        <==> r in relations
             && (r.kind == ManyToMany
                 || (r.kind in {ManyToOne, OneToOne} && ForeignKeyColumnName(r.propertyName) !in present))
  {
    hide ForeignKeyColumnName;
    if relations != [] {
      AddedIff(relations[..|relations| - 1], present, r);
      assert relations == relations[..|relations| - 1] + [relations[|relations| - 1]];
    }
  }

  /** Which columns and relations a comparison lists. */
  lemma DiffMeaning(s: Snapshot, columns: seq<string>, foreignKeys: seq<string>, name: string, r: Relation)
    ensures var d := Compare(s, columns, foreignKeys);
            && (name in d.columnsToAdd <==> HasScalar(s, name) && name !in columns)
            && (name in d.columnsToRemove <==>
                  name in columns && !HasScalar(s, name) && !HasForeignKey(s, name) && name !in foreignKeys)
            && (name in d.relationsToRemove <==> name in foreignKeys && !HasForeignKey(s, name))
            && (r in d.relationsToAdd <==>
                  r in s.relations
                  && (r.kind == ManyToMany
                      || (r.kind in {ManyToOne, OneToOne}
                          && ForeignKeyColumnName(r.propertyName) !in columns
                          && ForeignKeyColumnName(r.propertyName) !in foreignKeys)))
  {
    hide NamesOf, ForeignKeysOf, RelationsToAdd, HasScalar, HasForeignKey, ForeignKeyColumnName;
    assert s == Snapshot(s.columns, s.relations);
    ScalarsIff(s.columns, s.relations, name);
    WantedIff(s.columns, s.relations, name);
    AddedIff(s.relations, SetOf(foreignKeys) + SetOf(columns), r);
  }

  /** A many-to-many or one-to-many relation, and a one-to-one inverse that was generated, puts nothing on the table. */
  lemma {:induction false} OthersAddNothing(t: TableState, relations: seq<Relation>)
    requires forall i :: 0 <= i < |relations| ==>
               relations[i].kind in {ManyToMany, OneToMany} || (relations[i].kind == OneToOne && relations[i].isInverseGenerated)
    ensures AddForeignKeys(t, relations) == Some(t)
  {
    if relations != [] {
      var init := relations[..|relations| - 1];
      assert forall i :: 0 <= i < |init| ==> init[i] == relations[i];
      OthersAddNothing(t, init);
    }
  }
}
