/** Comparing a table snapshot with the table in the database, by column and foreign-key names, and applying the
    difference statement by statement. */
module SchemaComparison {
  import opened Prelude
  import opened Naming

  datatype Kind = ManyToOne | OneToOne | OneToMany | ManyToMany
  datatype Column = Column(name: string, isPrimary: bool)
  datatype Relation = Relation(propertyName: string, kind: Kind, isInverseGenerated: bool)
  datatype Snapshot = Snapshot(columns: seq<Column>, relations: seq<Relation>)

  /** All columns of the table, and one entry per foreign-key constraint: the column it is on. */
  datatype TableState = TableState(columns: seq<string>, foreignKeys: seq<string>)

  datatype Diff = Diff(columnsToAdd: seq<string>, columnsToRemove: seq<string>,
                       relationsToAdd: seq<Relation>, relationsToRemove: seq<string>)

  /** Columns that the schema query leaves out. */
  predicate Excluded(name: string) {
    name == "id" || name == "createdAt" || name == "updatedAt"
  }

  // ---- the difference ----

  /** The names that are not in `present`, in order. */
  function Missing(names: seq<string>, present: set<string>): (r: seq<string>)
    ensures forall n :: n in r <==> n in names && n !in present
  {
    if names == [] then []
    else
      var last := names[|names| - 1];
      Missing(names[..|names| - 1], present) + (if last in present then [] else [last])
  }

  function Visible(columns: seq<string>): seq<string> {
    Missing(columns, {"id", "createdAt", "updatedAt"})
  }

  function NamesOf(columns: seq<Column>): (r: seq<string>)
    ensures forall n :: n in r ==> n != "createdAt" && n != "updatedAt"
  {
    if columns == [] then []
    else
      var last := columns[|columns| - 1];
      NamesOf(columns[..|columns| - 1])
      + (if !last.isPrimary && last.name != "createdAt" && last.name != "updatedAt" then [last.name] else [])
  }

  predicate OnTable(r: Relation) {
    r.kind == ManyToOne || r.kind == OneToOne
  }

  /** The foreign-key columns that relations of the snapshot put on the table. */
  function ForeignKeysOf(relations: seq<Relation>): (r: seq<string>)
    ensures forall n :: n in r ==> exists p :: n == ForeignKeyColumnName(p)
  {
    if relations == [] then []
    else
      var last := relations[|relations| - 1];
      ForeignKeysOf(relations[..|relations| - 1]) + (if OnTable(last) then [ForeignKeyColumnName(last.propertyName)] else [])
  }

  function RelationsToAdd(relations: seq<Relation>, present: set<string>): seq<Relation> {
    if relations == [] then []
    else
      var last := relations[|relations| - 1];
      RelationsToAdd(relations[..|relations| - 1], present)
      + (if last.kind == ManyToMany || (OnTable(last) && ForeignKeyColumnName(last.propertyName) !in present) then [last] else [])
  }

  function SetOf(s: seq<string>): set<string> {
    set x | x in s
  }

  function Compare(snapshot: Snapshot, columns: seq<string>, foreignKeys: seq<string>): Diff {
    var scalars, wanted := NamesOf(snapshot.columns), ForeignKeysOf(snapshot.relations);
    Diff(Missing(scalars, SetOf(columns)),
         Missing(columns, SetOf(scalars) + SetOf(foreignKeys) + SetOf(wanted)),
         RelationsToAdd(snapshot.relations, SetOf(foreignKeys) + SetOf(columns)),
         Missing(foreignKeys, SetOf(wanted)))
  }

  method SnapshotColumnNames(columns: seq<Column>) returns (names: seq<string>)
    ensures names == NamesOf(columns)
  {
    names := [];
    for i := 0 to |columns|
      invariant names == NamesOf(columns[..i])
    {
      assert columns[..i + 1][..i] == columns[..i];
      var col := columns[i];
      if !col.isPrimary && col.name != "createdAt" && col.name != "updatedAt" {
        names := names + [col.name];
      }
    }
    assert columns[..|columns|] == columns;
  }

  method SnapshotForeignKeys(relations: seq<Relation>) returns (names: set<string>)
    ensures names == SetOf(ForeignKeysOf(relations))
  {
    names := {};
    for i := 0 to |relations|
      invariant names == SetOf(ForeignKeysOf(relations[..i]))
    {
      assert relations[..i + 1][..i] == relations[..i];
      var rel := relations[i];
      if rel.kind == ManyToOne || rel.kind == OneToOne {
        names := names + {ForeignKeyColumnName(rel.propertyName)};
      }
    }
    assert relations[..|relations|] == relations;
  }

  /** `compareSchemas` on names: six passes over the two schemas. */
  method CompareSchemas(snapshot: Snapshot, columns: seq<string>, foreignKeys: seq<string>) returns (diff: Diff)
    ensures diff == Compare(snapshot, columns, foreignKeys)
  {
    hide NamesOf, ForeignKeysOf, SetOf;
    var snapshotColumns := SnapshotColumnNames(snapshot.columns);
    var snapshotForeignKeys := SnapshotForeignKeys(snapshot.relations);
    var columnsToAdd := Absent(snapshotColumns, columns);
    var columnsToRemove := ObsoleteColumns(columns, snapshotColumns, foreignKeys, snapshotForeignKeys);
    var relationsToAdd := NewRelations(snapshot.relations, columns, foreignKeys);
    var relationsToRemove := ObsoleteForeignKeys(foreignKeys, snapshotForeignKeys);
    diff := Diff(columnsToAdd, columnsToRemove, relationsToAdd, relationsToRemove);
  }

  method Absent(names: seq<string>, columns: seq<string>) returns (missing: seq<string>)
    ensures missing == Missing(names, SetOf(columns))
  {
    missing := [];
    for i := 0 to |names|
      invariant missing == Missing(names[..i], SetOf(columns))
    {
      assert names[..i + 1][..i] == names[..i];
      if names[i] !in columns {
        missing := missing + [names[i]];
      }
    }
    assert names[..|names|] == names;
  }

  method ObsoleteColumns(columns: seq<string>, scalars: seq<string>, foreignKeys: seq<string>, wanted: set<string>)
    returns (obsolete: seq<string>)
    ensures obsolete == Missing(columns, SetOf(scalars) + SetOf(foreignKeys) + wanted)
  {
    obsolete := [];
    for i := 0 to |columns|
      invariant obsolete == Missing(columns[..i], SetOf(scalars) + SetOf(foreignKeys) + wanted)
    {
      assert columns[..i + 1][..i] == columns[..i];
      var name := columns[i];
      if name in scalars {
        continue;
      }
      var isCurrentFkColumn := name in foreignKeys;
      if isCurrentFkColumn && name !in wanted {
        continue;
      }
      if name in wanted {
        continue;
      }
      obsolete := obsolete + [name];
    }
    assert columns[..|columns|] == columns;
  }

  method NewRelations(relations: seq<Relation>, columns: seq<string>, foreignKeys: seq<string>)
    returns (added: seq<Relation>)
    ensures added == RelationsToAdd(relations, SetOf(foreignKeys) + SetOf(columns))
  {
    added := [];
    for i := 0 to |relations|
      invariant added == RelationsToAdd(relations[..i], SetOf(foreignKeys) + SetOf(columns))
    {
      assert relations[..i + 1][..i] == relations[..i];
      var rel := relations[i];
      if rel.kind == ManyToOne || rel.kind == OneToOne {
        var fkColumn := ForeignKeyColumnName(rel.propertyName);
        if fkColumn !in foreignKeys && fkColumn !in columns {
          added := added + [rel];
        }
      } else if rel.kind == ManyToMany {
        added := added + [rel];
      }
    }
    assert relations[..|relations|] == relations;
  }

  method ObsoleteForeignKeys(foreignKeys: seq<string>, wanted: set<string>) returns (obsolete: seq<string>)
    ensures obsolete == Missing(foreignKeys, wanted)
  {
    obsolete := [];
    for i := 0 to |foreignKeys|
      invariant obsolete == Missing(foreignKeys[..i], wanted)
    {
      assert foreignKeys[..i + 1][..i] == foreignKeys[..i];
      if foreignKeys[i] !in wanted {
        obsolete := obsolete + [foreignKeys[i]];
      }
    }
    assert foreignKeys[..|foreignKeys|] == foreignKeys;
  }

  // ---- the statements ----

  predicate Distinct(names: seq<string>) {
    forall i, j :: 0 <= i < j < |names| ==> names[i] != names[j]
  }

  function Without(names: seq<string>, gone: set<string>): (r: seq<string>)
    ensures forall n :: n in r <==> n in names && n !in gone
  {
    Missing(names, gone)
  }

  /** One ALTER TABLE: refused when a column exists or is named twice. */
  function AddColumns(t: TableState, names: seq<string>): Option<TableState> {
    if Distinct(names) && forall n :: n in names ==> n !in t.columns then Some(t.(columns := t.columns + names)) else None
  }

  /** Constraints on the columns go first; refused when a column is not there or is named twice. */
  function DropColumns(t: TableState, names: seq<string>): Option<TableState> {
    if Distinct(names) && forall n :: n in names ==> n in t.columns
    then Some(TableState(Without(t.columns, SetOf(names)), Without(t.foreignKeys, SetOf(names))))
    else None
  }

  function RemoveFirst(names: seq<string>, name: string): seq<string> {
    if names == [] then [] else if names[0] == name then names[1..] else [names[0]] + RemoveFirst(names[1..], name)
  }

  /** One foreign key: the first constraint found on the column, then the column; refused when the column is not
      there or is still constrained. */
  function DropForeignKey(t: TableState, name: string): Option<TableState> {
    var left := RemoveFirst(t.foreignKeys, name);
    if name in t.columns && name !in left then Some(TableState(Without(t.columns, {name}), left)) else None
  }

  function DropForeignKeys(t: TableState, names: seq<string>): Option<TableState> {
    if names == [] then Some(t)
    else
      match DropForeignKeys(t, names[..|names| - 1])
      case None => None
      case Some(u) => DropForeignKey(u, names[|names| - 1])
  }

  /** A many-to-many relation and a generated one-to-one inverse put nothing on the table. */
  predicate Materialised(r: Relation) {
    r.kind == ManyToOne || (r.kind == OneToOne && !r.isInverseGenerated)
  }

  function AddForeignKey(t: TableState, name: string): Option<TableState> {
    if name in t.columns then None else Some(TableState(t.columns + [name], t.foreignKeys + [name]))
  }

  function AddForeignKeys(t: TableState, relations: seq<Relation>): Option<TableState> {
    if relations == [] then Some(t)
    else
      match AddForeignKeys(t, relations[..|relations| - 1])
      case None => None
      case Some(u) =>
        var last := relations[|relations| - 1];
        if Materialised(last) then AddForeignKey(u, ForeignKeyColumnName(last.propertyName)) else Some(u)
  }


  /** The four groups of statements in order; absent when one is refused. */
  function Migrate(t: TableState, d: Diff): Option<TableState> {
    match AddColumns(t, d.columnsToAdd)
    case None => None
    case Some(added) =>
      match DropColumns(added, d.columnsToRemove)
      case None => None
      case Some(dropped) =>
        match DropForeignKeys(dropped, d.relationsToRemove)
        case None => None
        case Some(freed) => AddForeignKeys(freed, d.relationsToAdd)
  }

  function Sync(t: TableState, snapshot: Snapshot): Option<TableState> {
    Migrate(t, Compare(snapshot, Visible(t.columns), t.foreignKeys))
  }

  // ---- the migration loops ----

  /** A table that statements change one by one; what ran before a refused statement stays. */
  class SqlTable {
    var columns: seq<string>
    var foreignKeys: seq<string>

    constructor (columns: seq<string>, foreignKeys: seq<string>)
      ensures View() == TableState(columns, foreignKeys)
    {
      this.columns, this.foreignKeys := columns, foreignKeys;
    }

    ghost function View(): TableState
      reads this
    {
      TableState(columns, foreignKeys)
    }

    method Execute(next: Option<TableState>) returns (done: bool)
      modifies this
      ensures done <==> next.Some?
      ensures View() == if done then next.value else old(View())
    {
      done := next.Some?;
      if done {
        columns, foreignKeys := next.value.columns, next.value.foreignKeys;
      }
    }

    method ApplyColumnMigrations(d: Diff) returns (done: bool)
      modifies this
      ensures done <==> AddColumns(old(View()), d.columnsToAdd).Some?
                        && DropColumns(AddColumns(old(View()), d.columnsToAdd).value, d.columnsToRemove).Some?
      ensures done ==> View() == DropColumns(AddColumns(old(View()), d.columnsToAdd).value, d.columnsToRemove).value
    {
      hide AddColumns, DropColumns;
      NoStatement(View());
      done := true;
      if |d.columnsToAdd| > 0 {
        done := Execute(AddColumns(TableState(columns, foreignKeys), d.columnsToAdd));
      }
      NoStatement(View());
      if done && |d.columnsToRemove| > 0 {
        done := Execute(DropColumns(TableState(columns, foreignKeys), d.columnsToRemove));
      }
    }

    method ApplyRelationMigrations(d: Diff) returns (done: bool)
      modifies this
      ensures done <==> DropForeignKeys(old(View()), d.relationsToRemove).Some?
                        && AddForeignKeys(DropForeignKeys(old(View()), d.relationsToRemove).value, d.relationsToAdd).Some?
      ensures done ==> View() == AddForeignKeys(DropForeignKeys(old(View()), d.relationsToRemove).value, d.relationsToAdd).value
    {
      hide DropForeignKey, AddForeignKey;
      for i := 0 to |d.relationsToRemove|
        invariant DropForeignKeys(old(View()), d.relationsToRemove[..i]) == Some(View())
      {
        assert d.relationsToRemove[..i + 1][..i] == d.relationsToRemove[..i];
        done := Execute(DropForeignKey(TableState(columns, foreignKeys), d.relationsToRemove[i]));
        if !done {
          DropRefused(old(View()), d.relationsToRemove, i + 1);
          return;
        }
      }
      assert d.relationsToRemove[..|d.relationsToRemove|] == d.relationsToRemove;
      ghost var freed := View();
      for i := 0 to |d.relationsToAdd|
        invariant AddForeignKeys(freed, d.relationsToAdd[..i]) == Some(View())
      {
        assert d.relationsToAdd[..i + 1][..i] == d.relationsToAdd[..i];
        var rel := d.relationsToAdd[i];
        if rel.kind == ManyToOne || (rel.kind == OneToOne && !rel.isInverseGenerated) {
          done := Execute(AddForeignKey(TableState(columns, foreignKeys), ForeignKeyColumnName(rel.propertyName)));
          if !done {
            AddRefused(freed, d.relationsToAdd, i + 1);
            return;
          }
        }
      }
      assert d.relationsToAdd[..|d.relationsToAdd|] == d.relationsToAdd;
      done := true;
    }

    /** `syncTable`, without the update of delete rules. */
    method SyncTable(snapshot: Snapshot) returns (done: bool)
      modifies this
      ensures done <==> Sync(old(View()), snapshot).Some?
      ensures done ==> View() == Sync(old(View()), snapshot).value
    {
      hide Compare, AddColumns, DropColumns, DropForeignKeys, AddForeignKeys;
      var d := CompareSchemas(snapshot, Visible(columns), foreignKeys);
      done := ApplyColumnMigrations(d);
      if done {
        done := ApplyRelationMigrations(d);
      }
    }
  }

  lemma NoStatement(t: TableState)
    ensures AddColumns(t, []) == Some(t) && DropColumns(t, []) == Some(t)
  {
    MissingNothing(t.columns);
    MissingNothing(t.foreignKeys);
    assert t.columns + [] == t.columns;
    assert SetOf([]) == {};
  }

  lemma {:induction false} MissingNothing(names: seq<string>)
    ensures Missing(names, {}) == names
  {
    if names != [] {
      assert names == names[..|names| - 1] + [names[|names| - 1]];
      MissingNothing(names[..|names| - 1]);
    }
  }

  lemma {:induction false} DropRefused(t: TableState, names: seq<string>, n: nat)
    requires n <= |names| && DropForeignKeys(t, names[..n]).None?
    ensures DropForeignKeys(t, names).None?
  {
    if n == |names| {
      assert names[..n] == names;
    } else {
      assert names[..|names| - 1][..n] == names[..n];
      DropRefused(t, names[..|names| - 1], n);
    }
  }

  lemma {:induction false} AddRefused(t: TableState, relations: seq<Relation>, n: nat)
    requires n <= |relations| && AddForeignKeys(t, relations[..n]).None?
    ensures AddForeignKeys(t, relations).None?
  {
    if n == |relations| {
      assert relations[..n] == relations;
    } else {
      assert relations[..|relations| - 1][..n] == relations[..n];
      AddRefused(t, relations[..|relations| - 1], n);
    }
  }
}
