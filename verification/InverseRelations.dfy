/** `generateInverseRelations`: for each relation that names an inverse, the target table is given one unless it has
    a property of that name, while the relation arrays being iterated grow. */
module InverseRelations {
  import opened Naming

  datatype Kind = OneToMany | ManyToOne | OneToOne | ManyToMany | OtherKind

  /** Relation metadata; "" stands for a missing name. */
  datatype Relation = Relation(propertyName: string, kind: Kind, targetTable: string, targetTableName: string,
                               sourceTableName: string, inversePropertyName: string, foreignKeyColumn: string,
                               mappedBy: string, junctionTableName: string, junctionSourceColumn: string,
                               junctionTargetColumn: string, isNullable: bool, isSystem: bool,
                               isGenerated: bool, isInverse: bool)

  type Relations = map<string, seq<Relation>>

  function TargetOf(r: Relation): string {
    if r.targetTableName != "" then r.targetTableName else r.targetTable
  }

  function InverseKind(kind: Kind): Kind {
    match kind
    case OneToMany => ManyToOne
    case ManyToOne => OneToMany
    case OneToOne => OneToOne
    case ManyToMany => ManyToMany
    case OtherKind => OneToMany
  }

  function ColumnFor(mongo: bool, property: string): string {
    if mongo then property else ForeignKeyColumnName(property)
  }

  /** The relation that `tableName`'s relation `r` puts on its target. */
  function InverseOf(r: Relation, tableName: string, mongo: bool): Relation {
    var kind := InverseKind(r.kind);
    Relation(r.inversePropertyName, kind, tableName, tableName, TargetOf(r), r.propertyName,
             if kind == ManyToOne then
               (if r.foreignKeyColumn != "" then r.foreignKeyColumn else ColumnFor(mongo, r.inversePropertyName))
             else if kind == OneToMany then ColumnFor(mongo, r.propertyName) else "",
             if kind == OneToOne || kind == ManyToMany then r.propertyName else "",
             if kind == ManyToMany then r.junctionTableName else "",
             if kind == ManyToMany then r.junctionTargetColumn else "",
             if kind == ManyToMany then r.junctionSourceColumn else "",
             true, r.isSystem, true, true)
  }

  predicate HasProperty(relations: seq<Relation>, name: string) {
    exists i :: 0 <= i < |relations| && relations[i].propertyName == name
  }

  /** Nothing is left to do for `r`. */
  predicate Satisfied(m: Relations, r: Relation) {
    r.inversePropertyName == "" || TargetOf(r) !in m || HasProperty(m[TargetOf(r)], r.inversePropertyName)
  }

  function AddInverse(m: Relations, tableName: string, r: Relation, mongo: bool): Relations {
    if Satisfied(m, r) then m
    else m[TargetOf(r) := m[TargetOf(r)] + [InverseOf(r, tableName, mongo)]]
  }

  function AddInverses(m: Relations, tableName: string, relations: seq<Relation>, mongo: bool): Relations {
    if relations == [] then m
    else AddInverse(AddInverses(m, tableName, relations[..|relations| - 1], mongo), tableName, relations[|relations| - 1], mongo)
  }

  /** Only the relations there at the start are looked at, table by table. */
  function Generate(m: Relations, tableNames: seq<string>, mongo: bool): Relations
    requires forall i :: 0 <= i < |tableNames| ==> tableNames[i] in m
  {
    if tableNames == [] then m
    else
      var last := tableNames[|tableNames| - 1];
      AddInverses(Generate(m, tableNames[..|tableNames| - 1], mongo), last, m[last], mongo)
  }

  // ---- growth ----

  /** Every array of `m'` is that of `m` with satisfied, generated relations appended. */
  predicate Extends(m: Relations, m': Relations) {
    && m.Keys == m'.Keys
    && forall t :: t in m ==> |m[t]| <= |m'[t]| && m'[t][..|m[t]|] == m[t]
  }

  predicate NewSatisfied(m: Relations, m': Relations) {
    && Extends(m, m')
    && forall t, k :: t in m && |m[t]| <= k < |m'[t]| ==> Satisfied(m', m'[t][k]) && m'[t][k].isGenerated
  }

  lemma ExtendsTrans(a: Relations, b: Relations, c: Relations)
    requires Extends(a, b) && Extends(b, c)
    ensures Extends(a, c)
  {
    forall t | t in a ensures |a[t]| <= |c[t]| && c[t][..|a[t]|] == a[t] {
      assert c[t][..|b[t]|][..|a[t]|] == c[t][..|a[t]|];
    }
  }

  lemma PropertyStays(relations: seq<Relation>, longer: seq<Relation>, name: string)
    requires |relations| <= |longer| && longer[..|relations|] == relations && HasProperty(relations, name)
    ensures HasProperty(longer, name)
  {
    var i :| 0 <= i < |relations| && relations[i].propertyName == name;
    assert longer[i] == longer[..|relations|][i];
  }

  lemma SatisfiedStays(m: Relations, m': Relations, r: Relation)
    requires Extends(m, m') && Satisfied(m, r)
    ensures Satisfied(m', r)
  {
    if r.inversePropertyName != "" && TargetOf(r) in m {
      PropertyStays(m[TargetOf(r)], m'[TargetOf(r)], r.inversePropertyName);
    }
  }

  /** One step: the array of the target grows by a relation whose own inverse is `r`. */
  lemma AddInverseGrows(m: Relations, tableName: string, r: Relation, mongo: bool)
    requires tableName in m && r in m[tableName]
    ensures var m' := AddInverse(m, tableName, r, mongo);
            NewSatisfied(m, m') && Satisfied(m', r)
  {
    var m' := AddInverse(m, tableName, r, mongo);
    if !Satisfied(m, r) {
      var t := TargetOf(r);
      var n := |m[t]|;
      assert m'[t][n] == InverseOf(r, tableName, mongo);
      assert m'[t][n].propertyName == r.inversePropertyName;
      var i :| 0 <= i < |m[tableName]| && m[tableName][i] == r;
      assert m'[tableName][i] == r;
      assert HasProperty(m'[tableName], r.propertyName);
    }
  }

  lemma NewSatisfiedTrans(a: Relations, b: Relations, c: Relations)
    requires NewSatisfied(a, b) && NewSatisfied(b, c)
    ensures NewSatisfied(a, c)
  {
    hide Satisfied;
    ExtendsTrans(a, b, c);
    forall t, k | t in a && |a[t]| <= k < |c[t]| ensures Satisfied(c, c[t][k]) && c[t][k].isGenerated {
      if k < |b[t]| {
        assert c[t][k] == c[t][..|b[t]|][k] == b[t][k];
        SatisfiedStays(b, c, b[t][k]);
      }
    }
  }

  lemma {:induction false} AddInversesGrows(m: Relations, tableName: string, relations: seq<Relation>, mongo: bool)
    requires tableName in m && forall k :: 0 <= k < |relations| ==> relations[k] in m[tableName]
    ensures var m' := AddInverses(m, tableName, relations, mongo);
            && NewSatisfied(m, m')
            && forall k :: 0 <= k < |relations| ==> Satisfied(m', relations[k])
  {
    hide Satisfied, AddInverse;
    if relations != [] {
      var init, last := relations[..|relations| - 1], relations[|relations| - 1];
      AddInversesGrows(m, tableName, init, mongo);
      var mid := AddInverses(m, tableName, init, mongo);
      StillIn(m, mid, tableName, last);
      AddInverseGrows(mid, tableName, last, mongo);
      var m' := AddInverse(mid, tableName, last, mongo);
      NewSatisfiedTrans(m, mid, m');
      forall k | 0 <= k < |relations| ensures Satisfied(m', relations[k]) {
        if k < |init| {
          SatisfiedStays(mid, m', init[k]);
        }
      }
    }
  }

  lemma StillIn(m: Relations, m': Relations, tableName: string, r: Relation)
    requires Extends(m, m') && tableName in m && r in m[tableName]
    ensures r in m'[tableName]
  {
    var i :| 0 <= i < |m[tableName]| && m[tableName][i] == r;
    assert m'[tableName][..|m[tableName]|][i] == r;
  }

  lemma {:induction false} GenerateGrows(m: Relations, tableNames: seq<string>, mongo: bool)
    requires forall i :: 0 <= i < |tableNames| ==> tableNames[i] in m
    ensures var m' := Generate(m, tableNames, mongo);
            && NewSatisfied(m, m')
            && forall i, k :: 0 <= i < |tableNames| && 0 <= k < |m[tableNames[i]]| ==> Satisfied(m', m[tableNames[i]][k])
  {
    hide Satisfied, AddInverses;
    if tableNames != [] {
      var init, last := tableNames[..|tableNames| - 1], tableNames[|tableNames| - 1];
      GenerateGrows(m, init, mongo);
      var mid := Generate(m, init, mongo);
      forall k | 0 <= k < |m[last]| ensures m[last][k] in mid[last] {
        StillIn(m, mid, last, m[last][k]);
      }
      AddInversesGrows(mid, last, m[last], mongo);
      var m' := Generate(m, tableNames, mongo);
      NewSatisfiedTrans(m, mid, m');
      forall i, k | 0 <= i < |tableNames| && 0 <= k < |m[tableNames[i]]| ensures Satisfied(m', m[tableNames[i]][k]) {
        if i < |init| {
          SatisfiedStays(mid, m', m[init[i]][k]);
        }
      }
    }
  }

  // ---- main results ----

  /** The table list names every table of the map. */
  predicate Lists(m: Relations, tableNames: seq<string>) {
    && (forall i :: 0 <= i < |tableNames| ==> tableNames[i] in m)
    && (forall t :: t in m ==> t in tableNames)
  }

  predicate Closed(m: Relations) {
    forall t, k :: t in m && 0 <= k < |m[t]| ==> Satisfied(m, m[t][k])
  }

  /** Afterwards every relation with an inverse name and a known target has its counterpart there, the generated
      ones included, and nothing was removed or reordered. */
  lemma GenerateCloses(m: Relations, tableNames: seq<string>, mongo: bool)
    requires Lists(m, tableNames)
    ensures Closed(Generate(m, tableNames, mongo)) && Extends(m, Generate(m, tableNames, mongo))
  {
    hide Satisfied, Generate;
    GenerateGrows(m, tableNames, mongo);
    var m' := Generate(m, tableNames, mongo);
    forall t, k | t in m' && 0 <= k < |m'[t]| ensures Satisfied(m', m'[t][k]) {
      if k < |m[t]| {
        assert m'[t][k] == m'[t][..|m[t]|][k] == m[t][k];
        var i :| 0 <= i < |tableNames| && tableNames[i] == t;
      }
    }
  }

  /** Where everything has its counterpart, nothing is added. */
  lemma {:induction false} GenerateOnClosed(m: Relations, tableNames: seq<string>, mongo: bool)
    requires Closed(m) && forall i :: 0 <= i < |tableNames| ==> tableNames[i] in m
    ensures Generate(m, tableNames, mongo) == m
  {
    hide Satisfied;
    if tableNames != [] {
      GenerateOnClosed(m, tableNames[..|tableNames| - 1], mongo);
      AddNothing(m, tableNames[|tableNames| - 1], m[tableNames[|tableNames| - 1]], mongo);
    }
  }

  lemma {:induction false} AddNothing(m: Relations, tableName: string, relations: seq<Relation>, mongo: bool)
    requires forall k :: 0 <= k < |relations| ==> Satisfied(m, relations[k])
    ensures AddInverses(m, tableName, relations, mongo) == m
  {
    hide Satisfied;
    if relations != [] {
      AddNothing(m, tableName, relations[..|relations| - 1], mongo);
    }
  }

  /** A second run adds nothing. */
  lemma GenerateIsIdempotent(m: Relations, tableNames: seq<string>, mongo: bool)
    requires Lists(m, tableNames)
    ensures var m' := Generate(m, tableNames, mongo);
            Lists(m', tableNames) && Generate(m', tableNames, mongo) == m'
  {
    hide Satisfied, Generate;
    GenerateCloses(m, tableNames, mongo);
    GenerateOnClosed(Generate(m, tableNames, mongo), tableNames, mongo);
  }

  predicate UniqueNames(relations: seq<Relation>) {
    forall i, j :: 0 <= i < j < |relations| ==> relations[i].propertyName != relations[j].propertyName
  }

  predicate AllUnique(m: Relations) {
    forall t :: t in m ==> UniqueNames(m[t])
  }

  lemma AddInverseKeepsUnique(m: Relations, tableName: string, r: Relation, mongo: bool)
    requires AllUnique(m)
    ensures AllUnique(AddInverse(m, tableName, r, mongo))
  {
  }

  lemma {:induction false} AddInversesKeepsUnique(m: Relations, tableName: string, relations: seq<Relation>, mongo: bool)
    requires AllUnique(m)
    ensures AllUnique(AddInverses(m, tableName, relations, mongo))
  {
    hide AllUnique, AddInverse;
    if relations != [] {
      var init := relations[..|relations| - 1];
      AddInversesKeepsUnique(m, tableName, init, mongo);
      AddInverseKeepsUnique(AddInverses(m, tableName, init, mongo), tableName, relations[|relations| - 1], mongo);
    }
  }

  /** Property names that were unique in each table stay unique. */
  lemma {:induction false} GenerateKeepsUnique(m: Relations, tableNames: seq<string>, mongo: bool)
    requires AllUnique(m) && forall i :: 0 <= i < |tableNames| ==> tableNames[i] in m
    ensures AllUnique(Generate(m, tableNames, mongo))
  {
    hide AllUnique, AddInverses;
    if tableNames != [] {
      var init, last := tableNames[..|tableNames| - 1], tableNames[|tableNames| - 1];
      GenerateKeepsUnique(m, init, mongo);
      AddInversesKeepsUnique(Generate(m, init, mongo), last, m[last], mongo);
    }
  }

  /** The column and junction a relation is loaded with. */
  predicate LoadedKeys(r: Relation, mongo: bool) {
    && (r.kind == ManyToOne ==> r.foreignKeyColumn == ColumnFor(mongo, r.propertyName))
    && (r.kind == OneToMany ==> r.foreignKeyColumn == ColumnFor(mongo, r.inversePropertyName))
  }

  /** A relation and its generated inverse are stored in the same column, or in the same junction table with the
      two columns exchanged; the inverse of a one-to-one relation has no column of its own and names the relation as
      the side that maps it; and every inverse names the relation as its own inverse. */
  lemma InverseSharesStorage(r: Relation, tableName: string, mongo: bool)
    requires LoadedKeys(r, mongo) && r.inversePropertyName != ""
    ensures var v := InverseOf(r, tableName, mongo);
            && v.propertyName == r.inversePropertyName && v.inversePropertyName == r.propertyName
            && (r.kind == ManyToOne || r.kind == OneToMany ==> v.foreignKeyColumn == r.foreignKeyColumn)
            && (r.kind == ManyToMany ==>
                  v.junctionTableName == r.junctionTableName && v.junctionSourceColumn == r.junctionTargetColumn
                  && v.junctionTargetColumn == r.junctionSourceColumn)
            && (r.kind == OneToOne ==>
                  v.foreignKeyColumn == "" && v.mappedBy == r.propertyName && v.junctionTableName == "")
            && (r.kind != OtherKind ==> InverseKind(v.kind) == r.kind)
            && LoadedKeys(v, mongo)
  {
  }

  /** The inverse leads from the relation's target back to its table, and its own inverse would be the relation. */
  lemma InverseOfInverse(r: Relation, tableName: string, mongo: bool)
    requires LoadedKeys(r, mongo) && r.inversePropertyName != "" && r.kind != OtherKind
    ensures var v := InverseOf(r, tableName, mongo);
            var w := InverseOf(v, TargetOf(r), mongo);
            && TargetOf(v) == tableName && v.sourceTableName == TargetOf(r) && v.isInverse && v.isGenerated
            && w.propertyName == r.propertyName && w.inversePropertyName == r.inversePropertyName && w.kind == r.kind
            && TargetOf(w) == TargetOf(r) && w.sourceTableName == tableName
            && (r.kind == ManyToOne || r.kind == OneToMany ==> w.foreignKeyColumn == r.foreignKeyColumn)
            && (r.kind == ManyToMany ==>
                  && w.junctionTableName == r.junctionTableName && w.junctionSourceColumn == r.junctionSourceColumn
                  && w.junctionTargetColumn == r.junctionTargetColumn)
  {
    hide ForeignKeyColumnName;
  }

  // ---- the loops over growing arrays ----

  class TableMetadata {
    const name: string
    var relations: seq<Relation>

    constructor (name: string, relations: seq<Relation>) {
      this.name, this.relations := name, relations;
    }
  }

  type TablesMap = map<string, TableMetadata>

  ghost function View(tablesMap: TablesMap): (m: Relations)
    reads tablesMap.Values
    ensures m.Keys == tablesMap.Keys
  {
    map n | n in tablesMap :: tablesMap[n].relations
  }

  function Names(tablesList: seq<TableMetadata>): (names: seq<string>)
    ensures |names| == |tablesList|
  {
    seq(|tablesList|, i requires 0 <= i < |tablesList| => tablesList[i].name)
  }

  /** The loader files each table under its own name. */
  ghost predicate Filed(tablesMap: TablesMap) {
    forall n :: n in tablesMap ==> tablesMap[n].name == n
  }

  method SomeProperty(relations: seq<Relation>, name: string) returns (found: bool)
    ensures found <==> HasProperty(relations, name)
  {
    for i := 0 to |relations|
      invariant !HasProperty(relations[..i], name)
    {
      if relations[i].propertyName == name {
        return true;
      }
      assert relations[..i + 1] == relations[..i] + [relations[i]];
    }
    assert relations[..|relations|] == relations;
    return false;
  }

  /** The body of the inner loop. */
  method AddInverseTo(tablesMap: TablesMap, table: TableMetadata, relation: Relation, mongo: bool)
    requires Filed(tablesMap)
    modifies tablesMap.Values
    ensures View(tablesMap) == AddInverse(old(View(tablesMap)), table.name, relation, mongo)
  {
    hide InverseOf;
    if relation.inversePropertyName == "" {
      return;
    }
    var targetTableName := TargetOf(relation);
    if targetTableName !in tablesMap {
      return;
    }
    var targetTable := tablesMap[targetTableName];
    var inverseExists := SomeProperty(targetTable.relations, relation.inversePropertyName);
    if inverseExists {
      return;
    }
    targetTable.relations := targetTable.relations + [InverseOf(relation, table.name, mongo)];
  }

  /** One table: relations appended to the very array that is iterated are visited too. */
  method GenerateForTable(tablesMap: TablesMap, table: TableMetadata, mongo: bool, ghost start: Relations)
    requires Filed(tablesMap) && table.name in tablesMap && tablesMap[table.name] == table
    requires table.name in start && NewSatisfied(start, View(tablesMap))
    modifies tablesMap.Values
    ensures View(tablesMap) == AddInverses(old(View(tablesMap)), table.name, start[table.name], mongo)
    ensures NewSatisfied(start, View(tablesMap))
  {
    hide Satisfied, AddInverse, NewSatisfied;
    ghost var own := start[table.name];
    ghost var before := View(tablesMap);
    FirstRelations(start, before, table.name);
    var k := 0;
    while k < |table.relations|
      invariant k <= |table.relations| && |own| <= |table.relations| && table.relations[..|own|] == own
      invariant View(tablesMap) == AddInverses(before, table.name, own[..if k < |own| then k else |own|], mongo)
      invariant NewSatisfied(start, View(tablesMap))
      decreases if k < |own| then |own| - k else 0, |table.relations| - k
    {
      ghost var m := View(tablesMap);
      var relation := table.relations[k];
      AddInverseTo(tablesMap, table, relation, mongo);
      if k < |own| {
        assert own[..k + 1][..k] == own[..k] && relation == own[k];
        AddInverseGrows(m, table.name, relation, mongo);
        NewSatisfiedTrans(start, m, View(tablesMap));
      } else {
        AddedIsSatisfied(start, m, table.name, k, mongo);
      }
      FirstRelations(start, View(tablesMap), table.name);
      k := k + 1;
    }
    assert own[..|own|] == own;
  }

  lemma FirstRelations(m: Relations, m': Relations, t: string)
    requires NewSatisfied(m, m') && t in m
    ensures t in m' && |m[t]| <= |m'[t]| && m'[t][..|m[t]|] == m[t]
  {
  }

  lemma AddedIsSatisfied(start: Relations, m: Relations, t: string, k: nat, mongo: bool)
    requires NewSatisfied(start, m) && t in start && |start[t]| <= k < |m[t]|
    ensures AddInverse(m, t, m[t][k], mongo) == m
  {
  }

  method GenerateInverseRelations(tablesList: seq<TableMetadata>, tablesMap: TablesMap, mongo: bool)
    requires Filed(tablesMap)
    requires forall i :: 0 <= i < |tablesList| ==> tablesList[i].name in tablesMap && tablesMap[tablesList[i].name] == tablesList[i]
    modifies tablesMap.Values
    ensures View(tablesMap) == Generate(old(View(tablesMap)), Names(tablesList), mongo)
  {
    hide Satisfied, AddInverses, NewSatisfied;
    ghost var start := View(tablesMap);
    ghost var names := Names(tablesList);
    StartSatisfied(start);
    for i := 0 to |tablesList|
      invariant View(tablesMap) == Generate(start, names[..i], mongo)
      invariant NewSatisfied(start, View(tablesMap))
    {
      assert names[..i + 1][..i] == names[..i];
      GenerateForTable(tablesMap, tablesList[i], mongo, start);
    }
    assert names[..|tablesList|] == names;
  }

  lemma StartSatisfied(m: Relations)
    ensures NewSatisfied(m, m)
  {
  }
}
