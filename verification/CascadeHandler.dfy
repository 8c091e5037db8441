/** Cascading relation values of a saved record into SQL: junction rows replaced, children re-parented, dropped or
    created, a one-to-one target linked or created. Statements run one by one outside a transaction; one that the
    database refuses throws, and what ran before it stays. */
module CascadeHandler {
  import opened Prelude

  datatype Value = Null | Ref(id: nat) | Text(text: string)

  /** The columns of a row besides its id, which is its key in the table. */
  type Row = map<string, Value>

  /** `uniques` are the groups of columns of unique constraints; `accepts` is every constraint on a single row:
      NOT NULL, checks, and foreign keys other than that of the relation at hand. */
  datatype Table = Table(rows: map<nat, Row>, nextId: nat, uniques: set<set<string>>, accepts: Row -> bool)

  /** A junction row holds one id per column; the two columns are its key, and each refers to its table. */
  type JunctionRow = map<string, nat>
  datatype Db = Db(tables: map<string, Table>, junctions: map<string, set<JunctionRow>>)

  datatype Kind = ManyToMany | OneToMany | OneToOne | ManyToOne

  /** "" stands for metadata that is missing. */
  datatype Relation = Relation(propertyName: string, kind: Kind, targetTable: string, foreignKeyColumn: string,
                               junctionTable: string, sourceColumn: string, targetColumn: string, isInverse: bool)

  /** The `id` property of an object: none, null, or an id. */
  datatype IdField = Absent | NullId | IdOf(id: nat)

  /** An element of a relation value: null, a bare id, or an object. */
  datatype Item = NullItem | Bare(id: nat) | Object(key: IdField, data: Row)
  datatype RelationValue = Nothing | Single(item: Item) | Array(items: seq<Item>)
  type RelationData = map<string, RelationValue>

  // ---- constraints ----

  function FieldOf(row: Row, column: string): Value {
    if column in row then row[column] else Null
  }

  /** Two rows clash on a unique group when they agree on it and no column of it is null. */
  predicate Agree(a: Row, b: Row, columns: set<string>) {
    columns != {} && forall c :: c in columns ==> FieldOf(a, c) != Null && FieldOf(a, c) == FieldOf(b, c)
  }

  predicate RowsAccepted(t: Table) {
    forall k :: k in t.rows ==> t.accepts(t.rows[k])
  }

  predicate RowsApart(t: Table) {
    forall k, l, g :: k in t.rows && l in t.rows && k != l && g in t.uniques ==> !Agree(t.rows[k], t.rows[l], g)
  }

  predicate Lawful(t: Table) {
    RowsAccepted(t) && RowsApart(t)
  }

  // ---- many-to-many ----

  /** The ids to link; an object without an id is taken for one (None), and a null id is dropped. */
  function IdsOf(items: seq<Item>): seq<Option<nat>> {
    if items == [] then []
    else
      IdsOf(items[..|items| - 1])
      + (match items[|items| - 1]
         case NullItem => []
         case Bare(id) => [Some(id)]
         case Object(Absent, _) => [None]
         case Object(NullId, _) => []
         case Object(IdOf(id), _) => [Some(id)])
  }

  /** What the junction table takes from an existing source: ids of existing targets, none of them twice. */
  predicate Insertable(ids: seq<Option<nat>>, targets: set<nat>) {
    && (forall i :: 0 <= i < |ids| ==> ids[i].Some? && ids[i].value in targets)
    && forall i, j :: 0 <= i < j < |ids| ==> ids[i] != ids[j]
  }

  function WithoutSource(rows: set<JunctionRow>, column: string, id: nat): set<JunctionRow> {
    set row | row in rows && !(column in row && row[column] == id)
  }

  function JunctionRows(r: Relation, id: nat, ids: seq<Option<nat>>): set<JunctionRow> {
    set i | 0 <= i < |ids| && ids[i].Some? :: map[r.sourceColumn := id][r.targetColumn := ids[i].value]
  }

  /** Reading the id of a null item throws before anything is written. */
  predicate HasNull(items: seq<Item>) {
    exists i :: 0 <= i < |items| && items[i].NullItem?
  }

  /** Replaces the rows of the source; when the insert is refused only the delete happened. */
  function SyncManyToMany(rows: set<JunctionRow>, r: Relation, id: nat, items: seq<Item>,
                          sources: set<nat>, targets: set<nat>): (set<JunctionRow>, bool)
  {
    var ids := IdsOf(items);
    var kept := WithoutSource(rows, r.sourceColumn, id);
    if HasNull(items) then (rows, false)
    else if ids == [] then (kept, true)
    else if id in sources && Insertable(ids, targets) then (kept + JunctionRows(r, id, ids), true)
    else (kept, false)
  }

  // ---- one-to-many ----

  /** Only an object can list an existing row, and an id of zero counts as absent. */
  predicate HasId(item: Item) {
    item.Object? && item.key.IdOf? && item.key.id != 0
  }

  function Listed(items: seq<Item>): set<nat> {
    set i | 0 <= i < |items| && HasId(items[i]) :: items[i].key.id
  }

  function Children(t: Table, fk: string, parent: nat): set<nat> {
    set k | k in t.rows && FieldOf(t.rows[k], fk) == Ref(parent)
  }

  function SetColumn(t: Table, ids: set<nat>, column: string, v: Value): Table {
    t.(rows := map k | k in t.rows :: if k in ids then t.rows[k][column := v] else t.rows[k])
  }

  function InsertRow(t: Table, row: Row): Table {
    t.(rows := t.rows[t.nextId := row], nextId := t.nextId + 1)
  }

  /** What is inserted for an item without an id: a bare id spreads into no columns at all. */
  function NewRow(item: Item, fk: string, parent: nat): Row {
    (if item.Object? then item.data else map[])[fk := Ref(parent)]
  }

  /** The statement for one item, were it not refused. */
  function ProcessItem(t: Table, fk: string, parent: nat, item: Item): Table {
    if HasId(item) then SetColumn(t, {item.key.id}, fk, Ref(parent)) else InsertRow(t, NewRow(item, fk, parent))
  }

  /** Whether the statement writes a reference to the parent into some row. */
  predicate Refers(t: Table, item: Item) {
    HasId(item) ==> item.key.id in t.rows
  }

  function TryItem(t: Table, parentExists: bool, fk: string, parent: nat, item: Item): (Table, bool) {
    var next := ProcessItem(t, fk, parent, item);
    if Lawful(next) && (Refers(t, item) ==> parentExists) then (next, true) else (t, false)
  }

  function TryItems(t: Table, parentExists: bool, fk: string, parent: nat, items: seq<Item>): (Table, bool) {
    if items == [] then (t, true)
    else
      var before := TryItems(t, parentExists, fk, parent, items[..|items| - 1]);
      if before.1 then TryItem(before.0, parentExists, fk, parent, items[|items| - 1]) else before
  }

  function Unlinked(t: Table, fk: string, parent: nat, items: seq<Item>): Table {
    SetColumn(t, Children(t, fk, parent) - Listed(items), fk, Null)
  }

  function SyncOneToMany(t: Table, parentExists: bool, fk: string, parent: nat, items: seq<Item>): (Table, bool) {
    if HasNull(items) then (t, false)
    else if Children(t, fk, parent) <= Listed(items) then TryItems(t, parentExists, fk, parent, items)
    else if Lawful(Unlinked(t, fk, parent, items)) then TryItems(Unlinked(t, fk, parent, items), parentExists, fk, parent, items)
    else (t, false)
  }

  // ---- one-to-one, owner side ----

  /** Pointing the record at a row, refused when the row does not exist or a constraint forbids it. */
  function PointAt(db: Db, tableName: string, id: nat, r: Relation, to: nat): (Db, bool)
    requires tableName in db.tables && r.targetTable in db.tables
  {
    var next := SetColumn(db.tables[tableName], {id}, r.foreignKeyColumn, Ref(to));
    if Lawful(next) && (id in db.tables[tableName].rows ==> to in db.tables[r.targetTable].rows)
    then (db.(tables := db.tables[tableName := next]), true) else (db, false)
  }

  /** Items that are not objects are skipped. */
  function LinkOne(db: Db, tableName: string, id: nat, r: Relation, item: Item): (out: (Db, bool))
    requires tableName in db.tables && r.targetTable in db.tables
    ensures out.0.tables.Keys == db.tables.Keys && out.0.junctions == db.junctions
  {
    if !item.Object? then (db, true)
    else if HasId(item) then PointAt(db, tableName, id, r, item.key.id)
    else
      var target := db.tables[r.targetTable];
      var next := InsertRow(target, item.data);
      if Lawful(next) then PointAt(db.(tables := db.tables[r.targetTable := next]), tableName, id, r, target.nextId)
      else (db, false)
  }

  function LinkAll(db: Db, tableName: string, id: nat, r: Relation, items: seq<Item>): (out: (Db, bool))
    requires tableName in db.tables && r.targetTable in db.tables
    ensures out.0.tables.Keys == db.tables.Keys && out.0.junctions == db.junctions
  {
    if items == [] then (db, true)
    else
      var before := LinkAll(db, tableName, id, r, items[..|items| - 1]);
      if before.1 then LinkOne(before.0, tableName, id, r, items[|items| - 1]) else before
  }

  // ---- all relations ----

  /** The tables that the metadata names exist. */
  predicate Provided(db: Db, r: Relation) {
    && (r.kind == ManyToMany && r.junctionTable != "" ==> r.junctionTable in db.junctions && r.targetTable in db.tables)
    && (r.kind != ManyToMany && r.targetTable != "" ==> r.targetTable in db.tables)
  }

  function ItemsOf(v: RelationValue): seq<Item> {
    match v
    case Nothing => []
    case Single(item) => [item]
    case Array(items) => items
  }

  function ValueFor(values: RelationData, r: Relation): RelationValue {
    if r.propertyName in values then values[r.propertyName] else Nothing
  }

  /** An empty list is skipped like a missing one. */
  predicate Applies(r: Relation, v: RelationValue) {
    Wired(r) && ItemsOf(v) != [] && (r.kind == OneToOne || v.Array?)
  }

  /** The metadata that the relation needs is there. */
  predicate Wired(r: Relation) {
    match r.kind
    case OneToOne => r.targetTable != "" && r.foreignKeyColumn != "" && !r.isInverse
    case ManyToMany => r.junctionTable != "" && r.sourceColumn != "" && r.targetColumn != ""
    case OneToMany => r.targetTable != "" && r.foreignKeyColumn != ""
    case ManyToOne => false
  }

  function Ids(t: Table): set<nat> {
    t.rows.Keys
  }

  function CascadeOne(db: Db, tableName: string, id: nat, r: Relation, v: RelationValue): (out: (Db, bool))
    requires tableName in db.tables && Provided(db, r)
    ensures out.0.tables.Keys == db.tables.Keys && out.0.junctions.Keys == db.junctions.Keys
  {
    if !Applies(r, v) then (db, true)
    else match r.kind
      case ManyToMany =>
        var (rows, done) := SyncManyToMany(db.junctions[r.junctionTable], r, id, ItemsOf(v),
                                           Ids(db.tables[tableName]), Ids(db.tables[r.targetTable]));
        (db.(junctions := db.junctions[r.junctionTable := rows]), done)
      case OneToMany =>
        var (synced, done) := SyncOneToMany(db.tables[r.targetTable], id in db.tables[tableName].rows,
                                            r.foreignKeyColumn, id, ItemsOf(v));
        (db.(tables := db.tables[r.targetTable := synced]), done)
      case OneToOne => LinkAll(db, tableName, id, r, ItemsOf(v))
      case ManyToOne => (db, true)
  }

  /** Relation by relation; a refused statement ends the call. */
  function CascadeAll(db: Db, tableName: string, id: nat, relations: seq<Relation>, values: RelationData): (out: (Db, bool))
    requires tableName in db.tables && forall i :: 0 <= i < |relations| ==> Provided(db, relations[i])
    ensures out.0.tables.Keys == db.tables.Keys && out.0.junctions.Keys == db.junctions.Keys
  {
    if relations == [] then (db, true)
    else
      var before := CascadeAll(db, tableName, id, relations[..|relations| - 1], values);
      var last := relations[|relations| - 1];
      assert Provided(db, last);
      if before.1 then CascadeOne(before.0, tableName, id, last, ValueFor(values, last)) else before
  }

  // ---- the handler ----

  class Knex {
    var tables: map<string, Table>
    var junctions: map<string, set<JunctionRow>>

    ghost function View(): Db
      reads this
    {
      Db(tables, junctions)
    }

    constructor (tables: map<string, Table>, junctions: map<string, set<JunctionRow>>)
      ensures View() == Db(tables, junctions)
    {
      this.tables, this.junctions := tables, junctions;
    }

    /** One statement on a table; `refers` says whether it writes a reference to a row that does not exist. */
    method Execute(tableName: string, next: Table, dangling: bool) returns (done: bool)
      requires tableName in tables
      modifies this`tables
      ensures done <==> Lawful(next) && !dangling
      ensures tables == if done then old(tables)[tableName := next] else old(tables)
    {
      done := Lawful(next) && !dangling;
      if done {
        tables := tables[tableName := next];
      }
    }

    method DeleteJunction(junction: string, column: string, id: nat)
      requires junction in junctions
      modifies this`junctions
      ensures junctions == old(junctions)[junction := WithoutSource(old(junctions)[junction], column, id)]
    {
      junctions := junctions[junction := WithoutSource(junctions[junction], column, id)];
    }

    /** One insert statement: all rows or, when one is refused, none. */
    method InsertJunction(tableName: string, r: Relation, id: nat, ids: seq<Option<nat>>) returns (inserted: bool)
      requires r.junctionTable in junctions && tableName in tables && r.targetTable in tables
      modifies this`junctions
      ensures inserted <==> id in tables[tableName].rows && Insertable(ids, Ids(tables[r.targetTable]))
      ensures junctions ==
              if inserted
              then old(junctions)[r.junctionTable := old(junctions)[r.junctionTable] + JunctionRows(r, id, ids)]
              else old(junctions)
    {
      inserted := id in tables[tableName].rows && Insertable(ids, Ids(tables[r.targetTable]));
      if inserted {
        junctions := junctions[r.junctionTable := junctions[r.junctionTable] + JunctionRows(r, id, ids)];
      }
    }
  }

  class Handler {
    const knex: Knex
    var cascadeContextMap: map<string, RelationData>

    constructor (knex: Knex, cascadeContextMap: map<string, RelationData>)
      ensures this.knex == knex && this.cascadeContextMap == cascadeContextMap
    {
      this.knex, this.cascadeContextMap := knex, cascadeContextMap;
    }

    method HandleManyToMany(tableName: string, r: Relation, recordId: nat, items: seq<Item>) returns (done: bool)
      requires r.junctionTable in knex.junctions && tableName in knex.tables && r.targetTable in knex.tables
      modifies knex`junctions
      ensures var (rows, fine) := SyncManyToMany(old(knex.junctions)[r.junctionTable], r, recordId, items,
                                                 Ids(knex.tables[tableName]), Ids(knex.tables[r.targetTable]));
              done == fine && knex.junctions == old(knex.junctions)[r.junctionTable := rows]
    {
      hide Insertable, JunctionRows, WithoutSource;
      if HasNull(items) {
        assert knex.junctions == knex.junctions[r.junctionTable := knex.junctions[r.junctionTable]];
        return false;
      }
      var ids := CollectIds(items);
      knex.DeleteJunction(r.junctionTable, r.sourceColumn, recordId);
      done := true;
      if |ids| > 0 {
        done := knex.InsertJunction(tableName, r, recordId, ids);
      }
    }

    method HandleOneToMany(tableName: string, r: Relation, recordId: nat, items: seq<Item>) returns (done: bool)
      requires r.targetTable in knex.tables && tableName in knex.tables
      modifies knex`tables
      ensures var (synced, fine) := SyncOneToMany(old(knex.tables)[r.targetTable], recordId in old(knex.tables)[tableName].rows,
                                                  r.foreignKeyColumn, recordId, items);
              done == fine && knex.tables == old(knex.tables)[r.targetTable := synced]
    {
      hide TryItem, Children, Listed, Lawful, Unlinked;
      var fk := r.foreignKeyColumn;
      var start := knex.tables[r.targetTable];
      var parentExists := recordId in knex.tables[tableName].rows;
      assert knex.tables == knex.tables[r.targetTable := start];
      if HasNull(items) {
        return false;
      }
      if !(Children(start, fk, recordId) <= Listed(items)) {
        done := knex.Execute(r.targetTable, Unlinked(start, fk, recordId, items), false);
        if !done {
          return;
        }
      }
      ghost var unlinked := knex.tables[r.targetTable];
      for i := 0 to |items|
        invariant r.targetTable in knex.tables && knex.tables == old(knex.tables)[r.targetTable := knex.tables[r.targetTable]]
        invariant (knex.tables[r.targetTable], true) == TryItems(unlinked, parentExists, fk, recordId, items[..i])
      {
        assert items[..i + 1][..i] == items[..i];
        done := HandleItem(r, recordId, items[i], parentExists);
        if !done {
          ItemsRefused(unlinked, parentExists, fk, recordId, items, i + 1);
          return;
        }
      }
      assert items[..|items|] == items;
      done := true;
    }

    method HandleItem(r: Relation, recordId: nat, item: Item, parentExists: bool) returns (done: bool)
      requires r.targetTable in knex.tables
      modifies knex`tables
      ensures var (processed, fine) := TryItem(old(knex.tables)[r.targetTable], parentExists, r.foreignKeyColumn, recordId, item);
              done == fine && knex.tables == old(knex.tables)[r.targetTable := processed]
    {
      hide Lawful, SetColumn, InsertRow;
      var t := knex.tables[r.targetTable];
      assert knex.tables == knex.tables[r.targetTable := t];
      if HasId(item) {
        done := knex.Execute(r.targetTable, SetColumn(t, {item.key.id}, r.foreignKeyColumn, Ref(recordId)),
                             item.key.id in t.rows && !parentExists);
      } else {
        done := knex.Execute(r.targetTable, InsertRow(t, NewRow(item, r.foreignKeyColumn, recordId)), !parentExists);
      }
    }

    method HandleOneToOne(tableName: string, r: Relation, recordId: nat, items: seq<Item>) returns (done: bool)
      requires tableName in knex.tables && r.targetTable in knex.tables
      modifies knex`tables
      ensures (knex.View(), done) == LinkAll(old(knex.View()), tableName, recordId, r, items)
    {
      hide LinkOne;
      for i := 0 to |items|
        invariant (knex.View(), true) == LinkAll(old(knex.View()), tableName, recordId, r, items[..i])
      {
        assert items[..i + 1][..i] == items[..i];
        done := HandleLink(tableName, r, recordId, items[i]);
        if !done {
          LinksRefused(old(knex.View()), tableName, recordId, r, items, i + 1);
          return;
        }
      }
      assert items[..|items|] == items;
      done := true;
    }

    method HandleLink(tableName: string, r: Relation, recordId: nat, item: Item) returns (done: bool)
      requires tableName in knex.tables && r.targetTable in knex.tables
      modifies knex`tables
      ensures (knex.View(), done) == LinkOne(old(knex.View()), tableName, recordId, r, item)
    {
      hide Lawful, SetColumn;
      if !item.Object? {
        return true;
      }
      if HasId(item) {
        done := Point(tableName, r, recordId, item.key.id);
      } else {
        var created := knex.tables[r.targetTable].nextId;
        done := knex.Execute(r.targetTable, InsertRow(knex.tables[r.targetTable], item.data), false);
        if done {
          done := Point(tableName, r, recordId, created);
        }
      }
    }

    method Point(tableName: string, r: Relation, recordId: nat, to: nat) returns (done: bool)
      requires tableName in knex.tables && r.targetTable in knex.tables
      modifies knex`tables
      ensures (knex.View(), done) == PointAt(old(knex.View()), tableName, recordId, r, to)
    {
      var t := knex.tables[tableName];
      done := knex.Execute(tableName, SetColumn(t, {recordId}, r.foreignKeyColumn, Ref(to)),
                           recordId in t.rows && to !in knex.tables[r.targetTable].rows);
    }

    method HandleRelation(tableName: string, recordId: nat, r: Relation, v: RelationValue) returns (done: bool)
      requires tableName in knex.tables && Provided(knex.View(), r)
      modifies knex
      ensures (knex.View(), done) == CascadeOne(old(knex.View()), tableName, recordId, r, v)
    {
      hide SyncManyToMany, SyncOneToMany, LinkAll;
      done := true;
      match r.kind {
        case ManyToMany =>
          if v.Array? && v.items != [] && r.junctionTable != "" && r.sourceColumn != "" && r.targetColumn != "" {
            done := HandleManyToMany(tableName, r, recordId, v.items);
          }
        case OneToMany =>
          if v.Array? && v.items != [] && r.targetTable != "" && r.foreignKeyColumn != "" {
            done := HandleOneToMany(tableName, r, recordId, v.items);
          }
        case OneToOne =>
          if ItemsOf(v) != [] && r.targetTable != "" && r.foreignKeyColumn != "" && !r.isInverse {
            done := HandleOneToOne(tableName, r, recordId, ItemsOf(v));
          }
        case ManyToOne =>
      }
    }

    /** The context of the table is used up unless a statement is refused. */
    method HandleCascadeRelations(tableName: string, recordId: nat, relations: seq<Relation>) returns (done: bool)
      requires tableName in knex.tables && forall i :: 0 <= i < |relations| ==> Provided(knex.View(), relations[i])
      modifies knex, this`cascadeContextMap
      ensures if tableName in old(cascadeContextMap)
              then
                (knex.View(), done) ==
                CascadeAll(old(knex.View()), tableName, recordId, relations, old(cascadeContextMap)[tableName])
              else done && knex.View() == old(knex.View())
      ensures cascadeContextMap == if done then old(cascadeContextMap) - {tableName} else old(cascadeContextMap)
    {
      hide CascadeOne;
      if tableName !in cascadeContextMap {
        assert cascadeContextMap - {tableName} == cascadeContextMap;
        return true;
      }
      var values := cascadeContextMap[tableName];
      for i := 0 to |relations|
        invariant (knex.View(), true) == CascadeAll(old(knex.View()), tableName, recordId, relations[..i], values)
        invariant cascadeContextMap == old(cascadeContextMap)
      {
        assert relations[..i + 1][..i] == relations[..i];
        done := HandleRelation(tableName, recordId, relations[i], ValueFor(values, relations[i]));
        if !done {
          RejectedEarly(old(knex.View()), tableName, recordId, relations, values, i + 1);
          return;
        }
      }
      assert relations[..|relations|] == relations;
      cascadeContextMap := cascadeContextMap - {tableName};
      done := true;
    }
  }

  method CollectIds(items: seq<Item>) returns (ids: seq<Option<nat>>)
    ensures ids == IdsOf(items)
  {
    ids := [];
    for i := 0 to |items|
      invariant ids == IdsOf(items[..i])
    {
      assert items[..i + 1][..i] == items[..i];
      match items[i] {
        case NullItem =>
        case Bare(id) => ids := ids + [Some(id)];
        case Object(Absent, _) => ids := ids + [None];
        case Object(NullId, _) =>
        case Object(IdOf(id), _) => ids := ids + [Some(id)];
      }
    }
    assert items[..|items|] == items;
  }

  lemma {:induction false} ItemsRefused(t: Table, parentExists: bool, fk: string, parent: nat, items: seq<Item>, n: nat)
    requires n <= |items| && !TryItems(t, parentExists, fk, parent, items[..n]).1
    ensures TryItems(t, parentExists, fk, parent, items) == TryItems(t, parentExists, fk, parent, items[..n])
  {
    hide TryItem;
    if n == |items| {
      assert items[..n] == items;
    } else {
      assert items[..|items| - 1][..n] == items[..n];
      ItemsRefused(t, parentExists, fk, parent, items[..|items| - 1], n);
    }
  }

  lemma {:induction false} LinksRefused(db: Db, tableName: string, id: nat, r: Relation, items: seq<Item>, n: nat)
    requires tableName in db.tables && r.targetTable in db.tables
    requires n <= |items| && !LinkAll(db, tableName, id, r, items[..n]).1
    ensures LinkAll(db, tableName, id, r, items) == LinkAll(db, tableName, id, r, items[..n])
  {
    hide LinkOne;
    if n == |items| {
      assert items[..n] == items;
    } else {
      assert items[..|items| - 1][..n] == items[..n];
      LinksRefused(db, tableName, id, r, items[..|items| - 1], n);
    }
  }

  lemma {:induction false} RejectedEarly(db: Db, tableName: string, id: nat, relations: seq<Relation>,
                                         values: RelationData, n: nat)
    requires n <= |relations| && tableName in db.tables && forall i :: 0 <= i < |relations| ==> Provided(db, relations[i])
    requires !CascadeAll(db, tableName, id, relations[..n], values).1
    ensures CascadeAll(db, tableName, id, relations, values) == CascadeAll(db, tableName, id, relations[..n], values)
  {
    hide CascadeOne;
    if n == |relations| {
      assert relations[..n] == relations;
    } else {
      assert relations[..|relations| - 1][..n] == relations[..n];
      RejectedEarly(db, tableName, id, relations[..|relations| - 1], values, n);
    }
  }
}
