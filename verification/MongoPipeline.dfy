/** The aggregation pipeline built for a Mongo query: a filter, sort and page, one lookup per relation, a
    projection. Without relation filters sort and page go before the lookups. */
module MongoPipeline {
  import opened Prelude

  datatype Value = Null | Scalar(n: int) | Doc(fields: Document) | List(items: seq<Value>)
  type Document = map<string, Value>

  datatype SortKey = SortKey(field: string, ascending: bool)

  /** `Match`, `Project` and a lookup's nested pipeline come from builders outside this model, as arbitrary functions. */
  datatype Nested = Direct | Through(run: seq<Value> -> seq<Value>, limitOne: bool)

  datatype Stage =
    | Match(p: Document -> bool)
    | Sort(spec: seq<SortKey>)
    | Skip(n: int)
    | Limit(n: int)
    | Lookup(from: string, localField: string, foreignField: string, name: string, nested: Nested)
    | Unwind(name: string)
    | Project(f: Document -> Document)
    | Count

  /** The collections, the order of values, and when a local and a foreign value join. */
  datatype Env = Env(collections: map<string, seq<Document>>, lt: (Value, Value) -> bool, joins: (Value, Value) -> bool)

  // ---- what the stages mean ----

  function Field(d: Document, name: string): Value {
    if name in d then d[name] else Null
  }

  function LexLess(env: Env, spec: seq<SortKey>, a: Document, b: Document): bool {
    if spec == [] then false
    else
      var x, y := Field(a, spec[0].field), Field(b, spec[0].field);
      if env.lt(x, y) then spec[0].ascending
      else if env.lt(y, x) then !spec[0].ascending
      else LexLess(env, spec[1..], a, b)
  }

  /** `out` is `docs` in the order `p`, and `q` is the way back. */
  ghost predicate Permutes<T>(docs: seq<T>, out: seq<T>, p: seq<nat>, q: seq<nat>) {
    && |p| == |q| == |docs| == |out|
    && (forall i :: 0 <= i < |p| ==> p[i] < |docs| && out[i] == docs[p[i]] && q[p[i]] == i)
    && (forall j :: 0 <= j < |q| ==> q[j] < |out| && p[q[j]] == j)
  }

  ghost predicate Ordered(env: Env, spec: seq<SortKey>, out: seq<Document>) {
    forall i, j :: 0 <= i < j < |out| ==> !LexLess(env, spec, out[j], out[i])
  }

  /** Sorting may break ties in any way. */
  ghost predicate Sorts(env: Env, spec: seq<SortKey>, docs: seq<Document>, out: seq<Document>) {
    Ordered(env, spec, out) && exists p, q :: Permutes(docs, out, p, q)
  }

  function Joined(env: Env, local: Value, foreignField: string, targets: seq<Document>): seq<Value> {
    if targets == [] then []
    else
      (if env.joins(local, Field(targets[0], foreignField)) then [Doc(targets[0])] else [])
      + Joined(env, local, foreignField, targets[1..])
  }

  /** The nested pipeline, with the `$limit: 1` that may end it. */
  function Nest(nested: Nested, found: seq<Value>): seq<Value> {
    if nested.Direct? then found
    else
      var all := nested.run(found);
      if nested.limitOne then all[..Least(1, |all|)] else all
  }

  function Looked(env: Env, st: Stage, d: Document): Document
    requires st.Lookup?
  {
    var targets := if st.from in env.collections then env.collections[st.from] else [];
    var found := Joined(env, Field(d, st.localField), st.foreignField, targets);
    d[st.name := List(Nest(st.nested, found))]
  }

  /** One document per element; a document whose array is empty, missing or null is kept once. */
  function Unwound(name: string, d: Document): (r: seq<Document>)
    ensures r != []
  {
    if name in d && d[name].List? then
      if d[name].items == [] then [d - {name}]
      else seq(|d[name].items|, i requires 0 <= i < |d[name].items| => d[name := d[name].items[i]])
    else [d]
  }

  /** What a stage does to each document on its own. */
  function PerDocument(env: Env, st: Stage, d: Document): seq<Document> {
    match st
    case Lookup(_, _, _, _, _) => [Looked(env, st, d)]
    case Unwind(name) => Unwound(name, d)
    case Project(f) => [f(d)]
    case Match(p) => if p(d) then [d] else []
    case _ => [d]
  }

  function Each(env: Env, st: Stage, docs: seq<Document>): seq<Document> {
    if docs == [] then [] else PerDocument(env, st, docs[0]) + Each(env, st, docs[1..])
  }

  function Least(n: int, m: nat): (r: nat)
    ensures r <= m
  {
    if n < 0 then 0 else if n < m then n else m
  }

  /** A negative skip or a limit that is not positive is refused by the database: such a stage has no outcome. */
  ghost predicate StageYields(env: Env, st: Stage, docs: seq<Document>, out: seq<Document>) {
    match st
    case Sort(spec) => Sorts(env, spec, docs, out)
    case Skip(n) => n >= 0 && out == docs[Least(n, |docs|)..]
    case Limit(n) => n > 0 && out == docs[..Least(n, |docs|)]
    case Count => out == if docs == [] then [] else [map["count" := Scalar(|docs|)]]
    case _ => out == Each(env, st, docs)
  }

  /** `out` is a possible result of the pipeline on `docs`. */
  ghost predicate Yields(env: Env, pipeline: seq<Stage>, docs: seq<Document>, out: seq<Document>)
    decreases |pipeline|
  {
    if pipeline == [] then out == docs
    else exists mid :: StageYields(env, pipeline[0], docs, mid) && Yields(env, pipeline[1..], mid, out)
  }

  // ---- the pipeline that is built ----

  /** A populated relation; `filtered` when the query filters on it. */
  datatype Relation = Relation(propertyName: string, targetTable: string, localField: string, foreignField: string,
                               toOne: bool, nested: Nested, filtered: bool)

  /** `filter` holds the stages of the filter builders, `projection` those of the projection builders; `expanded`
      are the relations to populate, absent when the query names no fields. */
  datatype Options = Options(filter: seq<Stage>, hasRelationFilters: bool, sort: Option<seq<SortKey>>, offset: int,
                             limit: Option<int>, countOnly: bool, expanded: Option<seq<Relation>>, projection: seq<Stage>)

  /** The part of a sort field after its last dot, with `id` written as `_id`. */
  function FieldName(field: string): string {
    var name := AfterDots(field);
    if name == "id" then "_id" else name
  }

  function AfterDots(field: string): string {
    if field == [] then []
    else if '.' in field then AfterDots(field[1..])
    else field
  }

  /** Setting a property of the sort object: an existing one keeps its place. */
  function SetKey(spec: seq<SortKey>, field: string, ascending: bool): seq<SortKey> {
    if spec == [] then [SortKey(field, ascending)]
    else if spec[0].field == field then [SortKey(field, ascending)] + spec[1..]
    else [spec[0]] + SetKey(spec[1..], field, ascending)
  }

  function SortSpec(sort: seq<SortKey>): seq<SortKey> {
    if sort == [] then []
    else
      var last := sort[|sort| - 1];
      SetKey(SortSpec(sort[..|sort| - 1]), FieldName(last.field), last.ascending)
  }

  function SortStages(o: Options): seq<Stage> {
    if o.sort.Some? then [Sort(SortSpec(o.sort.value))] else []
  }

  function PageStages(o: Options): seq<Stage> {
    (if o.offset != 0 then [Skip(o.offset)] else [])
    + (if o.limit.Some? && o.limit.value > 0 then [Limit(o.limit.value)] else [])
  }

  function SortAndPage(o: Options): seq<Stage> {
    SortStages(o) + (if o.countOnly then [] else PageStages(o))
  }

  /** Through a nested pipeline a to-one lookup is cut to one document. */
  function NestedOf(r: Relation): Nested {
    if r.toOne && r.nested.Through? then r.nested.(limitOne := true) else r.nested
  }

  function NotNull(name: string): Document -> bool {
    d => Field(d, name) != Null
  }

  function RelationStages(r: Relation): seq<Stage> {
    [Lookup(r.targetTable, r.localField, r.foreignField, r.propertyName, NestedOf(r))]
    + (if r.toOne then [Unwind(r.propertyName)] + (if r.filtered then [Match(NotNull(r.propertyName))] else []) else [])
  }

  function LookupStages(relations: seq<Relation>): seq<Stage> {
    if relations == [] then []
    else LookupStages(relations[..|relations| - 1]) + RelationStages(relations[|relations| - 1])
  }

  function PipelineOf(o: Options): seq<Stage> {
    if o.expanded.None? then
      o.filter + SortStages(o) + (if o.countOnly then [Count] else PageStages(o)) + o.projection
    else
      o.filter
      + (if o.hasRelationFilters then [] else SortAndPage(o))
      + LookupStages(o.expanded.value)
      + (if o.hasRelationFilters then SortAndPage(o) else [])
      + o.projection
      + (if o.countOnly then [Count] else [])
  }

  method BuildSortSpec(sort: seq<SortKey>) returns (spec: seq<SortKey>)
    ensures spec == SortSpec(sort)
  {
    spec := [];
    for i := 0 to |sort|
      invariant spec == SortSpec(sort[..i])
    {
      assert sort[..i + 1][..i] == sort[..i];
      spec := SetKey(spec, FieldName(sort[i].field), sort[i].ascending);
    }
    assert sort[..|sort|] == sort;
  }

  method ExecuteAggregationPipeline(o: Options) returns (pipeline: seq<Stage>)
    ensures pipeline == PipelineOf(o)
  {
    hide RelationStages, SortSpec, PageStages, SortAndPage;
    pipeline := o.filter;
    if o.expanded.None? {
      if o.sort.Some? {
        var spec := BuildSortSpec(o.sort.value);
        pipeline := pipeline + [Sort(spec)];
      }
      if o.countOnly {
        pipeline := pipeline + [Count];
      } else {
        pipeline := PushPage(pipeline, o);
      }
      pipeline := pipeline + o.projection;
      return;
    }
    if !o.hasRelationFilters {
      pipeline := PushSortAndPage(pipeline, o);
    }
    ghost var before := pipeline;
    var relations := o.expanded.value;
    for i := 0 to |relations|
      invariant pipeline == before + LookupStages(relations[..i])
    {
      assert relations[..i + 1][..i] == relations[..i];
      pipeline := PushRelation(pipeline, relations[i]);
    }
    assert relations[..|relations|] == relations;
    if o.hasRelationFilters {
      pipeline := PushSortAndPage(pipeline, o);
    }
    pipeline := pipeline + o.projection;
    if o.countOnly {
      pipeline := pipeline + [Count];
    }
  }

  method PushPage(pipeline: seq<Stage>, o: Options) returns (longer: seq<Stage>)
    ensures longer == pipeline + PageStages(o)
  {
    longer := pipeline;
    if o.offset != 0 {
      longer := longer + [Skip(o.offset)];
    }
    if o.limit.Some? && o.limit.value > 0 {
      longer := longer + [Limit(o.limit.value)];
    }
  }

  method PushSortAndPage(pipeline: seq<Stage>, o: Options) returns (longer: seq<Stage>)
    ensures longer == pipeline + SortAndPage(o)
  {
    longer := pipeline;
    if o.sort.Some? {
      var spec := BuildSortSpec(o.sort.value);
      longer := longer + [Sort(spec)];
    }
    if !o.countOnly {
      longer := PushPage(longer, o);
    }
  }

  method PushRelation(pipeline: seq<Stage>, r: Relation) returns (longer: seq<Stage>)
    ensures longer == pipeline + RelationStages(r)
  {
    longer := pipeline + [Lookup(r.targetTable, r.localField, r.foreignField, r.propertyName, NestedOf(r))];
    if r.toOne {
      longer := longer + [Unwind(r.propertyName)];
      if r.filtered {
        longer := longer + [Match(NotNull(r.propertyName))];
      }
    }
  }
}
