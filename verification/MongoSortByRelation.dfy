/** Sorting by a populated relation: the lookup replaces the value that the sort reads, so the sort may move before
    the lookups exactly when no sort key names a relation. */
module MongoSortByRelation {
  import opened Prelude
  import opened MongoPipeline
  import opened MongoPipelineLaws
  import opened MongoPaging

  // ---- lookups that find nothing ----

  /** No documents to look up; only scalars are ordered. */
  function NoTargets(): Env {
    Env(map[], (a: Value, b: Value) => a.Scalar? && b.Scalar? && a.n < b.n, (a: Value, b: Value) => false)
  }

  /** What a lookup that finds nothing makes of its field does not depend on the document. */
  function PopulateOne(r: Relation, d: Document): Document {
    var items := Nest(NestedOf(r), []);
    if !r.toOne then d[r.propertyName := List(items)]
    else if items == [] then d - {r.propertyName}
    else d[r.propertyName := items[0]]
  }

  function Populate(relations: seq<Relation>, d: Document): Document {
    if relations == [] then d
    else PopulateOne(relations[|relations| - 1], Populate(relations[..|relations| - 1], d))
  }

  lemma EachOfOne(env: Env, st: Stage, d: Document)
    ensures Each(env, st, [d]) == PerDocument(env, st, d)
  {
    hide PerDocument;
    assert [d][1..] == [] && Each(env, st, []) == [];
  }

  lemma RelationFindsNothing(r: Relation, d: Document)
    requires !r.filtered
    ensures Expand(NoTargets(), RelationStages(r), d) == [PopulateOne(r, d)]
  {
    hide Expand, ExpandAll, Each, Unwound, PopulateOne, Nest, NestedOf;
    var env, look, unwind := NoTargets(), RelationStages(r)[0], Unwind(r.propertyName);
    var e := d[r.propertyName := List(Nest(NestedOf(r), []))];
    ExpandAllOf(env, RelationStages(r), d);
    ExpandAllUnfold(env, RelationStages(r), [d]);
    EachOfOne(env, look, d);
    assert Each(env, look, [d]) == [e];
    assert RelationStages(r)[1..] == if r.toOne then [unwind] else [];
    if r.toOne {
      ExpandAllUnfold(env, [unwind], [e]);
      EachOfOne(env, unwind, e);
      UnwoundNothing(r, d);
      assert [unwind][1..] == [];
      ExpandAllNothing(env, [PopulateOne(r, d)]);
    } else {
      ExpandAllNothing(env, [e]);
      KeptAsArray(r, d);
    }
  }

  lemma KeptAsArray(r: Relation, d: Document)
    requires !r.toOne
    ensures PopulateOne(r, d) == d[r.propertyName := List(Nest(NestedOf(r), []))]
  {
  }

  lemma UnwoundNothing(r: Relation, d: Document)
    requires r.toOne
    ensures Unwound(r.propertyName, d[r.propertyName := List(Nest(NestedOf(r), []))]) == [PopulateOne(r, d)]
  {
    var items := Nest(NestedOf(r), []);
    var e := d[r.propertyName := List(items)];
    assert |items| <= 1;
    if items == [] {
      assert e - {r.propertyName} == d - {r.propertyName};
    } else {
      assert e[r.propertyName := items[0]] == d[r.propertyName := items[0]];
    }
  }

  lemma ExpandAllOf(env: Env, stages: seq<Stage>, d: Document)
    ensures ExpandAll(env, stages, [d]) == Expand(env, stages, d)
  {
    hide Expand;
    assert [d][1..] == [];
  }

  lemma {:induction false} LookupsFindNothing(relations: seq<Relation>, d: Document)
    requires Unfiltered(relations)
    ensures Expand(NoTargets(), LookupStages(relations), d) == [Populate(relations, d)]
  {
    hide Expand, ExpandAll, PopulateOne, RelationStages;
    if relations == [] {
      ExpandNothing(NoTargets(), d);
    } else {
      var init, r := relations[..|relations| - 1], relations[|relations| - 1];
      LookupsFindNothing(init, d);
      ExpandAppend(NoTargets(), LookupStages(init), RelationStages(r), d);
      ExpandAllOf(NoTargets(), RelationStages(r), Populate(init, d));
      RelationFindsNothing(r, Populate(init, d));
    }
  }

  predicate IsRelation(relations: seq<Relation>, name: string) {
    exists i :: 0 <= i < |relations| && relations[i].propertyName == name
  }

  /** A relation's field ends up the same in every document, any other as it was. */
  lemma {:induction false} PopulatedField(relations: seq<Relation>, a: Document, b: Document, name: string)
    ensures IsRelation(relations, name) ==> Field(Populate(relations, a), name) == Field(Populate(relations, b), name)
    ensures !IsRelation(relations, name) ==> Field(Populate(relations, a), name) == Field(a, name)
  {
    hide Nest, NestedOf;
    if relations != [] {
      var init := relations[..|relations| - 1];
      PopulatedField(init, a, b, name);
      assert IsRelation(relations, name) <==> IsRelation(init, name) || relations[|relations| - 1].propertyName == name by {
        assert forall i :: 0 <= i < |init| ==> init[i] == relations[i];
      }
    }
  }

  // ---- two documents that a sort by the relation tells apart ----

  function Marked(relation: string, mark: string, n: int): Document {
    map[relation := Scalar(n), mark := Scalar(n)]
  }

  lemma {:induction false} EarlySortIsStrict(spec: seq<SortKey>, relation: string, mark: string)
    requires relation != mark
    requires (exists k :: 0 <= k < |spec| && spec[k].field == relation) && forall k :: 0 <= k < |spec| ==> spec[k].field != mark
    ensures var a, b := Marked(relation, mark, 0), Marked(relation, mark, 1);
            LexLess(NoTargets(), spec, a, b) || LexLess(NoTargets(), spec, b, a)
    decreases |spec|
  {
    if spec[0].field != relation {
      var k :| 0 <= k < |spec| && spec[k].field == relation;
      assert spec[1..][k - 1].field == relation;
      EarlySortIsStrict(spec[1..], relation, mark);
    }
  }

  lemma {:induction false} SameKeysTie(spec: seq<SortKey>, a: Document, b: Document)
    requires SameKeys(spec, a, b)
    ensures !LexLess(NoTargets(), spec, a, b)
    decreases |spec|
  {
    if spec != [] {
      assert Field(a, spec[0].field) == Field(b, spec[0].field);
      assert forall k :: 0 <= k < |spec[1..]| ==> spec[1..][k] == spec[k + 1];
      SameKeysTie(spec[1..], a, b);
    }
  }

  lemma OnlyOrder(env: Env, spec: seq<SortKey>, a: Document, b: Document, mid: seq<Document>)
    requires LexLess(env, spec, a, b) && Sorts(env, spec, [b, a], mid)
    ensures mid == [a, b]
  {
    hide LexLess;
    var docs := [b, a];
    var p, q :| Permutes(docs, mid, p, q);
    assert !LexLess(env, spec, mid[1], mid[0]);
    assert p[0] != p[1] by { assert q[p[0]] == 0 && q[p[1]] == 1; }
    assert mid[0] == docs[p[0]] && mid[1] == docs[p[1]];
  }

  function Longest(names: seq<string>): string {
    if names == [] then []
    else if |names[0]| > |Longest(names[1..])| then names[0]
    else Longest(names[1..])
  }

  lemma {:induction false} LongestIsLongest(names: seq<string>, i: nat)
    requires i < |names|
    ensures |names[i]| <= |Longest(names)|
  {
    if i > 0 {
      LongestIsLongest(names[1..], i - 1);
    }
  }

  /** A field that neither the relations nor the sort mention. */
  function Unused(relations: seq<Relation>, spec: seq<SortKey>): (name: string) {
    Longest(seq(|relations|, i requires 0 <= i < |relations| => relations[i].propertyName)
            + seq(|spec|, i requires 0 <= i < |spec| => spec[i].field)) + "_"
  }

  lemma UnusedIsUnused(relations: seq<Relation>, spec: seq<SortKey>)
    ensures !IsRelation(relations, Unused(relations, spec))
    ensures forall k :: 0 <= k < |spec| ==> spec[k].field != Unused(relations, spec)
  {
    hide Longest;
    var properties := seq(|relations|, i requires 0 <= i < |relations| => relations[i].propertyName);
    var names := properties + seq(|spec|, i requires 0 <= i < |spec| => spec[i].field);
    forall i | 0 <= i < |relations| ensures relations[i].propertyName != Unused(relations, spec) {
      assert names[i] == relations[i].propertyName;
      LongestIsLongest(names, i);
    }
    forall k | 0 <= k < |spec| ensures spec[k].field != Unused(relations, spec) {
      assert names[|relations| + k] == spec[k].field;
      LongestIsLongest(names, |relations| + k);
    }
  }

  // ---- main results ----

  /** On these documents sorting before the lookups has the possible results of sorting after them. */
  ghost predicate SortMoves(env: Env, relations: seq<Relation>, spec: seq<SortKey>, docs: seq<Document>, out: seq<Document>) {
    Yields(env, [Sort(spec)] + LookupStages(relations), docs, out) <==> Yields(env, LookupStages(relations) + [Sort(spec)], docs, out)
  }

  lemma SortMovesWithoutRelationKeys(env: Env, relations: seq<Relation>, spec: seq<SortKey>, docs: seq<Document>,
                                     out: seq<Document>)
    requires Unfiltered(relations) && NoRelationKey(relations, spec) && AllOneEach(env, relations, docs)
    ensures SortMoves(env, relations, spec, docs, out)
  {
    hide Yields, LookupStages, AllKeepKeys, AllSingle, OneEach;
    LookupsKeepKeys(env, relations, spec, docs);
    AllSingleIffOneEach(env, relations, docs);
    LookupStagesAre(relations, "");
    MovedEquivalently(env, [Sort(spec)], LookupStages(relations), docs, out);
  }

  lemma PopulatedOneEach(relations: seq<Relation>, docs: seq<Document>)
    requires Unfiltered(relations)
    ensures AllOneEach(NoTargets(), relations, docs)
  {
    hide OneEach, Expand;
    forall i | 0 <= i < |docs| ensures OneEach(NoTargets(), relations, docs[i]) {
      LookupsFindNothing(relations, docs[i]);
      LookupsAreSingle(NoTargets(), relations, docs[i]);
    }
  }

  lemma BothPopulated(relations: seq<Relation>, a: Document, b: Document, out: seq<Document>)
    requires Unfiltered(relations)
    ensures Yields(NoTargets(), LookupStages(relations), [a, b], out) <==> out == [Populate(relations, a), Populate(relations, b)]
  {
    hide Yields, Expand, ExpandAll, LookupStages, Populate;
    LookupsFindNothing(relations, a);
    LookupsFindNothing(relations, b);
    ExpandAllSingle(NoTargets(), LookupStages(relations), [a, b]);
    LookupStagesAre(relations, "");
    YieldsExpanded(NoTargets(), LookupStages(relations), [a, b], out);
  }

  /** After the lookups the two documents tie on every key, and still differ. */
  lemma PopulatedTie(relations: seq<Relation>, spec: seq<SortKey>, relation: string, m: int, n: int)
    requires IsRelation(relations, relation) && m != n
    ensures var mark := Unused(relations, spec);
            var x, y := Populate(relations, Marked(relation, mark, m)), Populate(relations, Marked(relation, mark, n));
            x != y && Sorts(NoTargets(), spec, [x, y], [x, y])
  {
    hide LexLess, Populate, Unused;
    var mark := Unused(relations, spec);
    var a, b := Marked(relation, mark, m), Marked(relation, mark, n);
    var x, y := Populate(relations, a), Populate(relations, b);
    UnusedIsUnused(relations, spec);
    PopulatedField(relations, a, b, mark);
    PopulatedField(relations, b, a, mark);
    forall k | 0 <= k < |spec| ensures Field(x, spec[k].field) == Field(y, spec[k].field) {
      PopulatedField(relations, a, b, spec[k].field);
      PopulatedField(relations, b, a, spec[k].field);
    }
    SameKeysTie(spec, y, x);
    assert Permutes([x, y], [x, y], [0, 1], [0, 1]);
  }

  /** A sort key that names a relation always gives it away: there are documents, each joining at most one, for
      which sorting late has a result that sorting early lacks. */
  lemma SortingByRelationDiffers(relations: seq<Relation>, spec: seq<SortKey>)
    returns (env: Env, docs: seq<Document>, out: seq<Document>)
    requires Unfiltered(relations) && !NoRelationKey(relations, spec)
    ensures AllOneEach(env, relations, docs)
    ensures Yields(env, LookupStages(relations) + [Sort(spec)], docs, out)
    ensures !Yields(env, [Sort(spec)] + LookupStages(relations), docs, out)
  {
    hide Yields, LookupStages, Sorts, OneEach, LexLess, Populate, Unused, AllOneEach;
    var i, k :| 0 <= i < |relations| && 0 <= k < |spec| && relations[i].propertyName == spec[k].field;
    var relation, mark := spec[k].field, Unused(relations, spec);
    env := NoTargets();
    UnusedIsUnused(relations, spec);
    EarlySortIsStrict(spec, relation, mark);
    var low := if LexLess(env, spec, Marked(relation, mark, 0), Marked(relation, mark, 1)) then 0 else 1;
    var a, b := Marked(relation, mark, low), Marked(relation, mark, 1 - low);
    docs, out := [b, a], [Populate(relations, b), Populate(relations, a)];
    PopulatedOneEach(relations, docs);
    BothPopulated(relations, b, a, out);
    PopulatedTie(relations, spec, relation, 1 - low, low);
    YieldsOne(env, Sort(spec), out, out);
    YieldsJoin(env, LookupStages(relations), [Sort(spec)], docs, out, out);
    if Yields(env, [Sort(spec)] + LookupStages(relations), docs, out) {
      var mid := YieldsSplit(env, [Sort(spec)], LookupStages(relations), docs, out);
      YieldsOne(env, Sort(spec), docs, mid);
      OnlyOrder(env, spec, a, b, mid);
      BothPopulated(relations, a, b, out);
    }
  }

  /** Sorting before the lookups is sorting after them, whatever the data that joins at most one document each,
      exactly when no sort key names a populated relation. */
  lemma SortMovesIffNoRelationKey(relations: seq<Relation>, spec: seq<SortKey>)
    requires Unfiltered(relations)
    ensures (forall env, docs, out :: AllOneEach(env, relations, docs) ==> SortMoves(env, relations, spec, docs, out))
            <==> NoRelationKey(relations, spec)
  {
    hide SortMoves, AllOneEach;
    if NoRelationKey(relations, spec) {
      forall env, docs, out | AllOneEach(env, relations, docs) ensures SortMoves(env, relations, spec, docs, out) {
        SortMovesWithoutRelationKeys(env, relations, spec, docs, out);
      }
    } else {
      var env, docs, out := SortingByRelationDiffers(relations, spec);
      assert !SortMoves(env, relations, spec, docs, out) by {
        NotMoved(env, relations, spec, docs, out);
      }
    }
  }

  lemma NotMoved(env: Env, relations: seq<Relation>, spec: seq<SortKey>, docs: seq<Document>, out: seq<Document>)
    requires Yields(env, LookupStages(relations) + [Sort(spec)], docs, out)
    requires !Yields(env, [Sort(spec)] + LookupStages(relations), docs, out)
    ensures !SortMoves(env, relations, spec, docs, out)
  {
  }
}
