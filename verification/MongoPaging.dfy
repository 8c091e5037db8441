/** The pipeline the executor really builds: its lookups expand one to one exactly under a condition on the data,
    and then paging before them is paging after them; what the count-only form counts; what pages cover. */
module MongoPaging {
  import opened Prelude
  import opened MongoPipeline
  import opened MongoPipelineLaws

  // ---- when the lookups keep one document per document ----

  function TargetsOf(env: Env, r: Relation): seq<Document> {
    if r.targetTable in env.collections then env.collections[r.targetTable] else []
  }

  /** A to-one relation read without a nested pipeline joins at most one document. */
  predicate AtMostOne(env: Env, r: Relation, d: Document) {
    !r.toOne || r.nested.Through? || |Joined(env, Field(d, r.localField), r.foreignField, TargetsOf(env, r))| <= 1
  }

  /** ... for every relation, each seen after the relations populated before it. */
  predicate OneEach(env: Env, relations: seq<Relation>, d: Document) {
    relations == [] ||
    (var init := relations[..|relations| - 1];
     var populated := Expand(env, LookupStages(init), d);
     OneEach(env, init, d) && populated != [] && AtMostOne(env, relations[|relations| - 1], populated[0]))
  }

  predicate Unfiltered(relations: seq<Relation>) {
    forall i :: 0 <= i < |relations| ==> !relations[i].filtered
  }

  lemma {:induction false} ExpandAppend(env: Env, p: seq<Stage>, q: seq<Stage>, d: Document)
    ensures Expand(env, p + q, d) == ExpandAll(env, q, Expand(env, p, d))
    decreases |p|, 0
  {
    if p == [] {
      assert p + q == q;
      assert [d][1..] == [];
    } else {
      assert (p + q)[0] == p[0] && (p + q)[1..] == p[1..] + q;
      ExpandAllAppend(env, p[1..], q, PerDocument(env, p[0], d));
    }
  }

  lemma {:induction false} ExpandAllAppend(env: Env, p: seq<Stage>, q: seq<Stage>, docs: seq<Document>)
    ensures ExpandAll(env, p + q, docs) == ExpandAll(env, q, ExpandAll(env, p, docs))
    decreases |p|, |docs| + 1
  {
    hide PerDocument;
    if docs != [] {
      ExpandAppend(env, p, q, docs[0]);
      ExpandAllAppend(env, p, q, docs[1..]);
      ExpandAllConcat(env, q, Expand(env, p, docs[0]), ExpandAll(env, p, docs[1..]));
    }
  }

  lemma OneRelation(env: Env, r: Relation, d: Document)
    requires !r.filtered
    ensures Expand(env, RelationStages(r), d) != []
    ensures |Expand(env, RelationStages(r), d)| == 1 <==> AtMostOne(env, r, d)
  {
    var look := RelationStages(r)[0];
    var e := Looked(env, look, d);
    if r.toOne {
      var items := e[r.propertyName].items;
      assert |items| <= 1 <==> AtMostOne(env, r, d);
      assert |Unwound(r.propertyName, e)| == 1 <==> |items| <= 1;
      assert RelationStages(r)[1..] == [Unwind(r.propertyName)];
      assert Expand(env, RelationStages(r), d) == ExpandAll(env, [Unwind(r.propertyName)], [e]);
      assert [Unwind(r.propertyName)][1..] == [];
      ExpandAllUnfold(env, [Unwind(r.propertyName)], [e]);
      assert Each(env, Unwind(r.propertyName), [e]) == Unwound(r.propertyName, e);
      ExpandAllNothing(env, Unwound(r.propertyName, e));
    } else {
      assert RelationStages(r)[1..] == [];
      assert Expand(env, RelationStages(r), d) == ExpandAll(env, [], [e]);
      ExpandAllNothing(env, [e]);
    }
  }

  lemma {:induction false} ExpandAllGrows(env: Env, stages: seq<Stage>, docs: seq<Document>)
    requires forall i :: 0 <= i < |docs| ==> Expand(env, stages, docs[i]) != []
    ensures |ExpandAll(env, stages, docs)| >= |docs|
    ensures |docs| == 1 ==> ExpandAll(env, stages, docs) == Expand(env, stages, docs[0])
    decreases |docs|
  {
    hide Expand;
    if docs != [] {
      assert forall i :: 0 <= i < |docs[1..]| ==> docs[1..][i] == docs[i + 1];
      ExpandAllGrows(env, stages, docs[1..]);
    }
  }

  /** Exactly under `OneEach` the lookups keep one document per document; they never lose one. */
  lemma {:induction false} LookupsAreSingle(env: Env, relations: seq<Relation>, d: Document)
    requires Unfiltered(relations)
    ensures Expand(env, LookupStages(relations), d) != []
    ensures Single(env, LookupStages(relations), d) <==> OneEach(env, relations, d)
  {
    hide Expand, ExpandAll, RelationStages, AtMostOne;
    if relations == [] {
      ExpandNothing(env, d);
    } else {
      var init, r := relations[..|relations| - 1], relations[|relations| - 1];
      LookupsAreSingle(env, init, d);
      ExpandAppend(env, LookupStages(init), RelationStages(r), d);
      var populated := Expand(env, LookupStages(init), d);
      forall i | 0 <= i < |populated| ensures Expand(env, RelationStages(r), populated[i]) != [] {
        OneRelation(env, r, populated[i]);
      }
      ExpandAllGrows(env, RelationStages(r), populated);
      OneRelation(env, r, populated[0]);
    }
  }

  lemma ExpandNothing(env: Env, d: Document)
    ensures Expand(env, [], d) == [d]
  {
  }

  // ---- which fields the lookups leave alone ----

  predicate LeavesField(st: Stage, name: string) {
    st.Match? || ((st.Lookup? || st.Unwind?) && st.name != name)
  }

  lemma {:induction false} ExpandLeavesField(env: Env, stages: seq<Stage>, d: Document, name: string)
    requires forall i :: 0 <= i < |stages| ==> LeavesField(stages[i], name)
    ensures forall e :: e in Expand(env, stages, d) ==> Field(e, name) == Field(d, name)
    decreases |stages|, 0
  {
    if stages != [] {
      assert LeavesField(stages[0], name);
      ExpandAllLeavesField(env, stages[1..], PerDocument(env, stages[0], d), name, Field(d, name));
    }
  }

  lemma {:induction false} ExpandAllLeavesField(env: Env, stages: seq<Stage>, docs: seq<Document>, name: string, v: Value)
    requires forall i :: 0 <= i < |stages| ==> LeavesField(stages[i], name)
    requires forall i :: 0 <= i < |docs| ==> Field(docs[i], name) == v
    ensures forall e :: e in ExpandAll(env, stages, docs) ==> Field(e, name) == v
    decreases |stages|, |docs| + 1
  {
    hide PerDocument, Field;
    if docs != [] {
      ExpandLeavesField(env, stages, docs[0], name);
      assert forall i :: 0 <= i < |docs[1..]| ==> docs[1..][i] == docs[i + 1];
      ExpandAllLeavesField(env, stages, docs[1..], name, v);
    }
  }

  predicate NoRelationKey(relations: seq<Relation>, spec: seq<SortKey>) {
    forall i, k :: 0 <= i < |relations| && 0 <= k < |spec| ==> relations[i].propertyName != spec[k].field
  }

  lemma {:induction false} LookupStagesAre(relations: seq<Relation>, name: string)
    ensures AllPerDocument(LookupStages(relations))
    ensures (forall i :: 0 <= i < |relations| ==> relations[i].propertyName != name) ==>
              forall i :: 0 <= i < |LookupStages(relations)| ==> LeavesField(LookupStages(relations)[i], name)
  {
    if relations != [] {
      LookupStagesAre(relations[..|relations| - 1], name);
      assert forall i :: 0 <= i < |relations| - 1 ==> relations[..|relations| - 1][i] == relations[i];
    }
  }

  lemma LookupsKeepKeys(env: Env, relations: seq<Relation>, spec: seq<SortKey>, docs: seq<Document>)
    requires NoRelationKey(relations, spec)
    ensures AllKeepKeys(env, LookupStages(relations), spec, docs)
  {
    hide Expand, LookupStages;
    forall i, k, e | 0 <= i < |docs| && 0 <= k < |spec| && e in Expand(env, LookupStages(relations), docs[i])
      ensures Field(e, spec[k].field) == Field(docs[i], spec[k].field)
    {
      LookupStagesAre(relations, spec[k].field);
      ExpandLeavesField(env, LookupStages(relations), docs[i], spec[k].field);
    }
  }

  // ---- main results ----

  ghost predicate PagesSafely(env: Env, o: Options, docs: seq<Document>)
    requires o.expanded.Some?
  {
    && Unfiltered(o.expanded.value)
    && (o.sort.Some? ==> NoRelationKey(o.expanded.value, SortSpec(o.sort.value)))
    && forall mid, i :: Yields(env, o.filter, docs, mid) && 0 <= i < |mid| ==> OneEach(env, o.expanded.value, mid[i])
  }

  lemma SortAndPageMoveable(env: Env, o: Options, docs: seq<Document>)
    requires o.expanded.Some? && Unfiltered(o.expanded.value)
    requires o.sort.Some? ==> NoRelationKey(o.expanded.value, SortSpec(o.sort.value))
    requires forall i :: 0 <= i < |docs| ==> OneEach(env, o.expanded.value, docs[i])
    ensures forall k :: 0 <= k < |SortAndPage(o)| ==> Moveable(SortAndPage(o)[k])
    ensures OneToOne(env, SortAndPage(o), LookupStages(o.expanded.value), docs)
  {
    hide Expand, LookupStages, SortSpec, OneEach, AllKeepKeys, Single;
    forall i | 0 <= i < |docs| ensures Single(env, LookupStages(o.expanded.value), docs[i]) {
      LookupsAreSingle(env, o.expanded.value, docs[i]);
    }
    if o.sort.Some? {
      LookupsKeepKeys(env, o.expanded.value, SortSpec(o.sort.value), docs);
    }
  }

  /** Without relation filters, sorting and paging before the lookups has exactly the possible results of
      sorting and paging after them. */
  lemma EarlyPagingIsLatePaging(env: Env, o: Options, docs: seq<Document>, out: seq<Document>)
    requires o.expanded.Some? && !o.hasRelationFilters && PagesSafely(env, o, docs)
    ensures Yields(env, PipelineOf(o), docs, out) <==> Yields(env, PipelineOf(o.(hasRelationFilters := true)), docs, out)
  {
    hide Yields, LookupStages, SortAndPage, OneToOne;
    var looks, page := LookupStages(o.expanded.value), SortAndPage(o);
    var tail := o.projection + (if o.countOnly then [Count] else []);
    assert page == SortAndPage(o.(hasRelationFilters := true)) by { SamePage(o); }
    assert PipelineOf(o) == o.filter + ((page + looks) + tail);
    assert PipelineOf(o.(hasRelationFilters := true)) == o.filter + ((looks + page) + tail);
    LookupStagesAre(o.expanded.value, "");
    forall mid | Yields(env, o.filter, docs, mid)
      ensures forall next :: Yields(env, page + looks, mid, next) <==> Yields(env, looks + page, mid, next)
    {
      SortAndPageMoveable(env, o, mid);
      forall next {
        MovedEquivalently(env, page, looks, mid, next);
      }
    }
    if Yields(env, PipelineOf(o), docs, out) {
      var mid := YieldsSplit(env, o.filter, (page + looks) + tail, docs, out);
      var next := YieldsSplit(env, page + looks, tail, mid, out);
      YieldsJoin(env, looks + page, tail, mid, next, out);
      YieldsJoin(env, o.filter, (looks + page) + tail, docs, mid, out);
    }
    if Yields(env, PipelineOf(o.(hasRelationFilters := true)), docs, out) {
      var mid := YieldsSplit(env, o.filter, (looks + page) + tail, docs, out);
      var next := YieldsSplit(env, looks + page, tail, mid, out);
      YieldsJoin(env, page + looks, tail, mid, next, out);
      YieldsJoin(env, o.filter, (page + looks) + tail, docs, mid, out);
    }
  }

  lemma SamePage(o: Options)
    ensures SortAndPage(o) == SortAndPage(o.(hasRelationFilters := true))
  {
  }

  /** Whether a limit of `n` gives the same before and after the lookups. */
  ghost predicate LimitCommutes(env: Env, stages: seq<Stage>, docs: seq<Document>, n: nat) {
    var all := ExpandAll(env, stages, docs);
    ExpandAll(env, stages, docs[..Least(n, |docs|)]) == all[..Least(n, |all|)]
  }

  ghost predicate EveryLimitCommutes(env: Env, stages: seq<Stage>, docs: seq<Document>) {
    forall n: nat :: LimitCommutes(env, stages, docs, n)
  }

  predicate AllOneEach(env: Env, relations: seq<Relation>, docs: seq<Document>) {
    forall i :: 0 <= i < |docs| ==> OneEach(env, relations, docs[i])
  }

  lemma AllSingleIffOneEach(env: Env, relations: seq<Relation>, docs: seq<Document>)
    requires Unfiltered(relations)
    ensures AllSingle(env, LookupStages(relations), docs) <==> AllOneEach(env, relations, docs)
    ensures forall i :: 0 <= i < |docs| ==> Expand(env, LookupStages(relations), docs[i]) != []
  {
    hide Expand, OneEach, Single;
    forall i | 0 <= i < |docs|
      ensures Expand(env, LookupStages(relations), docs[i]) != []
      ensures Single(env, LookupStages(relations), docs[i]) <==> OneEach(env, relations, docs[i])
    {
      LookupsAreSingle(env, relations, docs[i]);
    }
  }

  lemma SingleLimitsCommute(env: Env, stages: seq<Stage>, docs: seq<Document>)
    requires AllSingle(env, stages, docs)
    ensures EveryLimitCommutes(env, stages, docs)
  {
    hide Expand, ExpandAll, AllSingle;
    forall n: nat ensures LimitCommutes(env, stages, docs, n) {
      ExpandAllSlice(env, stages, docs, Least(n, |docs|));
    }
  }

  /** The condition cannot be weakened: every limit commutes with the lookups exactly when each document
      satisfies it. */
  lemma LimitsCommuteIffOneEach(env: Env, relations: seq<Relation>, docs: seq<Document>)
    requires Unfiltered(relations)
    ensures EveryLimitCommutes(env, LookupStages(relations), docs) <==> AllOneEach(env, relations, docs)
  {
    hide Expand, AllOneEach, Single;
    AllSingleIffOneEach(env, relations, docs);
    if AllOneEach(env, relations, docs) {
      SingleLimitsCommute(env, LookupStages(relations), docs);
    }
    if EveryLimitCommutes(env, LookupStages(relations), docs) {
      LimitsForceSingle(env, LookupStages(relations), docs, |docs|);
    }
  }

  lemma {:induction false} LimitsForceSingle(env: Env, stages: seq<Stage>, docs: seq<Document>, k: nat)
    requires k <= |docs| && (forall i :: 0 <= i < |docs| ==> Expand(env, stages, docs[i]) != [])
    requires EveryLimitCommutes(env, stages, docs)
    ensures forall i :: 0 <= i < k ==> Single(env, stages, docs[i])
  {
    hide Expand, ExpandAll;
    if k > 0 {
      LimitsForceSingle(env, stages, docs, k - 1);
      var init := docs[..k - 1];
      assert docs[..k] == init + [docs[k - 1]];
      ExpandAllConcat(env, stages, init, [docs[k - 1]]);
      ExpandAllGrows(env, stages, [docs[k - 1]]);
      assert AllSingle(env, stages, init);
      ExpandAllSingle(env, stages, init);
      ExpandAllGrows(env, stages, docs);
      assert LimitCommutes(env, stages, docs, k);
    }
  }

  // ---- the count-only form ----

  predicate SizeStage(st: Stage) {
    PerDocumentStage(st) || st.Sort?
  }

  function NoSorts(stages: seq<Stage>): seq<Stage> {
    if stages == [] then []
    else (if stages[0].Sort? then [] else [stages[0]]) + NoSorts(stages[1..])
  }

  /** A permutation without the document it places last in `docs`. */
  lemma DropLast(docs: seq<Document>, out: seq<Document>, p: seq<nat>, q: seq<nat>)
    returns (a: seq<Document>, b: seq<Document>, p': seq<nat>, q': seq<nat>)
    requires docs != [] && Permutes(docs, out, p, q)
    ensures out == a + ([docs[|docs| - 1]] + b)
    ensures Permutes(docs[..|docs| - 1], a + b, p', q')
  {
    var n := |docs| - 1;
    var k := q[n];
    a, b := out[..k], out[k + 1..];
    p' := p[..k] + p[k + 1..];
    q' := seq(n, j requires 0 <= j < n => if q[j] < k then q[j] else q[j] - 1);
    forall i | 0 <= i < n ensures p'[i] < n && (a + b)[i] == docs[..n][p'[i]] && q'[p'[i]] == i {
      var i' := if i < k then i else i + 1;
      assert p'[i] == p[i'] && (a + b)[i] == out[i'] && q[p[i']] == i';
    }
    forall j | 0 <= j < n ensures q'[j] < |a + b| && p'[q'[j]] == j {
      assert p[q[j]] == j && p[k] == n;
    }
  }

  lemma {:induction false} PermutationKeepsSize(env: Env, stages: seq<Stage>, docs: seq<Document>,
                                                out: seq<Document>, p: seq<nat>, q: seq<nat>)
    requires Permutes(docs, out, p, q)
    ensures |ExpandAll(env, stages, out)| == |ExpandAll(env, stages, docs)|
    decreases |docs|
  {
    hide Expand, ExpandAll, Permutes;
    if docs == [] {
      assert out == docs by { EmptyPermutation(docs, out, p, q); }
    } else {
      var init, last := docs[..|docs| - 1], [docs[|docs| - 1]];
      var a, b, p', q' := DropLast(docs, out, p, q);
      PermutationKeepsSize(env, stages, init, a + b, p', q');
      ExpandAllConcat(env, stages, a, last + b);
      ExpandAllConcat(env, stages, last, b);
      ExpandAllConcat(env, stages, a, b);
      ExpandAllConcat(env, stages, init, last);
      assert docs == init + last;
    }
  }

  lemma EmptyPermutation(docs: seq<Document>, out: seq<Document>, p: seq<nat>, q: seq<nat>)
    requires docs == [] && Permutes(docs, out, p, q)
    ensures out == []
  {
  }

  /** How many documents come out does not depend on how ties were broken. */
  lemma {:induction false} SizeWithoutSorts(env: Env, stages: seq<Stage>, docs: seq<Document>, out: seq<Document>)
    requires forall i :: 0 <= i < |stages| ==> SizeStage(stages[i])
    requires Yields(env, stages, docs, out)
    ensures |out| == |ExpandAll(env, NoSorts(stages), docs)|
    decreases |stages|
  {
    hide Expand, ExpandAll;
    if stages == [] {
      ExpandAllNothing(env, docs);
    } else {
      assert SizeStage(stages[0]);
      var mid :| StageYields(env, stages[0], docs, mid) && Yields(env, stages[1..], mid, out);
      SizeWithoutSorts(env, stages[1..], mid, out);
      var rest := NoSorts(stages[1..]);
      if stages[0].Sort? {
        assert NoSorts(stages) == rest;
        var p, q :| Permutes(docs, mid, p, q);
        PermutationKeepsSize(env, rest, docs, mid, p, q);
      } else {
        assert NoSorts(stages)[0] == stages[0] && NoSorts(stages)[1..] == rest;
        ExpandAllUnfold(env, NoSorts(stages), docs);
      }
    }
  }

  function Unpaged(o: Options): Options {
    o.(countOnly := false, offset := 0, limit := None)
  }

  function CountOf(out: seq<Document>): Value {
    if out == [] then Scalar(0) else Field(out[0], "count")
  }

  /** The pipeline of a query without its page and its count. */
  function Core(o: Options): seq<Stage> {
    if o.expanded.None? then o.filter + SortStages(o)
    else if o.hasRelationFilters then o.filter + (LookupStages(o.expanded.value) + (SortStages(o) + o.projection))
    else o.filter + (SortStages(o) + (LookupStages(o.expanded.value) + o.projection))
  }

  lemma CountPipeline(o: Options)
    requires o.expanded.None? ==> o.projection == []
    ensures PipelineOf(Unpaged(o)) == Core(o) && PipelineOf(o.(countOnly := true)) == Core(o) + [Count]
  {
    hide LookupStages, SortStages, SortAndPage, PageStages;
    NoPage(o);
  }

  lemma NoPage(o: Options)
    ensures SortStages(Unpaged(o)) == SortStages(o.(countOnly := true)) == SortStages(o)
    ensures SortAndPage(Unpaged(o)) == SortAndPage(o.(countOnly := true)) == SortStages(o)
    ensures PageStages(Unpaged(o)) == []
  {
  }

  lemma CoreKeepsSize(o: Options)
    requires AllPerDocument(o.filter) && AllPerDocument(o.projection)
    ensures forall i :: 0 <= i < |Core(o)| ==> SizeStage(Core(o)[i])
  {
    hide LookupStages, SortSpec;
    if o.expanded.Some? {
      LookupStagesAre(o.expanded.value, "");
    }
  }

  /** The count-only form counts what the query finds on all its pages together, whatever page was asked for,
      with or without relation filters, and even where a lookup multiplies documents. */
  lemma CountIgnoresPage(env: Env, o: Options, docs: seq<Document>, data: seq<Document>, counted: seq<Document>)
    requires AllPerDocument(o.filter) && AllPerDocument(o.projection) && (o.expanded.None? ==> o.projection == [])
    requires Yields(env, PipelineOf(Unpaged(o)), docs, data)
    requires Yields(env, PipelineOf(o.(countOnly := true)), docs, counted)
    ensures CountOf(counted) == Scalar(|data|)
  {
    hide Yields, PipelineOf, NoSorts, ExpandAll, Core;
    var stages := Core(o);
    CountPipeline(o);
    CoreKeepsSize(o);
    var mid := YieldsSplit(env, stages, [Count], docs, counted);
    YieldsOne(env, Count, mid, counted);
    SizeWithoutSorts(env, stages, docs, mid);
    SizeWithoutSorts(env, stages, docs, data);
  }

  // ---- pages ----

  /** `execute`: a page needs a limit, and counts from one. */
  function Paged(o: Options, page: int, limit: int): Options {
    if page != 0 && limit != 0 then o.(offset := (page - 1) * limit, limit := Some(limit))
    else if limit != 0 then o.(limit := Some(limit))
    else o
  }

  /** How many documents the first `pages` pages cover. */
  function Offset(pages: nat, limit: nat): nat {
    if pages == 0 then 0 else Offset(pages - 1, limit) + limit
  }

  lemma {:induction false} OffsetIsProduct(pages: nat, limit: nat)
    ensures Offset(pages, limit) == pages * limit
  {
    if pages > 0 {
      OffsetIsProduct(pages - 1, limit);
      assert pages * limit == (pages - 1) * limit + limit;
    }
  }

  function PageOf(all: seq<Document>, page: nat, limit: nat): seq<Document>
    requires page > 0
  {
    all[Least(Offset(page - 1, limit), |all|)..Least(Offset(page, limit), |all|)]
  }

  /** What skip and limit leave of a result is the page asked for, with no document lost or repeated at its edges. */
  lemma PageIsSlice(env: Env, o: Options, page: nat, limit: nat, all: seq<Document>, out: seq<Document>)
    requires page > 0 && limit > 0 && o.offset == 0
    ensures Yields(env, PageStages(Paged(o, page, limit)), all, out) <==> out == PageOf(all, page, limit)
  {
    var from := Offset(page - 1, limit);
    OffsetIsProduct(page - 1, limit);
    var skip := if from != 0 then [Skip(from)] else [];
    assert PageStages(Paged(o, page, limit)) == skip + [Limit(limit)];
    var mid := all[Least(from, |all|)..];
    forall m ensures Yields(env, skip, all, m) <==> m == mid {
      if from != 0 {
        YieldsOne(env, Skip(from), all, m);
      }
    }
    YieldsOne(env, Limit(limit), mid, out);
    assert mid[..Least(limit, |mid|)] == PageOf(all, page, limit);
    if Yields(env, skip + [Limit(limit)], all, out) {
      var m := YieldsSplit(env, skip, [Limit(limit)], all, out);
    }
    if out == PageOf(all, page, limit) {
      YieldsJoin(env, skip, [Limit(limit)], all, mid, out);
    }
  }

  function FirstPages(all: seq<Document>, pages: nat, limit: nat): seq<Document> {
    if pages == 0 then [] else FirstPages(all, pages - 1, limit) + PageOf(all, pages, limit)
  }

  lemma SlicesMeet(all: seq<Document>, a: nat, b: nat)
    requires a <= b
    ensures Least(a, |all|) <= Least(b, |all|)
    ensures all[..Least(a, |all|)] + all[Least(a, |all|)..Least(b, |all|)] == all[..Least(b, |all|)]
  {
  }

  /** The pages of one result, put together, are that result from its start: no document is lost or repeated. */
  lemma {:induction false} PagesTile(all: seq<Document>, pages: nat, limit: nat)
    ensures FirstPages(all, pages, limit) == all[..Least(pages * limit, |all|)]
  {
    hide Least;
    TileTo(all, pages, limit);
    OffsetIsProduct(pages, limit);
  }

  lemma {:induction false} TileTo(all: seq<Document>, pages: nat, limit: nat)
    ensures FirstPages(all, pages, limit) == all[..Least(Offset(pages, limit), |all|)]
  {
    if pages > 0 {
      TileTo(all, pages - 1, limit);
      SlicesMeet(all, Offset(pages - 1, limit), Offset(pages, limit));
    }
  }
}
