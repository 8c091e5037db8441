/** What a query returns: the matching documents with their relations populated, in order of the sort keys, projected,
    and of those one page. */
module MongoQueryMeaning {
  import opened Prelude
  import opened MongoPipeline
  import opened MongoPipelineLaws
  import opened MongoPaging

  // ---- populating relations ----

  /** The joined documents, cut to one when a to-one relation is read through a nested pipeline. */
  function ItemsOf(env: Env, r: Relation, d: Document): seq<Value> {
    var found := Joined(env, Field(d, r.localField), r.foreignField, TargetsOf(env, r));
    if r.nested.Direct? then found
    else
      var all := r.nested.run(found);
      if (r.toOne || r.nested.limitOne) && |all| > 1 then all[..1] else all
  }

  /** One document per item; where the query filters on the relation an item that is null is left out. */
  function WithEach(d: Document, name: string, items: seq<Value>, filtered: bool): seq<Document> {
    if items == [] then []
    else (if filtered && items[0] == Null then [] else [d[name := items[0]]]) + WithEach(d, name, items[1..], filtered)
  }

  /** A to-many relation is an array; a to-one relation is its item, or is absent when there is none, and then the
      document itself is left out where the query filters on the relation. */
  function PopulatedBy(env: Env, r: Relation, d: Document): seq<Document> {
    var items := ItemsOf(env, r, d);
    if !r.toOne then [d[r.propertyName := List(items)]]
    else if items == [] then (if r.filtered then [] else [d - {r.propertyName}])
    else WithEach(d, r.propertyName, items, r.filtered)
  }

  function EachPopulatedBy(env: Env, r: Relation, docs: seq<Document>): seq<Document> {
    if docs == [] then [] else PopulatedBy(env, r, docs[0]) + EachPopulatedBy(env, r, docs[1..])
  }

  /** Relation after relation. */
  function Populated(env: Env, relations: seq<Relation>, docs: seq<Document>): seq<Document> {
    if relations == [] then docs
    else EachPopulatedBy(env, relations[|relations| - 1], Populated(env, relations[..|relations| - 1], docs))
  }

  lemma {:induction false} JoinedIff(env: Env, local: Value, foreignField: string, targets: seq<Document>, v: Value)
    ensures v in Joined(env, local, foreignField, targets)
        <==> exists t :: t in targets && env.joins(local, Field(t, foreignField)) && v == Doc(t)
  {
    if targets != [] {
      JoinedIff(env, local, foreignField, targets[1..], v);
      assert targets == [targets[0]] + targets[1..];
    }
  }

  lemma {:induction false} MatchKeeps(env: Env, d: Document, name: string, items: seq<Value>)
    ensures Each(env, Match(NotNull(name)), WithEach(d, name, items, false)) == WithEach(d, name, items, true)
  {
    if items != [] {
      MatchKeeps(env, d, name, items[1..]);
      assert WithEach(d, name, items, false)[0] == d[name := items[0]];
      assert WithEach(d, name, items, false)[1..] == WithEach(d, name, items[1..], false);
    }
  }

  lemma {:induction false} UnwoundIs(d: Document, name: string, items: seq<Value>)
    ensures WithEach(d, name, items, false) == seq(|items|, i requires 0 <= i < |items| => d[name := items[i]])
  {
    if items != [] {
      UnwoundIs(d, name, items[1..]);
      assert forall i :: 1 <= i < |items| ==> items[i] == items[1..][i - 1];
    }
  }

  /** What `$unwind` makes of the looked-up document. */
  lemma UnwoundLooked(d: Document, name: string, items: seq<Value>)
    ensures Unwound(name, d[name := List(items)]) == if items == [] then [d - {name}] else WithEach(d, name, items, false)
  {
    var e := d[name := List(items)];
    UnwoundIs(d, name, items);
    if items == [] {
      assert e - {name} == d - {name};
    } else {
      assert forall i :: 0 <= i < |items| ==> e[name := items[i]] == d[name := items[i]];
    }
  }

  lemma LookedIs(env: Env, r: Relation, d: Document)
    ensures Each(env, RelationStages(r)[0], [d]) == [d[r.propertyName := List(ItemsOf(env, r, d))]]
  {
    var found := Joined(env, Field(d, r.localField), r.foreignField, TargetsOf(env, r));
    if r.nested.Through? {
      var all := r.nested.run(found);
      assert all[..Least(1, |all|)] == if |all| > 1 then all[..1] else all;
    }
    assert Nest(NestedOf(r), found) == ItemsOf(env, r, d);
    assert [d][1..] == [];
    assert Each(env, RelationStages(r)[0], []) == [];
  }

  lemma UnwindStage(env: Env, r: Relation, d: Document)
    ensures var items := ItemsOf(env, r, d);
            Each(env, Unwind(r.propertyName), [d[r.propertyName := List(items)]])
            == if items == [] then [d - {r.propertyName}] else WithEach(d, r.propertyName, items, false)
  {
    hide ItemsOf, Unwound;
    var e := d[r.propertyName := List(ItemsOf(env, r, d))];
    UnwoundLooked(d, r.propertyName, ItemsOf(env, r, d));
    assert [e][1..] == [] && Each(env, Unwind(r.propertyName), []) == [];
  }

  lemma MatchStage(env: Env, r: Relation, d: Document)
    ensures var items := ItemsOf(env, r, d);
            Each(env, Match(NotNull(r.propertyName)), if items == [] then [d - {r.propertyName}] else WithEach(d, r.propertyName, items, false))
            == if items == [] then [] else WithEach(d, r.propertyName, items, true)
  {
    hide ItemsOf;
    var items := ItemsOf(env, r, d);
    if items == [] {
      var e := d - {r.propertyName};
      assert [e][1..] == [] && Each(env, Match(NotNull(r.propertyName)), []) == [];
    } else {
      MatchKeeps(env, d, r.propertyName, items);
    }
  }

  /** The stages pushed for a relation populate it. */
  lemma RelationIsPopulated(env: Env, r: Relation, d: Document)
    ensures ExpandAll(env, RelationStages(r), [d]) == PopulatedBy(env, r, d)
  {
    hide Expand, ExpandAll, Each, ItemsOf, WithEach;
    var stages := RelationStages(r);
    LookedIs(env, r, d);
    UnwindStage(env, r, d);
    MatchStage(env, r, d);
    ExpandAllUnfold(env, stages, [d]);
    var e := Each(env, stages[0], [d]);
    if !r.toOne {
      assert stages[1..] == [];
      ExpandAllNothing(env, e);
    } else {
      assert stages[1..][0] == Unwind(r.propertyName);
      ExpandAllUnfold(env, stages[1..], e);
      var u := Each(env, Unwind(r.propertyName), e);
      if !r.filtered {
        assert stages[1..][1..] == [];
        ExpandAllNothing(env, u);
      } else {
        assert stages[1..][1..] == [Match(NotNull(r.propertyName))];
        ExpandAllUnfold(env, stages[1..][1..], u);
        assert [Match(NotNull(r.propertyName))][1..] == [];
        ExpandAllNothing(env, Each(env, Match(NotNull(r.propertyName)), u));
      }
    }
  }

  lemma {:induction false} EachRelationIsPopulated(env: Env, r: Relation, docs: seq<Document>)
    ensures ExpandAll(env, RelationStages(r), docs) == EachPopulatedBy(env, r, docs)
  {
    hide Expand, PopulatedBy, RelationStages;
    if docs != [] {
      EachRelationIsPopulated(env, r, docs[1..]);
      RelationIsPopulated(env, r, docs[0]);
      assert [docs[0]][1..] == [];
    }
  }

  /** The lookups of a query populate its relations, one after another. */
  lemma {:induction false} LookupsPopulate(env: Env, relations: seq<Relation>, docs: seq<Document>)
    ensures ExpandAll(env, LookupStages(relations), docs) == Populated(env, relations, docs)
  {
    hide Expand, ExpandAll, RelationStages, EachPopulatedBy;
    if relations == [] {
      ExpandAllNothing(env, docs);
    } else {
      var init, r := relations[..|relations| - 1], relations[|relations| - 1];
      LookupsPopulate(env, init, docs);
      ExpandAllAppend(env, LookupStages(init), RelationStages(r), docs);
      EachRelationIsPopulated(env, r, Populated(env, init, docs));
    }
  }

  // ---- the query without its page ----

  /** The order asked for, ties in any way; without one the documents stay as they are. */
  ghost predicate InOrder(env: Env, sort: Option<seq<SortKey>>, docs: seq<Document>, out: seq<Document>) {
    if sort.Some? then Sorts(env, SortSpec(sort.value), docs, out) else out == docs
  }

  /** The filtered documents with their relations populated, in the order asked for. */
  ghost predicate Selects(env: Env, o: Options, docs: seq<Document>, found: seq<Document>, sorted: seq<Document>) {
    && Yields(env, o.filter, docs, found)
    && InOrder(env, o.sort, if o.expanded.Some? then Populated(env, o.expanded.value, found) else found, sorted)
  }

  lemma SortStagesOrder(env: Env, o: Options, docs: seq<Document>, out: seq<Document>)
    ensures Yields(env, SortStages(o), docs, out) <==> InOrder(env, o.sort, docs, out)
  {
    if o.sort.Some? {
      YieldsOne(env, Sort(SortSpec(o.sort.value)), docs, out);
    }
  }

  /** The lookups before the sort, or none. */
  function Looks(o: Options): seq<Stage> {
    if o.expanded.Some? then LookupStages(o.expanded.value) else []
  }

  lemma LooksPopulate(env: Env, o: Options, docs: seq<Document>, out: seq<Document>)
    ensures Yields(env, Looks(o), docs, out)
        <==> out == if o.expanded.Some? then Populated(env, o.expanded.value, docs) else docs
  {
    hide Expand, ExpandAll, Populated, LookupStages;
    if o.expanded.Some? {
      LookupStagesAre(o.expanded.value, "");
      YieldsExpanded(env, LookupStages(o.expanded.value), docs, out);
      LookupsPopulate(env, o.expanded.value, docs);
    }
  }

  lemma LateStages(o: Options)
    requires !o.countOnly && (o.expanded.Some? ==> o.hasRelationFilters)
    ensures PipelineOf(Unpaged(o)) == o.filter + (Looks(o) + (SortStages(o) + o.projection))
  {
    hide LookupStages, SortStages, SortAndPage, PageStages;
    NoPage(o);
  }

  lemma LateMeaning(env: Env, o: Options, docs: seq<Document>, out: seq<Document>)
    requires !o.countOnly && AllPerDocument(o.projection) && (o.expanded.Some? ==> o.hasRelationFilters)
    ensures Yields(env, PipelineOf(Unpaged(o)), docs, out)
        <==> exists found, sorted :: Selects(env, o, docs, found, sorted) && out == ExpandAll(env, o.projection, sorted)
  {
    hide Yields, PipelineOf, Looks, SortStages, ExpandAll, Populated, InOrder;
    LateStages(o);
    var rest := SortStages(o) + o.projection;
    if Yields(env, PipelineOf(Unpaged(o)), docs, out) {
      var found := YieldsSplit(env, o.filter, Looks(o) + rest, docs, out);
      var populated := YieldsSplit(env, Looks(o), rest, found, out);
      var sorted := YieldsSplit(env, SortStages(o), o.projection, populated, out);
      LooksPopulate(env, o, found, populated);
      SortStagesOrder(env, o, populated, sorted);
      YieldsExpanded(env, o.projection, sorted, out);
      assert Selects(env, o, docs, found, sorted);
    }
    if found, sorted :| Selects(env, o, docs, found, sorted) && out == ExpandAll(env, o.projection, sorted) {
      var populated := if o.expanded.Some? then Populated(env, o.expanded.value, found) else found;
      LooksPopulate(env, o, found, populated);
      SortStagesOrder(env, o, populated, sorted);
      YieldsExpanded(env, o.projection, sorted, out);
      YieldsJoin(env, SortStages(o), o.projection, populated, sorted, out);
      YieldsJoin(env, Looks(o), rest, found, populated, out);
      YieldsJoin(env, o.filter, Looks(o) + rest, docs, found, out);
    }
  }

  /** Populating before the page keeps one document per document, and no sort key is populated. */
  ghost predicate Pageable(env: Env, o: Options, docs: seq<Document>) {
    o.expanded.Some? && !o.hasRelationFilters ==> PagesSafely(env, o, docs)
  }

  /** What a query without a page returns: the filtered documents, populated, in order, projected. */
  lemma UnpagedMeaning(env: Env, o: Options, docs: seq<Document>, out: seq<Document>)
    requires !o.countOnly && AllPerDocument(o.projection) && Pageable(env, o, docs)
    ensures Yields(env, PipelineOf(Unpaged(o)), docs, out)
        <==> exists found, sorted :: Selects(env, o, docs, found, sorted) && out == ExpandAll(env, o.projection, sorted)
  {
    hide Yields, PipelineOf, ExpandAll, Populated, InOrder, Selects;
    if o.expanded.Some? && !o.hasRelationFilters {
      var late := o.(hasRelationFilters := true);
      assert PagesSafely(env, Unpaged(o), docs);
      EarlyPagingIsLatePaging(env, Unpaged(o), docs, out);
      LateMeaning(env, late, docs, out);
      assert forall found, sorted :: Selects(env, late, docs, found, sorted) <==> Selects(env, o, docs, found, sorted) by {
        SameSelection(env, o, docs);
      }
    } else {
      LateMeaning(env, o, docs, out);
    }
  }

  lemma SameSelection(env: Env, o: Options, docs: seq<Document>)
    ensures forall found, sorted ::
              Selects(env, o.(hasRelationFilters := true), docs, found, sorted) <==> Selects(env, o, docs, found, sorted)
  {
  }

  /** In particular a query that is not projected returns its documents in the order of its sort keys. */
  lemma ResultIsOrdered(env: Env, o: Options, docs: seq<Document>, out: seq<Document>)
    requires !o.countOnly && o.projection == [] && o.sort.Some? && Pageable(env, o, docs)
    requires Yields(env, PipelineOf(Unpaged(o)), docs, out)
    ensures Ordered(env, SortSpec(o.sort.value), out)
  {
    hide Yields, PipelineOf, ExpandAll, Populated, Ordered;
    UnpagedMeaning(env, o, docs, out);
    var found, sorted :| Selects(env, o, docs, found, sorted) && out == ExpandAll(env, o.projection, sorted);
    ExpandAllNothing(env, sorted);
  }

  // ---- one page of it ----

  predicate Projects(stages: seq<Stage>) {
    forall i :: 0 <= i < |stages| ==> stages[i].Project?
  }

  lemma {:induction false} ProjectionIsSingle(env: Env, stages: seq<Stage>, d: Document)
    requires Projects(stages)
    ensures Single(env, stages, d)
    decreases |stages|
  {
    hide ExpandAll;
    if stages != [] {
      assert stages[0].Project?;
      var e := stages[0].f(d);
      assert PerDocument(env, stages[0], d) == [e];
      ProjectionIsSingle(env, stages[1..], e);
      ExpandAllGrows(env, stages[1..], [e]);
    }
  }

  lemma SingleThenProjected(env: Env, stages: seq<Stage>, projection: seq<Stage>, d: Document)
    requires Single(env, stages, d) && Projects(projection)
    ensures Single(env, stages + projection, d)
  {
    hide Expand, ExpandAll;
    ExpandAppend(env, stages, projection, d);
    var e := Expand(env, stages, d)[0];
    ProjectionIsSingle(env, projection, e);
    ExpandAllGrows(env, projection, [e]);
    assert Expand(env, stages, d) == [e];
  }

  /** A page taken before stages that keep one document per document is the page of their result. */
  lemma PageBefore(env: Env, o: Options, rest: seq<Stage>, page: nat, limit: nat, mid: seq<Document>, out: seq<Document>)
    requires page > 0 && limit > 0 && o.offset == 0 && AllPerDocument(rest) && AllSingle(env, rest, mid)
    ensures Yields(env, PageStages(Paged(o, page, limit)) + rest, mid, out)
        <==> out == PageOf(ExpandAll(env, rest, mid), page, limit)
  {
    hide Yields, ExpandAll, PageStages, AllSingle, Paged;
    var p, cut := PageStages(Paged(o, page, limit)), PageOf(mid, page, limit);
    PageOfExpanded(env, rest, page, limit, mid);
    if Yields(env, p + rest, mid, out) {
      var m := YieldsSplit(env, p, rest, mid, out);
      PageIsSlice(env, o, page, limit, mid, m);
      YieldsExpanded(env, rest, m, out);
    }
    if out == PageOf(ExpandAll(env, rest, mid), page, limit) {
      PageIsSlice(env, o, page, limit, mid, cut);
      YieldsExpanded(env, rest, cut, out);
      YieldsJoin(env, p, rest, mid, cut, out);
    }
  }

  lemma PageOfExpanded(env: Env, rest: seq<Stage>, page: nat, limit: nat, mid: seq<Document>)
    requires page > 0 && AllSingle(env, rest, mid)
    ensures ExpandAll(env, rest, PageOf(mid, page, limit)) == PageOf(ExpandAll(env, rest, mid), page, limit)
  {
    hide ExpandAll, AllSingle, Offset;
    var from, to := Least(Offset(page - 1, limit), |mid|), Least(Offset(page, limit), |mid|);
    ExpandAllSlice(env, rest, mid, to);
    AllSingleSubset(env, rest, mid, mid[..to]);
    assert Offset(page - 1, limit) <= Offset(page, limit) by { NextPage(page, limit); }
    ExpandAllSlice(env, rest, mid[..to], from);
    assert mid[..to][from..] == mid[from..to];
  }

  lemma NextPage(page: nat, limit: nat)
    requires page > 0
    ensures Offset(page - 1, limit) <= Offset(page, limit)
  {
  }

  lemma PagedBehind(env: Env, front: seq<Stage>, rest: seq<Stage>, o: Options, page: nat, limit: nat,
                    docs: seq<Document>, out: seq<Document>)
    requires page > 0 && limit > 0 && o.offset == 0 && AllPerDocument(rest)
    requires forall mid :: Yields(env, front, docs, mid) ==> AllSingle(env, rest, mid)
    ensures Yields(env, front + (PageStages(Paged(o, page, limit)) + rest), docs, out)
        <==> exists all :: Yields(env, front + rest, docs, all) && out == PageOf(all, page, limit)
  {
    hide Yields, ExpandAll, PageStages, AllSingle, Paged, PageOf;
    var p := PageStages(Paged(o, page, limit));
    if Yields(env, front + (p + rest), docs, out) {
      var mid := YieldsSplit(env, front, p + rest, docs, out);
      PageBefore(env, o, rest, page, limit, mid, out);
      YieldsExpanded(env, rest, mid, ExpandAll(env, rest, mid));
      YieldsJoin(env, front, rest, docs, mid, ExpandAll(env, rest, mid));
    }
    if all :| Yields(env, front + rest, docs, all) && out == PageOf(all, page, limit) {
      var mid := YieldsSplit(env, front, rest, docs, all);
      YieldsExpanded(env, rest, mid, all);
      PageBefore(env, o, rest, page, limit, mid, out);
      YieldsJoin(env, front, p + rest, docs, mid, out);
    }
  }

  /** The stages before the page, and those after it. */
  function Front(o: Options): seq<Stage> {
    if o.hasRelationFilters then o.filter + Looks(o) + SortStages(o) else o.filter + SortStages(o)
  }

  function Behind(o: Options): seq<Stage> {
    if o.hasRelationFilters then o.projection else Looks(o) + o.projection
  }

  lemma PagedOptions(o: Options, page: nat, limit: nat)
    requires !o.countOnly
    ensures var p := Paged(o, page, limit);
            && !p.countOnly && p.filter == o.filter && p.projection == o.projection && p.expanded == o.expanded
            && p.hasRelationFilters == o.hasRelationFilters && SortStages(p) == SortStages(o)
            && SortAndPage(p) == SortStages(o) + PageStages(p)
  {
    hide SortSpec;
  }

  lemma PagedStages(o: Options, page: nat, limit: nat)
    requires !o.countOnly
    ensures PipelineOf(Paged(o, page, limit)) == Front(o) + (PageStages(Paged(o, page, limit)) + Behind(o))
  {
    hide LookupStages, PageStages, SortStages, SortAndPage, Paged;
    PagedOptions(o, page, limit);
    assert Looks(o) + [] == Looks(o);
  }

  lemma UnpagedStages(o: Options)
    requires !o.countOnly
    ensures PipelineOf(Unpaged(o)) == Front(o) + Behind(o)
  {
    hide LookupStages, PageStages, SortStages, SortAndPage;
    NoPage(o);
  }

  /** Wherever the page stands in the pipeline, one page of a query is that page of a result of the whole query. */
  lemma PagedIsPageOfUnpaged(env: Env, o: Options, page: nat, limit: nat, docs: seq<Document>, out: seq<Document>)
    requires page > 0 && limit > 0 && o.offset == 0 && !o.countOnly && Projects(o.projection) && Pageable(env, o, docs)
    ensures Yields(env, PipelineOf(Paged(o, page, limit)), docs, out)
        <==> exists all :: Yields(env, PipelineOf(Unpaged(o)), docs, all) && out == PageOf(all, page, limit)
  {
    hide Yields, PipelineOf, PageStages, Paged, PageOf, Front, Behind, Single;
    PagedStages(o, page, limit);
    UnpagedStages(o);
    BehindIsPerDocument(o);
    forall mid | Yields(env, Front(o), docs, mid) ensures AllSingle(env, Behind(o), mid) {
      BehindIsSingle(env, o, docs, mid);
    }
    PagedBehind(env, Front(o), Behind(o), o, page, limit, docs, out);
  }

  lemma BehindIsPerDocument(o: Options)
    requires Projects(o.projection)
    ensures AllPerDocument(Behind(o))
  {
    hide LookupStages;
    if o.expanded.Some? {
      LookupStagesAre(o.expanded.value, "");
    }
  }

  lemma BehindIsSingle(env: Env, o: Options, docs: seq<Document>, mid: seq<Document>)
    requires Projects(o.projection) && Pageable(env, o, docs) && Yields(env, Front(o), docs, mid)
    ensures AllSingle(env, Behind(o), mid)
  {
    hide Yields, Single, LookupStages, OneEach, InOrder, SortStages;
    if o.expanded.Some? && !o.hasRelationFilters {
      var found := YieldsSplit(env, o.filter, SortStages(o), docs, mid);
      SortStagesOrder(env, o, found, mid);
      OrderSelects(env, o.sort, found, mid);
      forall i | 0 <= i < |mid| ensures Single(env, Behind(o), mid[i]) {
        assert mid[i] in found;
        var j :| 0 <= j < |found| && found[j] == mid[i];
        LookupsAreSingle(env, o.expanded.value, mid[i]);
        SingleThenProjected(env, Looks(o), o.projection, mid[i]);
      }
    } else {
      assert [] + o.projection == o.projection;
      forall i | 0 <= i < |mid| ensures Single(env, Behind(o), mid[i]) {
        ProjectionIsSingle(env, o.projection, mid[i]);
      }
    }
  }

  lemma OrderSelects(env: Env, sort: Option<seq<SortKey>>, docs: seq<Document>, out: seq<Document>)
    requires InOrder(env, sort, docs, out)
    ensures forall i :: 0 <= i < |out| ==> out[i] in docs
  {
    hide Ordered;
  }

  /** A limit without a page asks for the first one, and without a limit there is no page. */
  lemma LimitAloneIsFirstPage(o: Options, page: int, limit: int)
    requires limit != 0 && o.offset == 0
    ensures Paged(o, 0, limit) == Paged(o, 1, limit) && Paged(o, page, 0) == o
  {
  }

  /** Documents are ordered by the first key on which they differ, in that key's direction. */
  lemma {:induction false} FirstDifferenceDecides(env: Env, spec: seq<SortKey>, a: Document, b: Document, k: nat)
    requires k <= |spec|
    requires forall i :: 0 <= i < k ==>
               !env.lt(Field(a, spec[i].field), Field(b, spec[i].field)) && !env.lt(Field(b, spec[i].field), Field(a, spec[i].field))
    ensures k == |spec| ==> !LexLess(env, spec, a, b)
    ensures k < |spec| && env.lt(Field(a, spec[k].field), Field(b, spec[k].field)) ==>
              (LexLess(env, spec, a, b) <==> spec[k].ascending)
    decreases |spec|
  {
    if k > 0 {
      assert forall i :: 0 <= i < |spec[1..]| ==> spec[1..][i] == spec[i + 1];
      FirstDifferenceDecides(env, spec[1..], a, b, k - 1);
    }
  }
}
