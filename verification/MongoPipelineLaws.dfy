/** When sort, skip and limit may be moved before the lookups, and what the count-only form counts. */
module MongoPipelineLaws {
  import opened Prelude
  import opened MongoPipeline

  // ---- pipelines in sequence ----

  lemma {:induction false} YieldsJoin(env: Env, p: seq<Stage>, q: seq<Stage>, docs: seq<Document>,
                                      mid: seq<Document>, out: seq<Document>)
    requires Yields(env, p, docs, mid) && Yields(env, q, mid, out)
    ensures Yields(env, p + q, docs, out)
    decreases |p|
  {
    if p == [] {
      assert p + q == q;
    } else {
      var next :| StageYields(env, p[0], docs, next) && Yields(env, p[1..], next, mid);
      YieldsJoin(env, p[1..], q, next, mid, out);
      assert (p + q)[0] == p[0] && (p + q)[1..] == p[1..] + q;
    }
  }

  lemma {:induction false} YieldsSplit(env: Env, p: seq<Stage>, q: seq<Stage>, docs: seq<Document>,
                                       out: seq<Document>)
    returns (mid: seq<Document>)
    requires Yields(env, p + q, docs, out)
    ensures Yields(env, p, docs, mid) && Yields(env, q, mid, out)
    decreases |p|
  {
    if p == [] {
      assert p + q == q;
      mid := docs;
    } else {
      assert (p + q)[0] == p[0] && (p + q)[1..] == p[1..] + q;
      var next :| StageYields(env, p[0], docs, next) && Yields(env, p[1..] + q, next, out);
      mid := YieldsSplit(env, p[1..], q, next, out);
    }
  }

  lemma YieldsOne(env: Env, st: Stage, docs: seq<Document>, out: seq<Document>)
    ensures Yields(env, [st], docs, out) <==> StageYields(env, st, docs, out)
  {
    assert [st][1..] == [];
    if StageYields(env, st, docs, out) {
      assert Yields(env, [], out, out);
    }
  }

  // ---- stages that treat each document on its own ----

  predicate PerDocumentStage(st: Stage) {
    st.Lookup? || st.Unwind? || st.Project? || st.Match?
  }

  predicate AllPerDocument(stages: seq<Stage>) {
    forall i :: 0 <= i < |stages| ==> PerDocumentStage(stages[i])
  }

  /** What a list of such stages makes of one document, and of many. */
  function Expand(env: Env, stages: seq<Stage>, d: Document): seq<Document>
    decreases |stages|, 0
  {
    if stages == [] then [d] else ExpandAll(env, stages[1..], PerDocument(env, stages[0], d))
  }

  function ExpandAll(env: Env, stages: seq<Stage>, docs: seq<Document>): seq<Document>
    decreases |stages|, |docs| + 1
  {
    if docs == [] then [] else Expand(env, stages, docs[0]) + ExpandAll(env, stages, docs[1..])
  }

  lemma {:induction false} ExpandAllConcat(env: Env, stages: seq<Stage>, a: seq<Document>, b: seq<Document>)
    ensures ExpandAll(env, stages, a + b) == ExpandAll(env, stages, a) + ExpandAll(env, stages, b)
    decreases |a|
  {
    hide Expand;
    if a == [] {
      assert a + b == b;
    } else {
      ExpandAllConcat(env, stages, a[1..], b);
      assert (a + b)[1..] == a[1..] + b;
    }
  }

  lemma {:induction false} ExpandAllUnfold(env: Env, stages: seq<Stage>, docs: seq<Document>)
    requires stages != []
    ensures ExpandAll(env, stages, docs) == ExpandAll(env, stages[1..], Each(env, stages[0], docs))
    decreases |docs|
  {
    hide PerDocument;
    if docs != [] {
      ExpandAllUnfold(env, stages, docs[1..]);
      ExpandAllConcat(env, stages[1..], PerDocument(env, stages[0], docs[0]), Each(env, stages[0], docs[1..]));
    }
  }

  lemma {:induction false} ExpandAllNothing(env: Env, docs: seq<Document>)
    ensures ExpandAll(env, [], docs) == docs
    decreases |docs|
  {
    if docs != [] {
      ExpandAllNothing(env, docs[1..]);
    }
  }

  lemma {:induction false} YieldsExpanded(env: Env, stages: seq<Stage>, docs: seq<Document>, out: seq<Document>)
    requires AllPerDocument(stages)
    ensures Yields(env, stages, docs, out) <==> out == ExpandAll(env, stages, docs)
    decreases |stages|
  {
    hide ExpandAll, PerDocument;
    if stages == [] {
      ExpandAllNothing(env, docs);
    } else {
      assert PerDocumentStage(stages[0]);
      var mid := Each(env, stages[0], docs);
      YieldsExpanded(env, stages[1..], mid, out);
      ExpandAllUnfold(env, stages, docs);
      assert forall m :: StageYields(env, stages[0], docs, m) <==> m == mid;
    }
  }

  // ---- documents that are expanded one to one ----

  ghost predicate Single(env: Env, stages: seq<Stage>, d: Document) {
    |Expand(env, stages, d)| == 1
  }

  ghost predicate AllSingle(env: Env, stages: seq<Stage>, docs: seq<Document>) {
    forall i :: 0 <= i < |docs| ==> Single(env, stages, docs[i])
  }

  lemma {:induction false} ExpandAllSingle(env: Env, stages: seq<Stage>, docs: seq<Document>)
    requires AllSingle(env, stages, docs)
    ensures |ExpandAll(env, stages, docs)| == |docs|
    ensures forall i :: 0 <= i < |docs| ==> ExpandAll(env, stages, docs)[i] == Expand(env, stages, docs[i])[0]
    decreases |docs|
  {
    hide Expand;
    if docs != [] {
      assert Single(env, stages, docs[0]);
      assert forall i :: 0 <= i < |docs[1..]| ==> Single(env, stages, docs[1..][i]) by {
        assert forall i :: 0 <= i < |docs[1..]| ==> docs[1..][i] == docs[i + 1];
      }
      ExpandAllSingle(env, stages, docs[1..]);
    }
  }

  /** The fields that a sort looks at are those of the original document. */
  ghost predicate KeepsKeys(env: Env, stages: seq<Stage>, spec: seq<SortKey>, d: Document) {
    forall k, e :: 0 <= k < |spec| && e in Expand(env, stages, d) ==> Field(e, spec[k].field) == Field(d, spec[k].field)
  }

  ghost predicate AllKeepKeys(env: Env, stages: seq<Stage>, spec: seq<SortKey>, docs: seq<Document>) {
    forall i :: 0 <= i < |docs| ==> KeepsKeys(env, stages, spec, docs[i])
  }

  ghost predicate SameKeys(spec: seq<SortKey>, d: Document, e: Document) {
    forall k :: 0 <= k < |spec| ==> Field(e, spec[k].field) == Field(d, spec[k].field)
  }

  lemma {:induction false} SameKeysSameOrder(env: Env, spec: seq<SortKey>, a: Document, b: Document, a': Document,
                                             b': Document)
    requires SameKeys(spec, a, a') && SameKeys(spec, b, b')
    ensures LexLess(env, spec, a, b) == LexLess(env, spec, a', b')
    decreases |spec|
  {
    if spec != [] {
      assert forall k :: 0 <= k < |spec[1..]| ==> spec[1..][k] == spec[k + 1];
      SameKeysSameOrder(env, spec[1..], a, b, a', b');
    }
  }

  lemma OrderedExpanded(env: Env, stages: seq<Stage>, spec: seq<SortKey>, docs: seq<Document>)
    requires AllSingle(env, stages, docs) && AllKeepKeys(env, stages, spec, docs)
    ensures Ordered(env, spec, docs) <==> Ordered(env, spec, ExpandAll(env, stages, docs))
  {
    hide Expand, ExpandAll, LexLess;
    ExpandAllSingle(env, stages, docs);
    var out := ExpandAll(env, stages, docs);
    forall i | 0 <= i < |docs| ensures SameKeys(spec, docs[i], out[i]) {
      assert Single(env, stages, docs[i]) && KeepsKeys(env, stages, spec, docs[i]);
      assert out[i] in Expand(env, stages, docs[i]);
    }
    forall i, j | 0 <= i < j < |docs| ensures LexLess(env, spec, docs[j], docs[i]) == LexLess(env, spec, out[j], out[i]) {
      SameKeysSameOrder(env, spec, docs[j], docs[i], out[j], out[i]);
    }
  }

  lemma AllSingleSubset(env: Env, stages: seq<Stage>, docs: seq<Document>, mid: seq<Document>)
    requires AllSingle(env, stages, docs) && forall i :: 0 <= i < |mid| ==> mid[i] in docs
    ensures AllSingle(env, stages, mid)
  {
    hide Expand;
  }

  lemma AllKeepKeysSubset(env: Env, stages: seq<Stage>, spec: seq<SortKey>, docs: seq<Document>, mid: seq<Document>)
    requires AllKeepKeys(env, stages, spec, docs) && forall i :: 0 <= i < |mid| ==> mid[i] in docs
    ensures AllKeepKeys(env, stages, spec, mid)
  {
    hide KeepsKeys;
  }

  lemma SortThenExpand(env: Env, stages: seq<Stage>, spec: seq<SortKey>, docs: seq<Document>, mid: seq<Document>)
    requires AllSingle(env, stages, docs) && AllKeepKeys(env, stages, spec, docs) && Sorts(env, spec, docs, mid)
    ensures Sorts(env, spec, ExpandAll(env, stages, docs), ExpandAll(env, stages, mid))
  {
    hide Expand, ExpandAll, Ordered, KeepsKeys, Single;
    var p, q :| Permutes(docs, mid, p, q);
    AllSingleSubset(env, stages, docs, mid);
    AllKeepKeysSubset(env, stages, spec, docs, mid);
    OrderedExpanded(env, stages, spec, mid);
    ExpandAllSingle(env, stages, docs);
    ExpandAllSingle(env, stages, mid);
    assert Permutes(ExpandAll(env, stages, docs), ExpandAll(env, stages, mid), p, q);
  }

  lemma ExpandThenSort(env: Env, stages: seq<Stage>, spec: seq<SortKey>, docs: seq<Document>, out: seq<Document>)
    returns (mid: seq<Document>)
    requires AllSingle(env, stages, docs) && AllKeepKeys(env, stages, spec, docs) && Sorts(env, spec, ExpandAll(env, stages, docs), out)
    ensures Sorts(env, spec, docs, mid) && ExpandAll(env, stages, mid) == out
  {
    hide Expand, ExpandAll, Ordered, KeepsKeys, Single;
    ExpandAllSingle(env, stages, docs);
    var p, q :| Permutes(ExpandAll(env, stages, docs), out, p, q);
    mid := seq(|p|, i requires 0 <= i < |p| => docs[p[i]]);
    assert Permutes(docs, mid, p, q);
    AllSingleSubset(env, stages, docs, mid);
    AllKeepKeysSubset(env, stages, spec, docs, mid);
    OrderedExpanded(env, stages, spec, mid);
    ExpandAllSingle(env, stages, mid);
    assert ExpandAll(env, stages, mid) == out;
  }

  lemma {:induction false} ExpandAllSlice(env: Env, stages: seq<Stage>, docs: seq<Document>, k: nat)
    requires AllSingle(env, stages, docs) && k <= |docs|
    ensures |ExpandAll(env, stages, docs)| == |docs|
    ensures ExpandAll(env, stages, docs[k..]) == ExpandAll(env, stages, docs)[k..]
    ensures ExpandAll(env, stages, docs[..k]) == ExpandAll(env, stages, docs)[..k]
  {
    hide Expand, ExpandAll, Single;
    AllSingleSubset(env, stages, docs, docs[..k]);
    ExpandAllSingle(env, stages, docs[..k]);
    ExpandAllSingle(env, stages, docs);
    ExpandAllConcat(env, stages, docs[..k], docs[k..]);
    assert docs == docs[..k] + docs[k..];
  }

  // ---- moving sort, skip and limit across the expansion ----

  predicate Moveable(st: Stage) {
    st.Sort? || st.Skip? || st.Limit?
  }

  /** Each document is expanded to exactly one, on which every sort of `moved` sees the original keys. */
  ghost predicate OneToOne(env: Env, moved: seq<Stage>, stages: seq<Stage>, docs: seq<Document>) {
    && AllSingle(env, stages, docs)
    && forall k :: 0 <= k < |moved| && moved[k].Sort? ==> AllKeepKeys(env, stages, moved[k].spec, docs)
  }

  lemma MoveableSelects(env: Env, st: Stage, docs: seq<Document>, mid: seq<Document>)
    requires Moveable(st) && StageYields(env, st, docs, mid)
    ensures forall i :: 0 <= i < |mid| ==> mid[i] in docs
  {
    hide Ordered;
  }

  lemma OneToOneRest(env: Env, moved: seq<Stage>, stages: seq<Stage>, docs: seq<Document>, mid: seq<Document>)
    requires moved != [] && OneToOne(env, moved, stages, docs) && forall i :: 0 <= i < |mid| ==> mid[i] in docs
    ensures OneToOne(env, moved[1..], stages, mid)
  {
    hide AllSingle, AllKeepKeys;
    AllSingleSubset(env, stages, docs, mid);
    forall k | 0 <= k < |moved[1..]| && moved[1..][k].Sort? ensures AllKeepKeys(env, stages, moved[1..][k].spec, mid) {
      assert moved[1..][k] == moved[k + 1];
      AllKeepKeysSubset(env, stages, moved[k + 1].spec, docs, mid);
    }
  }

  lemma {:induction false} MoveBehind(env: Env, moved: seq<Stage>, stages: seq<Stage>, docs: seq<Document>,
                                      mid: seq<Document>)
    requires forall k :: 0 <= k < |moved| ==> Moveable(moved[k])
    requires OneToOne(env, moved, stages, docs) && Yields(env, moved, docs, mid)
    ensures Yields(env, moved, ExpandAll(env, stages, docs), ExpandAll(env, stages, mid))
    decreases |moved|
  {
    hide ExpandAll, AllSingle, AllKeepKeys;
    if moved != [] {
      var st := moved[0];
      var next :| StageYields(env, st, docs, next) && Yields(env, moved[1..], next, mid);
      MoveableSelects(env, st, docs, next);
      OneToOneRest(env, moved, stages, docs, next);
      MoveBehind(env, moved[1..], stages, next, mid);
      assert StageYields(env, st, ExpandAll(env, stages, docs), ExpandAll(env, stages, next)) by {
        match st {
          case Sort(spec) => SortThenExpand(env, stages, spec, docs, next);
          case Skip(n) => ExpandAllSlice(env, stages, docs, Least(n, |docs|));
          case Limit(n) => ExpandAllSlice(env, stages, docs, Least(n, |docs|));
        }
      }
    }
  }

  lemma {:induction false} MoveBefore(env: Env, moved: seq<Stage>, stages: seq<Stage>, docs: seq<Document>,
                                      out: seq<Document>)
    returns (mid: seq<Document>)
    requires forall k :: 0 <= k < |moved| ==> Moveable(moved[k])
    requires OneToOne(env, moved, stages, docs) && Yields(env, moved, ExpandAll(env, stages, docs), out)
    ensures Yields(env, moved, docs, mid) && ExpandAll(env, stages, mid) == out
    decreases |moved|
  {
    hide ExpandAll, AllSingle, AllKeepKeys;
    if moved == [] {
      mid := docs;
    } else {
      var st := moved[0];
      var after :| StageYields(env, st, ExpandAll(env, stages, docs), after) && Yields(env, moved[1..], after, out);
      var next := MoveStageBefore(env, st, stages, docs, after);
      MoveableSelects(env, st, docs, next);
      OneToOneRest(env, moved, stages, docs, next);
      mid := MoveBefore(env, moved[1..], stages, next, out);
    }
  }

  lemma MoveStageBefore(env: Env, st: Stage, stages: seq<Stage>, docs: seq<Document>, out: seq<Document>)
    returns (mid: seq<Document>)
    requires Moveable(st) && AllSingle(env, stages, docs) && (st.Sort? ==> AllKeepKeys(env, stages, st.spec, docs))
    requires StageYields(env, st, ExpandAll(env, stages, docs), out)
    ensures StageYields(env, st, docs, mid) && ExpandAll(env, stages, mid) == out
  {
    hide ExpandAll, AllSingle, AllKeepKeys;
    match st {
      case Sort(spec) => mid := ExpandThenSort(env, stages, spec, docs, out);
      case Skip(n) =>
        ExpandAllSlice(env, stages, docs, Least(n, |docs|));
        mid := docs[Least(n, |docs|)..];
      case Limit(n) =>
        ExpandAllSlice(env, stages, docs, Least(n, |docs|));
        mid := docs[..Least(n, |docs|)];
    }
  }

  /** Sort, skip and limit before stages that keep one document per document give exactly the possible
      results they give after them. */
  lemma MovedEquivalently(env: Env, moved: seq<Stage>, stages: seq<Stage>, docs: seq<Document>, out: seq<Document>)
    requires (forall k :: 0 <= k < |moved| ==> Moveable(moved[k])) && AllPerDocument(stages)
    requires OneToOne(env, moved, stages, docs)
    ensures Yields(env, moved + stages, docs, out) <==> Yields(env, stages + moved, docs, out)
  {
    hide ExpandAll, OneToOne, AllPerDocument;
    if Yields(env, moved + stages, docs, out) {
      var mid := YieldsSplit(env, moved, stages, docs, out);
      YieldsExpanded(env, stages, mid, out);
      MoveBehind(env, moved, stages, docs, mid);
      YieldsExpanded(env, stages, docs, ExpandAll(env, stages, docs));
      YieldsJoin(env, stages, moved, docs, ExpandAll(env, stages, docs), out);
    }
    if Yields(env, stages + moved, docs, out) {
      var all := YieldsSplit(env, stages, moved, docs, out);
      YieldsExpanded(env, stages, docs, all);
      var mid := MoveBefore(env, moved, stages, docs, out);
      YieldsExpanded(env, stages, mid, out);
      YieldsJoin(env, moved, stages, docs, mid, out);
    }
  }

  // ---- what the sort object keeps of a sort ----

  predicate Mentions(key: SortKey, field: string) {
    FieldName(key.field) == field
  }

  /** The first entry about a field, or the length when there is none. */
  function FirstAt(sort: seq<SortKey>, field: string): (n: nat)
    ensures n <= |sort| && (n < |sort| ==> Mentions(sort[n], field))
    ensures forall i :: 0 <= i < n ==> !Mentions(sort[i], field)
  {
    if sort == [] then 0
    else
      var n := FirstAt(sort[..|sort| - 1], field);
      if n < |sort| - 1 || Mentions(sort[|sort| - 1], field) then n else |sort|
  }

  /** The direction that the last entry about a field gives. */
  function LastDirection(sort: seq<SortKey>, field: string): Option<bool> {
    if sort == [] then None
    else if Mentions(sort[|sort| - 1], field) then Some(sort[|sort| - 1].ascending)
    else LastDirection(sort[..|sort| - 1], field)
  }

  predicate HasKey(spec: seq<SortKey>, field: string) {
    exists k :: 0 <= k < |spec| && spec[k].field == field
  }

  predicate KeysDistinct(spec: seq<SortKey>) {
    forall i, j :: 0 <= i < j < |spec| ==> spec[i].field != spec[j].field
  }

  ghost predicate KeysAre(sort: seq<SortKey>, spec: seq<SortKey>) {
    forall field :: HasKey(spec, field) <==> FirstAt(sort, field) < |sort|
  }

  predicate LastDirections(sort: seq<SortKey>, spec: seq<SortKey>) {
    forall k :: 0 <= k < |spec| ==> LastDirection(sort, spec[k].field) == Some(spec[k].ascending)
  }

  predicate FirstPlaces(sort: seq<SortKey>, spec: seq<SortKey>) {
    forall i, j :: 0 <= i < j < |spec| ==> FirstAt(sort, spec[i].field) < FirstAt(sort, spec[j].field)
  }

  /** What one more entry does to the keys. */
  ghost predicate OneMore(before: seq<SortKey>, after: seq<SortKey>, field: string, ascending: bool) {
    && |after| == |before| + (if HasKey(before, field) then 0 else 1)
    && (!HasKey(before, field) ==> after[|before|] == SortKey(field, ascending))
    && (forall k :: 0 <= k < |before| ==>
          after[k] == if before[k].field == field then SortKey(field, ascending) else before[k])
  }

  lemma {:induction false} SetKeyKeepsPlaces(spec: seq<SortKey>, field: string, ascending: bool)
    requires KeysDistinct(spec)
    ensures OneMore(spec, SetKey(spec, field, ascending), field, ascending)
  {
    if spec == [] {
    } else if spec[0].field == field {
      assert HasKey(spec, field);
    } else {
      var rest := spec[1..];
      SetKeyKeepsPlaces(rest, field, ascending);
      assert forall k :: 1 <= k < |spec| ==> spec[k] == rest[k - 1];
      assert HasKey(spec, field) <==> HasKey(rest, field);
      var after, shorter := SetKey(spec, field, ascending), SetKey(rest, field, ascending);
      assert after == [spec[0]] + shorter;
      forall k | 1 <= k < |spec| ensures after[k] == if spec[k].field == field then SortKey(field, ascending) else spec[k] {
        assert after[k] == shorter[k - 1];
      }
    }
  }

  lemma OneMoreKey(before: seq<SortKey>, after: seq<SortKey>, field: string, ascending: bool, other: string)
    requires OneMore(before, after, field, ascending)
    ensures HasKey(after, other) <==> HasKey(before, other) || other == field
  {
    if HasKey(before, other) {
      var k :| 0 <= k < |before| && before[k].field == other;
      assert after[k].field == other;
    } else if other == field {
      assert after[|before|].field == other;
    }
  }

  lemma MoreKeys(sort: seq<SortKey>, before: seq<SortKey>, after: seq<SortKey>)
    requires sort != [] && KeysAre(sort[..|sort| - 1], before)
    requires OneMore(before, after, FieldName(sort[|sort| - 1].field), sort[|sort| - 1].ascending)
    ensures KeysAre(sort, after)
  {
    hide FieldName, HasKey, OneMore;
    forall field ensures HasKey(after, field) <==> FirstAt(sort, field) < |sort| {
      OneMoreKey(before, after, FieldName(sort[|sort| - 1].field), sort[|sort| - 1].ascending, field);
    }
  }

  lemma MoreDirections(sort: seq<SortKey>, before: seq<SortKey>, after: seq<SortKey>)
    requires sort != [] && LastDirections(sort[..|sort| - 1], before)
    requires OneMore(before, after, FieldName(sort[|sort| - 1].field), sort[|sort| - 1].ascending)
    ensures LastDirections(sort, after)
  {
    hide FieldName, HasKey;
    var last := sort[|sort| - 1];
    forall k | 0 <= k < |after| ensures LastDirection(sort, after[k].field) == Some(after[k].ascending) {
      if after[k].field != FieldName(last.field) {
        assert after[k] == before[k];
      }
    }
  }

  lemma MorePlaces(sort: seq<SortKey>, before: seq<SortKey>, after: seq<SortKey>)
    requires sort != [] && FirstPlaces(sort[..|sort| - 1], before) && KeysAre(sort[..|sort| - 1], before)
    requires OneMore(before, after, FieldName(sort[|sort| - 1].field), sort[|sort| - 1].ascending)
    ensures FirstPlaces(sort, after)
  {
    hide FieldName;
    var init := sort[..|sort| - 1];
    forall k | 0 <= k < |before|
      ensures after[k].field == before[k].field && FirstAt(sort, after[k].field) == FirstAt(init, before[k].field) < |init|
    {
      assert HasKey(before, before[k].field);
    }
  }

  /** Exactly the mentioned fields are sorted by, each once, in the order of their first mention and in the
      direction of their last. */
  lemma {:induction false} SortSpecMeaning(sort: seq<SortKey>)
    ensures KeysAre(sort, SortSpec(sort)) && KeysDistinct(SortSpec(sort))
    ensures FirstPlaces(sort, SortSpec(sort)) && LastDirections(sort, SortSpec(sort))
  {
    hide FieldName, HasKey, FirstAt, LastDirection;
    if sort == [] {
      NothingSorted();
    } else {
      var init, last := sort[..|sort| - 1], sort[|sort| - 1];
      SortSpecMeaning(init);
      SetKeyKeepsPlaces(SortSpec(init), FieldName(last.field), last.ascending);
      MoreKeys(sort, SortSpec(init), SortSpec(sort));
      MoreDirections(sort, SortSpec(init), SortSpec(sort));
      MorePlaces(sort, SortSpec(init), SortSpec(sort));
      PlacesAreDistinct(sort, SortSpec(sort));
    }
  }

  lemma PlacesAreDistinct(sort: seq<SortKey>, spec: seq<SortKey>)
    requires FirstPlaces(sort, spec)
    ensures KeysDistinct(spec)
  {
    hide FirstAt;
    forall i, j | 0 <= i < j < |spec| ensures spec[i].field != spec[j].field {
      assert FirstAt(sort, spec[i].field) < FirstAt(sort, spec[j].field);
    }
  }

  lemma NothingSorted()
    ensures KeysAre([], []) && FirstPlaces([], []) && LastDirections([], []) && KeysDistinct([])
  {
  }

  lemma {:induction false} AfterLastDot(prefix: string, name: string)
    requires '.' !in name
    ensures AfterDots(name) == name && AfterDots(prefix + "." + name) == name
  {
    var field := prefix + "." + name;
    if prefix == "" {
      assert field == "." + name && field[0] == '.' && field[1..] == name;
    } else {
      AfterLastDot(prefix[1..], name);
      assert field[|prefix|] == '.' && field[1..] == prefix[1..] + "." + name;
    }
  }

  /** A sort names a field by the text behind its last dot, and `id` means `_id`. */
  lemma FieldNameIs(prefix: string, name: string)
    requires '.' !in name
    ensures FieldName(name) == FieldName(prefix + "." + name) == if name == "id" then "_id" else name
  {
    AfterLastDot(prefix, name);
  }
}
