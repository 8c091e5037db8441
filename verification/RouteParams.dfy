/** What the parameter record holds after a successful lookup: the search binds and deletes names in one
    shared record, so abandoned branches can leave traces in it. */
module RouteParams {
  import opened Prelude
  import opened RoutePaths
  import opened RouteTrie
  import opened RouteSearch

  /** The bindings of the matched path, and nothing else. */
  ghost function Bindings(t: Trie, decode: Decoder, at: seq<Key>, segs: seq<string>, keys: seq<Key>, params: Params): Params
    decreases |keys|
  {
    if keys == [] || segs == [] then params
    else
      var next := at + [keys[0]];
      var value := decode(segs[0]);
      Bindings(t, decode, next, segs[1..], keys[1..],
               if keys[0] == Par && next in t.names && value.Some? then params[t.names[next] := value.value] else params)
  }

  /** The names bound on the way from `at` along `keys`. */
  ghost function NamesOn(t: Trie, at: seq<Key>, keys: seq<Key>): set<string>
    decreases |keys|
  {
    if keys == [] then {}
    else
      var next := at + [keys[0]];
      NamesOn(t, next, keys[1..]) + (if keys[0] == Par && next in t.names then {t.names[next]} else {})
  }

  /** Net effect of a stretch of search on the record: the names it deletes, and then the `splat` it writes. */
  datatype Residue = Residue(removed: set<string>, splat: Option<string>)

  const NOTHING := Residue({}, None)

  function Leave(r: Residue, params: Params): Params {
    var kept := params - r.removed;
    if r.splat.Some? then kept["splat" := r.splat.value] else kept
  }

  /** One residue after another: the later one decides about `splat` if it writes or deletes that key. */
  function Then(a: Residue, b: Residue): Residue {
    Residue(a.removed + b.removed, if b.splat.Some? || "splat" in b.removed then b.splat else a.splat)
  }

  /** What a search that fails below `at` leaves: the static branch, the parameter branch, the parameter's name
      unbound, and the wildcard node, which writes `splat` even when it has no handler. */
  ghost function Abandoned(t: Trie, at: seq<Key>, segs: seq<string>): Residue
    requires Named(t)
    decreases |segs|
  {
    if segs == [] then NOTHING
    else
      var lit := if at + [Lit(segs[0])] in t.nodes then Abandoned(t, at + [Lit(segs[0])], segs[1..]) else NOTHING;
      var par := if at + [Par] in t.nodes
                 then Then(Abandoned(t, at + [Par], segs[1..]), Residue({t.names[at + [Par]]}, None)) else NOTHING;
      Then(Then(lit, par), if at + [Wild] in t.nodes then Residue({}, Some(Join(segs))) else NOTHING)
  }

  ghost predicate NoWildcard(t: Trie) {
    forall p :: p in t.nodes ==> Wild !in p
  }

  lemma ThenLeaves(a: Residue, b: Residue, params: Params)
    ensures Leave(Then(a, b), params) == Leave(b, Leave(a, params))
  {
    var both, one := Leave(Then(a, b), params), Leave(b, Leave(a, params));
    forall x ensures (x in both <==> x in one) && (x in both ==> both[x] == one[x]) {
    }
  }

  lemma NothingLeaves(r: Residue, params: Params)
    ensures Leave(NOTHING, params) == params && Then(r, NOTHING) == r && Then(NOTHING, r) == r
  {
    assert params - {} == params;
    assert r.removed + {} == r.removed == {} + r.removed;
  }

  /** A name bound before a residue and unbound after it leaves no trace but its absence. */
  lemma BindingVanishes(r: Residue, name: string, value: string, params: Params)
    ensures Leave(r, params[name := value]) - {name} == Leave(Then(r, Residue({name}, None)), params)
  {
    var u := Residue({name}, None);
    ThenLeaves(r, u, params);
    var without, other := Leave(r, params[name := value]) - {name}, Leave(r, params) - {name};
    forall x ensures (x in without <==> x in other) && (x in without ==> without[x] == other[x]) {
    }
  }

  lemma WildcardLeaves(t: Trie, at: seq<Key>, segs: seq<string>, r: Residue, params: Params)
    ensures var wild := if at + [Wild] in t.nodes then Residue({}, Some(Join(segs))) else NOTHING;
            AtWildcard(t, at, segs, Leave(r, params)).params == Leave(Then(r, wild), params)
  {
    var wild := if at + [Wild] in t.nodes then Residue({}, Some(Join(segs))) else NOTHING;
    ThenLeaves(r, wild, params);
    assert Leave(r, params) - {} == Leave(r, params);
  }

  lemma {:induction false} FailedSearchLeaves(t: Trie, decode: Decoder, at: seq<Key>, segs: seq<string>, params: Params)
    requires Named(t) && Seek(t, decode, at, segs).Miss?
    ensures Search(t, decode, at, segs, params).params == Leave(Abandoned(t, at, segs), params)
    decreases |segs|
  {
    hide Leave, Then;
    if segs == [] {
      NothingLeaves(NOTHING, params);
    } else {
      var lit, par := at + [Lit(segs[0])], at + [Par];
      var l := Sibling(t, at, segs);
      if lit in t.nodes {
        SearchOutcome(t, decode, lit, segs[1..], params);
        FailedSearchLeaves(t, decode, lit, segs[1..], params);
      } else {
        NothingLeaves(NOTHING, params);
      }
      if par in t.nodes {
        var p, name, value := Abandoned(t, par, segs[1..]), t.names[par], decode(segs[0]).value;
        var left := Leave(l, params);
        SearchOutcome(t, decode, par, segs[1..], left[name := value]);
        FailedSearchLeaves(t, decode, par, segs[1..], left[name := value]);
        BindingVanishes(p, name, value, left);
        ThenLeaves(l, Then(p, Residue({name}, None)), params);
        WildcardLeaves(t, at, segs, Then(l, Then(p, Residue({name}, None))), params);
      } else {
        NothingLeaves(l, params);
        WildcardLeaves(t, at, segs, l, params);
      }
    }
  }

  /** The record along a successful search: bindings of the path, interleaved with the residues of the
      static siblings that were tried and abandoned before a parameter was taken. */
  ghost function Replay(t: Trie, decode: Decoder, at: seq<Key>, segs: seq<string>, keys: seq<Key>, params: Params): Params
    requires Named(t)
    decreases |keys|
  {
    if keys == [] || segs == [] then params
    else
      var next := at + [keys[0]];
      var value := decode(segs[0]);
      Replay(t, decode, next, segs[1..], keys[1..],
             if keys[0] == Par && next in t.names && value.Some?
             then Leave(Sibling(t, at, segs), params)[t.names[next] := value.value] else params)
  }

  ghost function Sibling(t: Trie, at: seq<Key>, segs: seq<string>): Residue
    requires Named(t) && segs != []
  {
    if at + [Lit(segs[0])] in t.nodes then Abandoned(t, at + [Lit(segs[0])], segs[1..]) else NOTHING
  }

  lemma {:induction false} SuccessfulSearchReplays(t: Trie, decode: Decoder, at: seq<Key>, segs: seq<string>, params: Params)
    requires WellFormed(t)
    requires Seek(t, decode, at, segs).Hit?
    ensures Search(t, decode, at, segs, params).params
         == Replay(t, decode, at, segs, Seek(t, decode, at, segs).rest, params)
    decreases |segs|
  {
    hide Leave, Then;
    if segs != [] {
      var lit := at + [Lit(segs[0])];
      var o := Seek(t, decode, at, segs);
      assert (at + [Wild])[|at|] == Wild;
      if lit in t.nodes && Seek(t, decode, lit, segs[1..]).Hit? {
        SearchOutcome(t, decode, lit, segs[1..], params);
        SuccessfulSearchReplays(t, decode, lit, segs[1..], params);
        assert o.rest[1..] == Seek(t, decode, lit, segs[1..]).rest;
      } else {
        if lit in t.nodes {
          SearchOutcome(t, decode, lit, segs[1..], params);
          FailedSearchLeaves(t, decode, lit, segs[1..], params);
        } else {
          NothingLeaves(NOTHING, params);
        }
        var bound := Leave(Sibling(t, at, segs), params)[t.names[at + [Par]] := decode(segs[0]).value];
        SearchOutcome(t, decode, at + [Par], segs[1..], bound);
        SuccessfulSearchReplays(t, decode, at + [Par], segs[1..], bound);
        assert o.rest[1..] == Seek(t, decode, at + [Par], segs[1..]).rest;
      }
    }
  }

  // ---- the record is the bindings, with one residue on top ----

  /** A residue without its effect on names that are bound afterwards. */
  function Mask(r: Residue, names: set<string>): Residue {
    Residue(r.removed - names, if "splat" in names then None else r.splat)
  }

  /** What the abandoned siblings of the path do to names that the path does not bind again. */
  ghost function Disturbance(t: Trie, at: seq<Key>, segs: seq<string>, keys: seq<Key>): Residue
    requires Named(t)
    decreases |keys|
  {
    if keys == [] || segs == [] then NOTHING
    else
      var next := at + [keys[0]];
      var later := Disturbance(t, next, segs[1..], keys[1..]);
      if keys[0] == Par && next in t.names then Then(Mask(Sibling(t, at, segs), NamesOn(t, at, keys)), later) else later
  }

  ghost predicate DecodesParams(decode: Decoder, segs: seq<string>, keys: seq<Key>) {
    |keys| == |segs| && forall i :: 0 <= i < |keys| && keys[i] == Par ==> decode(segs[i]).Some?
  }

  lemma DecodesRest(decode: Decoder, segs: seq<string>, keys: seq<Key>)
    requires keys != [] && DecodesParams(decode, segs, keys)
    ensures DecodesParams(decode, segs[1..], keys[1..])
  {
    assert forall i :: 0 <= i < |keys| - 1 ==> keys[1..][i] == keys[i + 1] && segs[1..][i] == segs[i + 1];
  }

  lemma BindOver(r: Residue, params: Params, name: string, value: string)
    ensures Leave(r, params)[name := value] == Leave(Mask(r, {name}), params[name := value])
  {
    var one, other := Leave(r, params)[name := value], Leave(Mask(r, {name}), params[name := value]);
    forall x ensures (x in one <==> x in other) && (x in one ==> one[x] == other[x]) {
    }
  }

  lemma MaskTwice(r: Residue, a: set<string>, b: set<string>)
    ensures Mask(Mask(r, a), b) == Mask(r, b + a) && Mask(r, {}) == r
  {
    assert r.removed - a - b == r.removed - (b + a);
    assert r.removed - {} == r.removed;
  }

  /** Bindings made after a residue undo what it did to their names and nothing else. */
  lemma {:induction false} BindingsOver(t: Trie, decode: Decoder, at: seq<Key>, segs: seq<string>, keys: seq<Key>,
                                        r: Residue, params: Params)
    requires DecodesParams(decode, segs, keys)
    ensures Bindings(t, decode, at, segs, keys, Leave(r, params))
         == Leave(Mask(r, NamesOn(t, at, keys)), Bindings(t, decode, at, segs, keys, params))
    decreases |keys|
  {
    hide Leave, Mask;
    if keys == [] {
      MaskTwice(r, {}, {});
    } else {
      var next := at + [keys[0]];
      DecodesRest(decode, segs, keys);
      if keys[0] == Par && next in t.names {
        var name, value := t.names[next], decode(segs[0]).value;
        BindOver(r, params, name, value);
        MaskTwice(r, {name}, NamesOn(t, next, keys[1..]));
        BindingsOver(t, decode, next, segs[1..], keys[1..], Mask(r, {name}), params[name := value]);
      } else {
        assert NamesOn(t, at, keys) == NamesOn(t, next, keys[1..]);
        BindingsOver(t, decode, next, segs[1..], keys[1..], r, params);
      }
    }
  }

  lemma {:induction false} ReplayIsDisturbedBindings(t: Trie, decode: Decoder, at: seq<Key>, segs: seq<string>,
                                                     keys: seq<Key>, params: Params)
    requires Named(t) && DecodesParams(decode, segs, keys)
    ensures Replay(t, decode, at, segs, keys, params)
         == Leave(Disturbance(t, at, segs, keys), Bindings(t, decode, at, segs, keys, params))
    decreases |keys|
  {
    hide Leave, Mask, Then, Sibling;
    if keys == [] {
      NothingLeaves(NOTHING, params);
    } else {
      var next := at + [keys[0]];
      DecodesRest(decode, segs, keys);
      if keys[0] == Par && next in t.names {
        var r, name, value := Sibling(t, at, segs), t.names[next], decode(segs[0]).value;
        ReplayIsDisturbedBindings(t, decode, next, segs[1..], keys[1..], Leave(r, params)[name := value]);
        BindOver(r, params, name, value);
        BindingsOver(t, decode, next, segs[1..], keys[1..], Mask(r, {name}), params[name := value]);
        MaskTwice(r, {name}, NamesOn(t, next, keys[1..]));
        ThenLeaves(Mask(r, NamesOn(t, at, keys)), Disturbance(t, next, segs[1..], keys[1..]),
                   Bindings(t, decode, next, segs[1..], keys[1..], params[name := value]));
      } else {
        ReplayIsDisturbedBindings(t, decode, next, segs[1..], keys[1..], params);
      }
    }
  }

  lemma {:induction false} HitsAreDecoded(t: Trie, decode: Decoder, at: seq<Key>, segs: seq<string>)
    requires WellFormed(t) && Seek(t, decode, at, segs).Hit?
    ensures DecodesParams(decode, segs, Seek(t, decode, at, segs).rest)
    decreases |segs|
  {
    if segs != [] {
      var lit := at + [Lit(segs[0])];
      assert (at + [Wild])[|at|] == Wild;
      if lit in t.nodes && Seek(t, decode, lit, segs[1..]).Hit? {
        HitsAreDecoded(t, decode, lit, segs[1..]);
      } else {
        HitsAreDecoded(t, decode, at + [Par], segs[1..]);
      }
    }
  }

  /** No bound name is removed for good, and a `splat` that is left behind happens to be the one bound. */
  predicate Harmless(r: Residue, bindings: Params) {
    && r.removed * bindings.Keys <= (if r.splat.Some? then {"splat"} else {})
    && (r.splat.Some? ==> "splat" in bindings && bindings["splat"] == r.splat.value)
  }

  lemma HarmlessIff(r: Residue, bindings: Params)
    ensures Leave(r, bindings) == bindings <==> Harmless(r, bindings)
  {
    var after := Leave(r, bindings);
    if after == bindings {
      forall x | x in r.removed * bindings.Keys ensures r.splat.Some? && x == "splat" {
        assert x in after;
      }
      if r.splat.Some? {
        assert "splat" in after;
      }
    }
    if Harmless(r, bindings) {
      forall x ensures (x in after <==> x in bindings) && (x in after ==> after[x] == bindings[x]) {
      }
      assert after == bindings;
    }
  }

  /** The record of a lookup that succeeds is the bindings of the matched path with the disturbance of the abandoned
      branches on top, so it is exactly the bindings if and only if that is harmless; and whatever it is, only
      `splat` can be wrong or stray, while any name can be missing. */
  lemma ParamsAreBindings(t: Trie, decode: Decoder, segs: seq<string>)
    requires WellFormed(t) && Seek(t, decode, [], segs).Hit?
    ensures var keys := Seek(t, decode, [], segs).rest;
            var actual := Search(t, decode, [], segs, map[]).params;
            var intended := Bindings(t, decode, [], segs, keys, map[]);
            && actual == Leave(Disturbance(t, [], segs, keys), intended)
            && (actual == intended <==> Harmless(Disturbance(t, [], segs, keys), intended))
            && forall x :: x in actual && x != "splat" ==> x in intended && actual[x] == intended[x]
  {
    hide Disturbance, Replay, Bindings;
    var keys := Seek(t, decode, [], segs).rest;
    var empty: Params := map[];
    HitsAreDecoded(t, decode, [], segs);
    SuccessfulSearchReplays(t, decode, [], segs, empty);
    ReplayIsDisturbedBindings(t, decode, [], segs, keys, empty);
    HarmlessIff(Disturbance(t, [], segs, keys), Bindings(t, decode, [], segs, keys, empty));
  }

  // ---- a condition on the route list alone ----

  /** Along every path of the trie the parameter names differ. */
  ghost predicate DistinctNames(t: Trie) {
    forall p, q :: p in t.names && q in t.names && p < q ==> t.names[p] != t.names[q]
  }

  lemma {:induction false} RemovedAreNamesBelow(t: Trie, at: seq<Key>, segs: seq<string>)
    requires Named(t)
    ensures forall x :: x in Abandoned(t, at, segs).removed ==> exists p :: p in t.names && t.names[p] == x && at < p
    decreases |segs|
  {
    if segs != [] {
      var lit, par := at + [Lit(segs[0])], at + [Par];
      RemovedAreNamesBelow(t, lit, segs[1..]);
      RemovedAreNamesBelow(t, par, segs[1..]);
      forall x | x in Abandoned(t, at, segs).removed
        ensures exists p :: p in t.names && t.names[p] == x && at < p
      {
        if par in t.nodes && x == t.names[par] {
          assert at < par;
        } else if lit in t.nodes && x in Abandoned(t, lit, segs[1..]).removed {
          var p :| p in t.names && t.names[p] == x && lit < p;
          assert at < p;
        } else if par in t.nodes && x in Abandoned(t, par, segs[1..]).removed {
          var p :| p in t.names && t.names[p] == x && par < p;
          assert at < p;
        }
      }
    }
  }

  lemma {:induction false} NoWildcardNoSplat(t: Trie, at: seq<Key>, segs: seq<string>)
    requires Named(t) && NoWildcard(t)
    ensures Abandoned(t, at, segs).splat.None?
    decreases |segs|
  {
    if segs != [] {
      NoWildcardNoSplat(t, at + [Lit(segs[0])], segs[1..]);
      NoWildcardNoSplat(t, at + [Par], segs[1..]);
      assert (at + [Wild])[|at|] == Wild;
    }
  }

  ghost predicate NamedAbove(t: Trie, at: seq<Key>, x: string) {
    exists p :: p in t.names && t.names[p] == x && p <= at
  }

  lemma SiblingSparesNamesAbove(t: Trie, at: seq<Key>, segs: seq<string>, x: string)
    requires WellFormed(t) && DistinctNames(t) && segs != [] && NamedAbove(t, at, x)
    ensures x !in Sibling(t, at, segs).removed
  {
    RemovedAreNamesBelow(t, at + [Lit(segs[0])], segs[1..]);
    var p :| p in t.names && t.names[p] == x && p <= at;
    forall q | q in t.names && at + [Lit(segs[0])] < q ensures t.names[q] != x {
      assert p < q;
    }
  }

  lemma NamedAboveNext(t: Trie, at: seq<Key>, k: Key, x: string)
    requires NamedAbove(t, at, x) || (at + [k] in t.names && t.names[at + [k]] == x)
    ensures NamedAbove(t, at + [k], x)
  {
    if NamedAbove(t, at, x) {
      var p :| p in t.names && t.names[p] == x && p <= at;
      assert p <= at + [k];
    }
  }

  /** The abandoned branches remove none of the names bound before or on the path. */
  lemma {:induction false} DistinctIsHarmless(t: Trie, at: seq<Key>, segs: seq<string>, keys: seq<Key>, bound: set<string>)
    requires WellFormed(t) && NoWildcard(t) && DistinctNames(t)
    requires forall x :: x in bound ==> NamedAbove(t, at, x)
    ensures var d := Disturbance(t, at, segs, keys);
            d.splat.None? && d.removed !! bound + NamesOn(t, at, keys)
    decreases |keys|
  {
    hide NamedAbove, DistinctNames, WellFormed, NoWildcard;
    if keys != [] && segs != [] {
      var next := at + [keys[0]];
      var bound' := if keys[0] == Par && next in t.names then bound + {t.names[next]} else bound;
      assert Named(t) by { WellFormedIsNamed(t); }
      forall x | x in bound' ensures NamedAbove(t, next, x) {
        NamedAboveNext(t, at, keys[0], x);
      }
      DistinctIsHarmless(t, next, segs[1..], keys[1..], bound');
      NoWildcardNoSplat(t, at + [Lit(segs[0])], segs[1..]);
      forall x | x in bound ensures x !in Sibling(t, at, segs).removed {
        SiblingSparesNamesAbove(t, at, segs, x);
      }
      assert bound' + NamesOn(t, next, keys[1..]) == bound + NamesOn(t, at, keys);
    }
  }

  lemma WellFormedIsNamed(t: Trie)
    requires WellFormed(t)
    ensures Named(t)
  {
  }

  lemma {:induction false} BindingsBindNames(t: Trie, decode: Decoder, at: seq<Key>, segs: seq<string>, keys: seq<Key>,
                                             params: Params)
    ensures Bindings(t, decode, at, segs, keys, params).Keys <= params.Keys + NamesOn(t, at, keys)
    decreases |keys|
  {
    if keys != [] && segs != [] {
      var next, value := at + [keys[0]], decode(segs[0]);
      BindingsBindNames(t, decode, next, segs[1..], keys[1..],
                        if keys[0] == Par && next in t.names && value.Some? then params[t.names[next] := value.value] else params);
    }
  }

  /** Without wildcard routes and with distinct parameter names along each path, no lookup is disturbed. */
  lemma DistinctNamesSuffice(t: Trie, decode: Decoder, segs: seq<string>)
    requires WellFormed(t) && NoWildcard(t) && DistinctNames(t)
    requires Seek(t, decode, [], segs).Hit?
    ensures Search(t, decode, [], segs, map[]).params
         == Bindings(t, decode, [], segs, Seek(t, decode, [], segs).rest, map[])
  {
    var keys, empty: Params := Seek(t, decode, [], segs).rest, map[];
    DistinctIsHarmless(t, [], segs, keys, {});
    BindingsBindNames(t, decode, [], segs, keys, empty);
    ParamsAreBindings(t, decode, segs);
  }

  // ---- routes for which the record is not the bindings ----

  lemma BuildTwo(a: Entry, b: Entry)
    ensures Build([a, b]) == Walk(Walk(EMPTY, [], a.segments, a.route), [], b.segments, b.route)
  {
    assert [a, b][..1] == [a] && [a][..0] == [] && Build([]) == EMPTY;
    assert Build([a]) == Walk(EMPTY, [], a.segments, a.route);
  }

  /** One step of the insertion loop that is not the last. */
  lemma WalkStep(t: Trie, at: seq<Key>, seg: string, rest: seq<string>, route: Route)
    requires rest != [] && KeyOf(seg) != Wild
    ensures var next := at + [KeyOf(seg)];
            Walk(t, at, [seg] + rest, route) == Walk(Touch(t, next, seg), next, rest, route)
  {
    assert ([seg] + rest)[1..] == rest;
  }

  lemma SearchLit(t: Trie, decode: Decoder, at: seq<Key>, seg: string, rest: seq<string>, params: Params,
                  keys: seq<Key>, after: Params)
    requires Named(t) && at + [Lit(seg)] in t.nodes
    requires Search(t, decode, at + [Lit(seg)], rest, params) == Found(Hit(keys), after)
    ensures Search(t, decode, at, [seg] + rest, params) == Found(Hit([Lit(seg)] + keys), after)
  {
    assert ([seg] + rest)[1..] == rest;
  }

  lemma SearchPar(t: Trie, decode: Decoder, at: seq<Key>, seg: string, rest: seq<string>, params: Params,
                  left: Params, keys: seq<Key>, after: Params)
    requires Named(t) && at + [Par] in t.nodes && decode(seg).Some?
    requires if at + [Lit(seg)] in t.nodes then Search(t, decode, at + [Lit(seg)], rest, params) == Found(Miss, left)
             else left == params
    requires Search(t, decode, at + [Par], rest, left[t.names[at + [Par]] := decode(seg).value]) == Found(Hit(keys), after)
    ensures Search(t, decode, at, [seg] + rest, params) == Found(Hit([Par] + keys), after)
  {
    assert ([seg] + rest)[1..] == rest;
  }

  lemma SearchWild(t: Trie, decode: Decoder, at: seq<Key>, seg: string, rest: seq<string>, params: Params)
    requires Named(t) && at + [Lit(seg)] !in t.nodes && at + [Par] !in t.nodes
    requires at + [Wild] in t.nodes && at + [Wild] !in t.handlers
    ensures Search(t, decode, at, [seg] + rest, params) == Found(Miss, params["splat" := Join([seg] + rest)])
  {
  }

  const STRAY := Trie({[], [Lit("a")], [Lit("a"), Wild], [Par], [Par, Lit("b")]}, map[[Par] := "x"], map[])

  lemma StrayIsBuilt(a: Route, b: Route)
    ensures Build([Entry(["a", "*"], a), Entry([":x", "b"], b)]) == STRAY.(handlers := map[[Par, Lit("b")] := b])
  {
    BuildTwo(Entry(["a", "*"], a), Entry([":x", "b"], b));
    WalkStep(EMPTY, [], "a", ["*"], a);
    var t := Trie({[], [Lit("a")], [Lit("a"), Wild]}, map[], map[]);
    assert Walk(EMPTY, [], ["a", "*"], a) == t by {
      assert [] + [Lit("a")] == [Lit("a")] && [Lit("a")] + [Wild] == [Lit("a"), Wild];
    }
    WalkStep(t, [], ":x", ["b"], b);
    assert ":x"[1..] == "x" && [] + [Par] == [Par] && [Par] + [Lit("b")] == [Par, Lit("b")];
  }

  lemma StraySearch(t: Trie, decode: Decoder)
    requires t.nodes == STRAY.nodes && t.names == STRAY.names && t.handlers.Keys == {[Par, Lit("b")]}
    requires decode("a").Some?
    ensures Search(t, decode, [], ["a", "b"], map[])
         == Found(Hit([Par, Lit("b")]), map["x" := decode("a").value, "splat" := Join(["b"])])
  {
    hide Search;
    var lit, par := [] + [Lit("a")], [] + [Par];
    var left: Params := map["splat" := Join(["b"])];
    assert lit == [Lit("a")] && par == [Par] && par + [Lit("b")] == [Par, Lit("b")];
    assert lit + [Lit("b")] == [Lit("a"), Lit("b")] && lit + [Par] == [Lit("a"), Par] && lit + [Wild] == [Lit("a"), Wild];
    assert ["b"] + [] == ["b"] && [Lit("b")] + [] == [Lit("b")] && ["a"] + ["b"] == ["a", "b"] && [Par] + [Lit("b")] == [Par, Lit("b")];
    SearchWild(t, decode, lit, "b", [], map[]);
    var after := left["x" := decode("a").value];
    SearchEnds(t, decode, par + [Lit("b")], after);
    SearchLit(t, decode, par, "b", [], after, [], after);
    SearchPar(t, decode, [], "a", ["b"], map[], left, [Lit("b")], after);
  }

  lemma SearchEnds(t: Trie, decode: Decoder, at: seq<Key>, params: Params)
    requires Named(t) && at in t.handlers
    ensures Search(t, decode, at, [], params) == Found(Hit([]), params)
  {
  }

  /** A wildcard route, which itself never matches, still writes `splat` into the parameters of another route. */
  lemma StraySplat(a: Route, b: Route, decode: Decoder)
    requires decode("a").Some?
    ensures var t := Build([Entry(["a", "*"], a), Entry([":x", "b"], b)]);
            && WellFormed(t)
            && Search(t, decode, [], ["a", "b"], map[])
               == Found(Hit([Par, Lit("b")]), map["x" := decode("a").value, "splat" := Join(["b"])])
            && Bindings(t, decode, [], ["a", "b"], [Par, Lit("b")], map[]) == map["x" := decode("a").value]
  {
    hide Search, Walk;
    var t := STRAY.(handlers := map[[Par, Lit("b")] := b]);
    StrayIsBuilt(a, b);
    BuildWellFormed([Entry(["a", "*"], a), Entry([":x", "b"], b)]);
    StraySearch(t, decode);
    assert ["a", "b"][1..] == ["b"] && [Par, Lit("b")][1..] == [Lit("b")] && [] + [Par] == [Par];
    var one: Params := map["x" := decode("a").value];
    assert Bindings(t, decode, [Par], ["b"], [Lit("b")], one) == one;
  }

  const WRONG := Trie({[], [Par], [Par, Lit("a")], [Par, Lit("a"), Wild], [Par, Par], [Par, Par, Lit("b")]},
                      map[[Par] := "splat", [Par, Par] := "y"], map[])

  lemma WrongIsBuilt(a: Route, b: Route)
    ensures Build([Entry([":splat", "a", "*"], a), Entry([":splat", ":y", "b"], b)])
         == WRONG.(handlers := map[[Par, Par, Lit("b")] := b])
  {
    hide Walk;
    BuildTwo(Entry([":splat", "a", "*"], a), Entry([":splat", ":y", "b"], b));
    WrongFirst(a);
    WrongSecond(b);
  }

  function WrongHalf(): Trie {
    Trie({[], [Par], [Par, Lit("a")], [Par, Lit("a"), Wild]}, map[[Par] := "splat"], map[])
  }

  lemma WrongFirst(a: Route)
    ensures Walk(EMPTY, [], [":splat", "a", "*"], a) == WrongHalf()
  {
    assert ":splat"[1..] == "splat" && [] + [Par] == [Par];
    var t := Trie({[], [Par]}, map[[Par] := "splat"], map[]);
    WalkStep(EMPTY, [], ":splat", ["a", "*"], a);
    WalkStep(t, [Par], "a", ["*"], a);
    assert [Par] + [Lit("a")] == [Par, Lit("a")] && [Par, Lit("a")] + [Wild] == [Par, Lit("a"), Wild];
  }

  lemma WrongSecond(b: Route)
    ensures Walk(WrongHalf(), [], [":splat", ":y", "b"], b) == WRONG.(handlers := map[[Par, Par, Lit("b")] := b])
  {
    assert ":y"[1..] == "y" && [] + [Par] == [Par];
    WalkStep(WrongHalf(), [], ":splat", [":y", "b"], b);
    WalkStep(WrongHalf(), [Par], ":y", ["b"], b);
    assert [Par] + [Par] == [Par, Par] && [Par, Par] + [Lit("b")] == [Par, Par, Lit("b")];
  }

  lemma WrongSearch(t: Trie, decode: Decoder)
    requires t.nodes == WRONG.nodes && t.names == WRONG.names && t.handlers.Keys == {[Par, Par, Lit("b")]}
    requires decode("x") == Some("x") && decode("a") == Some("a")
    ensures Search(t, decode, [], ["x", "a", "b"], map[])
         == Found(Hit([Par, Par, Lit("b")]), map["splat" := Join(["b"]), "y" := "a"])
  {
    hide Search;
    var one: Params, left: Params := map["splat" := "x"], map["splat" := Join(["b"])];
    var par := [] + [Par];
    var lit, deep := par + [Lit("a")], par + [Par];
    assert par == [Par] && lit == [Par, Lit("a")] && deep == [Par, Par] && deep + [Lit("b")] == [Par, Par, Lit("b")];
    assert [] + [Lit("x")] == [Lit("x")] && one["splat" := Join(["b"])] == left;
    assert ["b"] + [] == ["b"] && [Lit("b")] + [] == [Lit("b")] && ["a"] + ["b"] == ["a", "b"] && ["x"] + ["a", "b"] == ["x", "a", "b"];
    assert [Par] + [Lit("b")] == [Par, Lit("b")] && [Par] + [Par, Lit("b")] == [Par, Par, Lit("b")];
    assert lit + [Lit("b")] == [Par, Lit("a"), Lit("b")] && lit + [Par] == [Par, Lit("a"), Par] && lit + [Wild] == [Par, Lit("a"), Wild];
    SearchWild(t, decode, lit, "b", [], one);
    var after := left["y" := "a"];
    SearchEnds(t, decode, deep + [Lit("b")], after);
    SearchLit(t, decode, deep, "b", [], after, [], after);
    SearchPar(t, decode, par, "a", ["b"], one, left, [Lit("b")], after);
    SearchPar(t, decode, [], "x", ["a", "b"], map[], map[], [Par, Lit("b")], after);
  }

  /** A parameter that is itself called `splat` is overwritten with a wildcard's text. */
  lemma WrongSplat(a: Route, b: Route, decode: Decoder)
    requires decode("x") == Some("x") && decode("a") == Some("a")
    ensures var t := Build([Entry([":splat", "a", "*"], a), Entry([":splat", ":y", "b"], b)]);
            && WellFormed(t)
            && Search(t, decode, [], ["x", "a", "b"], map[])
               == Found(Hit([Par, Par, Lit("b")]), map["splat" := Join(["b"]), "y" := "a"])
            && Bindings(t, decode, [], ["x", "a", "b"], [Par, Par, Lit("b")], map[]) == map["splat" := "x", "y" := "a"]
  {
    hide Search, Walk, Bindings;
    var t := WRONG.(handlers := map[[Par, Par, Lit("b")] := b]);
    WrongIsBuilt(a, b);
    BuildWellFormed([Entry([":splat", "a", "*"], a), Entry([":splat", ":y", "b"], b)]);
    WrongSearch(t, decode);
    WrongBindings(t, decode);
  }

  lemma WrongBindings(t: Trie, decode: Decoder)
    requires t.names == WRONG.names && decode("x") == Some("x") && decode("a") == Some("a")
    ensures Bindings(t, decode, [], ["x", "a", "b"], [Par, Par, Lit("b")], map[]) == map["splat" := "x", "y" := "a"]
  {
    assert ["x", "a", "b"][1..] == ["a", "b"] && ["a", "b"][1..] == ["b"];
    assert [Par, Par, Lit("b")][1..] == [Par, Lit("b")] && [Par, Lit("b")][1..] == [Lit("b")];
    var par := [] + [Par];
    assert par == [Par] && par + [Par] == [Par, Par];
    var one: Params, two: Params := map["splat" := "x"], map["splat" := "x", "y" := "a"];
    assert Bindings(t, decode, par + [Par], ["b"], [Lit("b")], two) == two;
    assert Bindings(t, decode, par, ["a", "b"], [Par, Lit("b")], one) == two;
  }
}
