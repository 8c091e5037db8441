/** The mutable per-method trie, node objects and all, proved against the trie values of RouteTrie. */
module RouteEngine {
  import opened Prelude
  import opened RoutePaths
  import opened RouteTrie
  import RS = RouteSearch

  class RouteNode {
    var paramName: string
    var children: map<string, RouteNode>
    var paramChild: RouteNode?
    var wildcardChild: RouteNode?
    var handler: Option<Route>

    constructor (paramName: string)
      ensures FieldsOf(this) == Blank(paramName)
    {
      this.paramName := paramName;
      children, paramChild, wildcardChild, handler := map[], null, null, None;
    }
  }

  /** The record `find` shares with every level of the search. */
  class ParamRecord {
    var entries: RS.Params

    constructor ()
      ensures entries == map[]
    {
      entries := map[];
    }
  }

  // ---- layouts: which node object stands for which path of keys ----

  datatype Layout = Layout(nodes: map<seq<Key>, RouteNode>, objs: set<object>)

  /** The fields of a node at one moment. */
  datatype Fields = Fields(
    paramName: string, children: map<string, RouteNode>, param: RouteNode?, wildcard: RouteNode?, handler: Option<Route>)

  type Snapshot = map<seq<Key>, Fields>

  ghost function FieldsOf(n: RouteNode): Fields
    reads n
  {
    Fields(n.paramName, n.children, n.paramChild, n.wildcardChild, n.handler)
  }

  function Blank(paramName: string): Fields {
    Fields(paramName, map[], null, null, None)
  }

  function Linked(n: Fields, k: Key, child: RouteNode): Fields {
    match k
    case Lit(s) => n.(children := n.children[s := child])
    case Par => n.(param := child)
    case Wild => n.(wildcard := child)
  }

  function Extended(t: Layout, p: seq<Key>, child: RouteNode): Layout {
    Layout(t.nodes[p := child], t.objs + {child})
  }

  ghost predicate Owns(t: Layout) {
    forall p :: p in t.nodes ==> t.nodes[p] in t.objs
  }

  ghost function SnapshotOf(t: Layout): Snapshot
    reads t.objs
  {
    map p | p in t.nodes && t.nodes[p] in t.objs :: FieldsOf(t.nodes[p])
  }

  /** The links of the node at `p` lead exactly to its children in the layout. */
  ghost predicate LinksOk(t: Layout, p: seq<Key>, n: Fields) {
    && (forall s :: s in n.children <==> p + [Lit(s)] in t.nodes)
    && (forall s :: s in n.children ==> n.children[s] == t.nodes[p + [Lit(s)]])
    && n.param == (if p + [Par] in t.nodes then t.nodes[p + [Par]] else null)
    && n.wildcard == (if p + [Wild] in t.nodes then t.nodes[p + [Wild]] else null)
  }

  ghost predicate HasParent(t: Layout, p: seq<Key>, k: Key) {
    p + [k] in t.nodes ==> p in t.nodes
  }

  ghost predicate Apart(t: Layout, p: seq<Key>, q: seq<Key>) {
    p in t.nodes && q in t.nodes && t.nodes[p] == t.nodes[q] ==> p == q
  }

  ghost predicate Consistent(t: Layout, v: Snapshot) {
    && Owns(t)
    && v.Keys == t.nodes.Keys
    && [] in t.nodes
    && (forall p, k {:trigger HasParent(t, p, k)} :: HasParent(t, p, k))
    && (forall p, q {:trigger Apart(t, p, q)} :: Apart(t, p, q))
    && (forall p {:trigger LinksOk(t, p, v[p])} :: p in t.nodes ==> LinksOk(t, p, v[p]))
  }

  ghost predicate LayoutValid(t: Layout)
    reads t.objs
  {
    Consistent(t, SnapshotOf(t))
  }

  ghost function TrieOf(v: Snapshot): (r: Trie)
    ensures RS.Named(r)
  {
    Trie(v.Keys,
         map p | p in v && EndsInParam(p) :: v[p].paramName,
         map p | p in v && v[p].handler.Some? :: v[p].handler.value)
  }

  /** The trie value a layout of nodes represents. */
  ghost function Denotes(t: Layout): (r: Trie)
    reads t.objs
    ensures RS.Named(r)
  {
    TrieOf(SnapshotOf(t))
  }

  // ---- lemmas about layouts ----

  lemma SnocInjective(p: seq<Key>, q: seq<Key>, a: Key, b: Key)
    requires p + [a] == q + [b]
    ensures p == q && a == b
  {
    assert |p + [a]| == |q + [b]|;
    assert p == (p + [a])[..|p|] == (q + [b])[..|q|] == q;
    assert a == (p + [a])[|p|] == (q + [b])[|q|] == b;
  }

  lemma LinksAfterAttach(t: Layout, v: Snapshot, at: seq<Key>, k: Key, created: RouteNode, p: seq<Key>)
    requires Consistent(t, v) && at in t.nodes && at + [k] !in t.nodes && p in t.nodes
    ensures LinksOk(Extended(t, at + [k], created), p, if p == at then Linked(v[at], k, created) else v[p])
  {
    forall x | p + [x] == at + [k] ensures p == at && x == k {
      SnocInjective(p, at, x, k);
    }
    assert LinksOk(t, p, v[p]);
  }

  /** Hanging a blank node below `at` keeps the layout consistent. */
  lemma Attached(t: Layout, v: Snapshot, at: seq<Key>, k: Key, created: RouteNode, paramName: string)
    requires Consistent(t, v) && at in t.nodes && at + [k] !in t.nodes && created !in t.objs
    ensures Consistent(Extended(t, at + [k], created),
                       v[at := Linked(v[at], k, created)][at + [k] := Blank(paramName)])
  {
    var next := at + [k];
    var t', v' := Extended(t, next, created), v[at := Linked(v[at], k, created)][next := Blank(paramName)];
    forall x ensures next + [x] !in t'.nodes {
      assert |next + [x]| > |next|;
      assert HasParent(t, next, x);
    }
    forall p | p in t'.nodes ensures LinksOk(t', p, v'[p]) {
      if p != next { LinksAfterAttach(t, v, at, k, created, p); }
    }
    forall p, x ensures HasParent(t', p, x) {
      assert HasParent(t, p, x);
      if p + [x] == next { SnocInjective(p, at, x, k); }
    }
    forall p, q ensures Apart(t', p, q) {
      assert Apart(t, p, q);
    }
  }

  lemma AttachedHandlers(v: Snapshot, at: seq<Key>, next: seq<Key>, linked: Fields, paramName: string)
    requires at in v && next !in v && linked.handler == v[at].handler && linked.paramName == v[at].paramName
    ensures var v' := v[at := linked][next := Blank(paramName)];
            && TrieOf(v').handlers == TrieOf(v).handlers
            && TrieOf(v').nodes == TrieOf(v).nodes + {next}
  {
  }

  lemma AttachedNames(v: Snapshot, at: seq<Key>, next: seq<Key>, linked: Fields, paramName: string)
    requires at in v && next !in v && linked.handler == v[at].handler && linked.paramName == v[at].paramName
    ensures TrieOf(v[at := linked][next := Blank(paramName)]).names
         == (if EndsInParam(next) then TrieOf(v).names[next := paramName] else TrieOf(v).names)
  {
  }

  lemma AttachedTrie(v: Snapshot, at: seq<Key>, k: Key, created: RouteNode, segment: string)
    requires at in v && at + [k] !in v && k == KeyOf(segment)
    ensures TrieOf(v[at := Linked(v[at], k, created)][at + [k] := Blank(if k == Par then segment[1..] else "")])
         == Touch(TrieOf(v), at + [k], segment)
  {
    assert EndsInParam(at + [k]) <==> k == Par;
    var paramName := if k == Par then segment[1..] else "";
    AttachedHandlers(v, at, at + [k], Linked(v[at], k, created), paramName);
    AttachedNames(v, at, at + [k], Linked(v[at], k, created), paramName);
  }

  /** Every node but the one at `at` has the fields it had in `v`. */
  ghost predicate SameElsewhere(t: Layout, v: Snapshot, at: seq<Key>)
    requires Owns(t)
    reads t.objs
  {
    v.Keys == t.nodes.Keys && forall p :: p in t.nodes && p != at ==> FieldsOf(t.nodes[p]) == v[p]
  }

  lemma SnapshotAfter(t: Layout, v: Snapshot, at: seq<Key>, next: seq<Key>, child: RouteNode)
    requires Owns(t) && SameElsewhere(t, v, at) && at in t.nodes && next !in t.nodes
    ensures SnapshotOf(Extended(t, next, child)) == v[at := FieldsOf(t.nodes[at])][next := FieldsOf(child)]
  {
    var t' := Extended(t, next, child);
    var v' := v[at := FieldsOf(t.nodes[at])][next := FieldsOf(child)];
    forall p | p in t'.nodes ensures FieldsOf(t'.nodes[p]) == v'[p] {
      if p != next && p != at { assert p in t.nodes; }
    }
  }

  lemma Grown(t: Layout, v: Snapshot, at: seq<Key>, segment: string, child: RouteNode)
    requires Consistent(t, v) && at in t.nodes && at + [KeyOf(segment)] !in t.nodes && child !in t.objs
    requires SameElsewhere(t, v, at)
    requires FieldsOf(t.nodes[at]) == Linked(v[at], KeyOf(segment), child)
    requires FieldsOf(child) == Blank(if KeyOf(segment) == Par then segment[1..] else "")
    ensures var t' := Extended(t, at + [KeyOf(segment)], child);
            LayoutValid(t') && Denotes(t') == Touch(TrieOf(v), at + [KeyOf(segment)], segment)
  {
    var k := KeyOf(segment);
    Attached(t, v, at, k, child, if k == Par then segment[1..] else "");
    AttachedTrie(v, at, k, child, segment);
    SnapshotAfter(t, v, at, at + [k], child);
  }

  lemma HandlerKeepsLinks(t: Layout, v: Snapshot, at: seq<Key>, route: Route)
    requires Consistent(t, v) && at in t.nodes
    ensures Consistent(t, v[at := v[at].(handler := Some(route))])
  {
    var v' := v[at := v[at].(handler := Some(route))];
    forall p | p in t.nodes ensures LinksOk(t, p, v'[p]) {
      assert LinksOk(t, p, v[p]);
    }
  }

  lemma HandlerInTrie(v: Snapshot, at: seq<Key>, route: Route)
    requires at in v
    ensures TrieOf(v[at := v[at].(handler := Some(route))])
         == TrieOf(v).(handlers := TrieOf(v).handlers[at := route])
  {
  }

  lemma SingleNode(root: RouteNode)
    requires FieldsOf(root) == Blank("")
    ensures LayoutValid(Layout(map[[] := root], {root}))
    ensures Denotes(Layout(map[[] := root], {root})) == EMPTY
  {
    var t := Layout(map[[] := root], {root});
    assert forall p: seq<Key>, k: Key :: p + [k] != [];
    assert LinksOk(t, [], SnapshotOf(t)[[]]);
    assert Denotes(t) == EMPTY;
  }

  lemma LayoutBasics(t: Layout)
    requires LayoutValid(t)
    ensures [] in t.nodes && Owns(t)
  {
  }

  // ---- insertion ----

  /** The child of `node` for `segment`, created if it is not there yet. */
  method ChildFor(node: RouteNode, segment: string, ghost t: Layout, ghost at: seq<Key>)
    returns (child: RouteNode, ghost t': Layout)
    requires LayoutValid(t) && at in t.nodes && t.nodes[at] == node
    modifies node
    ensures t' == Extended(t, at + [KeyOf(segment)], child) && Owns(t') && LayoutValid(t')
    ensures Denotes(t') == Touch(old(Denotes(t)), at + [KeyOf(segment)], segment)
    ensures child in t.objs || fresh(child)
  {
    ghost var next := at + [KeyOf(segment)];
    ghost var v := SnapshotOf(t);
    assert LinksOk(t, at, v[at]);
    if segment != "" && segment[0] == '*' {
      if node.wildcardChild == null {
        node.wildcardChild := new RouteNode("");
      }
      child := node.wildcardChild;
    } else if segment != "" && segment[0] == ':' {
      if node.paramChild == null {
        node.paramChild := new RouteNode(segment[1..]);
      }
      child := node.paramChild;
    } else {
      if segment !in node.children {
        var created := new RouteNode("");
        node.children := node.children[segment := created];
      }
      child := node.children[segment];
    }
    t' := Extended(t, next, child);
    if next in t.nodes {
      assert t' == t;
    } else {
      assert SameElsewhere(t, v, at) by {
        forall p | p in t.nodes && p != at ensures FieldsOf(t.nodes[p]) == v[p] {
          assert Apart(t, p, at);
        }
      }
      Grown(t, v, at, segment, child);
    }
  }

  method StoreHandler(node: RouteNode, route: Route, ghost t: Layout, ghost at: seq<Key>)
    requires LayoutValid(t) && at in t.nodes && t.nodes[at] == node
    modifies node
    ensures LayoutValid(t)
    ensures Denotes(t) == old(Denotes(t)).(handlers := old(Denotes(t)).handlers[at := route])
  {
    ghost var v := SnapshotOf(t);
    node.handler := Some(route);
    forall p | p in t.nodes && p != at ensures FieldsOf(t.nodes[p]) == v[p] {
      assert Apart(t, p, at);
    }
    assert SnapshotOf(t) == v[at := v[at].(handler := Some(route))];
    HandlerKeepsLinks(t, v, at, route);
    HandlerInTrie(v, at, route);
  }

  /** One turn of the insertion loop. */
  function Turn(t: Trie, at: seq<Key>, segment: string, isLast: bool, route: Route): Trie {
    var next := at + [KeyOf(segment)];
    var grown := Touch(t, next, segment);
    if isLast && KeyOf(segment) != Wild then grown.(handlers := grown.handlers[next := route]) else grown
  }

  lemma WalkIsTurns(t: Trie, at: seq<Key>, segs: seq<string>, i: nat, route: Route)
    requires i < |segs|
    ensures var turned := Turn(t, at, segs[i], i == |segs| - 1, route);
            var rest := Walk(turned, at + [KeyOf(segs[i])], segs[i + 1..], route);
            Walk(t, at, segs[i..], route) == (if KeyOf(segs[i]) == Wild then turned else rest)
  {
    assert segs[i..][0] == segs[i] && segs[i..][1..] == segs[i + 1..];
  }

  method InsertTurn(node: RouteNode, segment: string, isLast: bool, route: Route, ghost t: Layout, ghost at: seq<Key>)
    returns (child: RouteNode, ghost t': Layout)
    requires LayoutValid(t) && at in t.nodes && t.nodes[at] == node
    modifies t.objs
    ensures t' == Extended(t, at + [KeyOf(segment)], child) && Owns(t') && LayoutValid(t')
    ensures Denotes(t') == Turn(old(Denotes(t)), at, segment, isLast, route)
    ensures child in t.objs || fresh(child)
  {
    child, t' := ChildFor(node, segment, t, at);
    if segment != "" && segment[0] == '*' {
      return;
    }
    if isLast {
      StoreHandler(child, route, t', at + [KeyOf(segment)]);
    }
  }

  /** The insertion loop below one root. */
  method InsertBelow(root: RouteNode, segments: seq<string>, route: Route, ghost t: Layout)
    returns (ghost t': Layout)
    requires LayoutValid(t) && t.nodes[[]] == root
    modifies t.objs
    ensures LayoutValid(t') && Owns(t') && [] in t'.nodes && t'.nodes[[]] == root
    ensures Denotes(t') == Walk(old(Denotes(t)), [], segments, route)
    ensures fresh(t'.objs - t.objs)
  {
    hide LayoutValid, Owns, Denotes, Walk, Turn;
    LayoutBasics(t);
    var node := root;
    t' := t;
    ghost var at: seq<Key> := [];
    ghost var goal := Walk(Denotes(t), [], segments, route);
    var i := 0;
    assert segments[0..] == segments;
    while i < |segments|
      invariant 0 <= i <= |segments|
      invariant LayoutValid(t') && Owns(t') && fresh(t'.objs - t.objs)
      invariant [] in t'.nodes && t'.nodes[[]] == root && at in t'.nodes && t'.nodes[at] == node
      invariant Walk(Denotes(t'), at, segments[i..], route) == goal
    {
      var segment := segments[i];
      WalkIsTurns(Denotes(t'), at, segments, i, route);
      node, t' := InsertTurn(node, segment, i == |segments| - 1, route, t', at);
      at := at + [KeyOf(segment)];
      if segment != "" && segment[0] == '*' {
        return;
      }
      i := i + 1;
    }
    assert segments[i..] == [];
    WalkOfNothing(Denotes(t'), at, route);
  }

  lemma WalkOfNothing(t: Trie, at: seq<Key>, route: Route)
    ensures Walk(t, at, [], route) == t
  {
  }

  // ---- lookup ----

  /** What the fields of a node say about the trie. */
  lemma NodeFacts(t: Layout, at: seq<Key>)
    requires LayoutValid(t) && at in t.nodes
    ensures var T, n := Denotes(t), t.nodes[at];
            && n in t.objs
            && T.nodes == t.nodes.Keys
            && (at in T.handlers <==> n.handler.Some?)
            && (forall s :: s in n.children <==> at + [Lit(s)] in t.nodes)
            && (forall s :: s in n.children ==> n.children[s] == t.nodes[at + [Lit(s)]])
            && n.paramChild == (if at + [Par] in t.nodes then t.nodes[at + [Par]] else null)
            && n.wildcardChild == (if at + [Wild] in t.nodes then t.nodes[at + [Wild]] else null)
            && (n.paramChild != null ==> n.paramChild in t.objs && n.paramChild.paramName == T.names[at + [Par]])
            && (n.wildcardChild != null ==>
                  n.wildcardChild in t.objs && (n.wildcardChild.handler.Some? <==> at + [Wild] in T.handlers))
  {
    assert LinksOk(t, at, SnapshotOf(t)[at]);
  }

  /** The node (or exception) the search reports is the one the outcome names. */
  ghost predicate Reports(t: Layout, at: seq<Key>, o: Outcome, found: RouteNode?, threw: bool) {
    match o
    case Hit(rest) => !threw && at + rest in t.nodes && found == t.nodes[at + rest]
    case Miss => !threw && found == null
    case Threw => threw && found == null
  }

  lemma ReportsAbove(t: Layout, at: seq<Key>, k: Key, o: Outcome, found: RouteNode?, threw: bool)
    requires Reports(t, at + [k], o, found, threw)
    ensures Reports(t, at, RS.Under(k, o), found, threw)
  {
    if o.Hit? {
      assert at + ([k] + o.rest) == at + [k] + o.rest;
    }
  }

  /** The part of the search at one node that comes after the static child. */
  ghost function ParamPart(t: Trie, decode: RS.Decoder, at: seq<Key>, segs: seq<string>, params: RS.Params): RS.Found
    requires RS.Named(t) && segs != []
  {
    if at + [Par] !in t.nodes then RS.AtWildcard(t, at, segs, params)
    else if decode(segs[0]).None? then RS.Found(Threw, params)
    else
      var name := t.names[at + [Par]];
      var second := RS.Search(t, decode, at + [Par], segs[1..], params[name := decode(segs[0]).value]);
      if second.outcome.Miss? then RS.AtWildcard(t, at, segs, second.params - {name})
      else RS.Found(RS.Under(Par, second.outcome), second.params)
  }

  lemma SearchByParts(t: Trie, decode: RS.Decoder, at: seq<Key>, segs: seq<string>, params: RS.Params)
    requires RS.Named(t) && segs != []
    ensures var lit := Lit(segs[0]);
            var below := at + [lit] in t.nodes;
            var first := if below then RS.Search(t, decode, at + [lit], segs[1..], params) else RS.Found(Miss, params);
            var tail := ParamPart(t, decode, at, segs, first.params);
            var hit := RS.Found(RS.Under(lit, first.outcome), first.params);
            RS.Search(t, decode, at, segs, params) == (if first.outcome.Miss? then tail else hit)
  {
  }

  /** The recursive search; `params` is the record all its calls share. */
  method Search(node: RouteNode, segments: seq<string>, index: nat, params: ParamRecord, decode: RS.Decoder,
                ghost t: Layout, ghost at: seq<Key>)
    returns (found: RouteNode?, threw: bool)
    requires LayoutValid(t) && at in t.nodes && t.nodes[at] == node && index <= |segments| && params !in t.objs
    modifies params
    ensures var r := RS.Search(Denotes(t), decode, at, segments[index..], old(params.entries));
            params.entries == r.params && Reports(t, at, r.outcome, found, threw)
    decreases |segments| - index, 1
  {
    hide LayoutValid, Owns, Denotes, ParamPart;
    NodeFacts(t, at);
    if index == |segments| {
      assert at + [] == at;
      return if node.handler.Some? then node else null, false;
    }
    hide RS.Search;
    var segment := segments[index];
    assert segments[index..][0] == segment && segments[index..][1..] == segments[index + 1..];
    SearchByParts(Denotes(t), decode, at, segments[index..], params.entries);
    if segment in node.children {
      ghost var before := params.entries;
      found, threw := Search(node.children[segment], segments, index + 1, params, decode, t, at + [Lit(segment)]);
      ghost var first := RS.Search(Denotes(t), decode, at + [Lit(segment)], segments[index + 1..], before);
      ReportsAbove(t, at, Lit(segment), first.outcome, found, threw);
      if found != null || threw {
        return;
      }
    }
    found, threw := SearchParam(node, segments, index, params, decode, t, at);
  }

  method SearchParam(node: RouteNode, segments: seq<string>, index: nat, params: ParamRecord, decode: RS.Decoder,
                     ghost t: Layout, ghost at: seq<Key>)
    returns (found: RouteNode?, threw: bool)
    requires LayoutValid(t) && at in t.nodes && t.nodes[at] == node && index < |segments| && params !in t.objs
    modifies params
    ensures var r := ParamPart(Denotes(t), decode, at, segments[index..], old(params.entries));
            params.entries == r.params && Reports(t, at, r.outcome, found, threw)
    decreases |segments| - index, 0
  {
    hide LayoutValid, Owns, Denotes, RS.Search, Join;
    NodeFacts(t, at);
    var segment := segments[index];
    assert segments[index..][0] == segment && segments[index..][1..] == segments[index + 1..];
    if node.paramChild != null {
      var name := node.paramChild.paramName;
      match decode(segment)
      case None => return null, true;
      case Some(value) =>
        params.entries := params.entries[name := value];
        ghost var bound := params.entries;
        found, threw := Search(node.paramChild, segments, index + 1, params, decode, t, at + [Par]);
        ghost var second := RS.Search(Denotes(t), decode, at + [Par], segments[index + 1..], bound);
        ReportsAbove(t, at, Par, second.outcome, found, threw);
        if found != null || threw {
          return;
        }
        params.entries := params.entries - {name};
    }
    if node.wildcardChild != null {
      params.entries := params.entries["splat" := Join(segments[index..])];
      return if node.wildcardChild.handler.Some? then node.wildcardChild else null, false;
    }
    return null, false;
  }

  datatype FindResult = NotFound | Thrown | Matched(route: Route, params: RS.Params)

  /** What `find` answers, as a function of the trie. */
  ghost function Lookup(t: Trie, decode: RS.Decoder, segs: seq<string>): FindResult
    requires RS.Named(t)
  {
    match RS.Seek(t, decode, [], segs)
    case Miss => NotFound
    case Threw => Thrown
    case Hit(keys) =>
      if keys in t.handlers then Matched(t.handlers[keys], RS.Search(t, decode, [], segs, map[]).params) else NotFound
  }

  /** A hit names a node that carries a handler. */
  lemma LayoutHandlers(t: Layout, decode: RS.Decoder, segs: seq<string>)
    requires LayoutValid(t)
    ensures var o := RS.Seek(Denotes(t), decode, [], segs);
            o.Hit? ==> && o.rest in t.nodes && t.nodes[o.rest] in t.objs && t.nodes[o.rest].handler.Some?
                       && o.rest in Denotes(t).handlers && Denotes(t).handlers[o.rest] == t.nodes[o.rest].handler.value
  {
    RS.HitsHaveHandlers(Denotes(t), decode, [], segs);
    var o := RS.Seek(Denotes(t), decode, [], segs);
    if o.Hit? {
      assert [] + o.rest == o.rest;
    }
  }

  method FindBelow(root: RouteNode, segments: seq<string>, decode: RS.Decoder, ghost t: Layout)
    returns (r: FindResult)
    requires LayoutValid(t) && [] in t.nodes && t.nodes[[]] == root
    ensures r == Lookup(Denotes(t), decode, segments)
  {
    hide LayoutValid, Owns, Denotes, RS.Search, RS.Seek;
    NodeFacts(t, []);
    RS.SearchOutcome(Denotes(t), decode, [], segments, map[]);
    LayoutHandlers(t, decode, segments);
    assert segments[0..] == segments;
    var params := new ParamRecord();
    var found, threw := Search(root, segments, 0, params, decode, t, []);
    ghost var o := RS.Seek(Denotes(t), decode, [], segments);
    assert o.Hit? ==> [] + o.rest == o.rest;
    if threw {
      return Thrown;
    }
    if found == null {
      return NotFound;
    }
    return Matched(found.handler.value, params.entries);
  }

  /** The tries of different methods share no node. */
  ghost predicate Separate(layouts: map<string, Layout>, nodes: set<object>) {
    && (forall m :: m in layouts ==> layouts[m].objs <= nodes)
    && (forall m, m' :: m in layouts && m' in layouts && m != m' ==> layouts[m].objs !! layouts[m'].objs)
  }

  lemma StillSeparate(layouts: map<string, Layout>, nodes: set<object>, m: string, t: Layout)
    requires Separate(layouts, nodes)
    requires forall o :: o in t.objs ==> o !in nodes || (m in layouts && o in layouts[m].objs)
    ensures Separate(layouts[m := t], nodes + t.objs)
  {
  }

  lemma SeparateTries(layouts: map<string, Layout>, nodes: set<object>, m: string, m': string)
    requires Separate(layouts, nodes) && m in layouts
    ensures layouts[m].objs <= nodes
    ensures m' in layouts && m != m' ==> layouts[m].objs !! layouts[m'].objs
  {
  }

  class EnfyraRouteEngine {
    var roots: map<string, RouteNode>
    const decode: RS.Decoder
    ghost var layouts: map<string, Layout>
    ghost var nodes: set<object>

    ghost predicate MethodValid(m: string)
      reads `roots, `layouts, `nodes, nodes
    {
      && m in roots && m in layouts
      && layouts[m].objs <= nodes
      && LayoutValid(layouts[m])
      && roots[m] == layouts[m].nodes[[]]
    }

    ghost predicate Valid()
      reads `roots, `layouts, `nodes, nodes
    {
      && this !in nodes
      && layouts.Keys == roots.Keys
      && Separate(layouts, nodes)
      && (forall m {:trigger MethodValid(m)} :: m in roots ==> MethodValid(m))
    }

    /** What the engine knows about one method. */
    ghost function View(m: string): (t: Trie)
      reads `layouts, if m in layouts then layouts[m].objs else {}
      ensures RS.Named(t)
    {
      if m in layouts then Denotes(layouts[m]) else EMPTY
    }

    constructor (decode: RS.Decoder)
      ensures Valid() && nodes == {} && this.decode == decode
      ensures roots == map[] && forall m :: View(m) == EMPTY
    {
      this.decode := decode;
      roots, layouts, nodes := map[], map[], {};
    }

    /** `t` becomes the trie of `m`; the other tries stay. */
    ghost method Register(m: string, t: Layout)
      requires m in roots && layouts.Keys + {m} == roots.Keys && this !in nodes + t.objs && Separate(layouts, nodes)
      requires forall m' :: m' in roots && m' != m ==> MethodValid(m')
      requires LayoutValid(t) && [] in t.nodes && t.nodes[[]] == roots[m]
      requires forall o :: o in t.objs ==> o !in nodes || (m in layouts && o in layouts[m].objs)
      modifies `layouts, `nodes
      ensures Valid() && layouts == old(layouts)[m := t] && nodes == old(nodes) + t.objs
      ensures View(m) == Denotes(t) && forall m' :: m' != m ==> View(m') == old(View(m'))
    {
      hide LayoutValid, Owns, Denotes, Separate;
      StillSeparate(layouts, nodes, m, t);
      layouts := layouts[m := t];
      nodes := nodes + t.objs;
      forall m' | m' in roots ensures MethodValid(m') {
        assert m' != m ==> old(MethodValid(m'));
      }
    }

    /** The root for `m`, created on first use. */
    method RootFor(m: string) returns (root: RouteNode)
      requires Valid()
      modifies `roots, `layouts, `nodes
      ensures Valid() && fresh(nodes - old(nodes)) && nodes >= old(nodes)
      ensures roots.Keys == old(roots.Keys) + {m} && root == roots[m]
      ensures forall m' :: View(m') == old(View(m'))
    {
      hide LayoutValid, Owns, Denotes, Separate;
      if m !in roots {
        root := new RouteNode("");
        SingleNode(root);
        roots := roots[m := root];
        forall m' | m' in roots && m' != m ensures MethodValid(m') {
          assert old(MethodValid(m'));
        }
        Register(m, Layout(map[[] := root], {root}));
      } else {
        assert MethodValid(m);
      }
      root := roots[m];
    }

    /** The loop, run in the trie of `m`, leaves the other tries alone. */
    method InsertInto(m: string, segments: seq<string>, route: Route) returns (ghost t: Layout)
      requires Valid() && m in roots
      modifies layouts[m].objs
      ensures unchanged(this) && this !in t.objs
      ensures LayoutValid(t) && [] in t.nodes && t.nodes[[]] == roots[m]
      ensures Denotes(t) == Walk(old(View(m)), [], segments, route)
      ensures fresh(t.objs - layouts[m].objs)
      ensures forall m' :: m' in roots && m' != m ==> MethodValid(m') && View(m') == old(View(m'))
    {
      hide LayoutValid, Owns, Denotes, Walk, Separate;
      assert MethodValid(m);
      SeparateTries(layouts, nodes, m, m);
      t := InsertBelow(roots[m], segments, route, layouts[m]);
      forall m' | m' in roots && m' != m ensures MethodValid(m') && View(m') == old(View(m')) {
        assert old(MethodValid(m'));
        SeparateTries(layouts, nodes, m, m');
      }
    }

    method InsertUnder(m: string, segments: seq<string>, route: Route)
      requires Valid() && m in roots
      modifies `layouts, `nodes, nodes
      ensures roots == old(roots)
      ensures Valid() && fresh(nodes - old(nodes))
      ensures View(m) == Walk(old(View(m)), [], segments, route)
      ensures forall m' :: m' != m ==> View(m') == old(View(m'))
    {
      hide LayoutValid, Owns, Denotes, Walk, Separate;
      assert MethodValid(m);
      ghost var t := InsertInto(m, segments, route);
      Register(m, t);
    }

    method Insert(m: string, path: string, route: Route)
      requires Valid()
      modifies this, nodes
      ensures Valid() && fresh(nodes - old(nodes))
      ensures roots.Keys == old(roots.Keys) + {m}
      ensures View(m) == Walk(old(View(m)), [], Segments(path), route)
      ensures forall m' :: m' != m ==> View(m') == old(View(m'))
    {
      hide *;
      var segments := Segments(path);
      var root := RootFor(m);
      InsertUnder(m, segments, route);
    }

    /** `find`: the first matching route with the parameter record, null, or the exception of the decoder. */
    method Find(m: string, path: string) returns (r: FindResult)
      requires Valid()
      ensures r == Lookup(View(m), decode, Segments(path))
    {
      if m !in roots {
        return NotFound;
      }
      hide LayoutValid, Owns, Denotes, Separate, Lookup;
      assert MethodValid(m);
      LayoutBasics(layouts[m]);
      r := FindBelow(roots[m], Segments(path), decode, layouts[m]);
    }
  }
}
