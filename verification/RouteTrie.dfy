/** The value a per-method route trie denotes, and what looking a path up in it means.
    A node is named by the keys on the way to it, so a whole trie is three flat collections. */
module RouteTrie {
  import opened Prelude
  import opened RoutePaths

  datatype Route = Route(id: int, path: string)

  datatype Key = Lit(text: string) | Par | Wild

  datatype Trie = Trie(nodes: set<seq<Key>>, names: map<seq<Key>, string>, handlers: map<seq<Key>, Route>)

  /** One call of `insert`, as the trie of its method sees it. */
  datatype Entry = Entry(segments: seq<string>, route: Route)

  datatype Outcome = Hit(rest: seq<Key>) | Miss | Threw

  const EMPTY := Trie({[]}, map[], map[])

  function KeyOf(seg: string): Key {
    if seg != "" && seg[0] == '*' then Wild
    else if seg != "" && seg[0] == ':' then Par
    else Lit(seg)
  }

  function KeysOf(segs: seq<string>): (keys: seq<Key>)
    ensures |keys| == |segs|
  {
    if segs == [] then [] else [KeyOf(segs[0])] + KeysOf(segs[1..])
  }

  /** A pattern that ends in a handler: the root has no segment to end in,
      and the insertion loop stops at a wildcard before it stores anything. */
  predicate Complete(segs: seq<string>) {
    segs != [] && Wild !in KeysOf(segs)
  }

  predicate EndsInParam(p: seq<Key>) {
    p != [] && p[|p| - 1] == Par
  }

  ghost predicate WellFormed(t: Trie) {
    && [] in t.nodes
    && (forall p :: p in t.names <==> p in t.nodes && EndsInParam(p))
    && (forall p :: p in t.handlers ==> p in t.nodes && p != [] && Wild !in p)
    && (forall p, k :: p + [k] in t.nodes ==> p in t.nodes)
  }

  // ---- insertion ----

  /** Create the node `p` unless it is there; an existing node keeps its parameter name. */
  function Touch(t: Trie, p: seq<Key>, seg: string): Trie
    requires EndsInParam(p) ==> seg != ""
  {
    if p in t.nodes then t
    else Trie(t.nodes + {p}, if EndsInParam(p) then t.names[p := seg[1..]] else t.names, t.handlers)
  }

  /** The insertion loop from node `at` on, with `segs` still to go. */
  function Walk(t: Trie, at: seq<Key>, segs: seq<string>, route: Route): Trie
    decreases |segs|
  {
    if segs == [] then t
    else
      var next := at + [KeyOf(segs[0])];
      var grown := Touch(t, next, segs[0]);
      if KeyOf(segs[0]) == Wild then grown
      else if |segs| == 1 then grown.(handlers := grown.handlers[next := route])
      else Walk(grown, next, segs[1..], route)
  }

  function Build(log: seq<Entry>): Trie {
    if log == [] then EMPTY
    else var e := log[|log| - 1]; Walk(Build(log[..|log| - 1]), [], e.segments, e.route)
  }

  lemma TouchKeepsWellFormed(t: Trie, at: seq<Key>, seg: string)
    requires WellFormed(t) && at in t.nodes
    ensures WellFormed(Touch(t, at + [KeyOf(seg)], seg))
  {
    var next := at + [KeyOf(seg)];
    forall p, k | p + [k] in Touch(t, next, seg).nodes
      ensures p in Touch(t, next, seg).nodes
    {
      if p + [k] == next {
        assert p == (p + [k])[..|p|] == next[..|at|] == at;
      }
    }
  }

  lemma {:induction false} WalkKeepsWellFormed(t: Trie, at: seq<Key>, segs: seq<string>, route: Route)
    requires WellFormed(t) && at in t.nodes && Wild !in at
    ensures WellFormed(Walk(t, at, segs, route))
    decreases |segs|
  {
    if segs != [] {
      var next := at + [KeyOf(segs[0])];
      var grown := Touch(t, next, segs[0]);
      TouchKeepsWellFormed(t, at, segs[0]);
      if KeyOf(segs[0]) != Wild && |segs| > 1 {
        WalkKeepsWellFormed(grown, next, segs[1..], route);
      }
    }
  }

  lemma {:induction false} WalkHandlers(t: Trie, at: seq<Key>, segs: seq<string>, route: Route)
    ensures Walk(t, at, segs, route).handlers
         == if Complete(segs) then t.handlers[at + KeysOf(segs) := route] else t.handlers
    decreases |segs|
  {
    if segs != [] {
      var next := at + [KeyOf(segs[0])];
      if KeyOf(segs[0]) == Wild {
        assert KeysOf(segs)[0] == Wild;
      } else if |segs| == 1 {
        assert KeysOf(segs) == [KeyOf(segs[0])];
      } else {
        WalkHandlers(Touch(t, next, segs[0]), next, segs[1..], route);
        assert at + KeysOf(segs) == next + KeysOf(segs[1..]);
        assert Complete(segs) == Complete(segs[1..]);
      }
    }
  }

  lemma {:induction false} BuildWellFormed(log: seq<Entry>)
    ensures WellFormed(Build(log))
  {
    if log != [] {
      var e := log[|log| - 1];
      BuildWellFormed(log[..|log| - 1]);
      WalkKeepsWellFormed(Build(log[..|log| - 1]), [], e.segments, e.route);
    }
  }

  /** The last route inserted under exactly this pattern. */
  function LastInserted(log: seq<Entry>, keys: seq<Key>): Option<Route> {
    if log == [] then None
    else
      var e := log[|log| - 1];
      if Complete(e.segments) && KeysOf(e.segments) == keys then Some(e.route)
      else LastInserted(log[..|log| - 1], keys)
  }

  lemma {:induction false} BuildHandlers(log: seq<Entry>, keys: seq<Key>)
    ensures keys in Build(log).handlers <==> LastInserted(log, keys).Some?
    ensures keys in Build(log).handlers ==> LastInserted(log, keys) == Some(Build(log).handlers[keys])
  {
    if log != [] {
      var e := log[|log| - 1];
      BuildHandlers(log[..|log| - 1], keys);
      WalkHandlers(Build(log[..|log| - 1]), [], e.segments, e.route);
      assert [] + KeysOf(e.segments) == KeysOf(e.segments);
    }
  }

  // ---- which node got its name from which insertion ----

  /** Inserting `segs` passes through (and so may create) the node `p`. */
  predicate Passes(segs: seq<string>, p: seq<Key>) {
    && 0 < |p| <= |segs|
    && p == KeysOf(segs)[..|p|]
    && Wild !in p[..|p| - 1]
  }

  /** The segment text the first insertion that passed through `p` had there. */
  function FirstText(log: seq<Entry>, p: seq<Key>): Option<string> {
    if log == [] then None
    else if Passes(log[0].segments, p) then Some(log[0].segments[|p| - 1])
    else FirstText(log[1..], p)
  }

  lemma {:induction false} KeysOfAt(segs: seq<string>, i: nat)
    requires i < |segs|
    ensures KeysOf(segs)[i] == KeyOf(segs[i])
    ensures KeysOf(segs)[i..] == KeysOf(segs[i..])
  {
    if i > 0 {
      KeysOfAt(segs[1..], i - 1);
      assert segs[1..][i - 1..] == segs[i..];
      assert KeysOf(segs)[i..] == KeysOf(segs[1..])[i - 1..];
    }
  }

  lemma {:induction false} FirstTextSnoc(log: seq<Entry>, e: Entry, p: seq<Key>)
    ensures FirstText(log + [e], p)
         == if FirstText(log, p).Some? then FirstText(log, p)
            else if Passes(e.segments, p) then Some(e.segments[|p| - 1]) else None
  {
    if log == [] {
      assert log + [e] == [e];
      assert [e][1..] == [];
    } else {
      assert (log + [e])[1..] == log[1..] + [e];
      FirstTextSnoc(log[1..], e, p);
    }
  }

  lemma PassesTail(segs: seq<string>, q: seq<Key>)
    requires segs != [] && |q| > 1
    ensures Passes(segs, q)
        <==> q[0] == KeyOf(segs[0]) && q[0] != Wild && Passes(segs[1..], q[1..])
  {
    if q[0] == KeyOf(segs[0]) && |q| <= |segs| {
      var keys := KeysOf(segs);
      assert keys[..|q|] == [q[0]] + KeysOf(segs[1..])[..|q| - 1];
      assert q == [q[0]] + q[1..];
      assert q[..|q| - 1] == [q[0]] + q[1..][..|q[1..]| - 1];
    }
  }

  lemma PassesOne(segs: seq<string>, q: seq<Key>)
    requires segs != [] && |q| == 1
    ensures Passes(segs, q) <==> q == [KeyOf(segs[0])]
  {
    assert KeysOf(segs)[..1] == [KeyOf(segs[0])];
  }

  lemma {:induction false} WalkStaysBelow(t: Trie, at: seq<Key>, segs: seq<string>, route: Route, p: seq<Key>)
    requires !(at < p)
    ensures var r := Walk(t, at, segs, route);
            && (p in r.nodes <==> p in t.nodes)
            && (p in r.names <==> p in t.names)
            && (p in t.names ==> r.names[p] == t.names[p])
    decreases |segs|
  {
    if segs != [] {
      var next := at + [KeyOf(segs[0])];
      assert at < next;
      if KeyOf(segs[0]) != Wild && |segs| > 1 {
        WalkStaysBelow(Touch(t, next, segs[0]), next, segs[1..], route, p);
      }
    }
  }

  /** What one insertion does to the node `at + q`: it exists afterwards iff it did or was passed;
      its name is the old one, or the text it was first passed with. */
  ghost predicate GrownBy(t: Trie, r: Trie, at: seq<Key>, segs: seq<string>, q: seq<Key>) {
    var p := at + q;
    && (p in r.nodes <==> p in t.nodes || Passes(segs, q))
    && (p in t.names ==> p in r.names && r.names[p] == t.names[p])
    && (p in r.names && p !in t.names ==> Passes(segs, q) && segs[|q| - 1] != "" && r.names[p] == segs[|q| - 1][1..])
  }

  lemma {:induction false} WalkGrows(t: Trie, at: seq<Key>, segs: seq<string>, route: Route, q: seq<Key>)
    requires WellFormed(t) && at in t.nodes && Wild !in at && q != []
    ensures GrownBy(t, Walk(t, at, segs, route), at, segs, q)
    decreases |segs|
  {
    if segs != [] {
      var next := at + [KeyOf(segs[0])];
      var grown := Touch(t, next, segs[0]);
      var p := at + q;
      assert p[|at|] == q[0];
      TouchKeepsWellFormed(t, at, segs[0]);
      var goesOn := KeyOf(segs[0]) != Wild && |segs| > 1;
      if |q| == 1 {
        PassesOne(segs, q);
        assert p == next <==> q == [KeyOf(segs[0])];
        assert GrownBy(t, grown, at, segs, q);
        if goesOn { WalkStaysBelow(grown, next, segs[1..], route, p); }
      } else {
        PassesTail(segs, q);
        if goesOn && q[0] == KeyOf(segs[0]) {
          assert p == next + q[1..];
          WalkGrows(grown, next, segs[1..], route, q[1..]);
        } else if goesOn {
          WalkStaysBelow(grown, next, segs[1..], route, p);
        }
      }
    }
  }

  /** The node set is exactly what the insertions pass through, and the first one names each parameter node. */
  lemma {:induction false} BuildNodes(log: seq<Entry>, p: seq<Key>)
    requires p != []
    ensures p in Build(log).nodes <==> FirstText(log, p).Some?
    ensures p in Build(log).names ==> FirstText(log, p).Some? && FirstText(log, p).value != ""
    ensures p in Build(log).names ==> Build(log).names[p] == FirstText(log, p).value[1..]
  {
    if log != [] {
      var e := log[|log| - 1];
      var init := log[..|log| - 1];
      BuildNodes(init, p);
      BuildWellFormed(init);
      BuildWellFormed(log);
      WalkGrows(Build(init), [], e.segments, e.route, p);
      assert [] + p == p;
      assert init + [e] == log;
      FirstTextSnoc(init, e, p);
    }
  }
}
