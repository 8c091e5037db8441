/** Building the route engine from the cached route list, and what a request path then resolves to. */
module RouteCache {
  import opened Prelude
  import opened RoutePaths
  import opened RouteTrie
  import opened RouteEngine
  import RP = RouteParams
  import RS = RouteSearch

  predicate HasIdVariant(m: string) {
    m == "DELETE" || m == "PATCH"
  }

  /** The insertions one route makes for one method: its path, and the `:id` variant for REST writes. */
  function PatternsFor(m: string, route: Route): seq<Entry> {
    [Entry(Segments(route.path), route)]
    + (if HasIdVariant(m) then [Entry(Segments(route.path + "/:id"), route)] else [])
  }

  /** The insertions into the trie of `m` that one route makes over the method list. */
  function EntriesFor(m: string, methods: seq<string>, route: Route): seq<Entry> {
    if methods == [] then []
    else
      EntriesFor(m, methods[..|methods| - 1], route)
      + (if methods[|methods| - 1] == m then PatternsFor(m, route) else [])
  }

  /** All insertions into the trie of `m`, routes without a path skipped. */
  function LogOf(m: string, methods: seq<string>, routes: seq<Route>): seq<Entry> {
    if routes == [] then []
    else
      var route := routes[|routes| - 1];
      LogOf(m, methods, routes[..|routes| - 1]) + (if route.path == "" then [] else EntriesFor(m, methods, route))
  }

  lemma BuildSnoc(log: seq<Entry>, e: Entry)
    ensures Build(log + [e]) == Walk(Build(log), [], e.segments, e.route)
  {
    assert (log + [e])[..|log|] == log;
  }

  method InsertPatterns(engine: EnfyraRouteEngine, m: string, route: Route, ghost log: seq<Entry>)
    requires engine.Valid() && engine.View(m) == Build(log)
    modifies engine, engine.nodes
    ensures engine.Valid() && fresh(engine.nodes - old(engine.nodes))
    ensures engine.View(m) == Build(log + PatternsFor(m, route))
    ensures forall m' :: m' != m ==> engine.View(m') == old(engine.View(m'))
  {
    hide RouteEngine.EnfyraRouteEngine.Valid, RouteEngine.EnfyraRouteEngine.View, Walk, Segments, Build;
    var plain := Entry(Segments(route.path), route);
    BuildSnoc(log, plain);
    engine.Insert(m, route.path, route);
    if m == "DELETE" || m == "PATCH" {
      var byId := Entry(Segments(route.path + "/:id"), route);
      BuildSnoc(log + [plain], byId);
      engine.Insert(m, route.path + "/:id", route);
      assert log + PatternsFor(m, route) == log + [plain] + [byId];
    } else {
      assert log + PatternsFor(m, route) == log + [plain];
    }
  }

  method InsertRouteToEngine(engine: EnfyraRouteEngine, methods: seq<string>, route: Route, ghost logs: string -> seq<Entry>)
    requires engine.Valid() && forall m :: engine.View(m) == Build(logs(m))
    modifies engine, engine.nodes
    ensures engine.Valid() && fresh(engine.nodes - old(engine.nodes))
    ensures forall m :: engine.View(m) == Build(logs(m) + (if route.path == "" then [] else EntriesFor(m, methods, route)))
  {
    hide RouteEngine.EnfyraRouteEngine.Valid, RouteEngine.EnfyraRouteEngine.View, Build, PatternsFor;
    assert forall m :: logs(m) + [] == logs(m);
    if route.path == "" {
      return;
    }
    for i := 0 to |methods|
      invariant engine.Valid() && fresh(engine.nodes - old(engine.nodes))
      invariant forall m :: engine.View(m) == Build(logs(m) + EntriesFor(m, methods[..i], route))
    {
      var m := methods[i];
      assert methods[..i + 1][..i] == methods[..i];
      ghost var sofar := logs(m) + EntriesFor(m, methods[..i], route);
      InsertPatterns(engine, m, route, sofar);
      assert logs(m) + EntriesFor(m, methods[..i + 1], route) == sofar + PatternsFor(m, route);
      assert forall m' :: m' != m ==> EntriesFor(m', methods[..i + 1], route) == EntriesFor(m', methods[..i], route);
    }
    assert methods[..|methods|] == methods;
  }

  method BuildRouteEngine(routes: seq<Route>, methods: seq<string>, decode: RS.Decoder) returns (engine: EnfyraRouteEngine)
    ensures engine.Valid() && fresh(engine) && fresh(engine.nodes) && engine.decode == decode
    ensures forall m :: engine.View(m) == Build(LogOf(m, methods, routes))
  {
    hide RouteEngine.EnfyraRouteEngine.Valid, RouteEngine.EnfyraRouteEngine.View, EntriesFor;
    engine := new EnfyraRouteEngine(decode);
    for i := 0 to |routes|
      invariant engine.Valid() && fresh(engine) && fresh(engine.nodes) && engine.decode == decode
      invariant forall m :: engine.View(m) == Build(LogOf(m, methods, routes[..i]))
    {
      assert routes[..i + 1][..i] == routes[..i];
      InsertRouteToEngine(engine, methods, routes[i], m => LogOf(m, methods, routes[..i]));
    }
    assert routes[..|routes|] == routes;
  }

  /** `pattern` is one of the patterns under which `route` answers requests of method `m`. */
  predicate Serves(m: string, methods: seq<string>, route: Route, pattern: seq<string>) {
    && route.path != "" && m in methods
    && (pattern == Segments(route.path) || (m in {"PATCH", "DELETE"} && pattern == Segments(route.path) + [":id"]))
  }

  lemma {:induction false} EntriesForRoute(m: string, methods: seq<string>, route: Route, e: Entry)
    requires route.path != ""
    ensures e in EntriesFor(m, methods, route) <==> e.route == route && Serves(m, methods, route, e.segments)
  {
    hide Segments;
    SegmentsOfSubPath(route.path, ":id");
    assert route.path + "/" + ":id" == route.path + "/:id";
    SegmentsOfProper(":id");
    if methods != [] {
      var last := methods[|methods| - 1];
      assert methods == methods[..|methods| - 1] + [last];
      EntriesForRoute(m, methods[..|methods| - 1], route, e);
    }
  }

  /** The insertions made for `m` are exactly the patterns the routes serve. */
  lemma {:induction false} LogIsServed(m: string, methods: seq<string>, routes: seq<Route>, e: Entry)
    ensures e in LogOf(m, methods, routes) <==> e.route in routes && Serves(m, methods, e.route, e.segments)
  {
    if routes != [] {
      var route := routes[|routes| - 1];
      assert routes == routes[..|routes| - 1] + [route];
      LogIsServed(m, methods, routes[..|routes| - 1], e);
      if route.path != "" {
        EntriesForRoute(m, methods, route, e);
      }
    }
  }

  /** The trie the engine holds for `m`. */
  ghost function TrieFor(m: string, methods: seq<string>, routes: seq<Route>): (t: Trie)
    ensures WellFormed(t)
  {
    BuildWellFormed(LogOf(m, methods, routes));
    Build(LogOf(m, methods, routes))
  }

  /** Some pattern under which `route` serves matches the path. */
  ghost predicate Answers(m: string, methods: seq<string>, route: Route, pattern: seq<string>, segs: seq<string>) {
    Serves(m, methods, route, pattern) && Complete(pattern) && RS.Matches(KeysOf(pattern), segs)
  }

  /** `route` serves under exactly these keys. */
  ghost predicate ServesKeys(m: string, methods: seq<string>, route: Route, keys: seq<Key>) {
    exists pattern :: Serves(m, methods, route, pattern) && Complete(pattern) && KeysOf(pattern) == keys
  }

  lemma {:induction false} LastOfTwo(log: seq<Entry>, more: seq<Entry>, keys: seq<Key>)
    ensures LastInserted(log + more, keys) == if LastInserted(more, keys).Some? then LastInserted(more, keys) else LastInserted(log, keys)
    decreases |more|
  {
    if more == [] {
      assert log + more == log;
    } else {
      var init := more[..|more| - 1];
      assert (log + more)[..|log + more| - 1] == log + init;
      LastOfTwo(log, init, keys);
    }
  }

  /** The entries of one route store that route, under the keys it serves. */
  lemma EntriesStoreRoute(m: string, methods: seq<string>, route: Route, keys: seq<Key>)
    requires route.path != ""
    ensures LastInserted(EntriesFor(m, methods, route), keys)
         == if ServesKeys(m, methods, route, keys) then Some(route) else None
  {
    hide Serves, LastInserted;
    var entries := EntriesFor(m, methods, route);
    RS.LastInsertedIsLogged(entries, keys);
    if LastInserted(entries, keys).Some? {
      var pattern := PatternOf(entries, keys);
      EntriesForRoute(m, methods, route, Entry(pattern, LastInserted(entries, keys).value));
    }
    if ServesKeys(m, methods, route, keys) {
      var pattern :| Serves(m, methods, route, pattern) && Complete(pattern) && KeysOf(pattern) == keys;
      EntriesForRoute(m, methods, route, Entry(pattern, route));
      assert Entry(pattern, route) in entries;
    }
  }

  /** The handler stored under some keys is the last route of the list that serves under them. */
  lemma {:induction false} LastRouteWins(m: string, methods: seq<string>, routes: seq<Route>, keys: seq<Key>) returns (n: nat)
    requires LastInserted(LogOf(m, methods, routes), keys).Some?
    ensures n < |routes| && LastInserted(LogOf(m, methods, routes), keys) == Some(routes[n])
    ensures forall j :: n < j < |routes| ==> !ServesKeys(m, methods, routes[j], keys)
  {
    hide EntriesFor, ServesKeys, LastInserted;
    RS.LastInsertedIsLogged(LogOf(m, methods, routes), keys);
    var init, route := routes[..|routes| - 1], routes[|routes| - 1];
    var entries := if route.path == "" then [] else EntriesFor(m, methods, route);
    LastOfTwo(LogOf(m, methods, init), entries, keys);
    assert LastInserted([], keys) == None by {
      RS.LastInsertedIsLogged([], keys);
    }
    assert LastInserted(entries, keys) == (if ServesKeys(m, methods, route, keys) then Some(route) else None) by {
      if route.path == "" {
        NoPathServesNothing(m, methods, route, keys);
      } else {
        EntriesStoreRoute(m, methods, route, keys);
      }
    }
    if ServesKeys(m, methods, route, keys) {
      n := |routes| - 1;
    } else {
      n := LastRouteWins(m, methods, init, keys);
    }
  }

  lemma NoPathServesNothing(m: string, methods: seq<string>, route: Route, keys: seq<Key>)
    requires route.path == ""
    ensures !ServesKeys(m, methods, route, keys)
  {
  }

  /** End to end: a path resolves to the last listed route among those that serve the first matching pattern, and to
      nothing exactly when no route serves a pattern that matches. */
  lemma ResolvesToServingRoute(m: string, methods: seq<string>, routes: seq<Route>, decode: RS.Decoder, path: string)
    requires forall seg :: decode(seg).Some?
    ensures var segs := Segments(path);
            match Lookup(TrieFor(m, methods, routes), decode, segs)
            case Thrown => false
            case NotFound =>
              forall route, pattern :: route in routes ==> !Answers(m, methods, route, pattern, segs)
            case Matched(found, _) =>
              exists pattern, n ::
                && 0 <= n < |routes| && found == routes[n] && Answers(m, methods, found, pattern, segs)
                && (forall route, other :: route in routes && Answers(m, methods, route, other, segs) ==>
                      RS.Precedes(KeysOf(pattern), KeysOf(other)))
                && forall j :: n < j < |routes| ==> !ServesKeys(m, methods, routes[j], KeysOf(pattern))
  {
    hide ServesKeys;
    var log := LogOf(m, methods, routes);
    var segs := Segments(path);
    RS.FindAgreesWithScan(log, decode, segs);
    forall route, pattern | route in routes && Answers(m, methods, route, pattern, segs)
      ensures Entry(pattern, route) in log && RS.EntryMatches(Entry(pattern, route), segs)
    {
      LogIsServed(m, methods, routes, Entry(pattern, route));
    }
    var o := RS.Seek(Build(log), decode, [], segs);
    if o.Hit? {
      var found := Build(log).handlers[o.rest];
      var pattern := PatternOf(log, o.rest);
      var n := LastRouteWins(m, methods, routes, o.rest);
      LogIsServed(m, methods, routes, Entry(pattern, found));
      assert 0 <= n < |routes| && found == routes[n] && Answers(m, methods, found, pattern, segs);
    }
  }

  /** Which insertions a method gets, pattern by pattern: each route's path for every method, and the path followed by
      `:id` for PATCH and DELETE; for any other method that longer pattern is there only if it is itself a path. */
  lemma IdVariantLogged(m: string, methods: seq<string>, routes: seq<Route>, route: Route)
    requires route in routes && route.path != "" && m in methods
    ensures Entry(Segments(route.path), route) in LogOf(m, methods, routes)
    ensures m == "PATCH" || m == "DELETE" ==> Entry(Segments(route.path) + [":id"], route) in LogOf(m, methods, routes)
    ensures m != "PATCH" && m != "DELETE" ==>
              forall e :: e in LogOf(m, methods, routes) ==>
                exists other :: other in routes && e.route == other && e.segments == Segments(other.path)
  {
    hide LogOf, Segments;
    LogIsServed(m, methods, routes, Entry(Segments(route.path), route));
    LogIsServed(m, methods, routes, Entry(Segments(route.path) + [":id"], route));
    if m != "PATCH" && m != "DELETE" {
      forall e | e in LogOf(m, methods, routes)
        ensures exists other :: other in routes && e.route == other && e.segments == Segments(other.path)
      {
        LogIsServed(m, methods, routes, e);
      }
    }
  }

  lemma {:induction false} KeysOfAppend(segs: seq<string>, last: string)
    ensures KeysOf(segs + [last]) == KeysOf(segs) + [KeyOf(last)]
  {
    if segs == [] {
      assert segs + [last] == [last] && [last][1..] == [];
    } else {
      assert (segs + [last])[1..] == segs[1..] + [last];
      KeysOfAppend(segs[1..], last);
    }
  }

  /** Any path whose segments a listed pattern matches is found, or an undecodable segment throws. */
  lemma LoggedIsFound(m: string, methods: seq<string>, routes: seq<Route>, decode: RS.Decoder, e: Entry, path: string)
    requires e in LogOf(m, methods, routes) && Complete(e.segments) && RS.Matches(KeysOf(e.segments), Segments(path))
    ensures Lookup(TrieFor(m, methods, routes), decode, Segments(path)) != NotFound
  {
    RS.FindAgreesWithScan(LogOf(m, methods, routes), decode, Segments(path));
    assert RS.EntryMatches(e, Segments(path));
  }

  /** End to end: a PATCH or DELETE of one record of a listed route, which is neither the root nor behind a wildcard,
      is always found. */
  lemma RecordIsFound(m: string, methods: seq<string>, routes: seq<Route>, decode: RS.Decoder, route: Route, id: string)
    requires route in routes && route.path != "" && m in methods && (m == "PATCH" || m == "DELETE")
    requires Complete(Segments(route.path)) && id != "" && '/' !in id
    ensures Lookup(TrieFor(m, methods, routes), decode, Segments(route.path + "/" + id)) != NotFound
  {
    hide LogOf, Segments, Lookup;
    var base := Segments(route.path);
    SegmentsOfSubPath(route.path, id);
    SegmentsOfProper(id);
    IdVariantLogged(m, methods, routes, route);
    KeysOfAppend(base, ":id");
    MatchesItself(base);
    LoggedIsFound(m, methods, routes, decode, Entry(base + [":id"], route), route.path + "/" + id);
  }

  /** ... and so is the route itself under every method. */
  lemma RouteIsFound(m: string, methods: seq<string>, routes: seq<Route>, decode: RS.Decoder, route: Route)
    requires route in routes && route.path != "" && m in methods && Complete(Segments(route.path))
    ensures Lookup(TrieFor(m, methods, routes), decode, Segments(route.path)) != NotFound
  {
    hide LogOf, Segments, Lookup;
    IdVariantLogged(m, methods, routes, route);
    MatchesItself(Segments(route.path));
    LoggedIsFound(m, methods, routes, decode, Entry(Segments(route.path), route), route.path);
  }

  lemma {:induction false} KeyAt(segs: seq<string>, i: nat)
    requires i < |segs|
    ensures KeysOf(segs)[i] == KeyOf(segs[i])
  {
    if i > 0 {
      KeyAt(segs[1..], i - 1);
    }
  }

  lemma MatchesItself(segs: seq<string>)
    requires Wild !in KeysOf(segs)
    ensures RS.Matches(KeysOf(segs), segs)
  {
    forall i | 0 <= i < |segs| ensures KeysOf(segs)[i] == Lit(segs[i]) || KeysOf(segs)[i] == Par {
      KeyAt(segs, i);
      assert KeysOf(segs)[i] in KeysOf(segs);
    }
  }

  lemma {:induction false} PatternOf(log: seq<Entry>, keys: seq<Key>) returns (pattern: seq<string>)
    requires LastInserted(log, keys).Some?
    ensures Entry(pattern, LastInserted(log, keys).value) in log && Complete(pattern) && KeysOf(pattern) == keys
  {
    var e := log[|log| - 1];
    if Complete(e.segments) && KeysOf(e.segments) == keys {
      pattern := e.segments;
    } else {
      pattern := PatternOf(log[..|log| - 1], keys);
    }
  }

  /** What a found path comes with: the route stored for the matched keys and its bindings, under what the abandoned
      branches did to them. */
  lemma FoundWithBindings(t: Trie, decode: RS.Decoder, segs: seq<string>)
    requires WellFormed(t)
    ensures match Lookup(t, decode, segs)
            case Matched(route, params) =>
              exists keys ::
                && RS.Seek(t, decode, [], segs) == Hit(keys) && keys in t.handlers && route == t.handlers[keys]
                && params == RP.Leave(RP.Disturbance(t, [], segs, keys), RP.Bindings(t, decode, [], segs, keys, map[]))
            case NotFound => RS.Seek(t, decode, [], segs).Miss?
            case Thrown => RS.Seek(t, decode, [], segs).Threw?
  {
    hide RP.Leave, RP.Disturbance, RP.Bindings, RS.Search;
    RS.HitsHaveHandlers(t, decode, [], segs);
    if RS.Seek(t, decode, [], segs).Hit? {
      var keys := RS.Seek(t, decode, [], segs).rest;
      assert [] + keys == keys;
      RP.ParamsAreBindings(t, decode, segs);
    }
  }
}
