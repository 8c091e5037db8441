/** `loadRoutes` transforms the code of hooks and handlers in place; global hooks are shared by every route. */
module HookLoading {
  import opened CodeTransformer
  import opened CodeTransformerLaws

  class Hook {
    const id: int
    var preHook: string   // "" where the source has null or an empty string
    var afterHook: string

    constructor (id: int, preHook: string, afterHook: string) {
      this.id, this.preHook, this.afterHook := id, preHook, afterHook;
    }
  }

  class Handler {
    var logic: string

    constructor (logic: string) {
      this.logic := logic;
    }
  }

  class RouteRecord {
    var hooks: seq<Hook>
    const handlers: seq<Handler>

    constructor (hooks: seq<Hook>, handlers: seq<Handler>) {
      this.hooks, this.handlers := hooks, handlers;
    }
  }

  /** The first hook of each id. */
  function UniqueHooks(hooks: seq<Hook>): (r: seq<Hook>)
    ensures forall h :: h in r ==> h in hooks
  {
    if hooks == [] then []
    else
      var init := UniqueHooks(hooks[..|hooks| - 1]);
      var last := hooks[|hooks| - 1];
      if exists h :: h in hooks[..|hooks| - 1] && h.id == last.id then init else init + [last]
  }

  /** Each id is kept once, by its first bearer. */
  lemma {:induction false} UniqueHooksKeepsFirst(hooks: seq<Hook>, i: nat)
    requires i < |hooks|
    ensures hooks[i] in UniqueHooks(hooks) || exists j :: 0 <= j < i && hooks[j].id == hooks[i].id
    ensures exists h :: h in UniqueHooks(hooks) && h.id == hooks[i].id
    ensures forall a, b :: 0 <= a < b < |UniqueHooks(hooks)| ==> UniqueHooks(hooks)[a].id != UniqueHooks(hooks)[b].id
  {
    var n := |hooks| - 1;
    var init := hooks[..n];
    if n > 0 {
      UniqueHooksKeepsFirst(init, if i < n then i else 0);
      if i == n && exists h :: h in init && h.id == hooks[n].id {
        var j :| 0 <= j < n && init[j].id == hooks[n].id;
        UniqueHooksKeepsFirst(init, j);
      }
    }
  }

  /** The place of the first hook with this id, or the length of the list. */
  function FirstWith(hooks: seq<Hook>, id: int): (n: nat)
    ensures n <= |hooks| && (n < |hooks| ==> hooks[n].id == id)
    ensures forall i :: 0 <= i < n ==> hooks[i].id != id
  {
    if hooks == [] then 0
    else
      var n := FirstWith(hooks[..|hooks| - 1], id);
      if n < |hooks| - 1 || hooks[|hooks| - 1].id == id then n else |hooks|
  }

  lemma FirstWithStays(hooks: seq<Hook>, id: int)
    requires hooks != [] && FirstWith(hooks[..|hooks| - 1], id) < |hooks| - 1
    ensures FirstWith(hooks, id) == FirstWith(hooks[..|hooks| - 1], id)
  {
  }

  /** The kept hooks stay in the order of the list, each being the first with its id. */
  lemma {:induction false} UniqueHooksInOrder(hooks: seq<Hook>)
    ensures forall a :: 0 <= a < |UniqueHooks(hooks)| ==>
              var n := FirstWith(hooks, UniqueHooks(hooks)[a].id); n < |hooks| && hooks[n] == UniqueHooks(hooks)[a]
    ensures forall a, b :: 0 <= a < b < |UniqueHooks(hooks)| ==>
              FirstWith(hooks, UniqueHooks(hooks)[a].id) < FirstWith(hooks, UniqueHooks(hooks)[b].id)
  {
    if hooks != [] {
      var init, last := hooks[..|hooks| - 1], hooks[|hooks| - 1];
      UniqueHooksInOrder(init);
      forall a | 0 <= a < |UniqueHooks(init)|
        ensures FirstWith(hooks, UniqueHooks(init)[a].id) == FirstWith(init, UniqueHooks(init)[a].id)
      {
        FirstWithStays(hooks, UniqueHooks(init)[a].id);
      }
    }
  }

  /** Shared hooks go first: the list of a route begins with what is kept of the global hooks alone. */
  lemma {:induction false} GlobalHooksFirst(globalHooks: seq<Hook>, own: seq<Hook>)
    ensures UniqueHooks(globalHooks) <= UniqueHooks(globalHooks + own)
    decreases |own|
  {
    if own == [] {
      assert globalHooks + own == globalHooks;
    } else {
      GlobalHooksFirst(globalHooks, own[..|own| - 1]);
      assert (globalHooks + own)[..|globalHooks + own| - 1] == globalHooks + own[..|own| - 1];
    }
  }

  function Rewritten(code: string): string {
    Transform(Code, code)
  }

  ghost function HookLists(routes: seq<RouteRecord>): (lists: seq<seq<Hook>>)
    reads routes
    ensures |lists| == |routes|
  {
    seq(|routes|, i requires 0 <= i < |routes| reads routes => routes[i].hooks)
  }

  ghost function SetOf<T>(s: seq<T>): set<T> {
    set x | x in s
  }

  ghost function Union<T>(start: set<T>, lists: seq<seq<T>>): (u: set<T>)
    ensures start <= u
  {
    if lists == [] then start else Union(start, lists[..|lists| - 1]) + SetOf(lists[|lists| - 1])
  }

  lemma {:induction false} UnionHolds<T>(start: set<T>, lists: seq<seq<T>>, i: nat)
    requires i < |lists|
    ensures SetOf(lists[i]) <= Union(start, lists)
  {
    if i < |lists| - 1 {
      UnionHolds(start, lists[..|lists| - 1], i);
    }
  }

  lemma UnionNone<T>(start: set<T>, lists: seq<seq<T>>)
    requires lists == []
    ensures Union(start, lists) == start
  {
  }

  lemma UnionStep<T>(start: set<T>, lists: seq<seq<T>>, i: nat)
    requires i < |lists|
    ensures Union(start, lists[..i + 1]) == Union(start, lists[..i]) + SetOf(lists[i])
  {
    assert lists[..i + 1][..i] == lists[..i];
  }

  /** Every hook the route list reaches: the global ones and each route's own. */
  ghost function HooksOf(globalHooks: seq<Hook>, routes: seq<RouteRecord>): set<Hook>
    reads routes
  {
    Union(SetOf(globalHooks), HookLists(routes))
  }

  ghost function HandlerLists(routes: seq<RouteRecord>): (lists: seq<seq<Handler>>)
    ensures |lists| == |routes|
  {
    seq(|routes|, i requires 0 <= i < |routes| => routes[i].handlers)
  }

  ghost function HandlersOf(routes: seq<RouteRecord>): set<Handler> {
    Union({}, HandlerLists(routes))
  }

  /** The hook list each route is given. */
  function Merged(globalHooks: seq<Hook>, lists: seq<seq<Hook>>): (r: seq<seq<Hook>>)
    ensures |r| == |lists|
  {
    seq(|lists|, i requires 0 <= i < |lists| => UniqueHooks(globalHooks + lists[i]))
  }

  /** Each route is given the global hooks first, then its own, of each id the first. */
  lemma MergedLists(globalHooks: seq<Hook>, lists: seq<seq<Hook>>, i: nat)
    requires i < |lists|
    ensures UniqueHooks(globalHooks) <= Merged(globalHooks, lists)[i]
    ensures forall h :: h in globalHooks || h in lists[i] ==>
              exists kept :: kept in Merged(globalHooks, lists)[i] && kept.id == h.id
    ensures forall h :: h in Merged(globalHooks, lists)[i] ==> h in globalHooks || h in lists[i]
  {
    hide UniqueHooks;
    var all := globalHooks + lists[i];
    GlobalHooksFirst(globalHooks, lists[i]);
    forall h | h in globalHooks || h in lists[i]
      ensures exists kept :: kept in Merged(globalHooks, lists)[i] && kept.id == h.id
    {
      assert h in all;
      var k :| 0 <= k < |all| && all[k] == h;
      UniqueHooksKeepsFirst(all, k);
    }
  }

  /** One pass over a list of hooks, which may hold the same object many times over several calls. */
  method TransformHooks(hooks: seq<Hook>)
    modifies hooks
    ensures forall h :: h in hooks ==> h.preHook == Rewritten(old(h.preHook)) && h.afterHook == Rewritten(old(h.afterHook))
  {
    hide Rewritten;
    for i := 0 to |hooks|
      invariant forall h :: h in hooks[..i] ==> h.preHook == Rewritten(old(h.preHook)) && h.afterHook == Rewritten(old(h.afterHook))
      invariant forall h :: h in hooks && h !in hooks[..i] ==> h.preHook == old(h.preHook) && h.afterHook == old(h.afterHook)
    {
      var hook := hooks[i];
      RewriteTwice(old(hook.preHook));
      RewriteTwice(old(hook.afterHook));
      if hook.preHook != "" {
        hook.preHook := TransformText(hook.preHook);
      }
      if hook.afterHook != "" {
        hook.afterHook := TransformText(hook.afterHook);
      }
      assert hooks[..i + 1] == hooks[..i] + [hook];
    }
  }

  method TransformHandlers(handlers: seq<Handler>)
    modifies handlers
    ensures forall h :: h in handlers ==> h.logic == Rewritten(old(h.logic))
  {
    hide Rewritten;
    for i := 0 to |handlers|
      invariant forall h :: h in handlers[..i] ==> h.logic == Rewritten(old(h.logic))
      invariant forall h :: h in handlers && h !in handlers[..i] ==> h.logic == old(h.logic)
    {
      var handler := handlers[i];
      RewriteTwice(old(handler.logic));
      if handler.logic != "" {
        handler.logic := TransformText(handler.logic);
      }
      assert handlers[..i + 1] == handlers[..i] + [handler];
    }
  }

  method TransformText(code: string) returns (result: string)
    ensures result == Rewritten(code)
  {
    result := TransformCode(code);
  }

  lemma RewriteTwice(code: string)
    ensures Rewritten(Rewritten(code)) == Rewritten(code)
    ensures Rewritten("") == ""
  {
    Idempotent(code);
  }

  lemma RewriteTwiceAll()
    ensures forall code :: Rewritten(Rewritten(code)) == Rewritten(code)
  {
    forall code ensures Rewritten(Rewritten(code)) == Rewritten(code) {
      RewriteTwice(code);
    }
  }

  /** Of `all` hooks exactly those in `done` hold their source text transformed. */
  ghost predicate HooksAre(all: set<Hook>, done: set<Hook>, preHooks: map<Hook, string>, afterHooks: map<Hook, string>)
    requires preHooks.Keys == afterHooks.Keys == all
    reads all
  {
    forall h :: h in all ==>
      && h.preHook == (if h in done then Rewritten(preHooks[h]) else preHooks[h])
      && h.afterHook == (if h in done then Rewritten(afterHooks[h]) else afterHooks[h])
  }

  ghost predicate HandlersAre(all: set<Handler>, done: set<Handler>, logics: map<Handler, string>)
    requires logics.Keys == all
    reads all
  {
    forall h :: h in all ==> h.logic == (if h in done then Rewritten(logics[h]) else logics[h])
  }

  /** Transforming a list of hooks of which some are already transformed. */
  method ShareHooks(hooks: seq<Hook>, ghost all: set<Hook>, ghost done: set<Hook>, ghost pres: map<Hook, string>,
                    ghost afters: map<Hook, string>)
    requires pres.Keys == afters.Keys == all && SetOf(hooks) <= all
    requires HooksAre(all, done, pres, afters)
    modifies SetOf(hooks)
    ensures HooksAre(all, done + SetOf(hooks), pres, afters)
  {
    hide Rewritten;
    RewriteTwiceAll();
    TransformHooks(hooks);
  }

  method ShareHandlers(handlers: seq<Handler>, ghost all: set<Handler>, ghost done: set<Handler>,
                       ghost logics: map<Handler, string>)
    requires logics.Keys == all && SetOf(handlers) <= all
    requires HandlersAre(all, done, logics)
    modifies SetOf(handlers)
    ensures HandlersAre(all, done + SetOf(handlers), logics)
  {
    hide Rewritten;
    RewriteTwiceAll();
    TransformHandlers(handlers);
  }

  /** One route: its hook list is rebuilt with the shared global hooks in front, and all of it transformed. */
  method LoadRoute(globalHooks: seq<Hook>, route: RouteRecord,
                   ghost all: set<Hook>, ghost done: set<Hook>, ghost pres: map<Hook, string>, ghost afters: map<Hook, string>,
                   ghost handlers: set<Handler>, ghost written: set<Handler>, ghost logics: map<Handler, string>)
    requires pres.Keys == afters.Keys == all && logics.Keys == handlers
    requires SetOf(globalHooks) + SetOf(route.hooks) <= all && SetOf(route.handlers) <= handlers
    requires HooksAre(all, done, pres, afters) && HandlersAre(handlers, written, logics)
    modifies all, handlers, route`hooks
    ensures route.hooks == UniqueHooks(globalHooks + old(route.hooks))
    ensures HooksAre(all, done + SetOf(route.hooks), pres, afters)
    ensures HandlersAre(handlers, written + SetOf(route.handlers), logics)
  {
    hide Rewritten, HooksAre, HandlersAre, UniqueHooks;
    MergedStays(globalHooks, route.hooks, all);
    route.hooks := UniqueHooks(globalHooks + route.hooks);
    ShareHandlers(route.handlers, handlers, written, logics);
    ShareHooks(route.hooks, all, done, pres, afters);
  }

  /** All routes, the global hooks being transformed already. */
  method LoadEach(globalHooks: seq<Hook>, routes: seq<RouteRecord>,
                  ghost all: set<Hook>, ghost pres: map<Hook, string>, ghost afters: map<Hook, string>,
                  ghost handlers: set<Handler>, ghost logics: map<Handler, string>)
    requires forall i, j :: 0 <= i < j < |routes| ==> routes[i] != routes[j]
    requires all == HooksOf(globalHooks, routes) == pres.Keys == afters.Keys
    requires handlers == HandlersOf(routes) == logics.Keys
    requires HooksAre(all, SetOf(globalHooks), pres, afters) && HandlersAre(handlers, {}, logics)
    modifies all, handlers, routes`hooks
    ensures HookLists(routes) == Merged(globalHooks, old(HookLists(routes)))
    ensures HooksAre(all, HooksOf(globalHooks, routes), pres, afters) && HandlersAre(handlers, handlers, logics)
  {
    hide Rewritten, HooksAre, HandlersAre, UniqueHooks, Union, SetOf;
    ghost var lists, logicLists := HookLists(routes), HandlerLists(routes);
    ghost var merged := Merged(globalHooks, lists);
    ghost var done: set<Hook>, written: set<Handler> := SetOf(globalHooks), {};
    UnionNone(done, merged[..0]);
    UnionNone(written, logicLists[..0]);
    for i := 0 to |routes|
      invariant done == Union(SetOf(globalHooks), merged[..i]) && written == Union({}, logicLists[..i])
      invariant forall j :: 0 <= j < |routes| ==> routes[j].hooks == (if j < i then merged[j] else lists[j])
      invariant HooksAre(all, done, pres, afters) && HandlersAre(handlers, written, logics)
    {
      var route := routes[i];
      UnionStep(SetOf(globalHooks), merged, i);
      UnionStep({}, logicLists, i);
      UnionHolds(SetOf(globalHooks), lists, i);
      UnionHolds({}, logicLists, i);
      LoadRoute(globalHooks, route, all, done, pres, afters, handlers, written, logics);
      done, written := done + SetOf(merged[i]), written + SetOf(logicLists[i]);
    }
    assert merged[..|routes|] == merged && logicLists[..|routes|] == logicLists;
    assert HookLists(routes) == merged;
  }

  /** The global hooks are transformed once and then again for every route that shares them, yet each
      hook and handler a route ends up with holds its own source text transformed exactly once. */
  method LoadRoutes(globalHooks: seq<Hook>, routes: seq<RouteRecord>, ghost all: set<Hook>, ghost handlers: set<Handler>)
    requires all == HooksOf(globalHooks, routes) && handlers == HandlersOf(routes)
    requires forall i, j :: 0 <= i < j < |routes| ==> routes[i] != routes[j]
    modifies all, handlers, routes`hooks
    ensures HookLists(routes) == Merged(globalHooks, old(HookLists(routes)))
    ensures forall h :: h in all ==>
              if h in HooksOf(globalHooks, routes)
              then h.preHook == Transform(Code, old(h.preHook)) && h.afterHook == Transform(Code, old(h.afterHook))
              else h.preHook == old(h.preHook) && h.afterHook == old(h.afterHook)
    ensures forall h :: h in handlers ==> h.logic == Transform(Code, old(h.logic))
  {
    hide HooksAre, HandlersAre, Union, HookLists, Merged, Transform;
    ghost var pres: map<Hook, string> := map h: Hook | h in all :: h.preHook;
    ghost var afters: map<Hook, string> := map h: Hook | h in all :: h.afterHook;
    ghost var logics: map<Handler, string> := map h: Handler | h in handlers :: h.logic;
    Unchanged(all, pres, afters, handlers, logics);
    ShareHooks(globalHooks, all, {}, pres, afters);
    assert {} + SetOf(globalHooks) == SetOf(globalHooks);
    LoadEach(globalHooks, routes, all, pres, afters, handlers, logics);
    Loaded(all, HooksOf(globalHooks, routes), pres, afters, handlers, logics);
  }

  lemma MergedStays(globalHooks: seq<Hook>, list: seq<Hook>, all: set<Hook>)
    requires SetOf(globalHooks) <= all && SetOf(list) <= all
    ensures SetOf(UniqueHooks(globalHooks + list)) <= all
  {
  }

  lemma Unchanged(all: set<Hook>, pres: map<Hook, string>, afters: map<Hook, string>, handlers: set<Handler>,
                  logics: map<Handler, string>)
    requires pres == (map h | h in all :: h.preHook) && afters == (map h | h in all :: h.afterHook)
    requires logics == (map h | h in handlers :: h.logic)
    ensures HooksAre(all, {}, pres, afters) && HandlersAre(handlers, {}, logics)
  {
  }

  lemma Loaded(all: set<Hook>, done: set<Hook>, pres: map<Hook, string>, afters: map<Hook, string>,
               handlers: set<Handler>, logics: map<Handler, string>)
    requires pres.Keys == afters.Keys == all && logics.Keys == handlers
    requires HooksAre(all, done, pres, afters) && HandlersAre(handlers, handlers, logics)
    ensures forall h :: h in all ==> if h in done
              then h.preHook == Rewritten(pres[h]) && h.afterHook == Rewritten(afters[h])
              else h.preHook == pres[h] && h.afterHook == afters[h]
    ensures forall h :: h in handlers ==> h.logic == Rewritten(logics[h])
  {
    hide Rewritten;
  }
}
