/** The distributed cache reload: a Redis lock with an expiry, a load, a publication, a local swap, a release,
    and the sync handlers of the other instances, as a state machine over every interleaving.

    `listed` is what a cache assigns before it publishes (`routesCache`); `served` is what it installs after
    publishing (`packagesCache`, and the route list the route engine is built from). A sync message sets both. */
module ReloadProtocol {
  import opened Prelude

  type Instance = nat
  type Snapshot = seq<string>

  const RELOAD_LOCK_TTL := 30000

  /** The key in Redis: its value is the owner's instance id. `setBy` is the call that set it, which Redis does not know. */
  datatype Lock = Lock(owner: Instance, expires: nat, setBy: nat)
  datatype Message = Message(author: Instance, snapshot: Snapshot)
  datatype Node = Node(listed: Snapshot, served: Snapshot, loaded: bool)
  datatype Phase = Acquired | Loaded | Stored | Published | Finished

  /** A `reload` call that holds the lock. The last two fields are history: whether no foreign message was waiting
      when the lock was taken, and the newest foreign message still waiting when `listed` was assigned. */
  datatype Call = Call(instance: Instance, since: nat, phase: Phase, snapshot: Snapshot, quiet: bool, atStore: Option<Snapshot>)

  /** History of the latest publication. */
  datatype Last = Last(id: nat, author: Instance, snapshot: Snapshot, reached: bool, audience: set<Instance>,
                       quiet: bool, atStore: Option<Snapshot>, swapped: bool, atSwap: Option<Snapshot>)

  datatype State = State(now: nat, db: Snapshot, lock: Option<Lock>, calls: map<nat, Call>,
                         nodes: map<Instance, Node>, queues: map<Instance, seq<Message>>,
                         known: set<Instance>, used: set<nat>, last: Option<Last>)

  datatype Action =
    | Tick(ms: nat)
    | Write(db: Snapshot)
    | Join(i: Instance)
    | Crash(i: Instance)
    | Acquire(i: Instance, id: nat)
    | Load(id: nat, succeeds: bool)
    | Store(id: nat)
    | Publish(id: nat, reached: bool)
    | Swap(id: nat)
    | Release(id: nat, reached: bool)
    | Deliver(i: Instance)

  // ---- the steps ----

  /** SET key value PX ttl NX: succeeds when the key is absent or has expired. */
  function SetNx(lock: Option<Lock>, now: nat, mine: Lock): (Option<Lock>, bool) {
    if lock.Some? && now < lock.value.expires then (lock, false) else (Some(mine), true)
  }

  /** The release script: delete the key when its value is the caller's. */
  function CompareAndDelete(lock: Option<Lock>, now: nat, owner: Instance): Option<Lock> {
    if lock.Some? && now < lock.value.expires && lock.value.owner == owner then None else lock
  }

  /** The sync handler, which ignores the instance's own messages. */
  function Handle(node: Node, i: Instance, m: Message): Node {
    if m.author == i then node else Node(m.snapshot, m.snapshot, true)
  }

  /** The newest foreign message waiting for `i`. */
  function LastForeign(i: Instance, queue: seq<Message>): Option<Snapshot> {
    if queue == [] then None
    else if queue[|queue| - 1].author != i then Some(queue[|queue| - 1].snapshot)
    else LastForeign(i, queue[..|queue| - 1])
  }

  predicate Enabled(s: State, a: Action) {
    match a
    case Tick(_) => true
    case Write(_) => true
    case Join(i) => i !in s.known
    case Crash(i) => i in s.nodes
    case Acquire(i, id) => i in s.nodes && id !in s.used
    case Load(id, _) => id in s.calls && s.calls[id].phase == Acquired
    case Store(id) => id in s.calls && s.calls[id].phase == Loaded && s.calls[id].instance in s.nodes && s.calls[id].instance in s.queues
    case Publish(id, _) => id in s.calls && s.calls[id].phase == Stored
    case Swap(id) =>
      id in s.calls && s.calls[id].phase == Published && s.calls[id].instance in s.nodes && s.calls[id].instance in s.queues
    case Release(id, _) => id in s.calls && s.calls[id].phase == Finished
    case Deliver(i) => i in s.nodes && i in s.queues && s.queues[i] != []
  }

  function DoAcquire(s: State, i: Instance, id: nat): State
    requires id !in s.used
  {
    var (lock, acquired) := SetNx(s.lock, s.now, Lock(i, s.now + RELOAD_LOCK_TTL, id));
    var quiet := i in s.queues && LastForeign(i, s.queues[i]).None?;
    var s' := s.(lock := lock, used := s.used + {id});
    if acquired then s'.(calls := s.calls[id := Call(i, s.now, Acquired, [], quiet, None)]) else s'
  }

  /** A load that throws leaves only the release in the `finally` block. */
  function DoLoad(s: State, id: nat, succeeds: bool): State
    requires id in s.calls
  {
    var c := s.calls[id];
    s.(calls := s.calls[id := if succeeds then c.(phase := Loaded, snapshot := s.db) else c.(phase := Finished)])
  }

  function DoStore(s: State, id: nat): State
    requires id in s.calls && s.calls[id].instance in s.nodes && s.calls[id].instance in s.queues
  {
    var c := s.calls[id];
    s.(calls := s.calls[id := c.(phase := Stored, atStore := LastForeign(c.instance, s.queues[c.instance]))],
       nodes := s.nodes[c.instance := s.nodes[c.instance].(listed := c.snapshot)])
  }

  function Broadcast(queues: map<Instance, seq<Message>>, m: Message): map<Instance, seq<Message>> {
    map i | i in queues :: queues[i] + [m]
  }

  /** A failing publication is logged and the reload goes on. */
  function DoPublish(s: State, id: nat, reached: bool): State
    requires id in s.calls
  {
    var c := s.calls[id];
    s.(calls := s.calls[id := c.(phase := Published)],
       queues := if reached then Broadcast(s.queues, Message(c.instance, c.snapshot)) else s.queues,
       last := Some(Last(id, c.instance, c.snapshot, reached, s.nodes.Keys, c.quiet, c.atStore, false, None)))
  }

  function DoSwap(s: State, id: nat): State
    requires id in s.calls && s.calls[id].instance in s.nodes && s.calls[id].instance in s.queues
  {
    var c := s.calls[id];
    var waiting := LastForeign(c.instance, s.queues[c.instance]);
    s.(calls := s.calls[id := c.(phase := Finished)],
       nodes := s.nodes[c.instance := s.nodes[c.instance].(served := c.snapshot, loaded := true)],
       last := if s.last.Some? && s.last.value.id == id
               then Some(s.last.value.(swapped := true, atSwap := waiting)) else s.last)
  }

  /** The release can fail to reach Redis; the call is over either way. */
  function DoRelease(s: State, id: nat, reached: bool): State
    requires id in s.calls
  {
    s.(calls := s.calls - {id},
       lock := if reached then CompareAndDelete(s.lock, s.now, s.calls[id].instance) else s.lock)
  }

  function DoDeliver(s: State, i: Instance): State
    requires i in s.nodes && i in s.queues && s.queues[i] != []
  {
    s.(nodes := s.nodes[i := Handle(s.nodes[i], i, s.queues[i][0])], queues := s.queues[i := s.queues[i][1..]])
  }

  /** The process dies: its calls, cache and subscription are gone, its lock stays until it expires. */
  function DoCrash(s: State, i: Instance): State {
    s.(nodes := s.nodes - {i}, queues := s.queues - {i}, calls := map id | id in s.calls && s.calls[id].instance != i :: s.calls[id])
  }

  function Apply(s: State, a: Action): State
    requires Enabled(s, a)
  {
    match a
    case Tick(ms) => s.(now := s.now + ms)
    case Write(db) => s.(db := db)
    case Join(i) => s.(nodes := s.nodes[i := Node([], [], false)], queues := s.queues[i := []], known := s.known + {i})
    case Crash(i) => DoCrash(s, i)
    case Acquire(i, id) => DoAcquire(s, i, id)
    case Load(id, succeeds) => DoLoad(s, id, succeeds)
    case Store(id) => DoStore(s, id)
    case Publish(id, reached) => DoPublish(s, id, reached)
    case Swap(id) => DoSwap(s, id)
    case Release(id, reached) => DoRelease(s, id, reached)
    case Deliver(i) => DoDeliver(s, i)
  }

  predicate Init(s: State) {
    s.lock.None? && s.calls == map[] && s.nodes == map[] && s.queues == map[] && s.known == {} && s.used == {} && s.last.None?
  }

  /** Every call that holds the lock is still within its lease. */
  predicate InTime(s: State) {
    forall id :: id in s.calls ==> s.now < s.calls[id].since + RELOAD_LOCK_TTL
  }

  /** An action that is not enabled does nothing, so every sequence of actions is a run. */
  function Do(s: State, a: Action): State {
    if Enabled(s, a) then Apply(s, a) else s
  }

  function After(s: State, actions: seq<Action>): State {
    if actions == [] then s else Do(After(s, actions[..|actions| - 1]), actions[|actions| - 1])
  }

  /** A run in which no call outlives its lease. */
  predicate Timely(s: State, actions: seq<Action>) {
    InTime(After(s, actions)) && (actions != [] ==> Timely(s, actions[..|actions| - 1]))
  }

  // ---- mutual exclusion ----

  predicate Wired(s: State) {
    && s.nodes.Keys == s.queues.Keys <= s.known
    && s.calls.Keys <= s.used
    && (forall id :: id in s.calls ==> s.calls[id].instance in s.nodes)
    && (s.last.Some? ==> s.last.value.author in s.known && s.last.value.id in s.used && s.last.value.audience <= s.known)
  }

  predicate Exclusive(s: State) {
    forall id :: id in s.calls ==> s.lock == Some(Lock(s.calls[id].instance, s.calls[id].since + RELOAD_LOCK_TTL, id))
  }

  lemma WiredStep(s: State, a: Action)
    requires Wired(s) && Enabled(s, a)
    ensures Wired(Apply(s, a))
  {
  }

  lemma ExclusiveStep(s: State, a: Action)
    requires Wired(s) && Exclusive(s) && InTime(s) && Enabled(s, a)
    ensures Exclusive(Apply(s, a))
  {
  }

  // ---- where the caches are heading ----

  function Or(o: Option<Snapshot>, d: Snapshot): Snapshot {
    if o.Some? then o.value else d
  }

  /** What the cache of `i` will be once its queue has been delivered. */
  function Finally(s: State, i: Instance): Node
    requires i in s.nodes && i in s.queues
  {
    match LastForeign(i, s.queues[i])
    case None => s.nodes[i]
    case Some(snapshot) => Node(snapshot, snapshot, true)
  }

  lemma {:induction false} LastForeignPop(i: Instance, queue: seq<Message>)
    requires queue != []
    ensures LastForeign(i, queue) ==
            if LastForeign(i, queue[1..]).Some? then LastForeign(i, queue[1..])
            else if queue[0].author != i then Some(queue[0].snapshot) else None
  {
    if |queue| > 1 {
      var init := queue[..|queue| - 1];
      LastForeignPop(i, init);
      assert queue[1..][..|queue| - 2] == init[1..];
    }
  }

  lemma DeliveryKeepsFinally(s: State, i: Instance, j: Instance)
    requires Enabled(s, Deliver(i)) && j in s.nodes && j in s.queues
    ensures Finally(DoDeliver(s, i), j) == Finally(s, j)
  {
    LastForeignPop(i, s.queues[i]);
  }

  /** The call that holds the lock is one of `i` between assigning `listed` and publishing. */
  predicate Storing(s: State, i: Instance) {
    && s.lock.Some? && s.lock.value.setBy in s.calls
    && var c := s.calls[s.lock.value.setBy]; c.instance == i && c.phase == Stored
  }

  /** What a running call knows about its own instance. */
  predicate CallHistory(s: State, id: nat)
    requires Wired(s) && id in s.calls
  {
    var c := s.calls[id];
    var waiting := LastForeign(c.instance, s.queues[c.instance]);
    && (c.quiet ==> waiting.None?)
    && (c.phase == Published <==> s.last.Some? && s.last.value.id == id && !s.last.value.swapped)
    && (c.phase == Published ==> s.last.value.author == c.instance)
    && (c.phase == Stored || c.phase == Published ==>
          && (waiting.None? || waiting == c.atStore)
          && (c.quiet ==> c.atStore.None?)
          && Finally(s, c.instance).listed == Or(c.atStore, c.snapshot))
  }

  predicate CallHistories(s: State)
    requires Wired(s)
  {
    forall id :: id in s.calls ==> CallHistory(s, id)
  }

  /** After a publication that reached Redis, any other instance is heading for its snapshot. */
  predicate OtherCopy(s: State, l: Last, i: Instance)
    requires Wired(s) && i in s.nodes
  {
    && (i in l.audience ==> Finally(s, i).loaded)
    && (Finally(s, i).loaded ==>
          && Finally(s, i).served == l.snapshot
          && (!Storing(s, i) ==> Finally(s, i).listed == l.snapshot))
  }

  predicate OtherCopies(s: State)
    requires Wired(s)
  {
    s.last.Some? && s.last.value.reached ==>
      forall i :: i in s.nodes && i != s.last.value.author ==> OtherCopy(s, s.last.value, i)
  }

  predicate AuthorCopy(s: State, l: Last)
    requires Wired(s) && l.author in s.nodes
  {
    if !l.swapped then
      && l.id in s.calls
      && var c := s.calls[l.id];
         c.phase == Published && c.instance == l.author && c.snapshot == l.snapshot && c.atStore == l.atStore && c.quiet == l.quiet
    else
      var f := Finally(s, l.author);
      && f.loaded && f.served == Or(l.atSwap, l.snapshot)
      && (l.atSwap.None? || l.atSwap == l.atStore)
      && (l.quiet ==> l.atStore.None?)
      && (!Storing(s, l.author) ==> f.listed == Or(l.atStore, l.snapshot))
  }

  predicate OwnCopy(s: State)
    requires Wired(s)
  {
    s.last.Some? && s.last.value.author in s.nodes ==> AuthorCopy(s, s.last.value)
  }

  predicate Invariant(s: State) {
    Wired(s) && Exclusive(s) && Copies(s)
  }

  predicate Copies(s: State)
    requires Wired(s)
  {
    CallHistories(s) && OtherCopies(s) && OwnCopy(s)
  }

  lemma TickKeepsCopies(s: State, ms: nat)
    requires Wired(s) && Exclusive(s) && Copies(s) && Enabled(s, Tick(ms))
    requires Wired(Apply(s, Tick(ms)))
    ensures Copies(Apply(s, Tick(ms)))
  {
  }

  lemma WriteKeepsCopies(s: State, db: Snapshot)
    requires Wired(s) && Exclusive(s) && Copies(s) && Enabled(s, Write(db))
    requires Wired(Apply(s, Write(db)))
    ensures Copies(Apply(s, Write(db)))
  {
  }

  lemma JoinKeepsCopies(s: State, i: Instance)
    requires Wired(s) && Exclusive(s) && Copies(s) && Enabled(s, Join(i))
    requires Wired(Apply(s, Join(i)))
    ensures Copies(Apply(s, Join(i)))
  {
  }

  lemma CrashKeepsCopies(s: State, i: Instance)
    requires Wired(s) && Exclusive(s) && Copies(s) && Enabled(s, Crash(i))
    requires Wired(Apply(s, Crash(i)))
    ensures Copies(Apply(s, Crash(i)))
  {
  }

  lemma AcquireKeepsCopies(s: State, i: Instance, id: nat)
    requires Wired(s) && Exclusive(s) && Copies(s) && InTime(s) && Enabled(s, Acquire(i, id))
    requires Wired(Apply(s, Acquire(i, id)))
    ensures Copies(Apply(s, Acquire(i, id)))
  {
  }

  lemma LoadKeepsCopies(s: State, id: nat, succeeds: bool)
    requires Wired(s) && Exclusive(s) && Copies(s) && Enabled(s, Load(id, succeeds))
    requires Wired(Apply(s, Load(id, succeeds)))
    ensures Copies(Apply(s, Load(id, succeeds)))
  {
  }

  lemma StoreKeepsCopies(s: State, id: nat)
    requires Wired(s) && Exclusive(s) && Copies(s) && Enabled(s, Store(id))
    requires Wired(Apply(s, Store(id)))
    ensures Copies(Apply(s, Store(id)))
  {
  }

  lemma PublishKeepsCopies(s: State, id: nat, reached: bool)
    requires Wired(s) && Exclusive(s) && Copies(s) && Enabled(s, Publish(id, reached))
    requires Wired(Apply(s, Publish(id, reached)))
    ensures Copies(Apply(s, Publish(id, reached)))
  {
  }

  lemma SwapKeepsCopies(s: State, id: nat)
    requires Wired(s) && Exclusive(s) && Copies(s) && Enabled(s, Swap(id))
    requires Wired(Apply(s, Swap(id)))
    ensures Copies(Apply(s, Swap(id)))
  {
  }

  lemma ReleaseKeepsCopies(s: State, id: nat, reached: bool)
    requires Wired(s) && Exclusive(s) && Copies(s) && Enabled(s, Release(id, reached))
    requires Wired(Apply(s, Release(id, reached)))
    ensures Copies(Apply(s, Release(id, reached)))
  {
  }

  lemma DeliverKeepsHistories(s: State, i: Instance)
    requires Wired(s) && CallHistories(s) && Enabled(s, Deliver(i))
    requires Wired(Apply(s, Deliver(i)))
    ensures CallHistories(Apply(s, Deliver(i)))
  {
    hide LastForeign;
    LastForeignPop(i, s.queues[i]);
  }

  lemma DeliverKeepsCopies(s: State, i: Instance)
    requires Wired(s) && Exclusive(s) && Copies(s) && Enabled(s, Deliver(i))
    requires Wired(Apply(s, Deliver(i)))
    ensures Copies(Apply(s, Deliver(i)))
  {
    hide LastForeign, CallHistories;
    DeliverKeepsHistories(s, i);
    LastForeignPop(i, s.queues[i]);
  }

  lemma StepKeepsInvariant(s: State, a: Action)
    requires Invariant(s) && InTime(s) && Enabled(s, a)
    ensures Invariant(Apply(s, a))
  {
    hide Copies, Apply, Enabled, Wired, Exclusive;
    WiredStep(s, a);
    ExclusiveStep(s, a);
    match a {
      case Tick(ms) => TickKeepsCopies(s, ms);
      case Write(db) => WriteKeepsCopies(s, db);
      case Join(i) => JoinKeepsCopies(s, i);
      case Crash(i) => CrashKeepsCopies(s, i);
      case Acquire(i, id) => AcquireKeepsCopies(s, i, id);
      case Load(id, succeeds) => LoadKeepsCopies(s, id, succeeds);
      case Store(id) => StoreKeepsCopies(s, id);
      case Publish(id, reached) => PublishKeepsCopies(s, id, reached);
      case Swap(id) => SwapKeepsCopies(s, id);
      case Release(id, reached) => ReleaseKeepsCopies(s, id, reached);
      case Deliver(i) => DeliverKeepsCopies(s, i);
    }
  }

  lemma InitInvariant(s: State)
    requires Init(s)
    ensures Invariant(s)
  {
  }

  lemma {:induction false} TimelyRunKeepsInvariant(s: State, actions: seq<Action>)
    requires Init(s) && Timely(s, actions)
    ensures Invariant(After(s, actions))
  {
    hide Apply, Enabled, Copies;
    if actions == [] {
      InitInvariant(s);
    } else {
      var init := actions[..|actions| - 1];
      TimelyRunKeepsInvariant(s, init);
      if Enabled(After(s, init), actions[|actions| - 1]) {
        StepKeepsInvariant(After(s, init), actions[|actions| - 1]);
      }
    }
  }

  // ---- main results ----

  /** At most one reload is between its acquire and its release, and it owns the lock. */
  lemma MutualExclusion(s: State, actions: seq<Action>, a: nat, b: nat)
    requires Init(s) && Timely(s, actions)
    requires a in After(s, actions).calls && b in After(s, actions).calls
    ensures a == b
    ensures var t := After(s, actions);
            t.lock == Some(Lock(t.calls[a].instance, t.calls[a].since + RELOAD_LOCK_TTL, a)) && t.now < t.lock.value.expires
  {
    TimelyRunKeepsInvariant(s, actions);
  }

  /** A release that reaches Redis frees the lock its own call took. */
  lemma ReleaseFreesOwnLock(s: State, actions: seq<Action>, id: nat)
    requires Init(s) && Timely(s, actions) && Enabled(After(s, actions), Release(id, true))
    ensures After(s, actions).lock.Some? && After(s, actions).lock.value.setBy == id
    ensures After(s, actions + [Release(id, true)]).lock.None?
  {
    TimelyRunKeepsInvariant(s, actions);
    assert (actions + [Release(id, true)])[..|actions|] == actions;
  }

  /** At some moment of the run a call of `i` had outlived its lease. */
  predicate EverOverdue(s: State, actions: seq<Action>, i: Instance) {
    || (exists id :: id in After(s, actions).calls && Overdue(After(s, actions), id, i))
    || (actions != [] && EverOverdue(s, actions[..|actions| - 1], i))
  }

  predicate Overdue(s: State, id: nat, i: Instance)
    requires id in s.calls
  {
    s.calls[id].instance == i && s.now >= s.calls[id].since + RELOAD_LOCK_TTL
  }

  predicate Holds(s: State, id: nat)
    requires id in s.calls
  {
    s.lock == Some(Lock(s.calls[id].instance, s.calls[id].since + RELOAD_LOCK_TTL, id))
  }

  /** Each running call holds the lock it set, unless its instance has been late before. */
  ghost predicate HoldersOrLate(s: State, late: Instance -> bool) {
    forall id :: id in s.calls ==> Holds(s, id) || late(s.calls[id].instance)
  }

  lemma AcquireKeepsHolders(s: State, i: Instance, id: nat, late: Instance -> bool)
    requires Wired(s) && Enabled(s, Acquire(i, id)) && HoldersOrLate(s, late)
    requires forall id :: id in s.calls && Overdue(s, id, s.calls[id].instance) ==> late(s.calls[id].instance)
    ensures HoldersOrLate(DoAcquire(s, i, id), late)
  {
    hide LastForeign;
  }

  lemma ReleaseKeepsHolders(s: State, id: nat, reached: bool, late: Instance -> bool)
    requires Enabled(s, Release(id, reached)) && HoldersOrLate(s, late)
    ensures HoldersOrLate(DoRelease(s, id, reached), late)
  {
  }

  lemma HoldersStep(s: State, a: Action, late: Instance -> bool, later: Instance -> bool)
    requires Wired(s) && Enabled(s, a) && HoldersOrLate(s, late)
    requires forall i :: late(i) ==> later(i)
    requires forall id :: id in s.calls && Overdue(s, id, s.calls[id].instance) ==> later(s.calls[id].instance)
    ensures HoldersOrLate(Apply(s, a), later)
  {
    hide LastForeign, Wired, Overdue, DoAcquire, DoRelease;
    match a {
      case Acquire(i, id) => AcquireKeepsHolders(s, i, id, later);
      case Release(id, reached) => ReleaseKeepsHolders(s, id, reached, later);
      case _ =>
    }
  }

  lemma {:induction false} RunIsWired(s: State, actions: seq<Action>)
    requires Init(s)
    ensures Wired(After(s, actions))
  {
    hide Apply, Enabled, Wired;
    if actions == [] {
      assert Wired(s) by { InitInvariant(s); }
    } else {
      RunIsWired(s, actions[..|actions| - 1]);
      if Enabled(After(s, actions[..|actions| - 1]), actions[|actions| - 1]) {
        WiredStep(After(s, actions[..|actions| - 1]), actions[|actions| - 1]);
      }
    }
  }

  lemma {:induction false} RunHolders(s: State, actions: seq<Action>)
    requires Init(s)
    ensures HoldersOrLate(After(s, actions), (i: Instance) => EverOverdue(s, actions, i))
  {
    hide Apply, Enabled, Wired, Holds, Overdue;
    if actions != [] {
      var init, a := actions[..|actions| - 1], actions[|actions| - 1];
      RunHolders(s, init);
      RunIsWired(s, init);
      var t := After(s, init);
      if Enabled(t, a) {
        HoldersStep(t, a, (i: Instance) => EverOverdue(s, init, i), (i: Instance) => EverOverdue(s, actions, i));
      }
    }
  }

  /** In every run, whoever else is late: a call of an instance none of whose calls ever was late holds the lock that
      it set, and its release frees that lock and no other. */
  lemma PunctualInstanceFreesOwnLock(s: State, actions: seq<Action>, id: nat)
    requires Init(s) && Enabled(After(s, actions), Release(id, true))
    requires !EverOverdue(s, actions, After(s, actions).calls[id].instance)
    ensures Holds(After(s, actions), id) && After(s, actions + [Release(id, true)]).lock.None?
  {
    hide EverOverdue, Wired;
    RunHolders(s, actions);
    AfterSnoc(s, actions, Release(id, true));
    NotLateYet(s, actions, id);
  }

  lemma NotLateYet(s: State, actions: seq<Action>, id: nat)
    requires id in After(s, actions).calls && !EverOverdue(s, actions, After(s, actions).calls[id].instance)
    ensures After(s, actions).now < After(s, actions).calls[id].since + RELOAD_LOCK_TTL
  {
    assert !Overdue(After(s, actions), id, After(s, actions).calls[id].instance);
  }

  /** The value compared is the instance id, not the call, so a release can take away the lock of another call: in
      every run only one of its own instance, and only once a call of that instance has outlived its lease. */
  lemma ReleaseTakesAnotherCallsLock(s: State, actions: seq<Action>, id: nat)
    requires Init(s) && Enabled(After(s, actions), Release(id, true))
    requires After(s, actions).lock.Some? && After(s, actions).lock.value.setBy != id
    requires After(s, actions + [Release(id, true)]).lock.None?
    ensures var i := After(s, actions).calls[id].instance;
            After(s, actions).lock.value.owner == i && EverOverdue(s, actions, i)
  {
    hide EverOverdue, Wired;
    RunHolders(s, actions);
    AfterSnoc(s, actions, Release(id, true));
  }

  /** A lock that is not released, whether its holder runs on or has died, keeps every other call out for thirty
      seconds and no longer. */
  lemma LeaseLastsThirtySeconds(s: State, actions: seq<Action>, i: Instance, id: nat, dies: bool, ms: nat, j: Instance, other: nat)
    requires Init(s) && Enabled(After(s, actions), Acquire(i, id)) && After(s, actions).lock.None?
    requires j in After(s, actions).nodes && j != i && other !in After(s, actions).used && other != id
    ensures var held := actions + [Acquire(i, id)] + (if dies then [Crash(i)] else []);
            other in After(s, held + [Tick(ms)] + [Acquire(j, other)]).calls <==> ms >= 30000
  {
    hide After, Wired;
    RunIsWired(s, actions);
    var t := After(s, actions);
    assert other !in t.calls by { WiredCalls(t, other); }
    AfterSnoc(s, actions, Acquire(i, id));
    var held := actions + [Acquire(i, id)];
    if dies {
      AfterSnoc(s, held, Crash(i));
      held := held + [Crash(i)];
    } else {
      assert held + [] == held;
    }
    AfterSnoc(s, held, Tick(ms));
    AfterSnoc(s, held + [Tick(ms)], Acquire(j, other));
  }

  lemma WiredCalls(s: State, id: nat)
    requires Wired(s)
    ensures id in s.calls ==> id in s.used
  {
  }

  predicate Quiescent(s: State) {
    s.calls == map[] && forall i :: i in s.queues ==> s.queues[i] == []
  }

  /** At quiescence every instance that has a cache holds the snapshot of the last reload that published;
      the one that published it holds it exactly when no foreign sync still waiting in its queue overtook it. */
  lemma Convergence(s: State, actions: seq<Action>)
    requires Init(s) && Timely(s, actions)
    requires Quiescent(After(s, actions)) && After(s, actions).last.Some?
    ensures var t := After(s, actions);
            var l := t.last.value;
            && (l.reached ==> forall i :: i in t.nodes && i != l.author ==>
                  && (i in l.audience ==> t.nodes[i].loaded)
                  && (t.nodes[i].loaded ==> t.nodes[i].listed == t.nodes[i].served == l.snapshot))
            && (l.author in t.nodes ==>
                  var n := t.nodes[l.author];
                  && n.loaded
                  && (n.served == l.snapshot <==> l.atSwap.None? || l.atSwap == Some(l.snapshot))
                  && (n.listed == l.snapshot <==> l.atStore.None? || l.atStore == Some(l.snapshot))
                  && (n.listed == n.served <==> l.atStore.None? || l.atSwap.Some? || l.atStore == Some(l.snapshot))
                  && (l.quiet ==> n.listed == n.served == l.snapshot))
  {
    TimelyRunKeepsInvariant(s, actions);
  }

  /** Every database content up to the end of the run. */
  function Contents(s: State, actions: seq<Action>): set<Snapshot> {
    {After(s, actions).db} + (if actions == [] then {} else Contents(s, actions[..|actions| - 1]))
  }

  predicate DrawnFrom(s: State, contents: set<Snapshot>)
  {
    && s.db in contents
    && (forall id :: id in s.calls ==> s.calls[id].snapshot in contents + {[]})
    && (forall id :: id in s.calls && s.calls[id].phase in {Loaded, Stored, Published} ==> s.calls[id].snapshot in contents)
    && (forall i :: i in s.nodes ==> s.nodes[i].listed in contents + {[]} && s.nodes[i].served in contents + {[]})
    && (forall i, m :: i in s.queues && m in s.queues[i] ==> m.snapshot in contents)
    && (forall i :: i in s.nodes && s.nodes[i].loaded ==> s.nodes[i].served in contents)
  }

  /** In every run, timely or not, whatever an instance serves once it is loaded was the whole database
      content at one moment of the run: no interleaving mixes two of them. */
  lemma {:induction false} ServedSnapshotsAreWhole(s: State, actions: seq<Action>)
    requires Init(s)
    ensures DrawnFrom(After(s, actions), Contents(s, actions))
  {
    hide Apply, Enabled;
    if actions != [] {
      var init := actions[..|actions| - 1];
      ServedSnapshotsAreWhole(s, init);
      var a := actions[|actions| - 1];
      DrawnFromMore(After(s, init), Contents(s, init), Contents(s, actions));
      if Enabled(After(s, init), a) {
        DrawnFromStep(After(s, init), a, Contents(s, actions));
      }
    }
  }

  lemma DrawnFromMore(s: State, contents: set<Snapshot>, more: set<Snapshot>)
    requires DrawnFrom(s, contents) && contents <= more
    ensures DrawnFrom(s, more)
  {
  }

  lemma DrawnFromStep(s: State, a: Action, contents: set<Snapshot>)
    requires DrawnFrom(s, contents) && Enabled(s, a) && Apply(s, a).db in contents
    ensures DrawnFrom(Apply(s, a), contents)
  {
    hide LastForeign, SetNx, CompareAndDelete;
  }

  // ---- runs in which the conditions fail ----

  lemma Extend(s: State, actions: seq<Action>, a: Action)
    requires Timely(s, actions) && Enabled(After(s, actions), a) && InTime(Apply(After(s, actions), a))
    ensures Timely(s, actions + [a]) && After(s, actions + [a]) == Apply(After(s, actions), a)
  {
    assert (actions + [a])[..|actions|] == actions;
  }

  lemma TimelyNow(s: State, actions: seq<Action>)
    requires Timely(s, actions)
    ensures InTime(After(s, actions))
  {
  }

  /** From a state with a free lock, instance `i` can load and publish what the database holds. */
  lemma PublishNow(s: State, actions: seq<Action>, i: Instance, id: nat) returns (longer: seq<Action>)
    requires Timely(s, actions)
    requires var t := After(s, actions);
             Wired(t) && t.lock.None? && t.calls == map[] && i in t.nodes && id !in t.used
    ensures Timely(s, longer)
    ensures var t := After(s, actions);
            var u := After(s, longer);
            var waiting := LastForeign(i, t.queues[i]);
            && u.now == t.now && u.db == t.db && u.known == t.known && u.used == t.used + {id}
            && u.lock == Some(Lock(i, t.now + RELOAD_LOCK_TTL, id))
            && u.calls == map[id := Call(i, t.now, Published, t.db, waiting.None?, waiting)]
            && u.nodes == t.nodes[i := t.nodes[i].(listed := t.db)]
            && u.queues == Broadcast(t.queues, Message(i, t.db))
            && u.last == Some(Last(id, i, t.db, true, t.nodes.Keys, waiting.None?, waiting, false, None))
  {
    hide After, Timely, LastForeign;
    Extend(s, actions, Acquire(i, id));
    longer := actions + [Acquire(i, id)];
    Extend(s, longer, Load(id, true));
    longer := longer + [Load(id, true)];
    Extend(s, longer, Store(id));
    longer := longer + [Store(id)];
    assert After(s, longer).nodes.Keys == After(s, actions).nodes.Keys;
    Extend(s, longer, Publish(id, true));
    longer := longer + [Publish(id, true)];
  }

  lemma SwapAndRelease(s: State, actions: seq<Action>, i: Instance, id: nat) returns (longer: seq<Action>)
    requires Timely(s, actions)
    requires var t := After(s, actions);
             && Wired(t) && t.calls.Keys == {id} && t.calls[id].instance == i && t.calls[id].phase == Published
             && t.lock == Some(Lock(i, t.now + RELOAD_LOCK_TTL, id)) && t.last.Some? && t.last.value.id == id
    ensures Timely(s, longer)
    ensures var t := After(s, actions);
            var u := After(s, longer);
            && u.now == t.now && u.db == t.db && u.known == t.known && u.used == t.used
            && u.lock.None? && u.calls == map[] && u.queues == t.queues
            && u.nodes == t.nodes[i := t.nodes[i].(served := t.calls[id].snapshot, loaded := true)]
            && u.last == Some(t.last.value.(swapped := true, atSwap := LastForeign(i, t.queues[i])))
  {
    hide After, Timely, LastForeign;
    TimelyNow(s, actions);
    Extend(s, actions, Swap(id));
    longer := actions + [Swap(id)];
    Extend(s, longer, Release(id, true));
    longer := longer + [Release(id, true)];
  }

  lemma DeliverOne(s: State, actions: seq<Action>, i: Instance) returns (longer: seq<Action>)
    requires Timely(s, actions) && Enabled(After(s, actions), Deliver(i))
    ensures Timely(s, longer) && After(s, longer) == DoDeliver(After(s, actions), i)
  {
    hide After, Timely;
    TimelyNow(s, actions);
    Extend(s, actions, Deliver(i));
    longer := actions + [Deliver(i)];
  }

  /** Two instances; 0 has reloaded and its sync waits at 1. */
  lemma FirstReloadDone(s: State) returns (actions: seq<Action>)
    requires Init(s) && s.now == 0
    ensures Timely(s, actions)
    ensures var t := After(s, actions);
            && Wired(t) && t.now == 0 && t.db == ["b"] && t.lock.None? && t.calls == map[] && t.used == {0}
            && t.nodes == map[0 := Node(["a"], ["a"], true), 1 := Node([], [], false)]
            && t.queues == map[0 := [Message(0, ["a"])], 1 := [Message(0, ["a"])]]
  {
    hide After, Timely, LastForeign;
    StartEmpty(s);
    Extend(s, [], Join(0));
    Extend(s, [] + [Join(0)], Join(1));
    actions := [] + [Join(0)] + [Join(1)];
    Extend(s, actions, Write(["a"]));
    actions := actions + [Write(["a"])];
    actions := PublishNow(s, actions, 0, 0);
    assert [] + [Message(0, ["a"])] == [Message(0, ["a"])];
    actions := SwapAndRelease(s, actions, 0, 0);
    Extend(s, actions, Write(["b"]));
    actions := actions + [Write(["b"])];
  }

  /** ... and 1 has published its own reload before handling that sync. */
  lemma SecondReloadPublished(s: State) returns (actions: seq<Action>)
    requires Init(s) && s.now == 0
    ensures Timely(s, actions)
    ensures var t := After(s, actions);
            && Wired(t) && t.now == 0
            && t.calls == map[1 := Call(1, 0, Published, ["b"], false, Some(["a"]))]
            && t.lock == Some(Lock(1, RELOAD_LOCK_TTL, 1))
            && t.nodes == map[0 := Node(["a"], ["a"], true), 1 := Node(["b"], [], false)]
            && t.queues == map[0 := [Message(0, ["a"]), Message(1, ["b"])], 1 := [Message(0, ["a"]), Message(1, ["b"])]]
            && t.last == Some(Last(1, 1, ["b"], true, {0, 1}, false, Some(["a"]), false, None))
  {
    hide After, Timely;
    actions := FirstReloadDone(s);
    var t := After(s, actions);
    assert t.nodes.Keys == {0, 1};
    assert [Message(0, ["a"])][..0] == [];
    assert LastForeign(1, t.queues[1]) == Some(["a"]);
    actions := PublishNow(s, actions, 1, 1);
    assert [Message(0, ["a"])] + [Message(1, ["b"])] == [Message(0, ["a"]), Message(1, ["b"])];
  }

  lemma StartEmpty(s: State)
    requires Init(s)
    ensures Timely(s, []) && After(s, []) == s
  {
  }

  /** All four syncs of the two reloads are delivered. */
  lemma DrainTwo(s: State, actions: seq<Action>) returns (longer: seq<Action>)
    requires Timely(s, actions)
    requires var t := After(s, actions);
             && t.nodes.Keys == {0, 1} && t.calls == map[]
             && t.queues == map[0 := [Message(0, ["a"]), Message(1, ["b"])], 1 := [Message(0, ["a"]), Message(1, ["b"])]]
    ensures Timely(s, longer)
    ensures var t := After(s, actions);
            var u := After(s, longer);
            && Quiescent(u) && u.last == t.last
            && u.nodes == map[0 := Node(["b"], ["b"], true), 1 := Node(["a"], ["a"], true)]
  {
    hide After, Timely;
    longer := DeliverOne(s, actions, 0);
    longer := DeliverOne(s, longer, 0);
    longer := DeliverOne(s, longer, 1);
    longer := DeliverOne(s, longer, 1);
  }

  /** A timely run after which the instance that reloaded last serves the older snapshot for good. */
  lemma OwnReloadOvertaken(s: State) returns (actions: seq<Action>)
    requires Init(s) && s.now == 0
    ensures Timely(s, actions) && Quiescent(After(s, actions))
    ensures var t := After(s, actions);
            && t.last.Some? && t.last.value.author == 1 && t.last.value.reached && t.last.value.snapshot == ["b"]
            && 1 in t.nodes && t.nodes[1].served == ["a"]
  {
    hide After, Timely, LastForeign;
    actions := SecondReloadPublished(s);
    actions := SwapAndRelease(s, actions, 1, 1);
    actions := DrainTwo(s, actions);
  }

  /** A timely run after which the route list and the route engine of the last reloader disagree. */
  lemma RouteEngineTorn(s: State) returns (actions: seq<Action>)
    requires Init(s) && s.now == 0
    ensures Timely(s, actions) && Quiescent(After(s, actions))
    ensures var t := After(s, actions); 1 in t.nodes && t.nodes[1].listed == ["a"] && t.nodes[1].served == ["b"]
  {
    hide After, Timely, LastForeign;
    actions := SecondReloadPublished(s);
    actions := DeliverOne(s, actions, 1);
    actions := SwapAndRelease(s, actions, 1, 1);
    actions := DeliverOne(s, actions, 1);
    actions := DeliverOne(s, actions, 0);
    actions := DeliverOne(s, actions, 0);
  }

  /** When a reload outlives its lease, two reloads can be under way at once. */
  lemma OverlapAfterExpiry(s: State) returns (actions: seq<Action>)
    requires Init(s)
    ensures var t := After(s, actions); {0, 1} <= t.calls.Keys && !InTime(t)
  {
    hide After, Timely;
    StartEmpty(s);
    AfterSnoc(s, [], Join(0));
    AfterSnoc(s, [] + [Join(0)], Join(1));
    actions := [] + [Join(0)] + [Join(1)];
    AfterSnoc(s, actions, Acquire(0, 0));
    actions := actions + [Acquire(0, 0)];
    AfterSnoc(s, actions, Tick(RELOAD_LOCK_TTL));
    actions := actions + [Tick(RELOAD_LOCK_TTL)];
    AfterSnoc(s, actions, Acquire(1, 1));
    actions := actions + [Acquire(1, 1)];
  }

  /** A call of instance 0 is late, and a second one has taken the lock. */
  lemma LateCallReplaced(s: State) returns (actions: seq<Action>)
    requires Init(s)
    ensures var t := After(s, actions);
            && t.now == s.now + RELOAD_LOCK_TTL && t.used == {0, 1} && t.nodes.Keys == {0, 1}
            && t.calls == map[0 := Call(0, s.now, Acquired, [], true, None), 1 := Call(0, t.now, Acquired, [], true, None)]
            && t.lock == Some(Lock(0, t.now + RELOAD_LOCK_TTL, 1))
  {
    hide After;
    StartEmpty(s);
    actions := [Join(0)];
    AfterSnoc(s, [], Join(0));
    assert [] + [Join(0)] == actions;
    AfterSnoc(s, actions, Join(1));
    actions := actions + [Join(1)];
    AfterSnoc(s, actions, Acquire(0, 0));
    actions := actions + [Acquire(0, 0)];
    AfterSnoc(s, actions, Tick(RELOAD_LOCK_TTL));
    actions := actions + [Tick(RELOAD_LOCK_TTL)];
    AfterSnoc(s, actions, Acquire(0, 1));
    actions := actions + [Acquire(0, 1)];
  }

  /** And it happens: the late first call of instance 0 deletes the lock of its second, instance 1 gets it, and two
      reloads are under way although both are within their leases. */
  lemma LockTaken(s: State) returns (actions: seq<Action>)
    requires Init(s)
    ensures var t := After(s, actions);
            && t.calls.Keys == {1, 2} && InTime(t) && t.calls[1].instance == 0 && t.calls[2].instance == 1
            && t.lock.Some? && t.lock.value.setBy == 2
  {
    hide After;
    actions := LateCallReplaced(s);
    AfterSnoc(s, actions, Load(0, false));
    actions := actions + [Load(0, false)];
    AfterSnoc(s, actions, Release(0, true));
    actions := actions + [Release(0, true)];
    AfterSnoc(s, actions, Acquire(1, 2));
    actions := actions + [Acquire(1, 2)];
  }

  lemma AfterSnoc(s: State, actions: seq<Action>, a: Action)
    ensures After(s, actions + [a]) == Do(After(s, actions), a)
  {
    assert (actions + [a])[..|actions|] == actions;
  }
}
