/** The schema-migration locks: one lock document in MongoDB with a token and an expiry, and one lock row in SQL. */
module MigrationLock {
  import opened Prelude

  type Token = nat

  const LOCK_DURATION_MS := 5 * 60 * 1000

  /** The `global` document. */
  datatype Document = Document(isLocked: bool, lockToken: Option<Token>, lockExpiresAt: Option<nat>)

  datatype AcquireResult = Granted(token: Token) | SchemaLocked

  // ---- the database commands ----

  /** The `$or` filter of `findOneAndUpdate`. */
  predicate Available(doc: Document, now: nat) {
    !doc.isLocked || doc.lockExpiresAt.None? || doc.lockExpiresAt.value <= now
  }

  function Locked(token: Token, now: nat): Document {
    Document(true, Some(token), Some(now + LOCK_DURATION_MS))
  }

  const UNLOCKED := Document(false, None, None)

  function FindOneAndUpdate(doc: Option<Document>, now: nat, token: Token): (Option<Document>, bool) {
    if doc.Some? && Available(doc.value, now) then (Some(Locked(token, now)), true) else (doc, false)
  }

  /** A second document with the same `_id` is refused. */
  function InsertOne(doc: Option<Document>, now: nat, token: Token): (Option<Document>, bool) {
    if doc.None? then (Some(Locked(token, now)), true) else (doc, false)
  }

  function UpdateOne(doc: Option<Document>, token: Token): Option<Document> {
    if doc.Some? && doc.value.lockToken == Some(token) then Some(UNLOCKED) else doc
  }

  /** The service when nothing else touches the collection during a call. */
  class MongoSchemaMigrationLockService {
    var doc: Option<Document>

    constructor ()
      ensures doc.None?
    {
      doc := None;
    }

    method Acquire(now: nat, token: Token) returns (result: AcquireResult)
      modifies this
      ensures result.Granted? <==> old(doc).None? || Available(old(doc).value, now)
      ensures result.Granted? ==> result.token == token && doc == Some(Locked(token, now))
      ensures result.Granted? ==> forall later: nat :: Available(doc.value, later) <==> later >= now + 300000
      ensures result.SchemaLocked? ==> doc == old(doc)
    {
      var (updated, matched) := FindOneAndUpdate(doc, now, token);
      doc := updated;
      if matched {
        return Granted(token);
      }
      var (inserted, created) := InsertOne(doc, now, token);
      doc := inserted;
      if created {
        return Granted(token);
      }
      return SchemaLocked;
    }

    method Release(handle: Option<Token>)
      modifies this
      ensures doc == if handle.Some? && old(doc).Some? && old(doc).value.lockToken == handle then Some(UNLOCKED) else old(doc)
    {
      if handle.None? {
        return;
      }
      doc := UpdateOne(doc, handle.value);
    }
  }

  // ---- every interleaving of the commands of many callers ----

  /** A call reads the clock once, then sends the update, then, if nothing matched, the insert. */
  datatype Phase = Starting | Missed
  datatype Call = Call(now: nat, phase: Phase)

  /** A handle given to a caller, with the expiry that was stored for it. */
  datatype Grant = Grant(token: Token, expires: nat, released: bool)

  datatype State = State(clock: nat, doc: Option<Document>, calls: map<Token, Call>, used: set<Token>, grants: seq<Grant>)

  datatype Action =
    | Tick(ms: nat)
    | Start(token: Token)
    | Update(token: Token)
    | Insert(token: Token)
    | Abandon(token: Token)
    | Release(g: nat)

  predicate Enabled(s: State, a: Action) {
    match a
    case Tick(_) => true
    case Start(token) => token !in s.used
    case Update(token) => token in s.calls && s.calls[token].phase == Starting
    case Insert(token) => token in s.calls && s.calls[token].phase == Missed
    case Abandon(token) => token in s.calls
    case Release(g) => g < |s.grants|
  }

  function Give(s: State, token: Token, now: nat, doc: Option<Document>): State {
    s.(doc := doc, calls := s.calls - {token}, grants := s.grants + [Grant(token, now + LOCK_DURATION_MS, false)])
  }

  function Apply(s: State, a: Action): State
    requires Enabled(s, a)
  {
    match a
    case Tick(ms) => s.(clock := s.clock + ms)
    case Start(token) => s.(calls := s.calls[token := Call(s.clock, Starting)], used := s.used + {token})
    case Update(token) =>
      var c := s.calls[token];
      var (doc, matched) := FindOneAndUpdate(s.doc, c.now, token);
      if matched then Give(s, token, c.now, doc) else s.(calls := s.calls[token := c.(phase := Missed)])
    case Insert(token) =>
      var c := s.calls[token];
      var (doc, created) := InsertOne(s.doc, c.now, token);
      if created then Give(s, token, c.now, doc) else s.(calls := s.calls - {token})
    case Abandon(token) => s.(calls := s.calls - {token})
    case Release(g) =>
      s.(doc := UpdateOne(s.doc, s.grants[g].token), grants := s.grants[g := s.grants[g].(released := true)])
  }

  function Do(s: State, a: Action): State {
    if Enabled(s, a) then Apply(s, a) else s
  }

  function After(s: State, actions: seq<Action>): State {
    if actions == [] then s else Do(After(s, actions[..|actions| - 1]), actions[|actions| - 1])
  }

  predicate Init(s: State) {
    s.doc.None? && s.calls == map[] && s.used == {} && s.grants == []
  }

  /** The document stores the newest handle until that handle is released, and nothing else ever. */
  predicate Invariant(s: State) {
    && (forall t :: t in s.calls ==> t in s.used && s.calls[t].now <= s.clock)
    && (forall g :: 0 <= g < |s.grants| ==> s.grants[g].token in s.used && s.grants[g].token !in s.calls)
    && (forall g, h :: 0 <= g < h < |s.grants| ==> s.grants[g].token != s.grants[h].token)
    && (forall g :: 0 <= g < |s.grants| - 1 ==> s.grants[g].released || s.grants[g].expires <= s.clock)
    && (s.grants == [] <==> s.doc.None?)
    && (s.grants != [] ==>
          var newest := s.grants[|s.grants| - 1];
          s.doc.value == if newest.released then UNLOCKED else Document(true, Some(newest.token), Some(newest.expires)))
  }

  lemma StepKeepsInvariant(s: State, a: Action)
    requires Invariant(s) && Enabled(s, a)
    ensures Invariant(Apply(s, a))
  {
  }

  lemma {:induction false} RunKeepsInvariant(s: State, actions: seq<Action>)
    requires Init(s)
    ensures Invariant(After(s, actions))
  {
    hide Apply, Enabled;
    if actions == [] {
      assert Invariant(s);
    } else {
      var before := After(s, actions[..|actions| - 1]);
      RunKeepsInvariant(s, actions[..|actions| - 1]);
      if Enabled(before, actions[|actions| - 1]) {
        StepKeepsInvariant(before, actions[|actions| - 1]);
      }
    }
  }

  predicate Valid(s: State, g: nat)
    requires g < |s.grants|
  {
    !s.grants[g].released && s.clock < s.grants[g].expires
  }

  /** In every run at most one handle is neither released nor expired, and it is the stored one. */
  lemma AtMostOneValidHandle(s: State, actions: seq<Action>, g: nat, h: nat)
    requires Init(s)
    requires var t := After(s, actions); g < |t.grants| && h < |t.grants| && Valid(t, g) && Valid(t, h)
    ensures g == h
    ensures var t := After(s, actions);
            t.doc == Some(Document(true, Some(t.grants[g].token), Some(t.grants[g].expires)))
  {
    RunKeepsInvariant(s, actions);
  }

  /** A call is granted the lock exactly when it is the first ever, or its update finds the newest handle
      released or expired by the time the call read the clock. */
  lemma GrantedOnlyWhenFree(s: State, actions: seq<Action>, a: Action)
    requires Init(s) && (a.Update? || a.Insert?) && Enabled(After(s, actions), a)
    ensures var t := After(s, actions);
            var u := After(s, actions + [a]);
            && (u.grants != t.grants <==>
                  if t.grants == [] then a.Insert?
                  else
                    var newest := t.grants[|t.grants| - 1];
                    a.Update? && (newest.released || newest.expires <= t.calls[a.token].now))
            && (u.grants != t.grants ==>
                  && u.grants == t.grants + [Grant(a.token, t.calls[a.token].now + LOCK_DURATION_MS, false)]
                  && forall g :: 0 <= g < |t.grants| ==> !Valid(t, g))
  {
    assert (actions + [a])[..|actions|] == actions;
    RunKeepsInvariant(s, actions);
  }

  /** Releasing a handle that another has replaced changes no document, however late it comes. */
  lemma StaleReleaseChangesNothing(s: State, actions: seq<Action>, g: nat)
    requires Init(s) && g < |After(s, actions).grants|
    ensures var t := After(s, actions);
            var u := After(s, actions + [Release(g)]);
            && u.doc == (if g == |t.grants| - 1 then Some(UNLOCKED) else t.doc)
            && (forall h :: 0 <= h < |t.grants| && h != g ==> u.grants[h] == t.grants[h])
  {
    assert (actions + [Release(g)])[..|actions|] == actions;
    RunKeepsInvariant(s, actions);
  }
}
