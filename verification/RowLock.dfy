/** The SQL schema-migration lock for databases without advisory locks: one row, read for update and then
    written in a transaction, and cleared by token with a fallback that re-reads the row. */
module RowLock {
  import opened Prelude

  type Token = nat

  datatype Row = Row(isLocked: bool, lockToken: Option<Token>)

  datatype Grant = Grant(token: Token, released: bool)

  /** A release whose update matched no row re-reads it, and clears it when it then sees its own token. */
  datatype Clearing = Missed | SawOwnToken

  /** `rowLocks`: whether reading for update locks the row until the transaction ends. `reader` holds that lock;
      `reading` are the transactions that saw the row unlocked and have not written it yet. */
  datatype State = State(rowLocks: bool, row: Row, reader: Option<Token>, reading: set<Token>,
                         used: set<Token>, grants: seq<Grant>, clearing: map<nat, Clearing>)

  datatype Action =
    | Read(token: Token)
    | Commit(token: Token)
    | Rollback(token: Token)
    | Clear(g: nat)
    | Reread(g: nat)
    | ClearAnyway(g: nat)

  predicate Enabled(s: State, a: Action) {
    match a
    case Read(token) => token !in s.used && s.reader.None?
    case Commit(token) => token in s.reading
    case Rollback(token) => token in s.reading
    case Clear(g) => g < |s.grants| && g !in s.clearing && s.reader.None?
    case Reread(g) => g in s.clearing && s.clearing[g] == Missed
    case ClearAnyway(g) => g in s.clearing && s.clearing[g] == SawOwnToken && s.reader.None?
  }

  const FREE := Row(false, None)

  function EndOf(s: State, token: Token): State {
    s.(reader := if s.reader == Some(token) then None else s.reader, reading := s.reading - {token})
  }

  function DoClear(s: State, g: nat): State
    requires g < |s.grants|
  {
    var token := s.grants[g].token;
    var s' := s.(grants := s.grants[g := Grant(token, true)]);
    if s.row.lockToken == Some(token) then s'.(row := FREE) else s'.(clearing := s.clearing[g := Missed])
  }

  function Apply(s: State, a: Action): State
    requires Enabled(s, a)
  {
    match a
    case Read(token) =>
      var s' := s.(used := s.used + {token});
      if s.row.isLocked then s'
      else s'.(reading := s.reading + {token}, reader := if s.rowLocks then Some(token) else None)
    case Commit(token) => EndOf(s, token).(row := Row(true, Some(token)), grants := s.grants + [Grant(token, false)])
    case Rollback(token) => EndOf(s, token)
    case Clear(g) => DoClear(s, g)
    case Reread(g) =>
      s.(clearing := if g < |s.grants| && s.row.lockToken == Some(s.grants[g].token)
                     then s.clearing[g := SawOwnToken] else s.clearing - {g})
    case ClearAnyway(g) => s.(row := FREE, clearing := s.clearing - {g})
  }

  function Do(s: State, a: Action): State {
    if Enabled(s, a) then Apply(s, a) else s
  }

  function After(s: State, actions: seq<Action>): State {
    if actions == [] then s else Do(After(s, actions[..|actions| - 1]), actions[|actions| - 1])
  }

  predicate Init(s: State) {
    s.row == FREE && s.reader.None? && s.reading == {} && s.used == {} && s.grants == [] && s.clearing == map[]
  }

  /** Tokens are written once, so a token that has left the row never comes back. */
  predicate TokensOnce(s: State) {
    && s.reading <= s.used
    && (forall g :: 0 <= g < |s.grants| ==> s.grants[g].token in s.used && s.grants[g].token !in s.reading)
    && (forall g, h :: 0 <= g < h < |s.grants| ==> s.grants[g].token != s.grants[h].token)
    && (s.row.lockToken.Some? ==> exists g :: 0 <= g < |s.grants| && s.row.lockToken == Some(s.grants[g].token))
    && (forall g :: g in s.clearing ==> g < |s.grants| && s.clearing[g] == Missed && s.row.lockToken != Some(s.grants[g].token))
  }

  lemma TokensOnceStep(s: State, a: Action)
    requires TokensOnce(s) && Enabled(s, a)
    ensures TokensOnce(Apply(s, a)) && Apply(s, a).rowLocks == s.rowLocks
  {
    var s' := Apply(s, a);
    if s'.row.lockToken.Some? {
      if a.Commit? {
        assert s'.row.lockToken == Some(s'.grants[|s.grants|].token);
      } else {
        var g :| 0 <= g < |s.grants| && s.row.lockToken == Some(s.grants[g].token);
        assert s'.grants[g].token == s.grants[g].token;
      }
    }
  }

  /** With row locks, the row is locked exactly while the newest handle is unreleased. */
  predicate OneHolder(s: State) {
    && (forall t :: t in s.reading ==> s.reader == Some(t))
    && (s.reading != {} ==> !s.row.isLocked)
    && (forall g :: 0 <= g < |s.grants| && (g < |s.grants| - 1 || !s.row.isLocked) ==> s.grants[g].released)
    && s.row == if s.grants != [] && !s.grants[|s.grants| - 1].released
                then Row(true, Some(s.grants[|s.grants| - 1].token)) else FREE
  }

  lemma OneHolderStep(s: State, a: Action)
    requires s.rowLocks && TokensOnce(s) && OneHolder(s) && Enabled(s, a)
    ensures OneHolder(Apply(s, a))
  {
  }

  lemma {:induction false} RunKeepsInvariants(s: State, actions: seq<Action>)
    requires Init(s)
    ensures TokensOnce(After(s, actions)) && After(s, actions).rowLocks == s.rowLocks
    ensures s.rowLocks ==> OneHolder(After(s, actions))
  {
    hide Apply, Enabled;
    if actions != [] {
      var before := After(s, actions[..|actions| - 1]);
      RunKeepsInvariants(s, actions[..|actions| - 1]);
      if Enabled(before, actions[|actions| - 1]) {
        TokensOnceStep(before, actions[|actions| - 1]);
        if s.rowLocks {
          OneHolderStep(before, actions[|actions| - 1]);
        }
      }
    }
  }

  /** Where reading for update locks the row, at most one handle is unreleased, and its token is in the row. */
  lemma AtMostOneHandle(s: State, actions: seq<Action>, g: nat, h: nat)
    requires Init(s) && s.rowLocks
    requires var t := After(s, actions); g < |t.grants| && h < |t.grants| && !t.grants[g].released && !t.grants[h].released
    ensures g == h && After(s, actions).row == Row(true, Some(After(s, actions).grants[g].token))
  {
    RunKeepsInvariants(s, actions);
  }

  /** The fallback of the release never finds its token again: no run reaches the unconditional update,
      so a late release never unlocks a row that another handle holds. */
  lemma FallbackNeverClears(s: State, actions: seq<Action>, g: nat)
    requires Init(s)
    ensures !Enabled(After(s, actions), ClearAnyway(g))
  {
    RunKeepsInvariants(s, actions);
  }

  lemma AfterSnoc(s: State, actions: seq<Action>, a: Action)
    ensures After(s, actions + [a]) == Do(After(s, actions), a)
  {
    assert (actions + [a])[..|actions|] == actions;
  }

  /** Without row locks two transactions can both read the row unlocked and both be given a handle. */
  lemma TwoHandlesWithoutRowLocks(s: State) returns (actions: seq<Action>)
    requires Init(s) && !s.rowLocks
    ensures var t := After(s, actions); |t.grants| == 2 && !t.grants[0].released && !t.grants[1].released
  {
    hide After;
    actions := [];
    assert After(s, actions) == s by { EmptyRun(s); }
    AfterSnoc(s, actions, Read(0));
    actions := actions + [Read(0)];
    AfterSnoc(s, actions, Read(1));
    actions := actions + [Read(1)];
    AfterSnoc(s, actions, Commit(0));
    actions := actions + [Commit(0)];
    AfterSnoc(s, actions, Commit(1));
    actions := actions + [Commit(1)];
  }

  lemma EmptyRun(s: State)
    ensures After(s, []) == s
  {
  }

  /** A reader is turned away while a handle is unreleased; once all are released the row is free, and the next reader
      that commits is given a handle. */
  lemma GrantedIffAllReleased(s: State, actions: seq<Action>, token: Token)
    requires Init(s) && s.rowLocks && Enabled(After(s, actions), Read(token))
    ensures var t := After(s, actions);
            var u := After(s, actions + [Read(token), Commit(token)]);
            if forall g :: 0 <= g < |t.grants| ==> t.grants[g].released
            then
              && t.row == Row(false, None)
              && u.grants == t.grants + [Grant(token, false)] && u.row == Row(true, Some(token))
            else u.grants == t.grants && u.row == t.row
  {
    hide After, TokensOnce;
    RunKeepsInvariants(s, actions);
    AfterSnoc(s, actions, Read(token));
    AfterSnoc(s, actions + [Read(token)], Commit(token));
    assert actions + [Read(token)] + [Commit(token)] == actions + [Read(token), Commit(token)];
  }
}
