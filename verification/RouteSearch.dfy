/** Looking a path up in a route trie: the backtracking search, against a scan of the insertions. */
module RouteSearch {
  import opened Prelude
  import opened RoutePaths
  import opened RouteTrie

  /** `decodeURIComponent`, which may throw on a malformed escape (None). */
  type Decoder = string -> Option<string>

  type Params = map<string, string>

  /** Result of the search: where it ended, and the parameter record it leaves behind. */
  datatype Found = Found(outcome: Outcome, params: Params)

  ghost predicate Named(t: Trie) {
    forall p :: p in t.nodes && EndsInParam(p) ==> p in t.names
  }

  function Under(k: Key, o: Outcome): Outcome {
    match o
    case Hit(rest) => Hit([k] + rest)
    case other => other
  }

  /** The search below `at`, binding and unbinding in `params` as it goes. */
  ghost function Search(t: Trie, decode: Decoder, at: seq<Key>, segs: seq<string>, params: Params): Found
    requires Named(t)
    decreases |segs|
  {
    if segs == [] then Found(if at in t.handlers then Hit([]) else Miss, params)
    else
      var lit := Lit(segs[0]);
      var first := if at + [lit] in t.nodes then Search(t, decode, at + [lit], segs[1..], params) else Found(Miss, params);
      if !first.outcome.Miss? then Found(Under(lit, first.outcome), first.params)
      else if at + [Par] in t.nodes then
        var name := t.names[at + [Par]];
        match decode(segs[0])
        case None => Found(Threw, first.params)
        case Some(value) =>
          var second := Search(t, decode, at + [Par], segs[1..], first.params[name := value]);
          if !second.outcome.Miss? then Found(Under(Par, second.outcome), second.params)
          else AtWildcard(t, at, segs, second.params - {name})
      else AtWildcard(t, at, segs, first.params)
  }

  ghost function AtWildcard(t: Trie, at: seq<Key>, segs: seq<string>, params: Params): Found {
    if at + [Wild] in t.nodes
    then Found(if at + [Wild] in t.handlers then Hit([Wild]) else Miss, params["splat" := Join(segs)])
    else Found(Miss, params)
  }

  /** The outcome alone; it does not depend on the parameter record. */
  function Seek(t: Trie, decode: Decoder, at: seq<Key>, segs: seq<string>): Outcome
    decreases |segs|
  {
    if segs == [] then if at in t.handlers then Hit([]) else Miss
    else
      var lit := Lit(segs[0]);
      var first := if at + [lit] in t.nodes then Seek(t, decode, at + [lit], segs[1..]) else Miss;
      if !first.Miss? then Under(lit, first)
      else if at + [Par] in t.nodes then
        if decode(segs[0]).None? then Threw
        else
          var second := Seek(t, decode, at + [Par], segs[1..]);
          if !second.Miss? then Under(Par, second) else SeekWildcard(t, at)
      else SeekWildcard(t, at)
  }

  function SeekWildcard(t: Trie, at: seq<Key>): Outcome {
    if at + [Wild] in t.handlers && at + [Wild] in t.nodes then Hit([Wild]) else Miss
  }

  lemma {:induction false} SearchOutcome(t: Trie, decode: Decoder, at: seq<Key>, segs: seq<string>, params: Params)
    requires Named(t)
    ensures Search(t, decode, at, segs, params).outcome == Seek(t, decode, at, segs)
    decreases |segs|
  {
    if segs != [] {
      var lit := Lit(segs[0]);
      var first := Found(Miss, params);
      if at + [lit] in t.nodes {
        SearchOutcome(t, decode, at + [lit], segs[1..], params);
        first := Search(t, decode, at + [lit], segs[1..], params);
      }
      if first.outcome.Miss? && at + [Par] in t.nodes && decode(segs[0]).Some? {
        SearchOutcome(t, decode, at + [Par], segs[1..], first.params[t.names[at + [Par]] := decode(segs[0]).value]);
      }
    }
  }

  // ---- the reference: a scan of the patterns ----

  predicate Matches(keys: seq<Key>, segs: seq<string>) {
    |keys| == |segs| && forall i :: 0 <= i < |segs| ==> keys[i] == Lit(segs[i]) || keys[i] == Par
  }

  /** Segment by segment, static before parameter. */
  predicate Precedes(p: seq<Key>, q: seq<Key>) {
    || p == q
    || (p != [] && q != [] && p[0].Lit? && q[0].Par?)
    || (p != [] && q != [] && p[0] == q[0] && Precedes(p[1..], q[1..]))
  }

  lemma MatchesTail(keys: seq<Key>, segs: seq<string>)
    requires segs != [] && keys != []
    ensures Matches(keys, segs)
        <==> (keys[0] == Lit(segs[0]) || keys[0] == Par) && Matches(keys[1..], segs[1..])
  {
    if (keys[0] == Lit(segs[0]) || keys[0] == Par) && Matches(keys[1..], segs[1..]) {
      forall i | 0 <= i < |segs| ensures keys[i] == Lit(segs[i]) || keys[i] == Par {
        if i > 0 { assert keys[1..][i - 1] == keys[i] && segs[1..][i - 1] == segs[i]; }
      }
    }
  }

  /** A hit is a stored handler whose pattern matches; only an undecodable segment throws. */
  ghost predicate SoundAt(t: Trie, decode: Decoder, at: seq<Key>, segs: seq<string>, o: Outcome) {
    match o
    case Hit(rest) => at + rest in t.handlers && Matches(rest, segs)
    case Miss => true
    case Threw => exists seg :: seg in segs && decode(seg).None?
  }

  lemma SoundAbove(t: Trie, decode: Decoder, at: seq<Key>, segs: seq<string>, k: Key, o: Outcome)
    requires segs != [] && (k == Lit(segs[0]) || k == Par)
    requires SoundAt(t, decode, at + [k], segs[1..], o)
    ensures SoundAt(t, decode, at, segs, Under(k, o))
  {
    if o.Hit? {
      assert at + ([k] + o.rest) == at + [k] + o.rest;
      MatchesTail([k] + o.rest, segs);
      assert ([k] + o.rest)[1..] == o.rest;
    }
  }

  lemma {:induction false} SeekSound(t: Trie, decode: Decoder, at: seq<Key>, segs: seq<string>)
    requires WellFormed(t)
    ensures SoundAt(t, decode, at, segs, Seek(t, decode, at, segs))
    decreases |segs|
  {
    if segs == [] {
      assert at + [] == at;
    } else {
      SeekSound(t, decode, at + [Lit(segs[0])], segs[1..]);
      SeekSound(t, decode, at + [Par], segs[1..]);
      SoundAbove(t, decode, at, segs, Lit(segs[0]), Seek(t, decode, at + [Lit(segs[0])], segs[1..]));
      SoundAbove(t, decode, at, segs, Par, Seek(t, decode, at + [Par], segs[1..]));
      assert (at + [Wild])[|at|] == Wild;
      assert segs[0] in segs;
    }
  }

  /** In any trie, well-formed or not, a hit is a stored handler. */
  lemma {:induction false} HitsHaveHandlers(t: Trie, decode: Decoder, at: seq<Key>, segs: seq<string>)
    ensures Seek(t, decode, at, segs).Hit? ==> at + Seek(t, decode, at, segs).rest in t.handlers
    decreases |segs|
  {
    if segs == [] {
      assert at + [] == at;
    } else {
      forall k | k == Lit(segs[0]) || k == Par
        ensures var o := Seek(t, decode, at + [k], segs[1..]); o.Hit? ==> at + ([k] + o.rest) in t.handlers
      {
        HitsHaveHandlers(t, decode, at + [k], segs[1..]);
        var o := Seek(t, decode, at + [k], segs[1..]);
        assert o.Hit? ==> at + ([k] + o.rest) == at + [k] + o.rest;
      }
    }
  }

  lemma {:induction false} NodesAbove(t: Trie, at: seq<Key>, rest: seq<Key>)
    requires WellFormed(t) && at + rest in t.nodes
    ensures at in t.nodes
    decreases |rest|
  {
    if rest == [] {
      assert at + rest == at;
    } else {
      assert at + rest == (at + rest[..|rest| - 1]) + [rest[|rest| - 1]];
      NodesAbove(t, at, rest[..|rest| - 1]);
    }
  }

  /** Backtracking misses nothing, and what it returns comes first. */
  lemma {:induction false} SeekComplete(t: Trie, decode: Decoder, at: seq<Key>, segs: seq<string>, q: seq<Key>)
    requires WellFormed(t)
    requires at + q in t.handlers && Matches(q, segs)
    requires !Seek(t, decode, at, segs).Threw?
    ensures Seek(t, decode, at, segs).Hit? && Precedes(Seek(t, decode, at, segs).rest, q)
    decreases |segs|
  {
    if segs == [] {
      assert at + q == at;
    } else {
      MatchesTail(q, segs);
      assert at + q == at + [q[0]] + q[1..];
      NodesAbove(t, at + [q[0]], q[1..]);
      var lit := Lit(segs[0]);
      if q[0] == lit {
        SeekComplete(t, decode, at + [lit], segs[1..], q[1..]);
        assert Precedes(([lit] + Seek(t, decode, at + [lit], segs[1..]).rest)[1..], q[1..]);
      } else {
        var first := if at + [lit] in t.nodes then Seek(t, decode, at + [lit], segs[1..]) else Miss;
        if first.Miss? {
          SeekComplete(t, decode, at + [Par], segs[1..], q[1..]);
          assert Precedes(([Par] + Seek(t, decode, at + [Par], segs[1..]).rest)[1..], q[1..]);
        }
      }
    }
  }

  ghost predicate EntryMatches(e: Entry, segs: seq<string>) {
    Complete(e.segments) && Matches(KeysOf(e.segments), segs)
  }

  lemma {:induction false} LastInsertedIsLogged(log: seq<Entry>, keys: seq<Key>)
    ensures LastInserted(log, keys).Some?
        <==> exists e :: e in log && Complete(e.segments) && KeysOf(e.segments) == keys
  {
    if log != [] {
      var e := log[|log| - 1];
      LastInsertedIsLogged(log[..|log| - 1], keys);
      assert e in log;
      assert log == log[..|log| - 1] + [e];
    }
  }

  lemma FindSound(log: seq<Entry>, decode: Decoder, segs: seq<string>)
    ensures var o := Seek(Build(log), decode, [], segs);
            && (o.Hit? ==> o.rest in Build(log).handlers && Matches(o.rest, segs))
            && (o.Hit? ==> LastInserted(log, o.rest) == Some(Build(log).handlers[o.rest]))
            && (o.Threw? ==> exists seg :: seg in segs && decode(seg).None?)
  {
    BuildWellFormed(log);
    SeekSound(Build(log), decode, [], segs);
    var o := Seek(Build(log), decode, [], segs);
    if o.Hit? {
      assert [] + o.rest == o.rest;
      BuildHandlers(log, o.rest);
    }
  }

  lemma FindComplete(log: seq<Entry>, decode: Decoder, segs: seq<string>, e: Entry)
    requires e in log && EntryMatches(e, segs)
    requires !Seek(Build(log), decode, [], segs).Threw?
    ensures Seek(Build(log), decode, [], segs).Hit?
    ensures Precedes(Seek(Build(log), decode, [], segs).rest, KeysOf(e.segments))
  {
    var keys := KeysOf(e.segments);
    LastInsertedIsLogged(log, keys);
    BuildHandlers(log, keys);
    BuildWellFormed(log);
    assert [] + keys == keys;
    SeekComplete(Build(log), decode, [], segs, keys);
  }

  /** The index agrees with the list: a lookup fails exactly when no inserted pattern matches, and
      otherwise returns the route inserted last under the first matching pattern. */
  lemma FindAgreesWithScan(log: seq<Entry>, decode: Decoder, segs: seq<string>)
    ensures var o := Seek(Build(log), decode, [], segs);
            match o
            case Miss => forall e :: e in log ==> !EntryMatches(e, segs)
            case Hit(keys) =>
              && Matches(keys, segs)
              && keys in Build(log).handlers
              && LastInserted(log, keys) == Some(Build(log).handlers[keys])
              && (forall e :: e in log && EntryMatches(e, segs) ==> Precedes(keys, KeysOf(e.segments)))
            case Threw => exists seg :: seg in segs && decode(seg).None?
  {
    FindSound(log, decode, segs);
    var o := Seek(Build(log), decode, [], segs);
    if !o.Threw? {
      forall e | e in log && EntryMatches(e, segs)
        ensures o.Hit? && Precedes(o.rest, KeysOf(e.segments))
      {
        FindComplete(log, decode, segs, e);
      }
    }
  }

  /** Two matching patterns that precede each other are the same, so "first" is unambiguous. */
  lemma {:induction false} PrecedesIsAntisymmetric(p: seq<Key>, q: seq<Key>)
    requires Precedes(p, q) && Precedes(q, p)
    ensures p == q
    decreases |p|
  {
    if p != [] && q != [] && p[0] == q[0] {
      if p[1..] == q[1..] {
        assert p == [p[0]] + p[1..] && q == [q[0]] + q[1..];
      } else {
        PrecedesIsAntisymmetric(p[1..], q[1..]);
      }
    }
  }

  /** Some path to look a complete pattern up by. */
  function Instance(keys: seq<Key>): (segs: seq<string>)
    ensures |segs| == |keys|
    ensures forall i :: 0 <= i < |keys| && keys[i].Lit? ==> segs[i] == keys[i].text
  {
    if keys == [] then []
    else [if keys[0].Lit? then keys[0].text else "x"] + Instance(keys[1..])
  }

  /** Wildcard routes and the root route can never be found; every other route can. */
  lemma FindableIffComplete(e: Entry, decode: Decoder)
    requires forall seg :: decode(seg).Some?
    ensures (exists segs :: Seek(Build([e]), decode, [], segs).Hit?) <==> Complete(e.segments)
  {
    assert forall e' :: e' in [e] ==> e' == e;
    if Complete(e.segments) {
      var segs := Instance(KeysOf(e.segments));
      assert EntryMatches(e, segs);
      FindAgreesWithScan([e], decode, segs);
      assert e in [e];
      assert Seek(Build([e]), decode, [], segs).Hit?;
    }
    forall segs | Seek(Build([e]), decode, [], segs).Hit?
      ensures Complete(e.segments)
    {
      FindSound([e], decode, segs);
      LastInsertedIsLogged([e], Seek(Build([e]), decode, [], segs).rest);
    }
  }
}
