/** Histories of operations on a state, one after another, for any state and any operations. */
module Histories {
  ghost function After<S, O>(apply: (S, O) -> S, s: S, ops: seq<O>): S {
    if ops == [] then s else apply(After(apply, s, ops[..|ops| - 1]), ops[|ops| - 1])
  }

  /** Every operation satisfies `p` in the state in which it comes. */
  ghost predicate EachTime<S, O>(apply: (S, O) -> S, p: (S, O) -> bool, s: S, ops: seq<O>) {
    ops != [] ==> EachTime(apply, p, s, ops[..|ops| - 1]) && p(After(apply, s, ops[..|ops| - 1]), ops[|ops| - 1])
  }

  /** `holds` at the start and after every operation. */
  ghost predicate Always<S, O>(apply: (S, O) -> S, holds: S -> bool, s: S, ops: seq<O>) {
    holds(After(apply, s, ops)) && (ops != [] ==> Always(apply, holds, s, ops[..|ops| - 1]))
  }

  /** When a guard says exactly which single operations keep `holds`, meeting it each time is exactly what keeps
      `holds` along a history. */
  lemma {:induction false} KeptIffGuarded<S(!new), O(!new)>(apply: (S, O) -> S, holds: S -> bool, fits: (S, O) -> bool,
                                                            guard: (S, O) -> bool, s: S, ops: seq<O>)
    requires holds(s) && EachTime(apply, fits, s, ops)
    requires forall t, op :: holds(t) && fits(t, op) ==> (holds(apply(t, op)) <==> guard(t, op))
    ensures Always(apply, holds, s, ops) <==> EachTime(apply, guard, s, ops)
  {
    if ops != [] {
      var init := ops[..|ops| - 1];
      KeptIffGuarded(apply, holds, fits, guard, s, init);
      assert Always(apply, holds, s, init) ==> holds(After(apply, s, init));
      assert fits(After(apply, s, init), ops[|ops| - 1]);
    }
  }
}
