/** `generateUniqueSlug`: a counter is appended to a slug that is taken, until the result is free. */
module AutoSlug {
  function Digit(d: nat): char
    requires d < 10
  {
    ['0', '1', '2', '3', '4', '5', '6', '7', '8', '9'][d]
  }

  function DigitValue(c: char): nat {
    if '0' <= c <= '9' then c as int - '0' as int else 0
  }

  function Decimal(n: nat): (s: string)
    ensures s != ""
  {
    if n < 10 then [Digit(n)] else Decimal(n / 10) + [Digit(n % 10)]
  }

  function NumberOf(s: string): nat {
    if s == "" then 0 else 10 * NumberOf(s[..|s| - 1]) + DigitValue(s[|s| - 1])
  }

  lemma {:induction false} DecimalReadsBack(n: nat)
    ensures NumberOf(Decimal(n)) == n
  {
    if n < 10 {
      assert [Digit(n)][..0] == "";
    } else {
      DecimalReadsBack(n / 10);
      assert Decimal(n)[..|Decimal(n)| - 1] == Decimal(n / 10);
    }
  }

  /** ... in digits, without a leading zero. */
  lemma {:induction false} DecimalDigits(n: nat)
    ensures forall i :: 0 <= i < |Decimal(n)| ==> '0' <= Decimal(n)[i] <= '9'
    ensures n > 0 ==> Decimal(n)[0] != '0'
  {
    if n >= 10 {
      DecimalDigits(n / 10);
    }
  }

  function Candidate(baseSlug: string, counter: nat): string {
    baseSlug + "-" + Decimal(counter)
  }

  /** Different counters give different slugs, and none gives the slug itself. */
  lemma CandidatesDiffer(baseSlug: string, m: nat, n: nat)
    ensures Candidate(baseSlug, m) == Candidate(baseSlug, n) <==> m == n
    ensures Candidate(baseSlug, m) != baseSlug
  {
    DecimalReadsBack(m);
    DecimalReadsBack(n);
    assert Decimal(m) == Candidate(baseSlug, m)[|baseSlug| + 1..];
    assert Decimal(n) == Candidate(baseSlug, n)[|baseSlug| + 1..];
  }

  ghost function Tried(baseSlug: string, counter: nat): (tried: set<string>)
    ensures forall s :: s in tried <==> s == baseSlug || exists k :: 1 <= k < counter && s == Candidate(baseSlug, k)
  {
    if counter <= 1 then {baseSlug} else Tried(baseSlug, counter - 1) + {Candidate(baseSlug, counter - 1)}
  }

  lemma {:induction false} TriedSize(baseSlug: string, counter: nat)
    requires counter >= 1
    ensures |Tried(baseSlug, counter)| == counter
  {
    hide Candidate;
    if counter > 1 {
      TriedSize(baseSlug, counter - 1);
      CandidateIsNew(baseSlug, counter - 1);
    }
  }

  lemma CandidateIsNew(baseSlug: string, counter: nat)
    requires counter >= 1
    ensures Candidate(baseSlug, counter) !in Tried(baseSlug, counter)
  {
    CandidatesDiffer(baseSlug, counter, counter);
    forall k | 1 <= k < counter ensures Candidate(baseSlug, k) != Candidate(baseSlug, counter) {
      CandidatesDiffer(baseSlug, k, counter);
    }
  }

  lemma {:induction false} SetSize(s: seq<string>)
    ensures |set x | x in s| <= |s|
  {
    if s == [] {
      assert (set x | x in s) == {};
    } else {
      SetSize(s[1..]);
      assert (set x | x in s) == {s[0]} + (set x | x in s[1..]);
    }
  }

  /** Terminates on every finite list: each round uses up one of the slugs on it. The result is free; it is the slug
      itself when that is free, and otherwise carries the least free counter, at most the length of the list. */
  method GenerateUniqueSlug(baseSlug: string, existingSlugs: seq<string>) returns (uniqueSlug: string, ghost counter: nat)
    ensures uniqueSlug !in existingSlugs
    ensures baseSlug !in existingSlugs ==> uniqueSlug == baseSlug
    ensures baseSlug in existingSlugs ==>
              && 1 <= counter <= |existingSlugs| && uniqueSlug == baseSlug + "-" + Decimal(counter)
              && forall k :: 1 <= k < counter ==> baseSlug + "-" + Decimal(k) in existingSlugs
  {
    hide Decimal;
    counter := 0;
    if baseSlug !in existingSlugs {
      return baseSlug, counter;
    }
    ghost var taken := set x | x in existingSlugs;
    var n := 1;
    uniqueSlug := Candidate(baseSlug, n);
    while uniqueSlug in existingSlugs
      invariant 1 <= n && uniqueSlug == Candidate(baseSlug, n)
      invariant forall k :: 1 <= k < n ==> Candidate(baseSlug, k) in existingSlugs
      decreases taken - Tried(baseSlug, n)
    {
      CandidateIsNew(baseSlug, n);
      assert uniqueSlug in taken - Tried(baseSlug, n);
      assert uniqueSlug in Tried(baseSlug, n + 1);
      n := n + 1;
      uniqueSlug := Candidate(baseSlug, n);
    }
    counter := n;
    forall k | 1 <= k < counter ensures baseSlug + "-" + Decimal(k) in existingSlugs {
      assert Candidate(baseSlug, k) in existingSlugs;
    }
    TriedWithin(baseSlug, n, existingSlugs);
  }

  lemma TriedWithin(baseSlug: string, counter: nat, existingSlugs: seq<string>)
    requires counter >= 1 && baseSlug in existingSlugs && forall k :: 1 <= k < counter ==> Candidate(baseSlug, k) in existingSlugs
    ensures counter <= |existingSlugs|
  {
    var taken := set x | x in existingSlugs;
    TriedSize(baseSlug, counter);
    SetSize(existingSlugs);
    SubsetSize(Tried(baseSlug, counter), taken);
  }

  lemma {:induction false} SubsetSize(a: set<string>, b: set<string>)
    requires a <= b
    ensures |a| <= |b|
  {
    if a != {} {
      var x :| x in a;
      SubsetSize(a - {x}, b - {x});
    }
  }
}
