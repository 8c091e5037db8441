/** The memo key of a tool call: its arguments with the top-level properties sorted by name. */
module ToolKey {
  /** A top-level property with the JSON text of its value. */
  datatype Property = Property(name: string, json: string)

  /** An object's properties in the order they were set: no name twice. */
  predicate IsObject(args: seq<Property>) {
    forall i, j :: 0 <= i < j < |args| ==> args[i].name != args[j].name
  }

  // ---- the order of names ----

  /** By code units, a prefix first. */
  predicate Before(a: string, b: string) {
    if a == "" then true
    else if b == "" then false
    else if a[0] != b[0] then a[0] < b[0]
    else Before(a[1..], b[1..])
  }

  lemma {:induction false} BeforeTotal(a: string, b: string)
    ensures Before(a, b) || Before(b, a)
    ensures Before(a, b) && Before(b, a) ==> a == b
    decreases |a|
  {
    if a != "" && b != "" && a[0] == b[0] {
      BeforeTotal(a[1..], b[1..]);
      assert a == [a[0]] + a[1..] && b == [b[0]] + b[1..];
    }
  }

  lemma {:induction false} BeforeTransitive(a: string, b: string, c: string)
    requires Before(a, b) && Before(b, c)
    ensures Before(a, c)
    decreases |a|
  {
    if a != "" && b != "" && c != "" && a[0] == b[0] == c[0] {
      BeforeTransitive(a[1..], b[1..], c[1..]);
    }
  }

  // ---- sorting ----

  /** Sorted by name, no name twice. */
  predicate Sorted(args: seq<Property>) {
    forall i, j :: 0 <= i < j < |args| ==> Before(args[i].name, args[j].name) && args[i].name != args[j].name
  }

  function Insert(p: Property, sorted: seq<Property>): (r: seq<Property>)
    ensures forall x :: x in r <==> x == p || x in sorted
  {
    if sorted == [] then [p]
    else if Before(p.name, sorted[0].name) then [p] + sorted
    else [sorted[0]] + Insert(p, sorted[1..])
  }

  /** `Object.keys(args).sort()` and the object rebuilt in that order. */
  function Normalized(args: seq<Property>): (r: seq<Property>)
    ensures forall x :: x in r <==> x in args
  {
    if args == [] then [] else Insert(args[0], Normalized(args[1..]))
  }

  lemma {:induction false} InsertKeepsSorted(p: Property, sorted: seq<Property>)
    requires Sorted(sorted) && forall x :: x in sorted ==> x.name != p.name
    ensures Sorted(Insert(p, sorted))
  {
    if sorted != [] {
      var first, tail := sorted[0], sorted[1..];
      assert forall x :: x in tail ==> Before(first.name, x.name) && first.name != x.name;
      if Before(p.name, first.name) {
        forall x | x in tail ensures Before(p.name, x.name) {
          BeforeTransitive(p.name, first.name, x.name);
        }
        SortedCons(first, tail);
        SortedCons(p, sorted);
      } else {
        BeforeTotal(p.name, first.name);
        InsertKeepsSorted(p, tail);
        SortedCons(first, Insert(p, tail));
      }
    }
  }

  lemma SortedCons(p: Property, tail: seq<Property>)
    requires Sorted(tail) && forall x :: x in tail ==> Before(p.name, x.name) && p.name != x.name
    ensures Sorted([p] + tail)
  {
  }

  lemma {:induction false} NormalizedIsSorted(args: seq<Property>)
    requires IsObject(args)
    ensures Sorted(Normalized(args))
  {
    if args != [] {
      NormalizedIsSorted(args[1..]);
      InsertKeepsSorted(args[0], Normalized(args[1..]));
    }
  }

  lemma FirstIsLeast(a: seq<Property>, x: Property)
    requires Sorted(a) && x in a
    ensures Before(a[0].name, x.name)
    ensures x in a[1..] <==> x != a[0]
  {
    BeforeTotal(x.name, x.name);
    var i :| 0 <= i < |a| && a[i] == x;
    if i > 0 {
      assert a[1..][i - 1] == x;
    }
  }

  /** Among sorted lists the properties decide the list. */
  lemma {:induction false} SortedIsUnique(a: seq<Property>, b: seq<Property>)
    requires Sorted(a) && Sorted(b) && forall x :: x in a <==> x in b
    ensures a == b
  {
    if a == [] {
      assert forall i :: 0 <= i < |b| ==> b[i] in b;
    } else {
      assert a[0] in b;
      FirstIsLeast(b, a[0]);
      assert b[0] in a;
      FirstIsLeast(a, b[0]);
      BeforeTotal(a[0].name, b[0].name);
      assert b[0] in a && (b[0] in a[1..] <==> b[0] != a[0]);
      assert a[0] == b[0];
      forall x ensures x in a[1..] <==> x in b[1..] {
        if x in a {
          FirstIsLeast(a, x);
          FirstIsLeast(b, x);
        }
      }
      SortedIsUnique(a[1..], b[1..]);
      assert a == [a[0]] + a[1..] && b == [b[0]] + b[1..];
    }
  }

  /** Two argument objects get the same key exactly when they hold the same properties, in whatever order they
      were written. */
  lemma SameKeyIffSameArguments(a: seq<Property>, b: seq<Property>)
    requires IsObject(a) && IsObject(b)
    ensures Normalized(a) == Normalized(b) <==> forall x :: x in a <==> x in b
  {
    NormalizedIsSorted(a);
    NormalizedIsSorted(b);
    if forall x :: x in a <==> x in b {
      SortedIsUnique(Normalized(a), Normalized(b));
    }
  }
}
