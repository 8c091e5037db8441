/** Names derived from property and table names: snake and camel case, and foreign-key columns. ASCII letters only. */
module Naming {
  predicate IsLower(c: char) { 'a' <= c <= 'z' }

  predicate IsUpper(c: char) { 'A' <= c <= 'Z' }

  function ToUpper(c: char): (u: char)
    requires IsLower(c)
    ensures IsUpper(u)
  {
    c - 32 as char
  }

  function ToLower(c: char): (l: char)
    requires IsUpper(c)
    ensures IsLower(l) && ToUpper(l) == c
  {
    c + 32 as char
  }

  /** Each underscore before a lower-case letter goes, and the letter is raised. */
  function SnakeToCamel(s: string): string {
    if s == [] then []
    else if |s| >= 2 && s[0] == '_' && IsLower(s[1]) then [ToUpper(s[1])] + SnakeToCamel(s[2..])
    else [s[0]] + SnakeToCamel(s[1..])
  }

  function CamelToSnake(s: string): string {
    if s == [] then []
    else (if IsUpper(s[0]) then ['_', ToLower(s[0])] else [s[0]]) + CamelToSnake(s[1..])
  }

  function ForeignKeyColumnName(name: string): string {
    SnakeToCamel(name) + "Id"
  }

  /** An underscore stands directly before a lower-case letter. */
  predicate HasHump(s: string) {
    exists i :: 0 <= i < |s| - 1 && s[i] == '_' && IsLower(s[i + 1])
  }

  lemma HumpTail(s: string)
    requires s != []
    ensures HasHump(s) <==> (|s| >= 2 && s[0] == '_' && IsLower(s[1])) || HasHump(s[1..])
  {
    if HasHump(s[1..]) {
      var i :| 0 <= i < |s[1..]| - 1 && s[1..][i] == '_' && IsLower(s[1..][i + 1]);
      assert s[i + 1] == '_' && IsLower(s[i + 2]);
    }
    if HasHump(s) {
      var i :| 0 <= i < |s| - 1 && s[i] == '_' && IsLower(s[i + 1]);
      if i > 0 {
        assert s[1..][i - 1] == '_' && IsLower(s[1..][i]);
      }
    }
  }

  lemma {:induction false} CamelOfSnake(s: string)
    ensures SnakeToCamel(CamelToSnake(s)) == SnakeToCamel(s)
    decreases |s|
  {
    if s != [] {
      CamelOfSnake(s[1..]);
      var rest := CamelToSnake(s[1..]);
      if IsUpper(s[0]) {
        assert CamelToSnake(s)[2..] == rest;
      } else {
        assert CamelToSnake(s)[1..] == rest;
        if |s| >= 2 && s[0] == '_' && IsLower(s[1]) {
          CamelOfSnake(s[2..]);
          assert s[1..][1..] == s[2..] && CamelToSnake(s)[2..] == CamelToSnake(s[2..]);
        }
      }
    }
  }

  lemma {:induction false} CamelFixed(s: string)
    ensures |SnakeToCamel(s)| <= |s|
    ensures SnakeToCamel(s) == s <==> !HasHump(s)
    decreases |s|
  {
    if s != [] {
      HumpTail(s);
      CamelFixed(s[1..]);
      if |s| >= 2 && s[0] == '_' && IsLower(s[1]) {
        CamelFixed(s[2..]);
      } else {
        assert s == [s[0]] + s[1..];
        assert SnakeToCamel(s)[1..] == SnakeToCamel(s[1..]);
      }
    }
  }

  /** Camel case survives the way to snake case and back exactly when no underscore precedes a lower-case letter. */
  lemma {:induction false} CamelRoundTrip(s: string)
    ensures SnakeToCamel(CamelToSnake(s)) == s <==> !HasHump(s)
  {
    CamelOfSnake(s);
    CamelFixed(s);
  }

  predicate HasUpper(s: string) {
    exists i :: 0 <= i < |s| && IsUpper(s[i])
  }

  lemma {:induction false} SnakeHasNoUpper(s: string)
    ensures !HasUpper(CamelToSnake(s))
  {
    if s != [] {
      SnakeHasNoUpper(s[1..]);
    }
  }

  lemma {:induction false} SnakeOfCamel(s: string)
    requires !HasUpper(s)
    ensures CamelToSnake(SnakeToCamel(s)) == s
    decreases |s|
  {
    if s != [] {
      assert !HasUpper(s[1..]);
      if |s| >= 2 && s[0] == '_' && IsLower(s[1]) {
        assert !HasUpper(s[2..]);
        SnakeOfCamel(s[2..]);
        assert SnakeToCamel(s)[1..] == SnakeToCamel(s[2..]);
        assert s == [s[0], s[1]] + s[2..];
      } else {
        SnakeOfCamel(s[1..]);
        assert SnakeToCamel(s)[1..] == SnakeToCamel(s[1..]);
        assert s == [s[0]] + s[1..];
      }
    }
  }

  /** Snake case survives the way to camel case and back exactly when it has no upper-case letter. */
  lemma {:induction false} SnakeRoundTrip(s: string)
    ensures CamelToSnake(SnakeToCamel(s)) == s <==> !HasUpper(s)
  {
    if HasUpper(s) {
      SnakeHasNoUpper(SnakeToCamel(s));
    } else {
      SnakeOfCamel(s);
    }
  }

  /** Two properties share a foreign-key column exactly when they read the same in camel case; so properties
      without an underscore before a lower-case letter never do. */
  lemma ForeignKeysCollide(a: string, b: string)
    ensures ForeignKeyColumnName(a) == ForeignKeyColumnName(b) <==> SnakeToCamel(a) == SnakeToCamel(b)
    ensures !HasHump(a) && !HasHump(b) && ForeignKeyColumnName(a) == ForeignKeyColumnName(b) ==> a == b
  {
    CamelFixed(a);
    CamelFixed(b);
    if ForeignKeyColumnName(a) == ForeignKeyColumnName(b) {
      assert SnakeToCamel(a) == ForeignKeyColumnName(a)[..|ForeignKeyColumnName(a)| - 2];
      assert SnakeToCamel(b) == ForeignKeyColumnName(b)[..|ForeignKeyColumnName(b)| - 2];
    }
  }

  /** A relation named in camel case is stored under its name with `Id` behind it, and one named in snake case under
      its camel form. */
  lemma ForeignKeyOfName(name: string)
    ensures !HasHump(name) ==> ForeignKeyColumnName(name) == name + "Id"
    ensures ForeignKeyColumnName(CamelToSnake(name)) == ForeignKeyColumnName(name)
  {
    CamelFixed(name);
    CamelOfSnake(name);
  }
}
