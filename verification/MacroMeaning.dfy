/** What each construct of the source text becomes, in the terms of the text alone: the macros by a literal table, and
    strings, templates and comments as they are written. */
module MacroMeaning {
  import opened CodeTransformer
  import opened CodeTransformerLaws

  /** `v` in code position becomes `w`, and code goes on behind it. */
  ghost predicate Becomes(v: string, w: string, rest: string) {
    Transform(Code, v + rest) == w + Transform(Code, rest) && EndState(Code, v + rest) == EndState(Code, rest)
  }

  predicate NameChar(c: char) {
    'A' <= c <= 'Z' || '0' <= c <= '9' || c == '_'
  }

  predicate IsName(w: string) {
    forall i :: 0 <= i < |w| ==> NameChar(w[i])
  }

  predicate EndsName(rest: string) {
    rest == "" || !NameChar(rest[0])
  }

  lemma MarkerIsLexed(c: char, w: string, rest: string)
    requires IsPrefixChar(c) && IsName(w) && EndsName(rest)
    ensures Becomes([c] + w, Rewrite([c] + w), rest)
  {
    var s := [c] + w + rest;
    assert s[1..] == w + rest;
    IdentRunOf(w, rest);
    assert Lex(Code, s).len == 1 + |w| && s[..1 + |w|] == [c] + w && s[1 + |w|..] == rest;
  }

  /** `#table` reads a repository. */
  lemma HashIsRepository(w: string, rest: string)
    requires IsName(w) && EndsName(rest)
    ensures Becomes("#" + w, "$ctx.$repos." + w, rest)
  {
    MarkerIsLexed('#', w, rest);
    assert (['#'] + w)[1..] == w;
  }

  /** `%package` reads a package. */
  lemma PercentIsPackage(w: string, rest: string)
    requires IsName(w) && EndsName(rest)
    ensures Becomes("%" + w, "$ctx.$pkgs." + w, rest)
  {
    MarkerIsLexed('%', w, rest);
    assert (['%'] + w)[1..] == w;
  }

  const CONTEXT_MACROS: set<(string, string)> := {
    ("@CACHE", "$ctx.$cache"), ("@REPOS", "$ctx.$repos"), ("@HELPERS", "$ctx.$helpers"), ("@LOGS", "$ctx.$logs"),
    ("@BODY", "$ctx.$body"), ("@DATA", "$ctx.$data"), ("@STATUS", "$ctx.$statusCode"), ("@PARAMS", "$ctx.$params")
  }

  const REQUEST_MACROS: set<(string, string)> := {
    ("@QUERY", "$ctx.$query"), ("@USER", "$ctx.$user"), ("@REQ", "$ctx.$req"), ("@RES", "$ctx.$res"),
    ("@SHARE", "$ctx.$share"), ("@API", "$ctx.$api"), ("@UPLOADED_FILE", "$ctx.$uploadedFile"), ("@PKGS", "$ctx.$pkgs")
  }

  const THROW_MACROS: set<(string, string)> := {
    ("@THROW400", "$ctx.$throw['400']"), ("@THROW401", "$ctx.$throw['401']"), ("@THROW403", "$ctx.$throw['403']"),
    ("@THROW404", "$ctx.$throw['404']"), ("@THROW409", "$ctx.$throw['409']"), ("@THROW422", "$ctx.$throw['422']"),
    ("@THROW429", "$ctx.$throw['429']"), ("@THROW500", "$ctx.$throw['500']"), ("@THROW503", "$ctx.$throw['503']"),
    ("@THROW", "$ctx.$throw")
  }

  predicate IsMacro(p: (string, string)) {
    p in CONTEXT_MACROS || p in REQUEST_MACROS || p in THROW_MACROS
  }

  lemma ContextMacro(p: (string, string))
    requires p in CONTEXT_MACROS
    ensures Rewrite(p.0) == p.1 && p.0[0] == '@' && IsName(p.0[1..])
  {
  }

  lemma RequestMacro(p: (string, string))
    requires p in REQUEST_MACROS
    ensures Rewrite(p.0) == p.1 && p.0[0] == '@' && IsName(p.0[1..])
  {
  }

  lemma ThrowMacro(p: (string, string))
    requires p in THROW_MACROS
    ensures Rewrite(p.0) == p.1 && p.0[0] == '@' && IsName(p.0[1..])
  {
  }

  /** Every macro of the table becomes its text. */
  lemma MacroIsContext(p: (string, string), rest: string)
    requires IsMacro(p) && EndsName(rest)
    ensures Becomes(p.0, p.1, rest)
  {
    hide Rewrite, IsName, Becomes, EndsName;
    if p in CONTEXT_MACROS {
      ContextMacro(p);
    } else if p in REQUEST_MACROS {
      RequestMacro(p);
    } else {
      ThrowMacro(p);
    }
    MarkerIsLexed('@', p.0[1..], rest);
    assert p.0 == ['@'] + p.0[1..];
  }

  lemma MappedIsMacro(id: string)
    requires Mapping(id).Some?
    ensures IsMacro((id, Mapping(id).value))
  {
  }

  /** Any other `@` name stays. */
  lemma OtherNameStays(w: string, rest: string)
    requires IsName(w) && EndsName(rest) && forall text :: !IsMacro(("@" + w, text))
    ensures Becomes("@" + w, "@" + w, rest)
  {
    hide Becomes, IsMacro, Mapping;
    MarkerIsLexed('@', w, rest);
    assert ['@'] + w == "@" + w;
    if Mapping("@" + w).Some? {
      MappedIsMacro("@" + w);
    }
  }

  // ---- text that is copied ----

  /** What stands between two quotes: a backslash takes the next character with it, and no quote stands alone. */
  predicate Quotable(q: char, body: string) {
    body == "" || (if body[0] == '\\' then |body| > 1 && Quotable(q, body[2..]) else body[0] != q && Quotable(q, body[1..]))
  }

  function Inside(q: char): State
    requires q in {'"', '\'', '`'}
  {
    if q == '"' then StringDouble else if q == '\'' then StringSingle else Template
  }

  lemma {:induction false} BodyIsCopied(q: char, body: string, rest: string)
    requires q in {'"', '\'', '`'} && Quotable(q, body)
    ensures Transform(Inside(q), body + ([q] + rest)) == body + ([q] + Transform(Code, rest))
    ensures EndState(Inside(q), body + ([q] + rest)) == EndState(Code, rest)
    decreases |body|
  {
    hide Transform, EndState;
    if body == "" {
      OneChar(Inside(q), q, rest);
      assert body + ([q] + rest) == [q] + rest && body + ([q] + Transform(Code, rest)) == [q] + Transform(Code, rest);
    } else {
      var n := if body[0] == '\\' then 2 else 1;
      BodyIsCopied(q, body[n..], rest);
      var s, tail := body + ([q] + rest), body[n..] + ([q] + rest);
      assert s[..n] == body[..n] && s[n..] == tail;
      TransformOnce(Inside(q), s);
      assert body == body[..n] + body[n..];
      assert body[..n] + (body[n..] + ([q] + Transform(Code, rest))) == body + ([q] + Transform(Code, rest));
    }
  }

  lemma TransformOnce(st: State, s: string)
    requires s != ""
    ensures var l := Lex(st, s);
            && Transform(st, s) == Emit(st, s) + Transform(l.next, s[l.len..])
            && EndState(st, s) == EndState(l.next, s[l.len..])
  {
  }

  /** Strings and templates are copied, escapes and embedded markers included. */
  lemma QuotedIsCopied(q: char, body: string, rest: string)
    requires q in {'"', '\'', '`'} && Quotable(q, body)
    ensures Becomes([q] + body + [q], [q] + body + [q], rest)
  {
    hide Transform, EndState;
    BodyIsCopied(q, body, rest);
    OneChar(Code, q, body + ([q] + rest));
    assert [q] + body + [q] + rest == [q] + (body + ([q] + rest));
    assert [q] + body + [q] + Transform(Code, rest) == [q] + (body + ([q] + Transform(Code, rest)));
  }

  lemma {:induction false} LineIsCopied(body: string, rest: string)
    requires '\n' !in body
    ensures Transform(CommentLine, body + ("\n" + rest)) == body + ("\n" + Transform(Code, rest))
    ensures EndState(CommentLine, body + ("\n" + rest)) == EndState(Code, rest)
  {
    hide Transform, EndState;
    if body == "" {
      OneChar(CommentLine, '\n', rest);
      assert body + ("\n" + rest) == ['\n'] + rest && body + ("\n" + Transform(Code, rest)) == ['\n'] + Transform(Code, rest);
    } else {
      LineIsCopied(body[1..], rest);
      OneChar(CommentLine, body[0], body[1..] + ("\n" + rest));
      assert body + ("\n" + rest) == [body[0]] + (body[1..] + ("\n" + rest));
      assert body + ("\n" + Transform(Code, rest)) == [body[0]] + (body[1..] + ("\n" + Transform(Code, rest)));
    }
  }

  lemma TwoChars(st: State, a: char, b: char, rest: string)
    requires Lex(st, [a, b] + rest).len == 2 && !Lex(st, [a, b] + rest).isMarker
    ensures Transform(st, [a, b] + rest) == [a, b] + Transform(Lex(st, [a, b] + rest).next, rest)
    ensures EndState(st, [a, b] + rest) == EndState(Lex(st, [a, b] + rest).next, rest)
  {
    assert ([a, b] + rest)[..2] == [a, b] && ([a, b] + rest)[2..] == rest;
  }

  /** A line comment is copied up to its line break. */
  lemma LineCommentIsCopied(body: string, rest: string)
    requires '\n' !in body
    ensures Becomes("//" + body + "\n", "//" + body + "\n", rest)
  {
    hide Transform, EndState;
    LineIsCopied(body, rest);
    TwoChars(Code, '/', '/', body + ("\n" + rest));
    assert "//" + body + "\n" + rest == ['/', '/'] + (body + ("\n" + rest));
    assert "//" + body + "\n" + Transform(Code, rest) == ['/', '/'] + (body + ("\n" + Transform(Code, rest)));
  }

  /** No end of comment before the one that is put behind `body`. */
  predicate Unclosed(body: string) {
    forall i :: 0 <= i < |body| && body[i] == '*' ==> i + 1 == |body| || body[i + 1] != '/'
  }

  lemma {:induction false} BlockIsCopied(body: string, rest: string)
    requires Unclosed(body)
    ensures Transform(CommentBlock, body + ("*/" + rest)) == body + ("*/" + Transform(Code, rest))
    ensures EndState(CommentBlock, body + ("*/" + rest)) == EndState(Code, rest)
  {
    hide Transform, EndState;
    if body == "" {
      TwoChars(CommentBlock, '*', '/', rest);
      assert body + ("*/" + rest) == ['*', '/'] + rest && body + ("*/" + Transform(Code, rest)) == ['*', '/'] + Transform(Code, rest);
    } else {
      assert Unclosed(body[1..]) by {
        assert forall i :: 0 <= i < |body| - 1 ==> body[1..][i] == body[i + 1];
      }
      BlockIsCopied(body[1..], rest);
      var tail := body[1..] + ("*/" + rest);
      assert body + ("*/" + rest) == [body[0]] + tail;
      assert tail[0] == if |body| > 1 then body[1] else '*';
      OneChar(CommentBlock, body[0], tail);
      assert body + ("*/" + Transform(Code, rest)) == [body[0]] + (body[1..] + ("*/" + Transform(Code, rest)));
    }
  }

  /** A block comment is copied up to its end. */
  lemma BlockCommentIsCopied(body: string, rest: string)
    requires Unclosed(body)
    ensures Becomes("/*" + body + "*/", "/*" + body + "*/", rest)
  {
    hide Transform, EndState;
    BlockIsCopied(body, rest);
    TwoChars(Code, '/', '*', body + ("*/" + rest));
    assert "/*" + body + "*/" + rest == ['/', '*'] + (body + ("*/" + rest));
    assert "/*" + body + "*/" + Transform(Code, rest) == ['/', '*'] + (body + ("*/" + Transform(Code, rest)));
  }

  /** Any other character of code is copied, a slash that opens no comment included. */
  lemma PlainIsCopied(c: char, rest: string)
    requires c !in {'"', '\'', '`', '@', '#', '%'} && !(c == '/' && rest != "" && rest[0] in {'/', '*'})
    ensures Becomes([c], [c], rest)
  {
    OneChar(Code, c, rest);
  }
}
