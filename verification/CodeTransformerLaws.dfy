/** Laws of the macro rewriter: re-lexing its output reproduces it, and only markers change. */
module CodeTransformerLaws {
  import opened Prelude
  import opened CodeTransformer

  /** Rewritten again, `w` in code position comes out as it is, and leaves the lexer in code state. */
  ghost predicate Inert(w: string, rest: string) {
    Transform(Code, w + rest) == w + Transform(Code, rest) && EndState(Code, w + rest) == EndState(Code, rest)
  }

  predicate PlainChar(c: char) {
    c != '"' && c != '\'' && c != '`' && c != '/' && !IsPrefixChar(c)
  }

  /** A lexeme of one character that is not a marker is passed through. */
  lemma OneChar(st: State, c: char, rest: string)
    requires Lex(st, [c] + rest).len == 1 && !Lex(st, [c] + rest).isMarker
    ensures Transform(st, [c] + rest) == [c] + Transform(Lex(st, [c] + rest).next, rest)
    ensures EndState(st, [c] + rest) == EndState(Lex(st, [c] + rest).next, rest)
  {
    assert ([c] + rest)[..1] == [c] && ([c] + rest)[1..] == rest;
  }

  lemma {:induction false} PlainIsInert(w: string, rest: string)
    requires forall i :: 0 <= i < |w| ==> PlainChar(w[i])
    ensures Inert(w, rest)
  {
    hide Transform, EndState;
    if w == "" {
      assert w + rest == rest;
    } else {
      PlainIsInert(w[1..], rest);
      OneChar(Code, w[0], w[1..] + rest);
      assert w + rest == [w[0]] + (w[1..] + rest);
      assert w + Transform(Code, rest) == [w[0]] + (w[1..] + Transform(Code, rest));
    }
  }

  lemma InertConcat(v: string, w: string, rest: string)
    requires Inert(v, w + rest) && Inert(w, rest)
    ensures Inert(v + w, rest)
  {
    hide Transform, EndState;
    assert v + w + rest == v + (w + rest);
    assert v + w + Transform(Code, rest) == v + (w + Transform(Code, rest));
  }

  lemma {:induction false} QuotedTail(w: string, rest: string)
    requires forall i :: 0 <= i < |w| ==> w[i] != '\'' && w[i] != '\\'
    ensures Transform(StringSingle, w + (['\''] + rest)) == w + (['\''] + Transform(Code, rest))
    ensures EndState(StringSingle, w + (['\''] + rest)) == EndState(Code, rest)
  {
    hide Transform, EndState;
    if w == "" {
      OneChar(StringSingle, '\'', rest);
      assert w + (['\''] + rest) == ['\''] + rest;
      assert w + (['\''] + Transform(Code, rest)) == ['\''] + Transform(Code, rest);
    } else {
      QuotedTail(w[1..], rest);
      OneChar(StringSingle, w[0], w[1..] + (['\''] + rest));
      assert w + (['\''] + rest) == [w[0]] + (w[1..] + (['\''] + rest));
      assert w + (['\''] + Transform(Code, rest)) == [w[0]] + (w[1..] + (['\''] + Transform(Code, rest)));
    }
  }

  function Quoted(w: string): string {
    ['\''] + (w + ['\''])
  }

  lemma QuotedIsInert(w: string, rest: string)
    requires forall i :: 0 <= i < |w| ==> w[i] != '\'' && w[i] != '\\'
    ensures Inert(Quoted(w), rest)
  {
    hide Transform, EndState;
    QuotedTail(w, rest);
    OneChar(Code, '\'', w + (['\''] + rest));
    assert Quoted(w) + rest == ['\''] + (w + (['\''] + rest));
    assert Quoted(w) + Transform(Code, rest) == ['\''] + (w + (['\''] + Transform(Code, rest)));
  }

  lemma ThrowIsInert(status: string, rest: string)
    requires forall i :: 0 <= i < |status| ==> status[i] != '\'' && status[i] != '\\'
    ensures Inert("$ctx.$throw[" + (Quoted(status) + "]"), rest)
  {
    hide Inert;
    PlainIsInert("]", rest);
    QuotedIsInert(status, "]" + rest);
    InertConcat(Quoted(status), "]", rest);
    PlainIsInert("$ctx.$throw[", Quoted(status) + "]" + rest);
    InertConcat("$ctx.$throw[", Quoted(status) + "]", rest);
  }

  predicate IsThrow(id: string) {
    id in {"@THROW400", "@THROW401", "@THROW403", "@THROW404", "@THROW409", "@THROW422", "@THROW429", "@THROW500", "@THROW503"}
  }

  lemma ThrowMapping(id: string)
    requires IsThrow(id)
    ensures Mapping(id) == Some("$ctx.$throw[" + (Quoted(id[6..]) + "]"))
  {
    var digits := id[6..];
    assert |id| == 9 && digits == [id[6], id[7], id[8]];
    assert Quoted(digits) + "]" == ['\'', id[6], id[7], id[8], '\'', ']'];
    assert Mapping(id).value == "$ctx.$throw[" + ['\'', id[6], id[7], id[8], '\'', ']'];
  }

  lemma ShortPlainMapping(id: string)
    requires Mapping(id).Some? && |id| <= 5
    ensures forall i :: 0 <= i < |Mapping(id).value| ==> PlainChar(Mapping(id).value[i])
  {
  }

  lemma MediumPlainMapping(id: string)
    requires Mapping(id).Some? && 5 < |id| <= 7
    ensures forall i :: 0 <= i < |Mapping(id).value| ==> PlainChar(Mapping(id).value[i])
  {
  }

  lemma LongPlainMapping(id: string)
    requires Mapping(id).Some? && !IsThrow(id) && |id| > 7
    ensures forall i :: 0 <= i < |Mapping(id).value| ==> PlainChar(Mapping(id).value[i])
  {
  }

  lemma MappedIsInert(id: string, rest: string)
    requires Mapping(id).Some?
    ensures Inert(Mapping(id).value, rest)
  {
    if IsThrow(id) {
      ThrowMapping(id);
      assert forall i :: 6 <= i < 9 ==> id[i] != '\'' && id[i] != '\\';
      ThrowIsInert(id[6..], rest);
    } else {
      if |id| <= 5 {
        ShortPlainMapping(id);
      } else if |id| <= 7 {
        MediumPlainMapping(id);
      } else {
        LongPlainMapping(id);
      }
      PlainIsInert(Mapping(id).value, rest);
    }
  }

  // ---- re-lexing the output ----

  predicate IsMarker(m: string) {
    m != "" && IsPrefixChar(m[0]) && forall i :: 1 <= i < |m| ==> IsIdentChar(m[i])
  }

  lemma IdentCharsArePlain(m: string)
    requires IsMarker(m)
    ensures forall i :: 0 <= i < |m[1..]| ==> PlainChar(m[1..][i])
  {
  }

  /** A marker that is rewritten is rewritten to something inert. */
  lemma RewrittenIsInert(m: string, rest: string)
    requires IsMarker(m) && Rewrite(m) != m
    ensures Inert(Rewrite(m), rest)
  {
    if m[0] == '@' {
      MappedIsInert(m, rest);
    } else {
      var head := if m[0] == '#' then "$ctx.$repos." else "$ctx.$pkgs.";
      IdentCharsArePlain(m);
      PlainIsInert(m[1..], rest);
      PlainIsInert(head, m[1..] + rest);
      InertConcat(head, m[1..], rest);
    }
  }

  lemma RewriteHead(m: string)
    requires m != "" && IsPrefixChar(m[0])
    ensures Rewrite(m) != "" && (Rewrite(m)[0] == '@' || Rewrite(m)[0] == '$')
  {
  }

  /** The first character of the output is that of the input, unless a marker was rewritten there. */
  ghost predicate SameHead(r: string, s: string) {
    && (r == "" <==> s == "")
    && (r != "" ==> r[0] == s[0] || r[0] == '$' || (r[0] == '@' && IsPrefixChar(s[0])))
  }

  lemma OutputHead(st: State, s: string)
    ensures SameHead(Transform(st, s), s)
    ensures st != Code && s != "" ==> Transform(st, s) != "" && Transform(st, s)[0] == s[0]
  {
    if s != "" {
      var l := Lex(st, s);
      if l.isMarker {
        RewriteHead(s[..l.len]);
      }
    }
  }

  /** The run of identifier characters after a marker does not grow when what follows is rewritten. */
  lemma {:induction false} IdentRunOf(w: string, r: string)
    requires forall i :: 0 <= i < |w| ==> IsIdentChar(w[i])
    requires r == "" || !IsIdentChar(r[0])
    ensures IdentRun(w + r) == |w|
  {
    if w != "" {
      assert (w + r)[1..] == w[1..] + r;
      IdentRunOf(w[1..], r);
    } else {
      assert w + r == r;
    }
  }

  lemma CopiedMarker(s: string, r: string)
    requires s != "" && Lex(Code, s).isMarker && SameHead(r, s[Lex(Code, s).len..])
    ensures Lex(Code, s[..Lex(Code, s).len] + r) == Lex(Code, s)
  {
    var l := Lex(Code, s);
    var t := s[..l.len] + r;
    assert t[0] == s[0] && t[1..] == s[1..l.len] + r;
    assert l.len < |s| ==> !IsIdentChar(s[l.len]) by { assert s[1..][l.len - 1..] == s[l.len..]; }
    IdentRunOf(s[1..l.len], r);
  }

  lemma CopiedPlain(st: State, s: string, r: string)
    requires s != "" && !Lex(st, s).isMarker
    requires var l := Lex(st, s);
             SameHead(r, s[l.len..]) && (l.next != Code && l.len < |s| ==> r[0] == s[l.len])
    ensures Lex(st, s[..Lex(st, s).len] + r) == Lex(st, s)
  {
    hide IdentRun, IsIdentChar;
    var l := Lex(st, s);
    var t := s[..l.len] + r;
    assert t[0] == s[0] && (|t| > 1 <==> |s| > 1);
    if |s| > 1 {
      assert t[1] == if l.len == 2 then s[1] else r[0];
    }
  }

  /** A lexeme that is copied is lexed the same way when the rest of the input has been rewritten. */
  lemma CopiedLexeme(st: State, s: string, r: string)
    requires s != ""
    requires var l := Lex(st, s);
             SameHead(r, s[l.len..]) && (l.next != Code && l.len < |s| ==> r[0] == s[l.len])
    ensures Lex(st, s[..Lex(st, s).len] + r) == Lex(st, s)
  {
    if Lex(st, s).isMarker {
      CopiedMarker(s, r);
    } else {
      CopiedPlain(st, s, r);
    }
  }

  /** What one lexeme emits is lexed again as a whole, and emitted unchanged. */
  lemma Absorb(st: State, s: string, r: string)
    requires s != ""
    requires var l := Lex(st, s);
             SameHead(r, s[l.len..]) && (l.next != Code && l.len < |s| ==> r[0] == s[l.len])
    ensures Transform(st, Emit(st, s) + r) == Emit(st, s) + Transform(Lex(st, s).next, r)
    ensures EndState(st, Emit(st, s) + r) == EndState(Lex(st, s).next, r)
  {
    var l := Lex(st, s);
    var text := s[..l.len];
    if Emit(st, s) == text {
      CopiedLexeme(st, s, r);
      assert (text + r)[..l.len] == text && (text + r)[l.len..] == r;
    } else {
      RewrittenIsInert(text, r);
    }
  }

  /** Re-lexing the output reproduces it, and ends in the state the input ended in. */
  lemma {:induction false} IdempotentFrom(st: State, s: string)
    ensures Transform(st, Transform(st, s)) == Transform(st, s)
    ensures EndState(st, Transform(st, s)) == EndState(st, s)
    decreases |s|
  {
    if s != "" {
      var l := Lex(st, s);
      IdempotentFrom(l.next, s[l.len..]);
      OutputHead(l.next, s[l.len..]);
      Absorb(st, s, Transform(l.next, s[l.len..]));
    }
  }

  lemma Idempotent(code: string)
    ensures Transform(Code, Transform(Code, code)) == Transform(Code, code)
  {
    IdempotentFrom(Code, code);
  }

  // ---- what is copied and what is rewritten ----

  datatype Token = Token(state: State, text: string, isMarker: bool)

  /** The lexemes of the input, each with the state it was met in. */
  function Tokens(st: State, s: string): seq<Token>
    decreases |s|
  {
    if s == "" then []
    else
      var l := Lex(st, s);
      [Token(st, s[..l.len], l.isMarker)] + Tokens(l.next, s[l.len..])
  }

  function Texts(tokens: seq<Token>): string {
    if tokens == [] then "" else tokens[0].text + Texts(tokens[1..])
  }

  /** Every token copied, except that markers are rewritten. */
  function RewriteTokens(tokens: seq<Token>): string
    requires forall tk :: tk in tokens ==> tk.text != ""
  {
    if tokens == [] then ""
    else (if tokens[0].isMarker then Rewrite(tokens[0].text) else tokens[0].text) + RewriteTokens(tokens[1..])
  }

  lemma MarkerText(st: State, s: string)
    requires s != "" && Lex(st, s).isMarker
    ensures IsMarker(s[..Lex(st, s).len])
    ensures Lex(st, s).len < |s| ==> !IsIdentChar(s[Lex(st, s).len])
  {
    var n := Lex(st, s).len;
    assert forall i :: 1 <= i < n ==> s[i] == s[1..][i - 1];
    assert n < |s| ==> s[n] == s[1..][n - 1];
  }

  /** Markers occur in code position only and run to the last identifier character. */
  ghost predicate MarkersOk(tokens: seq<Token>) {
    && (forall tk :: tk in tokens ==> tk.text != "")
    && (forall tk :: tk in tokens && tk.isMarker ==> tk.state == Code && IsMarker(tk.text))
    && (forall i :: 0 <= i < |tokens| - 1 && tokens[i].isMarker ==> !IsIdentChar(tokens[i + 1].text[0]))
  }

  lemma {:induction false} TokenMarkers(st: State, s: string)
    ensures MarkersOk(Tokens(st, s))
    ensures s != "" ==> Tokens(st, s) != [] && Tokens(st, s)[0].text[0] == s[0]
    decreases |s|
  {
    if s != "" {
      var l := Lex(st, s);
      TokenMarkers(l.next, s[l.len..]);
      if l.isMarker {
        MarkerText(st, s);
      }
    }
  }

  /** The tokens are the input, in order, and the output is the tokens with exactly the markers rewritten. */
  lemma {:induction false} Spans(st: State, s: string)
    ensures MarkersOk(Tokens(st, s))
    ensures Texts(Tokens(st, s)) == s && RewriteTokens(Tokens(st, s)) == Transform(st, s)
    decreases |s|
  {
    hide Rewrite, Lex, IsMarker;
    TokenMarkers(st, s);
    if s != "" {
      var l := Lex(st, s);
      assert s == s[..l.len] + s[l.len..];
      Spans(l.next, s[l.len..]);
      assert Tokens(st, s)[1..] == Tokens(l.next, s[l.len..]);
    }
  }

  /** `@NAME` for a name that is not in the table. */
  predicate UnknownMacro(m: string) {
    m != "" && m[0] == '@' && Mapping(m).None?
  }

  lemma RewriteGrows(m: string)
    requires IsMarker(m)
    ensures Rewrite(m) == m <==> UnknownMacro(m)
    ensures Rewrite(m) != m ==> |Rewrite(m)| > |m|
  {
  }

  lemma {:induction false} TokensKeepLength(tokens: seq<Token>)
    requires forall tk :: tk in tokens ==> tk.text != "" && (tk.isMarker ==> IsMarker(tk.text))
    ensures |RewriteTokens(tokens)| >= |Texts(tokens)|
    ensures |RewriteTokens(tokens)| == |Texts(tokens)|
        <==> forall tk :: tk in tokens && tk.isMarker ==> UnknownMacro(tk.text)
    ensures |RewriteTokens(tokens)| == |Texts(tokens)| ==> RewriteTokens(tokens) == Texts(tokens)
  {
    if tokens != [] {
      TokensKeepLength(tokens[1..]);
      assert tokens == [tokens[0]] + tokens[1..];
      if tokens[0].isMarker {
        RewriteGrows(tokens[0].text);
      }
    }
  }

  /** Code comes through unchanged exactly when the only markers in code position are unknown `@` names. */
  lemma UnchangedIff(code: string)
    ensures Transform(Code, code) == code
        <==> forall tk :: tk in Tokens(Code, code) && tk.isMarker ==> UnknownMacro(tk.text)
  {
    Spans(Code, code);
    TokensKeepLength(Tokens(Code, code));
  }
}
