/** The macro rewriter: a six-state lexer that rewrites markers met in code position. */
module CodeTransformer {
  import opened Prelude

  datatype State = Code | StringDouble | StringSingle | Template | CommentLine | CommentBlock

  function Mapping(id: string): Option<string> {
    match id
    case "@CACHE" => Some("$ctx.$cache")
    case "@REPOS" => Some("$ctx.$repos")
    case "@HELPERS" => Some("$ctx.$helpers")
    case "@LOGS" => Some("$ctx.$logs")
    case "@BODY" => Some("$ctx.$body")
    case "@DATA" => Some("$ctx.$data")
    case "@STATUS" => Some("$ctx.$statusCode")
    case "@PARAMS" => Some("$ctx.$params")
    case "@QUERY" => Some("$ctx.$query")
    case "@USER" => Some("$ctx.$user")
    case "@REQ" => Some("$ctx.$req")
    case "@RES" => Some("$ctx.$res")
    case "@SHARE" => Some("$ctx.$share")
    case "@API" => Some("$ctx.$api")
    case "@UPLOADED_FILE" => Some("$ctx.$uploadedFile")
    case "@PKGS" => Some("$ctx.$pkgs")
    case "@THROW400" => Some("$ctx.$throw['400']")
    case "@THROW401" => Some("$ctx.$throw['401']")
    case "@THROW403" => Some("$ctx.$throw['403']")
    case "@THROW404" => Some("$ctx.$throw['404']")
    case "@THROW409" => Some("$ctx.$throw['409']")
    case "@THROW422" => Some("$ctx.$throw['422']")
    case "@THROW429" => Some("$ctx.$throw['429']")
    case "@THROW500" => Some("$ctx.$throw['500']")
    case "@THROW503" => Some("$ctx.$throw['503']")
    case "@THROW" => Some("$ctx.$throw")
    case _ => None
  }

  predicate IsPrefixChar(c: char) { c == '@' || c == '#' || c == '%' }

  predicate IsIdentChar(c: char) { 'A' <= c <= 'Z' || '0' <= c <= '9' || c == '_' }

  /** Length of the run of identifier characters `s` starts with. */
  function IdentRun(s: string): (n: nat)
    ensures n <= |s| && forall i :: 0 <= i < n ==> IsIdentChar(s[i])
    ensures n < |s| ==> !IsIdentChar(s[n])
  {
    if s == "" || !IsIdentChar(s[0]) then 0 else 1 + IdentRun(s[1..])
  }

  /** What a marker is rewritten to. */
  function Rewrite(marker: string): string
    requires marker != ""
  {
    if marker[0] == '@' then (match Mapping(marker) case Some(w) => w case None => marker)
    else if marker[0] == '#' then "$ctx.$repos." + marker[1..]
    else "$ctx.$pkgs." + marker[1..]
  }

  /** One lexeme: how much input it takes, the state after it, and whether it is a marker. */
  datatype Lexeme = Lexeme(len: nat, next: State, isMarker: bool)

  function LexString(s: string, quote: char, here: State): Lexeme
    requires s != ""
  {
    if s[0] == '\\' then Lexeme(if |s| > 1 then 2 else 1, here, false)
    else Lexeme(1, if s[0] == quote then Code else here, false)
  }

  function Lex(st: State, s: string): (l: Lexeme)
    requires s != ""
    ensures 0 < l.len <= |s|
    ensures l.isMarker ==> st == Code && l.next == Code && IsPrefixChar(s[0]) && l.len == 1 + IdentRun(s[1..])
  {
    match st
    case Code =>
      if s[0] == '"' then Lexeme(1, StringDouble, false)
      else if s[0] == '\'' then Lexeme(1, StringSingle, false)
      else if s[0] == '`' then Lexeme(1, Template, false)
      else if s[0] == '/' && |s| > 1 && s[1] == '/' then Lexeme(2, CommentLine, false)
      else if s[0] == '/' && |s| > 1 && s[1] == '*' then Lexeme(2, CommentBlock, false)
      else if IsPrefixChar(s[0]) then Lexeme(1 + IdentRun(s[1..]), Code, true)
      else Lexeme(1, Code, false)
    case StringDouble => LexString(s, '"', st)
    case StringSingle => LexString(s, '\'', st)
    case Template => LexString(s, '`', st)
    case CommentLine => Lexeme(1, if s[0] == '\n' then Code else st, false)
    case CommentBlock =>
      if s[0] == '*' && |s| > 1 && s[1] == '/' then Lexeme(2, Code, false) else Lexeme(1, st, false)
  }

  function Emit(st: State, s: string): string
    requires s != ""
  {
    var l := Lex(st, s);
    if l.isMarker then Rewrite(s[..l.len]) else s[..l.len]
  }

  /** The output for the rest `s` of the input, lexed from state `st`. */
  function Transform(st: State, s: string): string
    decreases |s|
  {
    if s == "" then "" else Emit(st, s) + Transform(Lex(st, s).next, s[Lex(st, s).len..])
  }

  /** The state the lexer is in after all of `s`. */
  function EndState(st: State, s: string): State
    decreases |s|
  {
    if s == "" then st else EndState(Lex(st, s).next, s[Lex(st, s).len..])
  }

  lemma TransformStep(st: State, code: string, pos: nat)
    requires pos < |code|
    ensures var l := Lex(st, code[pos..]);
            && pos + l.len <= |code|
            && Transform(st, code[pos..]) == Emit(st, code[pos..]) + Transform(l.next, code[pos + l.len..])
  {
    assert code[pos..][Lex(st, code[pos..]).len..] == code[pos + Lex(st, code[pos..]).len..];
  }

  method TransformCode(code: string) returns (result: string)
    ensures result == Transform(Code, code)
  {
    hide Transform, Mapping, Lex, Emit, LexString;
    var len := |code|;
    result := "";
    var pos, state := 0, Code;
    assert code[0..] == code;
    while pos < len
      invariant 0 <= pos <= len
      invariant result + Transform(state, code[pos..]) == Transform(Code, code)
    {
      TransformStep(state, code, pos);
      ghost var before, rest, l := result, code[pos..], Lex(state, code[pos..]);
      ghost var tail := Transform(l.next, code[pos + l.len..]);
      var emitted;
      match state {
        case Code => emitted, pos, state := InCode(code, pos);
        case StringDouble => emitted, pos, state := InQuotes(code, pos, '"', state);
        case StringSingle => emitted, pos, state := InQuotes(code, pos, '\'', state);
        case Template => emitted, pos, state := InQuotes(code, pos, '`', state);
        case CommentLine => emitted, pos, state := InComment(code, pos, state);
        case CommentBlock => emitted, pos, state := InComment(code, pos, state);
      }
      result := result + emitted;
      assert result + tail == before + (emitted + tail);
    }
    EmptyRest(state);
    assert code[pos..] == "";
  }

  lemma EmptyRest(st: State)
    ensures Transform(st, "") == ""
  {
  }

  /** A turn of the loop consumes and emits one lexeme. */
  ghost predicate TookLexeme(code: string, pos: nat, st: State, emitted: string, pos': nat, st': State)
    requires pos < |code|
  {
    var l := Lex(st, code[pos..]);
    pos' == pos + l.len && st' == l.next && emitted == Emit(st, code[pos..])
  }

  method InCode(code: string, pos: nat) returns (emitted: string, pos': nat, state: State)
    requires pos < |code|
    ensures TookLexeme(code, pos, Code, emitted, pos', state)
  {
    var c := code[pos];
    var next := if pos + 1 < |code| then Some(code[pos + 1]) else None;
    ghost var rest := code[pos..];
    assert rest[..1] == [c] && (|rest| > 1 ==> rest[..2] == [c, rest[1]]);
    emitted, pos', state := [c], pos + 1, Code;
    if c == '"' {
      state := StringDouble;
    } else if c == '\'' {
      state := StringSingle;
    } else if c == '`' {
      state := Template;
    } else if c == '/' && next == Some('/') {
      emitted, pos', state := "//", pos + 2, CommentLine;
    } else if c == '/' && next == Some('*') {
      emitted, pos', state := "/*", pos + 2, CommentBlock;
    } else if c == '@' || c == '#' || c == '%' {
      emitted, pos' := InMarker(code, pos);
      assert code[pos + 1..] == rest[1..] && rest[..pos' - pos] == code[pos..pos'];
    }
  }

  method InMarker(code: string, pos: nat) returns (emitted: string, pos': nat)
    requires pos < |code| && IsPrefixChar(code[pos])
    ensures pos' == pos + 1 + IdentRun(code[pos + 1..]) && pos' <= |code|
    ensures emitted == Rewrite(code[pos..pos'])
  {
    var len, prefix := |code|, code[pos];
    pos' := pos + 1;
    while pos' < len
      invariant pos < pos' <= len
      invariant pos + 1 + IdentRun(code[pos + 1..]) == pos' + IdentRun(code[pos'..])
    {
      if !IsIdentChar(code[pos']) { break; }
      assert code[pos'..][1..] == code[pos' + 1..];
      pos' := pos' + 1;
    }
    var identifier := code[pos..pos'];
    if prefix == '@' {
      var mapped := Mapping(identifier);
      emitted := if mapped.Some? then mapped.value else identifier;
    } else if prefix == '#' {
      emitted := "$ctx.$repos." + identifier[1..];
    } else {
      emitted := "$ctx.$pkgs." + identifier[1..];
    }
  }

  method InQuotes(code: string, pos: nat, quote: char, state: State) returns (emitted: string, pos': nat, state': State)
    requires pos < |code|
    requires (state, quote) in {(StringDouble, '"'), (StringSingle, '\''), (Template, '`')}
    ensures TookLexeme(code, pos, state, emitted, pos', state')
  {
    var c := code[pos];
    emitted, pos', state' := [c], pos + 1, state;
    if c == '\\' {
      if pos' < |code| {
        emitted, pos' := emitted + [code[pos']], pos' + 1;
      }
    } else if c == quote {
      state' := Code;
    }
  }

  method InComment(code: string, pos: nat, state: State) returns (emitted: string, pos': nat, state': State)
    requires pos < |code| && (state == CommentLine || state == CommentBlock)
    ensures TookLexeme(code, pos, state, emitted, pos', state')
  {
    var c := code[pos];
    emitted, pos', state' := [c], pos + 1, state;
    if state == CommentLine {
      if c == '\n' { state' := Code; }
    } else if c == '*' && pos + 1 < |code| && code[pos + 1] == '/' {
      emitted, pos', state' := "*/", pos + 2, Code;
    }
  }
}
