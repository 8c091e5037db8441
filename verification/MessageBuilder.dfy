/** Building the LLM transcript from a stored conversation: messages are skipped, shortened and pushed, and every
    pushed tool call is followed by its result. */
module MessageBuilder {
  import opened Prelude

  datatype Role = UserRole | AssistantRole | OtherRole

  /** Stored content: nothing, a string, or an object, given by its JSON text. */
  datatype Content = Missing | Text(text: string) | Json(json: string)

  datatype ToolCall = ToolCall(id: string, name: string, arguments: string)

  /** `content` is absent when serialising the result throws. */
  datatype ToolResult = ToolResult(toolCallId: string, content: Option<string>)

  datatype Message = Message(role: Role, content: Content, toolCalls: Option<seq<ToolCall>>, toolResults: seq<ToolResult>)

  datatype LLMMessage =
    | System(content: string)
    | User(content: string)
    | Assistant(body: Option<string>, calls: seq<ToolCall>)
    | Tool(content: string, toolCallId: string)

  /** Tool calls found in the text of an old message, and the text left; absent when none is found. */
  type TextCalls = string -> Option<(seq<ToolCall>, Option<string>)>

  predicate Includes(s: string, part: string) {
    exists i :: 0 <= i <= |s| && part <= s[i..]
  }

  function Shorten(s: string, limit: nat, note: string): string {
    if |s| > limit then s[..limit] + note else s
  }

  // ---- what becomes of one message ----

  function UserContent(m: Message): Option<string> {
    match m.content
    case Missing => Some("")
    case Text(s) => if Includes(s, "[object Object]") then None else Some(Shorten(s, 1000, "... [truncated for token limit]"))
    case Json(s) => Some(Shorten(s, 1000, "... [truncated for token limit]"))
  }

  predicate IsFailureText(s: string) {
    "Error:" <= s || Includes(s, "BadRequestError") || Includes(s, "tool_use_id")
  }

  predicate HasCallMarker(s: string) {
    Includes(s, "redacted_tool_calls_begin") || Includes(s, "<|redacted_tool_call")
  }

  function ContentOf(c: Content): Option<string> {
    match c
    case Missing => None
    case Text(s) => if s == "" then None else Some(s)
    case Json(s) => Some(s)
  }

  /** The calls of an assistant message and its content, calls in the text taken out of it. */
  function CallsAndContent(m: Message, textCalls: TextCalls): (Option<seq<ToolCall>>, Option<string>) {
    if m.toolCalls.None? && m.content.Text? && HasCallMarker(m.content.text) then
      match textCalls(m.content.text)
      case Some((calls, rest)) => (Some(calls), rest)
      case None => (None, ContentOf(m.content))
    else (m.toolCalls, ContentOf(m.content))
  }

  predicate NoneFor(calls: Option<seq<ToolCall>>, id: string) {
    calls.None? || forall j :: 0 <= j < |calls.value| ==> calls.value[j].id != id
  }

  predicate Orphaned(results: seq<ToolResult>, calls: Option<seq<ToolCall>>) {
    exists i :: 0 <= i < |results| && NoneFor(calls, results[i].toolCallId)
  }

  datatype Reply = Reply(body: Option<string>, calls: seq<ToolCall>)

  /** The assistant message pushed for `m`, if any. */
  function Pushed(m: Message, recent: bool, textCalls: TextCalls): Option<Reply> {
    if m.content.Text? && (Includes(m.content.text, "[object Object]") || IsFailureText(m.content.text)) then None
    else
      var (found, content) := CallsAndContent(m, textCalls);
      if m.toolResults != [] && Orphaned(m.toolResults, found) then None
      else
        var calls := if found.Some? then found.value else [];
        if calls == [] then
          if content.Some? && recent && content.value != ""
          then Some(Reply(Some(Shorten(content.value, 400, "... [truncated]")), []))
          else None
        else
          Some(Reply(if content.Some? then Some(Shorten(content.value, 800, "... [truncated for token limit]")) else None, calls))
  }

  /** The last result stored for an id. */
  function ResultFor(results: seq<ToolResult>, id: string): Option<ToolResult> {
    if results == [] then None
    else if results[|results| - 1].toolCallId == id then Some(results[|results| - 1])
    else ResultFor(results[..|results| - 1], id)
  }

  const NOT_FOUND := "{\"error\":\"Tool result not found in conversation history\"}"

  /** The content of the tool message for a call; absent when serialising it throws. */
  function AnswerTo(results: seq<ToolResult>, id: string): Option<string> {
    match ResultFor(results, id)
    case Some(r) => r.content
    case None => Some(NOT_FOUND)
  }

  /** The tool messages for the calls, up to the first whose result cannot be serialised. */
  function Answers(calls: seq<ToolCall>, results: seq<ToolResult>): seq<LLMMessage> {
    if calls == [] || AnswerTo(results, calls[0].id).None? then []
    else [Tool(AnswerTo(results, calls[0].id).value, calls[0].id)] + Answers(calls[1..], results)
  }

  /** What message `i` appends, given whether a user message was the last pushed. */
  function Block(messages: seq<Message>, i: nat, afterUser: bool, textCalls: TextCalls): seq<LLMMessage>
    requires i < |messages|
  {
    var m := messages[i];
    match m.role
    case UserRole => if afterUser || UserContent(m).None? then [] else [User(UserContent(m).value)]
    case AssistantRole =>
      (match Pushed(m, i >= |messages| - 4, textCalls)
       case None => []
       case Some(r) => [Assistant(r.body, r.calls)] + Answers(r.calls, m.toolResults))
    case OtherRole => []
  }

  /** Whether the last user or assistant message pushed is a user message. */
  function AfterUser(ms: seq<LLMMessage>): bool {
    if ms == [] then false
    else if ms[|ms| - 1].User? then true
    else if ms[|ms| - 1].Assistant? then false
    else AfterUser(ms[..|ms| - 1])
  }

  function Start(systemPrompt: string): seq<LLMMessage> {
    if Blank(systemPrompt) then [] else [System(systemPrompt)]
  }

  predicate Blank(s: string) {
    forall i :: 0 <= i < |s| ==> s[i] in {' ', '\t', '\n', '\r'}
  }

  function Transcript(systemPrompt: string, messages: seq<Message>, n: nat, textCalls: TextCalls): seq<LLMMessage>
    requires n <= |messages|
  {
    if n == 0 then Start(systemPrompt)
    else
      var before := Transcript(systemPrompt, messages, n - 1, textCalls);
      before + Block(messages, n - 1, AfterUser(before), textCalls)
  }

  // ---- the loop ----

  datatype PushedRole = NoRole | LastUser | LastAssistant

  method BuildLLMMessages(systemPrompt: string, messages: seq<Message>, textCalls: TextCalls)
    returns (llmMessages: seq<LLMMessage>)
    ensures llmMessages == Transcript(systemPrompt, messages, |messages|, textCalls)
  {
    hide Block, Blank;
    llmMessages := [];
    if !Blank(systemPrompt) {
      llmMessages := llmMessages + [System(systemPrompt)];
    }
    var lastPushedRole := NoRole;
    for i := 0 to |messages|
      invariant llmMessages == Transcript(systemPrompt, messages, i, textCalls)
      invariant lastPushedRole == LastUser <==> AfterUser(llmMessages)
    {
      var block;
      block, lastPushedRole := PushMessage(messages, i, lastPushedRole, llmMessages, textCalls);
      llmMessages := llmMessages + block;
    }
  }

  /** The body of the loop; what it pushes comes back as a block. */
  method PushMessage(messages: seq<Message>, i: nat, lastPushedRole: PushedRole, ghost before: seq<LLMMessage>,
                     textCalls: TextCalls)
    returns (block: seq<LLMMessage>, role: PushedRole)
    requires i < |messages| && (lastPushedRole == LastUser <==> AfterUser(before))
    ensures block == Block(messages, i, AfterUser(before), textCalls)
    ensures role == LastUser <==> AfterUser(before + block)
  {
    hide Pushed, Answers, UserContent, AfterUser;
    block, role := [], lastPushedRole;
    assert before + [] == before;
    var message := messages[i];
    if message.role == UserRole {
      if lastPushedRole == LastUser {
        return;
      }
      var userContent := UserContent(message);
      if userContent.None? {
        return;
      }
      block, role := [User(userContent.value)], LastUser;
      AfterUserSnoc(before, User(userContent.value));
    } else if message.role == AssistantRole {
      var pushed := Pushed(message, i >= |messages| - 4, textCalls);
      if pushed.Some? {
        var assistant := Assistant(pushed.value.body, pushed.value.calls);
        var answers := PushAnswers(pushed.value.calls, message.toolResults);
        block, role := [assistant] + answers, LastAssistant;
        AfterUserSnoc(before, assistant);
        ToolsKeepRole(before + [assistant], answers);
        assert before + block == before + [assistant] + answers;
      }
    }
  }

  lemma AfterUserSnoc(ms: seq<LLMMessage>, m: LLMMessage)
    ensures AfterUser(ms + [m]) == if m.User? then true else if m.Assistant? then false else AfterUser(ms)
  {
    assert (ms + [m])[..|ms|] == ms;
  }

  /** The inner loop, left by the exception that serialising a result may throw. */
  method PushAnswers(calls: seq<ToolCall>, results: seq<ToolResult>) returns (answers: seq<LLMMessage>)
    ensures answers == Answers(calls, results)
    ensures forall k :: 0 <= k < |answers| ==> answers[k].Tool?
  {
    answers := [];
    for i := 0 to |calls|
      invariant Answers(calls, results) == answers + Answers(calls[i..], results)
      invariant forall k :: 0 <= k < |answers| ==> answers[k].Tool?
    {
      var answer := AnswerTo(results, calls[i].id);
      if answer.None? {
        return;
      }
      assert calls[i..][1..] == calls[i + 1..];
      answers := answers + [Tool(answer.value, calls[i].id)];
    }
  }

  lemma {:induction false} ToolsKeepRole(ms: seq<LLMMessage>, tools: seq<LLMMessage>)
    requires forall k :: 0 <= k < |tools| ==> tools[k].Tool?
    ensures AfterUser(ms + tools) == AfterUser(ms)
  {
    if tools == [] {
      assert ms + tools == ms;
    } else {
      var init := tools[..|tools| - 1];
      ToolsKeepRole(ms, init);
      assert (ms + tools)[..|ms + tools| - 1] == ms + init;
    }
  }
}
