/** What each stored message contributes to the transcript, and with which words. */
module TranscriptMeaning {
  import opened Prelude
  import opened MessageBuilder
  import opened TranscriptLaws

  const CUT := "... [truncated for token limit]"

  ghost predicate Contains(s: string, part: string) {
    exists a, b :: s == a + part + b
  }

  lemma IncludesIff(s: string, part: string)
    ensures Includes(s, part) <==> Contains(s, part)
  {
    if i :| 0 <= i <= |s| && part <= s[i..] {
      assert s == s[..i] + part + s[i + |part|..];
    }
    if a, b :| s == a + part + b {
      assert s[|a|..] == part + b;
      assert part <= s[|a|..];
    }
  }

  function Clip(s: string, limit: nat, note: string): string {
    if |s| <= limit then s else s[..limit] + note
  }

  /** The stored text: an object is given by its JSON. */
  function TextOf(c: Content): string {
    match c
    case Missing => ""
    case Text(s) => s
    case Json(s) => s
  }

  lemma NextMessage(systemPrompt: string, messages: seq<Message>, n: nat, textCalls: TextCalls)
    requires n < |messages|
    ensures var before := Transcript(systemPrompt, messages, n, textCalls);
            Transcript(systemPrompt, messages, n + 1, textCalls) == before + Block(messages, n, AfterUser(before), textCalls)
  {
  }

  /** A user message is pushed, cut to a thousand characters, unless a user message was the last one pushed or it is
      text that holds a lost object. */
  lemma UserMessage(systemPrompt: string, messages: seq<Message>, n: nat, textCalls: TextCalls)
    requires n < |messages| && messages[n].role == UserRole
    ensures var before := Transcript(systemPrompt, messages, n, textCalls);
            var after := Transcript(systemPrompt, messages, n + 1, textCalls);
            var content := messages[n].content;
            after == if AfterUser(before) || (content.Text? && Contains(content.text, "[object Object]")) then before
                     else before + [User(Clip(TextOf(content), 1000, CUT))]
  {
    hide Transcript, AfterUser, Includes;
    var before, content := Transcript(systemPrompt, messages, n, textCalls), messages[n].content;
    NextMessage(systemPrompt, messages, n, textCalls);
    if content.Text? {
      IncludesIff(content.text, "[object Object]");
    }
    assert before + [] == before;
  }

  /** A message of any other role but the assistant's contributes nothing, and the prompt stands first unless blank. */
  lemma OtherMessage(systemPrompt: string, messages: seq<Message>, n: nat, textCalls: TextCalls)
    requires n < |messages| && messages[n].role == OtherRole
    ensures Transcript(systemPrompt, messages, n + 1, textCalls) == Transcript(systemPrompt, messages, n, textCalls)
    ensures Transcript(systemPrompt, messages, 0, textCalls)
         == if exists i :: 0 <= i < |systemPrompt| && systemPrompt[i] !in {' ', '\t', '\n', '\r'} then [System(systemPrompt)] else []
  {
    var before := Transcript(systemPrompt, messages, n, textCalls);
    assert before + [] == before;
  }

  // ---- assistant messages ----

  /** Text that holds a lost object or reports a failure of the model. */
  ghost predicate Dropped(c: Content) {
    c.Text?
    && (Contains(c.text, "[object Object]") || "Error:" <= c.text || Contains(c.text, "BadRequestError") || Contains(c.text, "tool_use_id"))
  }

  /** The tool calls and the content of a message, calls written in its text taken out of it. */
  ghost predicate Asks(m: Message, textCalls: TextCalls, calls: Option<seq<ToolCall>>, content: Option<string>) {
    if m.toolCalls.None? && m.content.Text? && textCalls(m.content.text).Some?
       && (Contains(m.content.text, "redacted_tool_calls_begin") || Contains(m.content.text, "<|redacted_tool_call"))
    then Some(textCalls(m.content.text).value.0) == calls && textCalls(m.content.text).value.1 == content
    else
      && calls == m.toolCalls
      && content == if m.content.Missing? || m.content == Text("") then None else Some(TextOf(m.content))
  }

  ghost predicate HasCall(calls: Option<seq<ToolCall>>, id: string) {
    calls.Some? && exists j :: 0 <= j < |calls.value| && calls.value[j].id == id
  }

  /** A result whose call is not among the calls. */
  ghost predicate HasOrphan(results: seq<ToolResult>, calls: Option<seq<ToolCall>>) {
    exists i :: 0 <= i < |results| && !HasCall(calls, results[i].toolCallId)
  }

  /** The last result stored for a call, or that there is none. */
  ghost predicate LastResult(results: seq<ToolResult>, id: string, content: Option<string>) {
    if exists k :: 0 <= k < |results| && results[k].toolCallId == id
    then exists k :: 0 <= k < |results| && results[k].toolCallId == id && results[k].content == content
                     && forall l :: k < l < |results| ==> results[l].toolCallId != id
    else content == Some("{\"error\":\"Tool result not found in conversation history\"}")
  }

  /** The answer holds the words of the last result of its call. */
  ghost predicate Answered(call: ToolCall, results: seq<ToolResult>, answer: LLMMessage) {
    answer.Tool? && answer.toolCallId == call.id && LastResult(results, call.id, Some(answer.content))
  }

  /** One answer per call, in order, with the words of its result, up to one that cannot be written as JSON. */
  ghost predicate AnswersGiven(calls: seq<ToolCall>, results: seq<ToolResult>, answers: seq<LLMMessage>) {
    && |answers| <= |calls|
    && (forall j :: 0 <= j < |answers| ==> Answered(calls[j], results, answers[j]))
    && (|answers| < |calls| ==> LastResult(results, calls[|answers|].id, None))
  }

  lemma {:induction false} ResultForIs(results: seq<ToolResult>, id: string)
    ensures match ResultFor(results, id)
            case None => forall k :: 0 <= k < |results| ==> results[k].toolCallId != id
            case Some(r) =>
              exists k :: 0 <= k < |results| && results[k] == r && r.toolCallId == id
                          && forall l :: k < l < |results| ==> results[l].toolCallId != id
  {
    if results != [] && results[|results| - 1].toolCallId != id {
      ResultForIs(results[..|results| - 1], id);
      if ResultFor(results, id).Some? {
        var init, r := results[..|results| - 1], ResultFor(results, id).value;
        var k :| 0 <= k < |init| && init[k] == r && r.toolCallId == id && forall l :: k < l < |init| ==> init[l].toolCallId != id;
        assert results[k] == r && forall l :: k < l < |results| - 1 ==> results[l] == init[l];
      }
    }
  }

  lemma AnswerIsLastResult(results: seq<ToolResult>, id: string)
    ensures LastResult(results, id, AnswerTo(results, id))
  {
    ResultForIs(results, id);
  }

  lemma {:induction false} AnswersAreGiven(calls: seq<ToolCall>, results: seq<ToolResult>)
    ensures AnswersGiven(calls, results, Answers(calls, results))
  {
    hide AnswerTo, LastResult, Answered;
    if calls != [] {
      AnswerIsLastResult(results, calls[0].id);
      if AnswerTo(results, calls[0].id).Some? {
        var all, rest := Answers(calls, results), Answers(calls[1..], results);
        AnswersAreGiven(calls[1..], results);
        FirstAnswered(calls, results);
        assert all == [all[0]] + rest;
        forall j | 1 <= j < |all| ensures Answered(calls[j], results, all[j]) {
          assert Answered(calls[1..][j - 1], results, rest[j - 1]);
        }
      }
    }
  }

  lemma FirstAnswered(calls: seq<ToolCall>, results: seq<ToolResult>)
    requires calls != [] && AnswerTo(results, calls[0].id).Some?
    ensures Answered(calls[0], results, Answers(calls, results)[0])
  {
    hide AnswerTo, LastResult;
    AnswerIsLastResult(results, calls[0].id);
  }

  lemma AsksIs(m: Message, textCalls: TextCalls, calls: Option<seq<ToolCall>>, content: Option<string>)
    requires Asks(m, textCalls, calls, content)
    ensures CallsAndContent(m, textCalls) == (calls, content)
  {
    hide Includes, Contains;
    if m.content.Text? {
      IncludesIff(m.content.text, "redacted_tool_calls_begin");
      IncludesIff(m.content.text, "<|redacted_tool_call");
    }
  }

  lemma DroppedIs(c: Content)
    requires c.Text?
    ensures Dropped(c) <==> Includes(c.text, "[object Object]") || IsFailureText(c.text)
  {
    hide Includes, Contains;
    IncludesIff(c.text, "[object Object]");
    IncludesIff(c.text, "BadRequestError");
    IncludesIff(c.text, "tool_use_id");
  }

  /** What is pushed for an assistant message: nothing when it is dropped or has an orphaned result; with calls its
      content, cut to eight hundred characters, and the calls; without calls its content, cut to four hundred, and
      that only when it is not empty and among the last four messages. */
  lemma PushedIs(m: Message, recent: bool, textCalls: TextCalls, calls: Option<seq<ToolCall>>, content: Option<string>)
    requires Asks(m, textCalls, calls, content)
    ensures Pushed(m, recent, textCalls) ==
            if Dropped(m.content) || HasOrphan(m.toolResults, calls) then None
            else if calls.Some? && calls.value != []
            then Some(Reply(if content.Some? then Some(Clip(content.value, 800, CUT)) else None, calls.value))
            else if content.Some? && content.value != "" && recent then Some(Reply(Some(Clip(content.value, 400, "... [truncated]")), []))
            else None
  {
    hide Includes, Contains, Asks, CallsAndContent, IsFailureText, Dropped;
    AsksIs(m, textCalls, calls, content);
    if m.content.Text? {
      DroppedIs(m.content);
    } else {
      assert !Dropped(m.content) by { NotText(m.content); }
    }
    OrphansAre(m.toolResults, calls);
  }

  lemma OrphansAre(results: seq<ToolResult>, calls: Option<seq<ToolCall>>)
    ensures Orphaned(results, calls) <==> HasOrphan(results, calls)
  {
    forall i | 0 <= i < |results|
      ensures NoneFor(calls, results[i].toolCallId) <==> !HasCall(calls, results[i].toolCallId)
    {
    }
  }

  lemma NotText(c: Content)
    requires !c.Text?
    ensures !Dropped(c)
  {
  }

  lemma AssistantMessage(systemPrompt: string, messages: seq<Message>, n: nat, textCalls: TextCalls,
                         calls: Option<seq<ToolCall>>, content: Option<string>)
    returns (answers: seq<LLMMessage>)
    requires n < |messages| && messages[n].role == AssistantRole && Asks(messages[n], textCalls, calls, content)
    ensures var m := messages[n];
            var before := Transcript(systemPrompt, messages, n, textCalls);
            var after := Transcript(systemPrompt, messages, n + 1, textCalls);
            if Dropped(m.content) || HasOrphan(m.toolResults, calls) then after == before
            else if calls.Some? && calls.value != []
            then
              && AnswersGiven(calls.value, m.toolResults, answers)
              && after == before + [Assistant(if content.Some? then Some(Clip(content.value, 800, CUT)) else None, calls.value)] + answers
            else
              after == before + (if content.Some? && content.value != "" && |messages| <= n + 4
                                 then [Assistant(Some(Clip(content.value, 400, "... [truncated]")), [])] else [])
  {
    hide Transcript, AfterUser, Asks, Pushed, Dropped, HasOrphan, AnswersGiven, Clip;
    var m, before := messages[n], Transcript(systemPrompt, messages, n, textCalls);
    NextMessage(systemPrompt, messages, n, textCalls);
    PushedIs(m, n >= |messages| - 4, textCalls, calls, content);
    answers := if calls.Some? then Answers(calls.value, m.toolResults) else [];
    if calls.Some? {
      AnswersAreGiven(calls.value, m.toolResults);
    }
    assert Answers([], m.toolResults) == [];
    assert before + [] == before;
    if calls.Some? && calls.value != [] {
      var said := Assistant(if content.Some? then Some(Clip(content.value, 800, CUT)) else None, calls.value);
      assert before + ([said] + answers) == before + [said] + answers;
    } else {
      assert forall said: LLMMessage :: [said] + [] == [said];
    }
  }
}
