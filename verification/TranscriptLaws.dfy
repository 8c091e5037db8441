/** The shape of every transcript that `buildLLMMessages` produces. */
module TranscriptLaws {
  import opened Prelude
  import opened MessageBuilder

  /** The assistant message at `i` is followed at once by its tool messages, in the order of its calls. */
  predicate AnsweredAt(ms: seq<LLMMessage>, i: nat)
    requires i < |ms|
  {
    ms[i].Assistant? ==>
      && i + |ms[i].calls| < |ms|
      && forall j :: 0 <= j < |ms[i].calls| ==> IsAnswer(ms, i, j)
  }

  predicate IsAnswer(ms: seq<LLMMessage>, i: nat, j: nat)
    requires i < |ms| && ms[i].Assistant? && j < |ms[i].calls| && i + 1 + j < |ms|
  {
    ms[i + 1 + j].Tool? && ms[i + 1 + j].toolCallId == ms[i].calls[j].id
  }

  predicate CallsAnswered(ms: seq<LLMMessage>) {
    forall i :: 0 <= i < |ms| ==> AnsweredAt(ms, i)
  }

  /** The message at `t` answers a call of the assistant message at `i`. */
  predicate Belongs(ms: seq<LLMMessage>, t: nat, i: nat)
    requires t < |ms|
  {
    i < t && ms[i].Assistant? && t - i - 1 < |ms[i].calls| && ms[t].Tool? && ms[t].toolCallId == ms[i].calls[t - i - 1].id
  }

  /** Tool messages occur nowhere else. */
  predicate ToolsBelong(ms: seq<LLMMessage>) {
    forall t :: 0 <= t < |ms| && ms[t].Tool? ==> exists i :: 0 <= i < t && Belongs(ms, t, i)
  }

  predicate AssistantBetween(ms: seq<LLMMessage>, i: nat, j: nat)
    requires j <= |ms|
  {
    exists k :: i < k < j && ms[k].Assistant?
  }

  /** Two user messages always have an assistant message between them. */
  predicate UsersSeparated(ms: seq<LLMMessage>) {
    forall i, j :: 0 <= i < j < |ms| && ms[i].User? && ms[j].User? ==> AssistantBetween(ms, i, j)
  }

  predicate SystemFirst(ms: seq<LLMMessage>) {
    forall i :: 0 < i < |ms| ==> !ms[i].System?
  }

  /** A transcript that needs the alternation and tool placement only; answers may be missing. */
  predicate Shaped(ms: seq<LLMMessage>) {
    ToolsBelong(ms) && UsersSeparated(ms) && SystemFirst(ms)
  }

  // ---- blocks ----

  /** What one stored message may append: nothing, a user message, or an assistant message with leading answers. */
  predicate IsBlock(block: seq<LLMMessage>, afterUser: bool) {
    block == []
    || (|block| == 1 && block[0].User? && !afterUser)
    || (block != [] && block[0].Assistant? && |block| <= 1 + |block[0].calls|
        && forall j :: 0 <= j < |block| - 1 ==> IsAnswer(block, 0, j))
  }

  predicate Complete(block: seq<LLMMessage>) {
    block != [] && block[0].Assistant? ==> |block| == 1 + |block[0].calls|
  }

  lemma {:induction false} AnswersInOrder(calls: seq<ToolCall>, results: seq<ToolResult>)
    ensures |Answers(calls, results)| <= |calls|
    ensures forall j :: 0 <= j < |Answers(calls, results)| ==>
              Answers(calls, results)[j].Tool? && Answers(calls, results)[j].toolCallId == calls[j].id
    ensures |Answers(calls, results)| == |calls| <==>
              forall j :: 0 <= j < |calls| ==> AnswerTo(results, calls[j].id).Some?
  {
    hide AnswerTo;
    if calls != [] && AnswerTo(results, calls[0].id).Some? {
      AnswersInOrder(calls[1..], results);
      assert forall j :: 1 <= j < |calls| ==> calls[1..][j - 1] == calls[j];
      assert Answers(calls, results)[1..] == Answers(calls[1..], results);
    }
  }

  /** A result that cannot be serialised cuts the answers of an assistant message short. */
  predicate Interrupts(messages: seq<Message>, i: nat, textCalls: TextCalls)
    requires i < |messages|
  {
    && messages[i].role == AssistantRole
    && var r := Pushed(messages[i], i >= |messages| - 4, textCalls);
       r.Some? && exists j :: 0 <= j < |r.value.calls| && AnswerTo(messages[i].toolResults, r.value.calls[j].id).None?
  }

  lemma BlockShape(messages: seq<Message>, i: nat, afterUser: bool, textCalls: TextCalls)
    requires i < |messages|
    ensures IsBlock(Block(messages, i, afterUser, textCalls), afterUser)
    ensures Complete(Block(messages, i, afterUser, textCalls)) <==> !Interrupts(messages, i, textCalls)
  {
    hide Pushed, Answers, AnswerTo, UserContent;
    var m := messages[i];
    if m.role == AssistantRole {
      var pushed := Pushed(m, i >= |messages| - 4, textCalls);
      if pushed.Some? {
        AnswersInOrder(pushed.value.calls, m.toolResults);
      }
    }
  }

  // ---- appending a block ----

  lemma {:induction false} AfterUserMeans(ms: seq<LLMMessage>)
    ensures !AfterUser(ms) ==> forall i :: 0 <= i < |ms| && ms[i].User? ==> AssistantBetween(ms, i, |ms|)
  {
    if ms != [] && !AfterUser(ms) && !ms[|ms| - 1].Assistant? {
      var init := ms[..|ms| - 1];
      AfterUserMeans(init);
      forall i | 0 <= i < |ms| && ms[i].User? ensures AssistantBetween(ms, i, |ms|) {
        assert AssistantBetween(init, i, |init|);
        var k :| i < k < |init| && init[k].Assistant?;
        assert ms[k].Assistant?;
      }
    }
  }

  lemma BelongsStays(ms: seq<LLMMessage>, block: seq<LLMMessage>, t: nat, i: nat)
    requires t < |ms| && Belongs(ms, t, i)
    ensures Belongs(ms + block, t, i)
  {
  }

  lemma ToolsBelongAppend(ms: seq<LLMMessage>, block: seq<LLMMessage>, afterUser: bool)
    requires ToolsBelong(ms) && IsBlock(block, afterUser)
    ensures ToolsBelong(ms + block)
  {
    var all := ms + block;
    forall t | 0 <= t < |all| && all[t].Tool? ensures exists i :: 0 <= i < t && Belongs(all, t, i) {
      if t < |ms| {
        var i :| 0 <= i < t && Belongs(ms, t, i);
        BelongsStays(ms, block, t, i);
      } else {
        assert block[t - |ms|] == all[t];
        assert IsAnswer(block, 0, t - |ms| - 1);
        assert Belongs(all, t, |ms|);
      }
    }
  }

  lemma UsersSeparatedAppend(ms: seq<LLMMessage>, block: seq<LLMMessage>)
    requires UsersSeparated(ms) && IsBlock(block, AfterUser(ms))
    ensures UsersSeparated(ms + block)
  {
    var all := ms + block;
    AfterUserMeans(ms);
    assert forall k :: |ms| < k < |all| ==> all[k] == block[k - |ms|];
    forall i, j | 0 <= i < j < |all| && all[i].User? && all[j].User? ensures AssistantBetween(all, i, j) {
      if j < |ms| {
        assert AssistantBetween(ms, i, j);
        var k :| i < k < j && ms[k].Assistant?;
        assert all[k].Assistant?;
      } else {
        assert all[j] == block[j - |ms|];
        OnlyFirstIsUser(block, AfterUser(ms), j - |ms|);
        assert AssistantBetween(ms, i, |ms|);
        var k :| i < k < |ms| && ms[k].Assistant?;
        assert all[k].Assistant?;
      }
    }
  }

  lemma OnlyFirstIsUser(block: seq<LLMMessage>, afterUser: bool, k: nat)
    requires IsBlock(block, afterUser) && k < |block|
    ensures block[k].User? ==> k == 0 && !afterUser
    ensures !block[k].System? && (block[k].Assistant? ==> k == 0)
  {
    if block[0].Assistant? && k > 0 {
      assert IsAnswer(block, 0, k - 1);
    }
  }

  lemma SystemFirstAppend(ms: seq<LLMMessage>, block: seq<LLMMessage>, afterUser: bool)
    requires SystemFirst(ms) && IsBlock(block, afterUser)
    ensures SystemFirst(ms + block)
  {
    forall k | 0 <= k < |block| ensures !block[k].System? {
      OnlyFirstIsUser(block, afterUser, k);
    }
  }

  lemma CallsAnsweredAppend(ms: seq<LLMMessage>, block: seq<LLMMessage>, afterUser: bool)
    requires CallsAnswered(ms) && IsBlock(block, afterUser) && Complete(block)
    ensures CallsAnswered(ms + block)
  {
    var all := ms + block;
    forall i | 0 <= i < |all| && all[i].Assistant? ensures AnsweredAt(all, i) {
      if i < |ms| {
        assert AnsweredAt(ms, i);
        forall j | 0 <= j < |all[i].calls| ensures IsAnswer(all, i, j) {
          assert IsAnswer(ms, i, j);
        }
      } else {
        OnlyFirstIsUser(block, afterUser, i - |ms|);
        forall j | 0 <= j < |all[i].calls| ensures IsAnswer(all, i, j) {
          assert IsAnswer(block, 0, j);
        }
      }
    }
  }

  /** The calls of some assistant message are not all answered, and nothing appended later can answer them. */
  predicate CutShort(ms: seq<LLMMessage>, i: nat, j: nat) {
    i < |ms| && ms[i].Assistant? && j < |ms[i].calls| && i + 1 + j <= |ms| && (i + 1 + j < |ms| ==> !ms[i + 1 + j].Tool?)
  }

  lemma CutShortStays(ms: seq<LLMMessage>, block: seq<LLMMessage>, afterUser: bool, i: nat, j: nat)
    requires CutShort(ms, i, j) && IsBlock(block, afterUser)
    ensures CutShort(ms + block, i, j)
  {
  }

  lemma AnsweredIsNotCut(ms: seq<LLMMessage>, i: nat, j: nat)
    requires i < |ms| && AnsweredAt(ms, i)
    ensures !CutShort(ms, i, j)
  {
    if ms[i].Assistant? && j < |ms[i].calls| {
      assert IsAnswer(ms, i, j);
    }
  }

  lemma CutShortIsNotAnswered(ms: seq<LLMMessage>, i: nat, j: nat)
    requires CutShort(ms, i, j)
    ensures !CallsAnswered(ms)
  {
    if AnsweredAt(ms, i) {
      AnsweredIsNotCut(ms, i, j);
    }
  }

  // ---- main results ----

  /** Whatever is stored: tool messages only answer the assistant message before them, in order, users are separated
      by an assistant, and the system prompt comes first. */
  lemma {:induction false} TranscriptIsShaped(systemPrompt: string, messages: seq<Message>, n: nat, textCalls: TextCalls)
    requires n <= |messages|
    ensures Shaped(Transcript(systemPrompt, messages, n, textCalls))
  {
    hide Block;
    if n > 0 {
      TranscriptIsShaped(systemPrompt, messages, n - 1, textCalls);
      var before := Transcript(systemPrompt, messages, n - 1, textCalls);
      var block := Block(messages, n - 1, AfterUser(before), textCalls);
      BlockShape(messages, n - 1, AfterUser(before), textCalls);
      ToolsBelongAppend(before, block, AfterUser(before));
      UsersSeparatedAppend(before, block);
      SystemFirstAppend(before, block, AfterUser(before));
    }
  }

  /** Every call is answered exactly when no result of a pushed message fails to serialise. */
  lemma {:induction false} AnsweredIffUninterrupted(systemPrompt: string, messages: seq<Message>, n: nat,
                                                    textCalls: TextCalls)
    returns (i: nat, j: nat)
    requires n <= |messages|
    ensures CallsAnswered(Transcript(systemPrompt, messages, n, textCalls)) <==>
            forall k :: 0 <= k < n ==> !Interrupts(messages, k, textCalls)
    ensures !CallsAnswered(Transcript(systemPrompt, messages, n, textCalls)) ==>
              CutShort(Transcript(systemPrompt, messages, n, textCalls), i, j)
  {
    hide Block, Interrupts;
    i, j := 0, 0;
    if n > 0 {
      i, j := AnsweredIffUninterrupted(systemPrompt, messages, n - 1, textCalls);
      var before := Transcript(systemPrompt, messages, n - 1, textCalls);
      var block := Block(messages, n - 1, AfterUser(before), textCalls);
      BlockShape(messages, n - 1, AfterUser(before), textCalls);
      if !CallsAnswered(before) {
        CutShortStays(before, block, AfterUser(before), i, j);
        CutShortIsNotAnswered(before + block, i, j);
      } else if Complete(block) {
        CallsAnsweredAppend(before, block, AfterUser(before));
      } else {
        i, j := |before|, |block| - 1;
        CutShortIsNotAnswered(before + block, i, j);
      }
    }
  }

  /** The transcript of a whole conversation is well formed exactly when every needed result can be serialised. */
  lemma TranscriptWellFormedIff(systemPrompt: string, messages: seq<Message>, textCalls: TextCalls)
    ensures var ms := Transcript(systemPrompt, messages, |messages|, textCalls);
            Shaped(ms) && (CallsAnswered(ms) <==> forall k :: 0 <= k < |messages| ==> !Interrupts(messages, k, textCalls))
  {
    TranscriptIsShaped(systemPrompt, messages, |messages|, textCalls);
    var _, _ := AnsweredIffUninterrupted(systemPrompt, messages, |messages|, textCalls);
  }

  predicate Serialisable(results: seq<ToolResult>) {
    forall i :: 0 <= i < |results| ==> results[i].content.Some?
  }

  lemma {:induction false} SerialisableAnswers(results: seq<ToolResult>, id: string)
    requires Serialisable(results)
    ensures AnswerTo(results, id).Some?
  {
    if results != [] && results[|results| - 1].toolCallId != id {
      SerialisableAnswers(results[..|results| - 1], id);
    }
  }

  /** In particular a conversation as it is stored, whose results were read from JSON and so can be written as JSON,
      gives a transcript in which every call is answered. */
  lemma StoredConversationIsAnswered(systemPrompt: string, messages: seq<Message>, textCalls: TextCalls)
    requires forall i :: 0 <= i < |messages| ==> Serialisable(messages[i].toolResults)
    ensures var ms := Transcript(systemPrompt, messages, |messages|, textCalls); Shaped(ms) && CallsAnswered(ms)
  {
    hide Pushed, AnswerTo;
    TranscriptWellFormedIff(systemPrompt, messages, textCalls);
    forall k | 0 <= k < |messages| ensures !Interrupts(messages, k, textCalls) {
      forall id ensures AnswerTo(messages[k].toolResults, id).Some? {
        SerialisableAnswers(messages[k].toolResults, id);
      }
    }
  }

  /** A result that is handed over in memory and cannot be written as JSON leaves its call without an answer. */
  lemma UnserialisableLosesAnswer(systemPrompt: string, textCalls: TextCalls)
    ensures var call, result := ToolCall("1", "lookup", "{}"), ToolResult("1", None);
            !CallsAnswered(Transcript(systemPrompt, [Message(AssistantRole, Missing, Some([call]), [result])], 1, textCalls))
  {
    var call, result := ToolCall("1", "lookup", "{}"), ToolResult("1", None);
    var messages := [Message(AssistantRole, Missing, Some([call]), [result])];
    assert ResultFor([result], "1") == Some(result);
    assert Pushed(messages[0], true, textCalls) == Some(Reply(None, [call])) by {
      assert [result][0].toolCallId == [call][0].id;
    }
    assert [call][0].id == "1";
    assert Interrupts(messages, 0, textCalls);
    TranscriptWellFormedIff(systemPrompt, messages, textCalls);
  }

  /** What the token limit allows: the longest content each kind of message may carry, notes included. */
  predicate WithinLimits(m: LLMMessage) {
    match m
    case User(content) => |content| <= 1031
    case Assistant(body, calls) => body.Some? ==> |body.value| <= if calls == [] then 415 else 831
    case _ => true
  }

  lemma ShortenLimits(s: string)
    ensures |Shorten(s, 1000, "... [truncated for token limit]")| <= 1031
    ensures |Shorten(s, 800, "... [truncated for token limit]")| <= 831
    ensures |Shorten(s, 400, "... [truncated]")| <= 415
  {
  }

  lemma BlockWithinLimits(messages: seq<Message>, i: nat, afterUser: bool, textCalls: TextCalls)
    requires i < |messages|
    ensures forall k :: 0 <= k < |Block(messages, i, afterUser, textCalls)| ==> WithinLimits(Block(messages, i, afterUser, textCalls)[k])
  {
    hide Answers, Shorten, AnswerTo, Orphaned, Includes, IsFailureText, HasCallMarker;
    var m := messages[i];
    match m.content {
      case Missing =>
      case Text(s) => ShortenLimits(s);
      case Json(s) => ShortenLimits(s);
    }
    if m.role == AssistantRole {
      var content := CallsAndContent(m, textCalls).1;
      if content.Some? {
        ShortenLimits(content.value);
      }
      var pushed := Pushed(m, i >= |messages| - 4, textCalls);
      if pushed.Some? {
        AnswersInOrder(pushed.value.calls, m.toolResults);
      }
    } else if m.role == UserRole {
      ShortenLimits("");
    }
  }

  /** User and assistant content never exceeds its limit. */
  lemma {:induction false} TranscriptWithinLimits(systemPrompt: string, messages: seq<Message>, n: nat, textCalls: TextCalls)
    requires n <= |messages|
    ensures forall k :: 0 <= k < |Transcript(systemPrompt, messages, n, textCalls)| ==>
              WithinLimits(Transcript(systemPrompt, messages, n, textCalls)[k])
  {
    hide Block;
    if n > 0 {
      TranscriptWithinLimits(systemPrompt, messages, n - 1, textCalls);
      BlockWithinLimits(messages, n - 1, AfterUser(Transcript(systemPrompt, messages, n - 1, textCalls)), textCalls);
    }
  }
}
