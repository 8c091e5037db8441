/** The tool loop of `chatStream`: results memoised per tool and arguments, failures counted, one tool message per
    call id, a bound on the rounds. Model responses and tool outcomes are arbitrary. */
module ToolLoop {
  import opened Prelude

  /** `key` is the tool name with its top-level-sorted arguments. */
  datatype Call = Call(id: string, key: string)

  datatype Result = Result(error: bool, content: string)

  /** What running the tool would give: no such tool, an exception (also from an unparsable result), or a result. */
  datatype Outcome = NoTool(report: Result) | Throws(report: Result) | Returns(result: Result)

  datatype Execution = Execution(key: string, outcome: Outcome)

  /** `toolMessages` are the tool messages of the conversation, each with its id and the result it holds;
      `executions` is history. */
  datatype State = State(executedToolCalls: map<string, Result>, failedToolCalls: map<string, nat>,
                         allToolCalls: seq<string>, allToolResults: seq<(string, Result)>,
                         toolMessages: seq<(string, Result)>, executions: seq<Execution>, stopped: bool)

  const FAILURE_LIMIT := 3

  const FRESH := State(map[], map[], [], [], [], [], false)

  predicate HasMessage(toolMessages: seq<(string, Result)>, id: string) {
    exists i :: 0 <= i < |toolMessages| && toolMessages[i].0 == id
  }

  function AddMessage(toolMessages: seq<(string, Result)>, id: string, result: Result): seq<(string, Result)> {
    if HasMessage(toolMessages, id) then toolMessages else toolMessages + [(id, result)]
  }

  function Answer(s: State, id: string, result: Result): State {
    s.(allToolResults := s.allToolResults + [(id, result)], toolMessages := AddMessage(s.toolMessages, id, result))
  }

  function FailuresOf(s: State, key: string): nat {
    if key in s.failedToolCalls then s.failedToolCalls[key] else 0
  }

  /** What a call that is not answered from the store reports: what the tool returned, or why it did not. */
  function ReportOf(outcome: Outcome): Result {
    match outcome
    case NoTool(report) => report
    case Throws(report) => report
    case Returns(result) => result
  }

  /** One call; `outcome` is looked at only when the tool is run. */
  function Process(s: State, call: Call, outcome: Outcome): State {
    if call.key in s.executedToolCalls then Answer(s, call.id, s.executedToolCalls[call.key])
    else if call.id in s.allToolCalls then s
    else
      var s1 := s.(allToolCalls := s.allToolCalls + [call.id]);
      match outcome
      case NoTool(report) => Answer(s1, call.id, report)
      case Throws(report) => Answer(s1.(executions := s.executions + [Execution(call.key, outcome)]), call.id, report)
      case Returns(result) =>
        var s2 := s1.(executedToolCalls := s.executedToolCalls[call.key := result],
                      executions := s.executions + [Execution(call.key, outcome)]);
        var count := FailuresOf(s, call.key) + 1;
        var s3 := if result.error then s2.(failedToolCalls := s.failedToolCalls[call.key := count]) else s2;
        if result.error && count >= FAILURE_LIMIT
        then s3.(allToolResults := s.allToolResults + [(call.id, result)], stopped := true)
        else Answer(s3, call.id, result)
  }

  datatype Step = Step(call: Call, outcome: Outcome)

  function After(s: State, steps: seq<Step>): State {
    if steps == [] then s
    else
      var before := After(s, steps[..|steps| - 1]);
      if before.stopped then before else Process(before, steps[|steps| - 1].call, steps[|steps| - 1].outcome)
  }

  // ---- the loops ----

  class ChatStream {
    var executedToolCalls: map<string, Result>
    var failedToolCalls: map<string, nat>
    var allToolCalls: seq<string>
    var allToolResults: seq<(string, Result)>
    var toolMessages: seq<(string, Result)>
    ghost var executions: seq<Execution>

    constructor ()
      ensures View(false) == FRESH
    {
      executedToolCalls, failedToolCalls, allToolCalls := map[], map[], [];
      allToolResults, toolMessages, executions := [], [], [];
    }

    ghost function View(stopped: bool): State
      reads this
    {
      State(executedToolCalls, failedToolCalls, allToolCalls, allToolResults, toolMessages, executions, stopped)
    }

    method Record(id: string, result: Result)
      modifies this`allToolResults, this`toolMessages
      ensures View(false) == Answer(old(View(false)), id, result)
    {
      allToolResults := allToolResults + [(id, result)];
      if !HasMessage(toolMessages, id) {
        toolMessages := toolMessages + [(id, result)];
      }
    }

    /** The body of the inner loop; `true` when the same call has failed too often. */
    method ProcessCall(call: Call, outcome: Outcome) returns (stop: bool)
      modifies this
      ensures View(stop) == Process(old(View(false)), call, outcome)
    {
      stop := false;
      if call.key in executedToolCalls {
        Record(call.id, executedToolCalls[call.key]);
        return;
      }
      if call.id in allToolCalls {
        return;
      }
      allToolCalls := allToolCalls + [call.id];
      match outcome {
        case NoTool(report) => Record(call.id, report);
        case Throws(report) =>
          executions := executions + [Execution(call.key, outcome)];
          Record(call.id, report);
        case Returns(result) =>
          executions := executions + [Execution(call.key, outcome)];
          executedToolCalls := executedToolCalls[call.key := result];
          if result.error {
            var failCount := (if call.key in failedToolCalls then failedToolCalls[call.key] else 0) + 1;
            failedToolCalls := failedToolCalls[call.key := failCount];
            if failCount >= FAILURE_LIMIT {
              allToolResults := allToolResults + [(call.id, result)];
              stop := true;
              return;
            }
          }
          Record(call.id, result);
      }
    }

    /** Rounds of calls until one has none, the bound is reached, or the failure limit stops the loop. */
    method Run(rounds: seq<seq<Step>>, maxIterations: nat) returns (iterations: nat, ghost taken: seq<Step>)
      requires View(false) == FRESH
      modifies this
      ensures iterations <= maxIterations && iterations <= |rounds|
      ensures taken == Concat(rounds[..iterations]) && View(false) == After(FRESH, taken)
      ensures iterations == maxIterations || iterations == |rounds| || rounds[iterations] == []
    {
      hide Process, FailuresOf;
      iterations, taken := 0, [];
      while iterations < maxIterations && iterations < |rounds|
        invariant iterations <= maxIterations && iterations <= |rounds|
        invariant taken == Concat(rounds[..iterations]) && View(false) == After(FRESH, taken)
      {
        var round := rounds[iterations];
        if |round| == 0 {
          return;
        }
        assert taken + round[..0] == taken;
        for i := 0 to |round|
          invariant View(false) == After(FRESH, taken + round[..i])
        {
          ghost var sofar := taken + round[..i];
          assert taken + round[..i + 1] == sofar + [round[i]];
          AfterSnoc(sofar, round[i]);
          NeverStopped(sofar + [round[i]]);
          var stop := ProcessCall(round[i].call, round[i].outcome);
          assert !stop;
        }
        assert round[..|round|] == round && rounds[..iterations + 1][..iterations] == rounds[..iterations];
        taken := taken + round;
        iterations := iterations + 1;
      }
    }
  }

  function Concat(rounds: seq<seq<Step>>): seq<Step> {
    if rounds == [] then [] else Concat(rounds[..|rounds| - 1]) + rounds[|rounds| - 1]
  }

  lemma AfterSnoc(steps: seq<Step>, step: Step)
    ensures After(FRESH, steps + [step]) ==
            var before := After(FRESH, steps); if before.stopped then before else Process(before, step.call, step.outcome)
  {
    assert (steps + [step])[..|steps|] == steps;
  }

  // ---- the invariant ----

  ghost predicate Memo(s: State) {
    && (forall k :: k in s.executedToolCalls ==>
          exists i :: 0 <= i < |s.executions| && s.executions[i] == Execution(k, Returns(s.executedToolCalls[k])))
    && (forall i :: 0 <= i < |s.executions| && s.executions[i].outcome.Returns? ==>
          s.executions[i].key in s.executedToolCalls && s.executedToolCalls[s.executions[i].key] == s.executions[i].outcome.result)
    && (forall i, j :: 0 <= i < j < |s.executions| && s.executions[i].outcome.Returns? ==> s.executions[i].key != s.executions[j].key)
  }

  predicate Counts(s: State) {
    && !s.stopped
    && (forall k :: k in s.failedToolCalls ==> s.failedToolCalls[k] == 1 && k in s.executedToolCalls && s.executedToolCalls[k].error)
    && (forall k :: k in s.executedToolCalls && s.executedToolCalls[k].error ==> k in s.failedToolCalls)
  }

  predicate Messages(s: State) {
    && DistinctIds(s.toolMessages)
    && (forall id :: id in s.allToolCalls ==> HasMessage(s.toolMessages, id))
    && (forall i :: 0 <= i < |s.toolMessages| ==> s.toolMessages[i] in s.allToolResults)
  }

  lemma MemoAfterThrow(s: State, key: string, report: Result)
    requires Memo(s) && key !in s.executedToolCalls
    ensures Memo(s.(executions := s.executions + [Execution(key, Throws(report))]))
  {
    var s' := s.(executions := s.executions + [Execution(key, Throws(report))]);
    forall k | k in s'.executedToolCalls
      ensures exists i :: 0 <= i < |s'.executions| && s'.executions[i] == Execution(k, Returns(s'.executedToolCalls[k]))
    {
      var i :| 0 <= i < |s.executions| && s.executions[i] == Execution(k, Returns(s.executedToolCalls[k]));
      assert s'.executions[i] == s.executions[i];
    }
  }

  lemma MemoAfterReturn(s: State, key: string, result: Result)
    requires Memo(s) && key !in s.executedToolCalls
    ensures Memo(s.(executedToolCalls := s.executedToolCalls[key := result],
                    executions := s.executions + [Execution(key, Returns(result))]))
  {
    var s' := s.(executedToolCalls := s.executedToolCalls[key := result],
                 executions := s.executions + [Execution(key, Returns(result))]);
    forall k | k in s'.executedToolCalls
      ensures exists i :: 0 <= i < |s'.executions| && s'.executions[i] == Execution(k, Returns(s'.executedToolCalls[k]))
    {
      if k == key {
        assert s'.executions[|s.executions|] == Execution(k, Returns(s'.executedToolCalls[k]));
      } else {
        var i :| 0 <= i < |s.executions| && s.executions[i] == Execution(k, Returns(s.executedToolCalls[k]));
        assert s'.executions[i] == s.executions[i];
      }
    }
  }

  lemma MemoSame(s: State, t: State)
    requires Memo(s) && t.executedToolCalls == s.executedToolCalls && t.executions == s.executions
    ensures Memo(t)
  {
  }

  lemma MemoStep(s: State, call: Call, outcome: Outcome)
    requires Memo(s)
    ensures Memo(Process(s, call, outcome))
  {
    hide Memo;
    var s' := Process(s, call, outcome);
    if call.key in s.executedToolCalls || call.id in s.allToolCalls || outcome.NoTool? {
      MemoSame(s, s');
    } else if outcome.Throws? {
      MemoAfterThrow(s, call.key, outcome.report);
      MemoSame(s.(executions := s.executions + [Execution(call.key, outcome)]), s');
    } else {
      MemoAfterReturn(s, call.key, outcome.result);
      MemoSame(s.(executedToolCalls := s.executedToolCalls[call.key := outcome.result],
                  executions := s.executions + [Execution(call.key, outcome)]), s');
    }
  }

  lemma CountsStep(s: State, call: Call, outcome: Outcome)
    requires Counts(s)
    ensures Counts(Process(s, call, outcome))
  {
  }

  lemma MessageAdded(toolMessages: seq<(string, Result)>, id: string, result: Result)
    ensures var after := AddMessage(toolMessages, id, result);
            && toolMessages <= after && HasMessage(after, id)
            && (forall other :: HasMessage(toolMessages, other) ==> HasMessage(after, other))
            && (forall m :: m in after ==> m in toolMessages || m == (id, result))
            && (DistinctIds(toolMessages) ==> DistinctIds(after))
  {
    var after := AddMessage(toolMessages, id, result);
    if !HasMessage(toolMessages, id) {
      assert after[|toolMessages|].0 == id;
      forall other | HasMessage(toolMessages, other) ensures HasMessage(after, other) {
        var i :| 0 <= i < |toolMessages| && toolMessages[i].0 == other;
        assert after[i].0 == other;
      }
    }
  }

  predicate DistinctIds(toolMessages: seq<(string, Result)>) {
    forall i, j :: 0 <= i < j < |toolMessages| ==> toolMessages[i].0 != toolMessages[j].0
  }

  /** What is recorded for a call, when anything is. */
  function Recorded(s: State, call: Call, outcome: Outcome): Result {
    if call.key in s.executedToolCalls then s.executedToolCalls[call.key] else ReportOf(outcome)
  }

  lemma MessagesStep(s: State, call: Call, outcome: Outcome)
    requires Messages(s) && Counts(s)
    ensures Messages(Process(s, call, outcome)) && HasMessage(Process(s, call, outcome).toolMessages, call.id)
    ensures s.toolMessages <= Process(s, call, outcome).toolMessages
  {
    hide AddMessage, HasMessage, DistinctIds;
    var t, result := Process(s, call, outcome), Recorded(s, call, outcome);
    MessageAdded(s.toolMessages, call.id, result);
    forall i | 0 <= i < |t.toolMessages| ensures t.toolMessages[i] in t.allToolResults {
      assert t.toolMessages[i] in t.toolMessages;
    }
  }

  lemma {:induction false} Invariants(steps: seq<Step>)
    ensures var s := After(FRESH, steps); Memo(s) && Counts(s) && Messages(s)
  {
    hide Process, Memo, Counts, Messages;
    if steps == [] {
      StartInvariants();
    } else {
      var init, last := steps[..|steps| - 1], steps[|steps| - 1];
      Invariants(init);
      MemoStep(After(FRESH, init), last.call, last.outcome);
      CountsStep(After(FRESH, init), last.call, last.outcome);
      MessagesStep(After(FRESH, init), last.call, last.outcome);
    }
  }

  lemma StartInvariants()
    ensures Memo(FRESH) && Counts(FRESH) && Messages(FRESH)
  {
  }

  // ---- main results ----

  /** A key that has completed is never run again: later calls with it are answered by the stored result, so at most
      one execution per key returns, and every one before it threw. */
  lemma CompletesOnce(steps: seq<Step>, i: nat, j: nat)
    requires i < |After(FRESH, steps).executions| && j < |After(FRESH, steps).executions|
    requires var e := After(FRESH, steps).executions; e[i].key == e[j].key && e[i].outcome.Returns? && i != j
    ensures j < i && After(FRESH, steps).executions[j].outcome.Throws?
  {
    Invariants(steps);
    OnlyRunsAreLogged(steps, j);
  }

  lemma ProcessLogs(s: State, call: Call, outcome: Outcome)
    ensures var e := Process(s, call, outcome).executions;
            e == s.executions || (e == s.executions + [Execution(call.key, outcome)] && !outcome.NoTool?)
  {
  }

  lemma {:induction false} OnlyRunsAreLogged(steps: seq<Step>, j: nat)
    requires j < |After(FRESH, steps).executions|
    ensures !After(FRESH, steps).executions[j].outcome.NoTool?
  {
    hide Process;
    var init, last := steps[..|steps| - 1], steps[|steps| - 1];
    ProcessLogs(After(FRESH, init), last.call, last.outcome);
    if j < |After(FRESH, init).executions| {
      OnlyRunsAreLogged(init, j);
    }
  }

  /** The answer to a call whose key has completed is the result of that completion. */
  lemma AnsweredFromStore(steps: seq<Step>, step: Step, i: nat)
    requires var s := After(FRESH, steps);
             i < |s.executions| && s.executions[i].key == step.call.key && s.executions[i].outcome.Returns?
    ensures var s := After(FRESH, steps);
            var t := After(FRESH, steps + [step]);
            && t.executions == s.executions
            && t.allToolResults == s.allToolResults + [(step.call.id, s.executions[i].outcome.result)]
            && HasMessage(t.toolMessages, step.call.id)
  {
    hide Messages, HasMessage, AddMessage, Counts;
    AfterSnoc(steps, step);
    Invariants(steps);
    NeverStopped(steps);
    MessageAdded(After(FRESH, steps).toolMessages, step.call.id, After(FRESH, steps).executions[i].outcome.result);
  }

  /** No key ever counts more than one failure, so the limit of three never stops the loop. */
  lemma NeverStopped(steps: seq<Step>)
    ensures !After(FRESH, steps).stopped
    ensures forall key :: FailuresOf(After(FRESH, steps), key) <= 1
  {
    Invariants(steps);
  }

  predicate Completed(s: State, key: string) {
    exists i :: 0 <= i < |s.executions| && s.executions[i].key == key && s.executions[i].outcome.Returns?
  }

  lemma StoredIsCompleted(s: State, key: string)
    requires Memo(s)
    ensures key in s.executedToolCalls ==> Completed(s, key)
  {
  }

  /** Any other call is passed over when its id was used before; otherwise the tool is run, its result or the reason
      why there is none is recorded for the call, and the conversation has a message for it. */
  lemma OtherCallIsRun(steps: seq<Step>, step: Step)
    requires !Completed(After(FRESH, steps), step.call.key)
    ensures var s := After(FRESH, steps);
            var t := After(FRESH, steps + [step]);
            if step.call.id in s.allToolCalls then t == s
            else
              && t.allToolCalls == s.allToolCalls + [step.call.id]
              && t.allToolResults == s.allToolResults + [(step.call.id, ReportOf(step.outcome))]
              && t.executions == s.executions + (if step.outcome.NoTool? then [] else [Execution(step.call.key, step.outcome)])
              && HasMessage(t.toolMessages, step.call.id) && s.toolMessages <= t.toolMessages
  {
    hide Messages, Counts, AddMessage, HasMessage;
    var s := After(FRESH, steps);
    AfterSnoc(steps, step);
    Invariants(steps);
    NeverStopped(steps);
    NeverStopped(steps + [step]);
    MessageAdded(s.toolMessages, step.call.id, ReportOf(step.outcome));
    StoredIsCompleted(s, step.call.key);
  }

  /** A tool message holds a result that was recorded for its call. */
  lemma MessagesHoldResults(steps: seq<Step>, i: nat)
    requires i < |After(FRESH, steps).toolMessages|
    ensures After(FRESH, steps).toolMessages[i] in After(FRESH, steps).allToolResults
  {
    Invariants(steps);
  }

  /** Every processed call id has exactly one tool message in the conversation. */
  lemma OneMessagePerCall(steps: seq<Step>, k: nat)
    requires k < |steps|
    ensures var messages := After(FRESH, steps).toolMessages;
            && HasMessage(messages, steps[k].call.id)
            && forall i, j :: 0 <= i < j < |messages| ==> messages[i].0 != messages[j].0
  {
    Invariants(steps);
    MessageStays(steps, k);
  }

  lemma ProcessKeepsMessages(s: State, call: Call, outcome: Outcome, id: string)
    requires HasMessage(s.toolMessages, id)
    ensures HasMessage(Process(s, call, outcome).toolMessages, id)
  {
    var i :| 0 <= i < |s.toolMessages| && s.toolMessages[i].0 == id;
    assert Process(s, call, outcome).toolMessages[i].0 == id;
  }

  lemma {:induction false} MessageStays(steps: seq<Step>, k: nat)
    requires k < |steps|
    ensures HasMessage(After(FRESH, steps).toolMessages, steps[k].call.id)
  {
    hide Process, Memo, Counts, Messages;
    var init, last := steps[..|steps| - 1], steps[|steps| - 1];
    NeverStopped(init);
    if k < |init| {
      MessageStays(init, k);
      ProcessKeepsMessages(After(FRESH, init), last.call, last.outcome, steps[k].call.id);
    } else {
      Invariants(init);
      MessagesStep(After(FRESH, init), last.call, last.outcome);
    }
  }
}
