/** Calls from a child process to its parent: ids drawn from one counter that outlives the runs, the table of
    pending calls, and replies that come back in any order, late, twice, or never. */
module CallTable {
  import opened Prelude

  type Value = string

  /** A reply as it travels. `answers` is history: the call, by order of issue, that the parent is answering. */
  datatype Reply = Reply(callId: nat, isError: bool, value: Value, answers: nat)

  /** A call as issued: `call_<id>`, or `stream_<id>` whose table entry is made only when the stream has ended. */
  datatype Issue = Issue(callId: nat, run: nat)

  datatype Settlement = Settlement(call: nat, reply: Reply)

  /** `pending` maps an id to the call waiting under it, `open` are the streams not ended yet, `known` the calls
      the parent has taken up, `sent` its replies: each may arrive at any time, any number of times, or never. */
  datatype State = State(run: nat, callCounter: nat, pending: map<nat, nat>, issued: seq<Issue>, open: set<nat>,
                         known: set<nat>, sent: set<Reply>, settled: seq<Settlement>)

  datatype Action =
    | NextRun
    | CallParent
    | StartStream
    | EndStream(call: nat)
    | TakeUp(call: nat)
    | Answer(call: nat, isError: bool, value: Value)
    | Receive(reply: Reply)

  class ChildRuntime {
    var callCounter: nat
    var pendingCalls: map<nat, nat>

    constructor ()
      ensures callCounter == 1 && pendingCalls == map[]
    {
      callCounter, pendingCalls := 1, map[];
    }

    /** The id is the counter after it is incremented. */
    method NewId() returns (id: nat)
      modifies this`callCounter
      ensures id == callCounter == old(callCounter) + 1
    {
      callCounter := callCounter + 1;
      id := callCounter;
    }

    method WaitForParentResponse(id: nat, call: nat)
      modifies this`pendingCalls
      ensures pendingCalls == old(pendingCalls)[id := call]
    {
      pendingCalls := pendingCalls[id := call];
    }

    /** The `call_result` handler: an id that is not in the table is ignored. */
    method OnCallResult(reply: Reply) returns (settlement: Option<Settlement>)
      modifies this`pendingCalls
      ensures (pendingCalls, settlement) == Match(old(pendingCalls), reply)
      ensures reply.callId in old(pendingCalls) ==>
                && settlement == Some(Settlement(old(pendingCalls)[reply.callId], reply))
                && pendingCalls == old(pendingCalls) - {reply.callId}
      ensures reply.callId !in old(pendingCalls) ==> settlement == None && pendingCalls == old(pendingCalls)
    {
      if reply.callId in pendingCalls {
        settlement := Some(Settlement(pendingCalls[reply.callId], reply));
        pendingCalls := pendingCalls - {reply.callId};
      } else {
        settlement := None;
      }
    }
  }

  function Match(pending: map<nat, nat>, reply: Reply): (map<nat, nat>, Option<Settlement>) {
    if reply.callId in pending
    then (pending - {reply.callId}, Some(Settlement(pending[reply.callId], reply)))
    else (pending, None)
  }

  predicate Enabled(s: State, a: Action) {
    match a
    case EndStream(call) => call in s.open && call < |s.issued|
    case TakeUp(call) => call < |s.issued|
    case Answer(call, _, _) => call in s.known && call < |s.issued|
    case Receive(reply) => reply in s.sent
    case _ => true
  }

  function DoIssue(s: State): State {
    s.(callCounter := s.callCounter + 1, issued := s.issued + [Issue(s.callCounter + 1, s.run)])
  }

  function Apply(s: State, a: Action): State
    requires Enabled(s, a)
  {
    match a
    case NextRun => s.(run := s.run + 1)
    case CallParent => DoIssue(s).(pending := s.pending[s.callCounter + 1 := |s.issued|])
    case StartStream => DoIssue(s).(open := s.open + {|s.issued|})
    case EndStream(call) => s.(pending := s.pending[s.issued[call].callId := call], open := s.open - {call})
    case TakeUp(call) => s.(known := s.known + {call})
    case Answer(call, isError, value) =>
      s.(sent := s.sent + {Reply(s.issued[call].callId, isError, value, call)})
    case Receive(reply) =>
      var (pending, settlement) := Match(s.pending, reply);
      s.(pending := pending,
         settled := if settlement.Some? then s.settled + [settlement.value] else s.settled)
  }

  function Do(s: State, a: Action): State {
    if Enabled(s, a) then Apply(s, a) else s
  }

  function After(s: State, actions: seq<Action>): State {
    if actions == [] then s else Do(After(s, actions[..|actions| - 1]), actions[|actions| - 1])
  }

  predicate Init(s: State) {
    s.run == 0 && s.callCounter == 1 && s.pending == map[] && s.issued == [] && s.open == {} && s.known == {}
    && s.sent == {} && s.settled == []
  }

  predicate Invariant(s: State) {
    && (forall c :: 0 <= c < |s.issued| ==> s.issued[c].callId == c + 2 && s.issued[c].run <= s.run)
    && s.callCounter == |s.issued| + 1
    && (forall id :: id in s.pending ==> s.pending[id] < |s.issued| && s.issued[s.pending[id]].callId == id)
    && (forall c :: c in s.open ==> c < |s.issued| && s.issued[c].callId !in s.pending)
    && (forall k :: 0 <= k < |s.settled| ==> s.settled[k].call !in s.open)
    && (forall r :: r in s.sent ==> r.answers < |s.issued| && s.issued[r.answers].callId == r.callId)
    && (forall k :: 0 <= k < |s.settled| ==>
          var t := s.settled[k];
          t.call < |s.issued| && t.reply.answers == t.call && s.issued[t.call].callId == t.reply.callId && t.reply.callId !in s.pending)
    && (forall j, k :: 0 <= j < k < |s.settled| ==> s.settled[j].call != s.settled[k].call)
  }

  lemma IssueKeepsInvariant(s: State, a: Action)
    requires Invariant(s) && (a.CallParent? || a.StartStream?)
    ensures Invariant(Apply(s, a))
  {
  }

  lemma EndStreamKeepsInvariant(s: State, call: nat)
    requires Invariant(s) && Enabled(s, EndStream(call))
    ensures Invariant(Apply(s, EndStream(call)))
  {
  }

  lemma ParentStepKeepsInvariant(s: State, a: Action)
    requires Invariant(s) && Enabled(s, a) && (a.NextRun? || a.TakeUp? || a.Answer?)
    ensures Invariant(Apply(s, a))
  {
  }

  /** The call waiting under the id of a reply is the one the reply was made to, and it is not settled yet. */
  lemma WaitingCallIsAnswered(s: State, reply: Reply)
    requires Invariant(s) && reply in s.sent && reply.callId in s.pending
    ensures s.pending[reply.callId] == reply.answers
    ensures forall k :: 0 <= k < |s.settled| ==> s.settled[k].call != reply.answers
    ensures reply.answers !in s.open
  {
  }

  lemma ReceiveKeepsInvariant(s: State, reply: Reply)
    requires Invariant(s) && reply in s.sent
    ensures Invariant(Apply(s, Receive(reply)))
  {
    if reply.callId in s.pending {
      WaitingCallIsAnswered(s, reply);
    } else {
      assert Apply(s, Receive(reply)) == s;
    }
  }

  lemma StepKeepsInvariant(s: State, a: Action)
    requires Invariant(s) && Enabled(s, a)
    ensures Invariant(Apply(s, a))
  {
    hide Invariant, Apply;
    match a {
      case CallParent => IssueKeepsInvariant(s, a);
      case StartStream => IssueKeepsInvariant(s, a);
      case EndStream(call) => EndStreamKeepsInvariant(s, call);
      case Receive(reply) => ReceiveKeepsInvariant(s, reply);
      case _ => ParentStepKeepsInvariant(s, a);
    }
  }

  lemma {:induction false} RunKeepsInvariant(s: State, actions: seq<Action>)
    requires Init(s)
    ensures Invariant(After(s, actions))
  {
    hide Apply, Enabled;
    if actions == [] {
      assert Invariant(s);
    } else {
      var before := After(s, actions[..|actions| - 1]);
      RunKeepsInvariant(s, actions[..|actions| - 1]);
      if Enabled(before, actions[|actions| - 1]) {
        StepKeepsInvariant(before, actions[|actions| - 1]);
      }
    }
  }

  /** No id is ever given twice, in one run or across runs of the same child. */
  lemma IdsNeverReused(s: State, actions: seq<Action>, c: nat, d: nat)
    requires Init(s)
    requires var t := After(s, actions);
             c < |t.issued| && d < |t.issued| && t.issued[c].callId == t.issued[d].callId
    ensures c == d
  {
    RunKeepsInvariant(s, actions);
  }

  /** In any order of replies each call is settled at most once, and only with a reply made to that call. */
  lemma SettledOnceByOwnReply(s: State, actions: seq<Action>, j: nat, k: nat)
    requires Init(s)
    requires j < |After(s, actions).settled| && k < |After(s, actions).settled|
    ensures var t := After(s, actions);
            && t.settled[j].reply.answers == t.settled[j].call
            && (t.settled[j].call == t.settled[k].call ==> j == k)
  {
    RunKeepsInvariant(s, actions);
  }

  lemma ReplyFindsItsCall(s: State, reply: Reply, id: nat)
    requires Invariant(s) && reply in s.sent && id in s.pending
    ensures id == reply.callId ==> s.pending[id] == reply.answers
    ensures reply.callId in s.pending ==> s.pending[reply.callId] == reply.answers
  {
  }

  /** In every run a reply whose id is waited for takes that one entry out of the table and settles the call it was
      made to with what it says; any other reply changes nothing. */
  lemma ReplySettlesItsCall(s: State, actions: seq<Action>, reply: Reply)
    requires Init(s) && reply in After(s, actions).sent
    ensures var t, u := After(s, actions), After(s, actions + [Receive(reply)]);
            if reply.callId in t.pending
            then
              && reply.callId !in u.pending && u.pending.Keys == t.pending.Keys - {reply.callId}
              && (forall id :: id in u.pending ==> u.pending[id] == t.pending[id])
              && u.settled == t.settled + [Settlement(reply.answers, reply)]
            else u == t
  {
    hide Invariant;
    assert (actions + [Receive(reply)])[..|actions|] == actions;
    var t := After(s, actions);
    RunKeepsInvariant(s, actions);
    if reply.callId in t.pending {
      ReplyFindsItsCall(t, reply, reply.callId);
    } else {
      assert Apply(t, Receive(reply)) == t;
    }
  }

  /** A call is a stream that has not ended, waits under its own id, or is settled. */
  ghost predicate Accounted(s: State) {
    forall c :: 0 <= c < |s.issued| ==>
      || c in s.open
      || (s.issued[c].callId in s.pending && s.pending[s.issued[c].callId] == c)
      || (exists k :: 0 <= k < |s.settled| && s.settled[k].call == c)
  }

  lemma IssueKeepsAccounted(s: State, a: Action)
    requires Invariant(s) && Accounted(s) && (a.CallParent? || a.StartStream?)
    ensures Accounted(Apply(s, a))
  {
  }

  lemma EndStreamKeepsAccounted(s: State, call: nat)
    requires Invariant(s) && Accounted(s) && Enabled(s, EndStream(call))
    ensures Accounted(Apply(s, EndStream(call)))
  {
  }

  lemma ReceiveKeepsAccounted(s: State, reply: Reply)
    requires Invariant(s) && Accounted(s) && reply in s.sent
    ensures Accounted(Apply(s, Receive(reply)))
  {
    var u := Apply(s, Receive(reply));
    if reply.callId in s.pending {
      WaitingCallIsAnswered(s, reply);
      assert u.settled[|s.settled|].call == reply.answers;
      forall k | 0 <= k < |s.settled| ensures u.settled[k] == s.settled[k] {
      }
    } else {
      assert u == s;
    }
  }

  /** No call is ever lost: in every run each call issued is still open, still waits, or has been settled. */
  lemma {:induction false} NoCallLost(s: State, actions: seq<Action>)
    requires Init(s)
    ensures Accounted(After(s, actions))
  {
    hide Apply, Enabled, Invariant, Accounted;
    if actions == [] {
      NothingIssued(s);
    } else {
      var before, a := After(s, actions[..|actions| - 1]), actions[|actions| - 1];
      NoCallLost(s, actions[..|actions| - 1]);
      RunKeepsInvariant(s, actions[..|actions| - 1]);
      if Enabled(before, a) {
        match a {
          case CallParent => IssueKeepsAccounted(before, a);
          case StartStream => IssueKeepsAccounted(before, a);
          case EndStream(call) => EndStreamKeepsAccounted(before, call);
          case Receive(reply) => EnabledReceive(before, reply); ReceiveKeepsAccounted(before, reply);
          case _ => OtherKeepsAccounted(before, a);
        }
      }
    }
  }

  lemma NothingIssued(s: State)
    requires Init(s)
    ensures Accounted(s)
  {
  }

  lemma EnabledReceive(s: State, reply: Reply)
    requires Enabled(s, Receive(reply))
    ensures reply in s.sent
  {
  }

  lemma OtherKeepsAccounted(s: State, a: Action)
    requires Accounted(s) && Enabled(s, a) && (a.NextRun? || a.TakeUp? || a.Answer?)
    ensures Accounted(Apply(s, a))
  {
  }

  /** The parent made this reply in the run. */
  ghost predicate Given(actions: seq<Action>, reply: Reply) {
    exists j :: 0 <= j < |actions| && actions[j] == Answer(reply.answers, reply.isError, reply.value)
  }

  ghost predicate AllGiven(s: State, actions: seq<Action>) {
    && (forall r :: r in s.sent ==> Given(actions, r))
    && (forall k :: 0 <= k < |s.settled| ==> Given(actions, s.settled[k].reply))
  }

  /** A call is settled with a value, or an error, that the parent gave for it in the run. */
  lemma {:induction false} SettledAsGiven(s: State, actions: seq<Action>)
    requires Init(s)
    ensures AllGiven(After(s, actions), actions)
  {
    hide Given;
    if actions != [] {
      var init, a := actions[..|actions| - 1], actions[|actions| - 1];
      SettledAsGiven(s, init);
      forall r: Reply | Given(init, r) ensures Given(actions, r) {
        StillGiven(actions, r);
      }
      if a.Answer? {
        forall r: Reply | r.answers == a.call && r.isError == a.isError && r.value == a.value ensures Given(actions, r) {
          JustGiven(actions, r);
        }
      }
    }
  }

  lemma StillGiven(actions: seq<Action>, reply: Reply)
    requires actions != [] && Given(actions[..|actions| - 1], reply)
    ensures Given(actions, reply)
  {
    var init := actions[..|actions| - 1];
    var j :| 0 <= j < |init| && init[j] == Answer(reply.answers, reply.isError, reply.value);
    assert actions[j] == init[j];
  }

  lemma JustGiven(actions: seq<Action>, reply: Reply)
    requires actions != [] && actions[|actions| - 1] == Answer(reply.answers, reply.isError, reply.value)
    ensures Given(actions, reply)
  {
  }

  /** A reply that arrives for a call of an earlier run leaves every call of the current run as it was. */
  lemma StaleReplyIsHarmless(s: State, actions: seq<Action>, reply: Reply, id: nat)
    requires Init(s)
    requires var t := After(s, actions);
             && reply in t.sent && id in t.pending
             && reply.answers < |t.issued| && t.pending[id] < |t.issued|
             && t.issued[reply.answers].run < t.issued[t.pending[id]].run
    ensures var t := After(s, actions);
            var u := After(s, actions + [Receive(reply)]);
            && id in u.pending && u.pending[id] == t.pending[id]
            && u.settled == if reply.callId in t.pending then t.settled + [Settlement(reply.answers, reply)] else t.settled
  {
    hide Invariant;
    assert (actions + [Receive(reply)])[..|actions|] == actions;
    var t := After(s, actions);
    RunKeepsInvariant(s, actions);
    ReplyFindsItsCall(t, reply, id);
  }
}
