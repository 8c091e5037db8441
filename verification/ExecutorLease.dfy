/** One handler run on a pooled child process: the shared `isDone` cell, the timer, the listeners, and the
    single hand-back of the child to the pool. */
module ExecutorLease {
  import opened Prelude

  datatype HandBack = Released | Destroyed
  datatype Outcome = Resolved | Rejected(reason: Reason)
  datatype Reason = ThrownByScript | ScriptError | ProcessExited | ProcessFailed | TimedOut | SendFailed

  /** What the parent can see happen. `PoolAnswers` is the continuation after `await pool.release` or
      `await pool.destroy`; `CallReturns` the one after the awaited helper call. */
  datatype Event =
    | Done(mergeThrows: bool)
    | ErrorMessage
    | Exit
    | ProcessError
    | Timeout
    | CallMessage(callId: nat, isThrow: bool)
    | CallReturns(callId: nat)
    | PoolAnswers(succeeds: bool)

  predicate Terminal(e: Event) {
    e.Done? || e.ErrorMessage? || e.Exit? || e.ProcessError? || e.Timeout?
  }

  /** `waiting` is the settlement that follows once the pool answers. */
  datatype RunState = RunState(isDone: bool, listening: bool, timerArmed: bool, killed: bool, connected: bool,
                               handBacks: seq<HandBack>, settled: Option<Outcome>, waiting: Option<Outcome>,
                               inFlight: set<nat>, replies: seq<nat>)

  /** A promise keeps its first settlement. */
  function Settle(settled: Option<Outcome>, outcome: Outcome): Option<Outcome> {
    if settled.None? then Some(outcome) else settled
  }

  /** The synchronous part of `run`: timer, listeners, and the execute message. */
  function Started(sendThrows: bool): RunState {
    RunState(false, true, true, false, true,
             if sendThrows then [Released] else [],
             if sendThrows then Some(Rejected(SendFailed)) else None, None, {}, [])
  }

  /** An event reaches the run only while the listener or the timer that carries it is in place. */
  predicate Arrives(s: RunState, e: Event) {
    match e
    case Timeout => s.timerArmed
    case CallReturns(callId) => callId in s.inFlight
    case PoolAnswers(_) => s.waiting.Some?
    case _ => s.listening
  }

  function ReasonOf(e: Event): Reason {
    if e.ErrorMessage? then ScriptError else if e.Exit? then ProcessExited else ProcessFailed
  }

  function Apply(s: RunState, e: Event): RunState {
    match e
    case Done(mergeThrows) =>
      if s.isDone then s
      else if mergeThrows then s.(isDone := true, listening := false)
      else s.(isDone := true, listening := false, timerArmed := false, handBacks := s.handBacks + [Released], waiting := Some(Resolved))
    case Timeout =>
      if s.isDone then s.(timerArmed := false)
      else s.(isDone := true, listening := false, timerArmed := false, killed := true,
              handBacks := s.handBacks + [Destroyed], waiting := Some(Rejected(TimedOut)))
    case CallMessage(callId, isThrow) =>
      if s.isDone then s
      else s.(inFlight := s.inFlight + {callId},
              settled := if isThrow then Settle(s.settled, Rejected(ThrownByScript)) else s.settled)
    case CallReturns(callId) =>
      s.(inFlight := s.inFlight - {callId}, replies := if !s.killed && s.connected then s.replies + [callId] else s.replies)
    case PoolAnswers(succeeds) =>
      s.(waiting := None,
         settled := if s.waiting.Some? && (succeeds || s.waiting.value.Rejected?) then Settle(s.settled, s.waiting.value) else s.settled)
    case _ =>
      var s' := if e.Exit? then s.(connected := false) else s;
      if s.isDone then s'
      else s'.(isDone := true, listening := false, timerArmed := false,
               handBacks := s.handBacks + [Destroyed], settled := Settle(s.settled, Rejected(ReasonOf(e))))
  }

  function Next(s: RunState, e: Event): RunState {
    if Arrives(s, e) then Apply(s, e) else s
  }

  function After(s: RunState, events: seq<Event>): RunState {
    if events == [] then s else Next(After(s, events[..|events| - 1]), events[|events| - 1])
  }

  // ---- the listeners ----

  class ChildRun {
    var isDone: bool
    var listening: bool
    var timerArmed: bool
    var killed: bool
    var connected: bool
    var handBacks: seq<HandBack>
    var settled: Option<Outcome>
    var waiting: Option<Outcome>
    var inFlight: set<nat>
    var replies: seq<nat>

    ghost function View(): RunState
      reads this
    {
      RunState(isDone, listening, timerArmed, killed, connected, handBacks, settled, waiting, inFlight, replies)
    }

    /** `run`: on a throwing send the child is released although timer and listeners stay in place. */
    constructor (sendThrows: bool)
      ensures View() == Started(sendThrows)
    {
      isDone, listening, timerArmed, killed, connected := false, true, true, false, true;
      handBacks, settled, waiting, inFlight, replies := [], None, None, {}, [];
      new;
      if sendThrows {
        handBacks := handBacks + [Released];
        SettleWith(Rejected(SendFailed));
      }
    }

    method SettleWith(outcome: Outcome)
      modifies this`settled
      ensures settled == Settle(old(settled), outcome)
    {
      if settled.None? {
        settled := Some(outcome);
      }
    }

    method RemoveAllListeners()
      modifies this`listening
      ensures !listening
    {
      listening := false;
    }

    /** `handleChildError`. */
    method HandleChildError(reason: Reason)
      modifies this
      ensures View() == if old(isDone) then old(View())
                        else old(View()).(isDone := true, listening := false, timerArmed := false,
                                          handBacks := old(handBacks) + [Destroyed],
                                          settled := Settle(old(settled), Rejected(reason)))
    {
      if isDone {
        return;
      }
      isDone := true;
      RemoveAllListeners();
      timerArmed := false;
      handBacks := handBacks + [Destroyed];
      SettleWith(Rejected(reason));
    }

    method OnTimeout()
      requires timerArmed
      modifies this
      ensures View() == Apply(old(View()), Timeout)
    {
      timerArmed := false;
      if isDone {
        return;
      }
      isDone := true;
      RemoveAllListeners();
      killed := true;
      handBacks := handBacks + [Destroyed];
      waiting := Some(Rejected(TimedOut));
    }

    method OnDone(mergeThrows: bool)
      modifies this
      ensures View() == Apply(old(View()), Done(mergeThrows))
    {
      if isDone {
        return;
      }
      isDone := true;
      RemoveAllListeners();
      if mergeThrows {
        return;
      }
      timerArmed := false;
      handBacks := handBacks + [Released];
      waiting := Some(Resolved);
    }

    method OnCall(callId: nat, isThrow: bool)
      modifies this
      ensures View() == Apply(old(View()), CallMessage(callId, isThrow))
    {
      if isDone {
        return;
      }
      if isThrow {
        SettleWith(Rejected(ThrownByScript));
      }
      inFlight := inFlight + {callId};
    }

    /** After the awaited helper: the reply is sent whether or not the run is over by then. */
    method OnCallReturned(callId: nat)
      modifies this
      ensures View() == Apply(old(View()), CallReturns(callId))
    {
      inFlight := inFlight - {callId};
      if !killed && connected {
        replies := replies + [callId];
      }
    }

    method OnPoolAnswer(succeeds: bool)
      requires waiting.Some?
      modifies this
      ensures View() == Apply(old(View()), PoolAnswers(succeeds))
    {
      var outcome := waiting.value;
      waiting := None;
      if succeeds || outcome.Rejected? {
        SettleWith(outcome);
      }
    }

    method Dispatch(e: Event)
      modifies this
      ensures View() == Next(old(View()), e)
    {
      match e {
        case Timeout => if timerArmed { OnTimeout(); }
        case CallReturns(callId) => if callId in inFlight { OnCallReturned(callId); }
        case PoolAnswers(succeeds) => if waiting.Some? { OnPoolAnswer(succeeds); }
        case Done(mergeThrows) => if listening { OnDone(mergeThrows); }
        case CallMessage(callId, isThrow) => if listening { OnCall(callId, isThrow); }
        case Exit =>
          if listening {
            connected := false;
            HandleChildError(ProcessExited);
          }
        case ErrorMessage => if listening { HandleChildError(ScriptError); }
        case ProcessError => if listening { HandleChildError(ProcessFailed); }
      }
    }
  }

  // ---- what the whole event sequence decides ----

  /** The first event that ends the run, by its position. */
  function FirstTerminal(events: seq<Event>): (n: nat)
    ensures n <= |events|
    ensures forall k :: 0 <= k < n ==> !Terminal(events[k])
    ensures n < |events| ==> Terminal(events[n])
  {
    if events == [] then 0
    else
      var n := FirstTerminal(events[..|events| - 1]);
      if n < |events| - 1 then n else if Terminal(events[|events| - 1]) then n else n + 1
  }

  /** How the event that ends the run returns the child. */
  function Returned(e: Event): seq<HandBack> {
    if e.Done? then (if e.mergeThrows then [] else [Released]) else [Destroyed]
  }

  function HandBacksOf(events: seq<Event>): seq<HandBack> {
    var n := FirstTerminal(events);
    if n < |events| then Returned(events[n]) else []
  }

  /** What the run's state is, told by the events alone. */
  predicate Tracks(s: RunState, events: seq<Event>, sent: seq<HandBack>) {
    var n := FirstTerminal(events);
    && s.handBacks == sent + HandBacksOf(events)
    && (s.isDone <==> n < |events|)
    && (s.listening <==> n == |events|)
    && (n == |events| ==> s.timerArmed && s.waiting.None?)
    && (n < |events| && s.timerArmed ==> events[n] == Done(true))
  }

  lemma FirstTerminalSnoc(events: seq<Event>, e: Event)
    ensures var n := FirstTerminal(events);
            FirstTerminal(events + [e]) == if n < |events| || Terminal(e) then n else n + 1
  {
    assert (events + [e])[..|events|] == events;
  }

  lemma TracksStep(s: RunState, events: seq<Event>, e: Event, sent: seq<HandBack>)
    requires Tracks(s, events, sent)
    ensures Tracks(Next(s, e), events + [e], sent)
  {
    hide FirstTerminal;
    FirstTerminalSnoc(events, e);
  }

  lemma {:induction false} RunTracksEvents(sendThrows: bool, events: seq<Event>)
    ensures Tracks(After(Started(sendThrows), events), events, Started(sendThrows).handBacks)
  {
    hide Next;
    if events != [] {
      var init, last := events[..|events| - 1], events[|events| - 1];
      RunTracksEvents(sendThrows, init);
      TracksStep(After(Started(sendThrows), init), init, last, Started(sendThrows).handBacks);
      assert events == init + [last];
    }
  }

  /** In every interleaving the first terminal event alone decides the hand-back: released on done, destroyed on
      error, exit, process failure and timeout, and the child is never handed back twice. */
  lemma HandedBackOnce(events: seq<Event>)
    ensures After(Started(false), events).handBacks == HandBacksOf(events)
    ensures |After(Started(false), events).handBacks| <= 1
    ensures |After(Started(false), events).handBacks| == 1 <==>
            FirstTerminal(events) < |events| && events[FirstTerminal(events)] != Done(true)
  {
    RunTracksEvents(false, events);
  }

  /** After the run is over no event touches the pool again, arms the timer, or reopens the listeners. */
  lemma {:induction false} NothingAfterTheEnd(sendThrows: bool, events: seq<Event>, more: seq<Event>)
    requires FirstTerminal(events) < |events|
    ensures var s := After(Started(sendThrows), events);
            var t := After(Started(sendThrows), events + more);
            t.handBacks == s.handBacks && t.isDone && !t.listening && (t.timerArmed ==> s.timerArmed)
  {
    if more == [] {
      assert events + more == events;
      RunTracksEvents(sendThrows, events);
    } else {
      var init := more[..|more| - 1];
      NothingAfterTheEnd(sendThrows, events, init);
      assert (events + more)[..|events + more| - 1] == events + init;
    }
  }

  /** A throwing send releases the child while the timer still runs: any terminal event then hands it back again. */
  lemma SendFailureHandsBackTwice(events: seq<Event>)
    ensures After(Started(true), events).handBacks == [Released] + HandBacksOf(events)
    ensures |After(Started(true), events).handBacks| == 2 <==>
            FirstTerminal(events) < |events| && events[FirstTerminal(events)] != Done(true)
  {
    RunTracksEvents(true, events);
  }

  /** The child is handed back at most once in every run exactly when sending the execute message does not throw. */
  lemma AtMostOnceIffSendWorks(sendThrows: bool)
    ensures (forall events :: |After(Started(sendThrows), events).handBacks| <= 1) <==> !sendThrows
  {
    if sendThrows {
      SendFailureHandsBackTwice([Timeout]);
      assert FirstTerminal([Timeout]) == 0 by {
        assert Terminal([Timeout][0]);
      }
      assert |After(Started(true), [Timeout]).handBacks| == 2;
    } else {
      forall events ensures |After(Started(false), events).handBacks| <= 1 {
        HandedBackOnce(events);
      }
    }
  }

  // ---- what the caller of `run` sees ----

  /** Before the run ends only a `$throw` call settles the promise, and it leaves the child leased. */
  function ThrowsBefore(events: seq<Event>, n: nat): bool
    requires n <= |events|
  {
    exists k :: 0 <= k < n && events[k].CallMessage? && events[k].isThrow
  }

  /** The settlement the first terminal event brings, at once or when the pool answers. */
  function EndingOf(e: Event): Outcome
    requires Terminal(e)
  {
    if e.Done? then Resolved else if e.Timeout? then Rejected(TimedOut) else Rejected(ReasonOf(e))
  }

  predicate SettledAs(s: RunState, events: seq<Event>) {
    var n := FirstTerminal(events);
    if ThrowsBefore(events, n) then s.settled == Some(Rejected(ThrownByScript))
    else
      && (n == |events| ==> s.settled.None?)
      && (n < |events| ==> s.settled.None? || s.settled == Some(EndingOf(events[n])))
      && (n < |events| && !events[n].Done? && !events[n].Timeout? ==> s.settled.Some?)
      && (s.waiting.Some? ==> n < |events| && s.waiting == Some(EndingOf(events[n])))
      && (n < |events| && events[n].Timeout? && s.waiting.None? ==> s.settled.Some?)
  }

  /** The promise of a run is settled by a script's `$throw` if one came before the end, and otherwise by the
      event that ended the run; no later event changes it. */
  lemma {:induction false} PromiseFollowsFirstEnding(events: seq<Event>)
    ensures SettledAs(After(Started(false), events), events)
  {
    if events != [] {
      var init := events[..|events| - 1];
      PromiseFollowsFirstEnding(init);
      RunTracksEvents(false, init);
      RunTracksEvents(false, events);
      var m := FirstTerminal(init);
      var n := FirstTerminal(events);
      assert m < |init| ==> n == m && events[n] == init[n];
      assert forall k :: 0 <= k < |init| ==> events[k] == init[k];
      assert ThrowsBefore(init, m) ==> ThrowsBefore(events, n);
      assert ThrowsBefore(events, n) && !ThrowsBefore(init, m) ==> m == |init| && n == |events|;
    }
  }

  // ---- what the child hears ----

  /** A call that was taken up before the run ended and has not returned since. */
  function Underway(events: seq<Event>, callId: nat): bool {
    if events == [] then false
    else
      var init, last := events[..|events| - 1], events[|events| - 1];
      if last == CallReturns(callId) then false
      else if last.CallMessage? && last.callId == callId && FirstTerminal(init) == |init| then true
      else Underway(init, callId)
  }

  /** The child can still be sent to: the run did not end with the timeout, which kills it, or with its exit. */
  predicate Reachable(events: seq<Event>) {
    var n := FirstTerminal(events); n < |events| ==> !events[n].Timeout? && !events[n].Exit?
  }

  ghost predicate TracksCalls(s: RunState, events: seq<Event>) {
    && (forall c :: c in s.inFlight <==> Underway(events, c))
    && (!s.killed && s.connected <==> Reachable(events))
  }

  lemma UnderwaySnoc(events: seq<Event>, e: Event, callId: nat)
    ensures Underway(events + [e], callId)
        <==> if e == CallReturns(callId) then false
             else (e.CallMessage? && e.callId == callId && FirstTerminal(events) == |events|) || Underway(events, callId)
  {
    assert (events + [e])[..|events|] == events;
  }

  lemma TracksCallsStep(s: RunState, events: seq<Event>, e: Event, sent: seq<HandBack>)
    requires Tracks(s, events, sent) && TracksCalls(s, events)
    ensures TracksCalls(Next(s, e), events + [e])
  {
    hide FirstTerminal, Underway, HandBacksOf;
    FirstTerminalSnoc(events, e);
    forall c ensures c in Next(s, e).inFlight <==> Underway(events + [e], c) {
      UnderwaySnoc(events, e, c);
    }
  }

  lemma {:induction false} RunTracksCalls(sendThrows: bool, events: seq<Event>)
    ensures TracksCalls(After(Started(sendThrows), events), events)
  {
    hide Next, Tracks;
    if events != [] {
      var init, last := events[..|events| - 1], events[|events| - 1];
      RunTracksCalls(sendThrows, init);
      RunTracksEvents(sendThrows, init);
      TracksCallsStep(After(Started(sendThrows), init), init, last, Started(sendThrows).handBacks);
      assert events == init + [last];
    }
  }

  /** In every run the returning of a call is told to the child exactly when the call is under way, also after the
      run is over, unless the child was killed or is gone; nothing else sends a reply. */
  lemma ReplySentIff(sendThrows: bool, events: seq<Event>, e: Event)
    ensures var s := After(Started(sendThrows), events);
            var t := After(Started(sendThrows), events + [e]);
            t.replies == if e.CallReturns? && Underway(events, e.callId) && Reachable(events) then s.replies + [e.callId] else s.replies
  {
    hide FirstTerminal, Underway, Tracks;
    RunTracksCalls(sendThrows, events);
    assert (events + [e])[..|events|] == events;
  }
}
