/**
 One streamed response: a generator stepped by worker threads under a lock, an ASGI call that
 may be cancelled at any point, and the single outcome the two record between them.

 `Do` gives the atomic events. A run is any sequence of events, so a worker may still be inside
 the generator when the call is cancelled, and the terminal frame may fail to be delivered.
 */
module StreamOutcome {
  import opened Wrappers

  datatype Generator = NotStarted | AtYield | InNext | Done

  datatype Phase =
    | Constructing  // the response object does not exist yet
    | Calling       // ASGI is sending the body
    | Unwinding     // the call has ended; the generator is about to be closed
    | Closed        // the generator is closed; the provider response is about to be
    | Settling      // everything is closed; the outcome is about to be settled
    | Ended
    | Escaped       // an exception left the cleanup itself

  datatype ErrorType = Interrupted | Incomplete | Upstream

  datatype Outcome = Success | Failure(error: ErrorType)

  /** `outcomes`, `finalised` and `ending` are bookkeeping: what was recorded, and how the generator ended. */
  datatype Ending = NoEnding | Exhausted(interrupted: bool) | Failed | Abandoned

  datatype Stream = Stream(
    generator: Generator, started: bool, finishSeen: bool, completed: bool, interrupted: bool,
    phase: Phase, delivered: bool, terminalDelivered: bool, recorded: bool,
    outcomes: seq<Outcome>, finalised: nat, ending: Ending)

  datatype Event =
    | Construct(fails: bool)
    | Next                          // a worker asks for the next chunk
    | Observe(finishReason: bool)   // the running generator sees a provider chunk
    | Yield
    | Exhaust                       // the provider's chunks are over
    | Raise                         // the generator's body raises
    | SendTerminal                  // the last body frame goes out
    | Return(raises: bool)          // the ASGI call ends
    | CloseGenerator(raises: bool)
    | CloseCancelled                // the cleanup is cancelled while it waits for the generator
    | CloseResponse(escapes: bool)
    | Settle

  /** Records an outcome unless there is one. */
  function Record(s: Stream, outcome: Outcome): Stream {
    if s.recorded then s else s.(recorded := true, outcomes := s.outcomes + [outcome])
  }

  function Exhaustion(s: Stream): Stream {
    var ended := s.(generator := Done, completed := s.finishSeen && !s.interrupted, ending := Exhausted(s.interrupted));
    if ended.completed then ended else Record(ended, Failure(if s.interrupted then Interrupted else Incomplete))
  }

  /** Closing a generator runs its exit code only when it has been started. */
  function ClosedGenerator(s: Stream): Stream {
    if s.generator.AtYield? then Record(s.(generator := Done, ending := Abandoned), Failure(Interrupted))
    else if s.generator.NotStarted? then s.(generator := Done)
    else s
  }

  function Settled(s: Stream): Stream {
    if s.delivered && s.terminalDelivered && s.completed then Record(s.(finalised := s.finalised + 1), Success)
    else Record(s, Failure(Interrupted))
  }

  function Do(s: Stream, e: Event): Stream {
    match e
    case Construct(fails) =>
      if !s.phase.Constructing? then s
      else if fails then Record(ClosedGenerator(s.(interrupted := true)), Failure(Interrupted)).(phase := Ended)
      else s.(phase := Calling)
    case Next =>
      if s.interrupted || s.phase.Constructing? || s.generator.InNext? || s.generator.Done? then s
      else s.(generator := InNext, started := true)
    case Observe(finishReason) => if s.generator.InNext? then s.(finishSeen := s.finishSeen || finishReason) else s
    case Yield => if s.generator.InNext? then s.(generator := AtYield) else s
    case Exhaust => if s.generator.InNext? then Exhaustion(s) else s
    case Raise => if s.generator.InNext? then Record(s.(generator := Done, ending := Failed), Failure(Upstream)) else s
    case SendTerminal => if s.phase.Calling? then s.(terminalDelivered := true) else s
    case Return(raises) => if s.phase.Calling? then s.(delivered := !raises, interrupted := true, phase := Unwinding) else s
    case CloseGenerator(raises) =>
      if (!s.phase.Unwinding? && !s.phase.Escaped?) || s.generator.InNext? then s
      else ClosedGenerator(s).(phase := if s.phase.Escaped? || (raises && s.generator.AtYield?) then Escaped else Closed)
    case CloseCancelled => if s.phase.Unwinding? then s.(phase := Escaped) else s
    case CloseResponse(escapes) => if s.phase.Closed? then s.(phase := if escapes then Escaped else Settling) else s
    case Settle => if s.phase.Settling? then Settled(s).(phase := Ended) else s
  }

  const START := Stream(NotStarted, false, false, false, false, Constructing, false, false, false, [], 0, NoEnding)

  function Run(events: seq<Event>): Stream {
    if events == [] then START else Do(Run(events[..|events| - 1]), events[|events| - 1])
  }

  // The invariant

  /** One outcome at most, and the flag says whether there is one. */
  ghost predicate OutcomeHolds(s: Stream) {
    && |s.outcomes| == (if s.recorded then 1 else 0)
    && s.finalised == (if Success in s.outcomes then 1 else 0)
    && (Success in s.outcomes ==> s.phase.Ended?)
  }

  /** What the generator's end says about its flags. */
  ghost predicate EndingHolds(s: Stream) {
    && (s.generator.NotStarted? ==> !s.started)
    && (s.generator.AtYield? || s.generator.InNext? ==> s.started && !s.phase.Constructing?)
    && (s.ending.NoEnding? <==> !s.generator.Done? || !s.started)
    && (s.completed <==> s.ending.Exhausted? && s.finishSeen && !s.ending.interrupted)
    && (s.phase.Constructing? ==> !s.started && !s.interrupted)
    && (!s.started ==> !s.finishSeen)
  }

  /** What has been recorded by the time the generator is over, before the outcome is settled. */
  ghost predicate RecordedHolds(s: Stream) {
    && (s.ending.NoEnding? && !s.phase.Ended? ==> !s.recorded)
    && (s.completed && !s.phase.Ended? ==> !s.recorded)
    && (s.ending.Exhausted? && !s.completed ==> s.outcomes == [Failure(if s.ending.interrupted then Interrupted else Incomplete)])
    && (s.ending.Failed? ==> s.outcomes == [Failure(Upstream)])
    && (s.ending.Abandoned? ==> s.outcomes == [Failure(Interrupted)])
  }

  ghost predicate PhaseHolds(s: Stream) {
    && (s.interrupted <==> !s.phase.Constructing? && !s.phase.Calling?)
    && (s.phase.Closed? || s.phase.Settling? || s.phase.Ended? ==> s.generator.Done?)
    && (s.delivered ==> !s.phase.Constructing? && !s.phase.Calling?)
    && (s.phase.Constructing? ==> !s.terminalDelivered)
    && (s.phase.Ended? ==> s.outcomes == [if Earned(s) then Success else FailureOf(s)])
  }

  /** A finish reason was seen, the generator ended uninterrupted and the terminal frame was delivered. */
  predicate Earned(s: Stream) {
    s.finishSeen && s.ending == Exhausted(false) && s.delivered && s.terminalDelivered
  }

  /** The error type of a stream that did not earn a success. */
  function FailureOf(s: Stream): Outcome {
    if s.ending.Failed? then Failure(Upstream)
    else if s.ending == Exhausted(false) && !s.finishSeen then Failure(Incomplete)
    else Failure(Interrupted)
  }

  ghost predicate Invariant(s: Stream) {
    OutcomeHolds(s) && EndingHolds(s) && RecordedHolds(s) && PhaseHolds(s)
  }

  lemma EventKeepsInvariant(s: Stream, e: Event)
    requires Invariant(s)
    ensures Invariant(Do(s, e))
  {
    match e
    case Construct(fails) =>
    case Exhaust =>
    case Raise =>
    case CloseGenerator(raises) =>
    case Settle =>
    case _ =>
  }

  lemma {:induction false} RunKeepsInvariant(events: seq<Event>)
    ensures Invariant(Run(events))
  {
    if events != [] {
      RunKeepsInvariant(events[..|events| - 1]);
      EventKeepsInvariant(Run(events[..|events| - 1]), events[|events| - 1]);
    }
  }

  // What every run guarantees

  /** However the threads interleave, at no point is more than one outcome recorded. */
  lemma NeverTwoOutcomes(events: seq<Event>)
    ensures |Run(events).outcomes| <= 1
  {
    RunKeepsInvariant(events);
  }

  /**
   Every response that runs to its end records exactly one outcome. It is a success exactly
   when a finish reason was seen, the generator ended uninterrupted and the terminal frame was
   delivered; otherwise it is the failure the run deserves.
   */
  lemma ExactlyOneOutcome(events: seq<Event>)
    requires Run(events).phase.Ended?
    ensures var s := Run(events);
      && |s.outcomes| == 1
      && (Success in s.outcomes <==> Earned(s))
      && (!Earned(s) ==> s.outcomes == [FailureOf(s)])
  {
    RunKeepsInvariant(events);
  }

  /** At some point of the run, in a state of this kind, this happened. */
  ghost predicate Happened(events: seq<Event>, what: (Stream, Event) -> bool) {
    exists k :: 0 <= k < |events| && what(Run(events[..k]), events[k])
  }

  /** A flag that events of one kind set, and nothing takes back, is set exactly when there was one. */
  lemma {:induction false} SetIffOccurred<S, E>(states: seq<S>, events: seq<E>, flag: S -> bool, what: (S, E) -> bool)
    requires |states| == |events| + 1 && !flag(states[0])
    requires forall i :: 0 <= i < |events| ==> (flag(states[i + 1]) <==> flag(states[i]) || what(states[i], events[i]))
    ensures flag(states[|events|]) <==> exists k :: 0 <= k < |events| && what(states[k], events[k])
  {
    if events != [] {
      var n := |events| - 1;
      SetIffOccurred(states[..n + 1], events[..n], flag, what);
      assert flag(states[n + 1]) <==> flag(states[n]) || what(states[n], events[n]);
    }
  }

  function States(events: seq<Event>): seq<Stream> {
    seq(|events| + 1, i requires 0 <= i <= |events| => Run(events[..i]))
  }

  lemma RunSteps(events: seq<Event>, i: nat)
    requires i < |events|
    ensures Invariant(States(events)[i]) && States(events)[i + 1] == Do(States(events)[i], events[i])
  {
    RunKeepsInvariant(events[..i]);
    assert events[..i + 1][..i] == events[..i];
  }

  /** Every step of a run sets the flag exactly when this happens in it. */
  ghost predicate Sets(events: seq<Event>, flag: Stream -> bool, what: (Stream, Event) -> bool) {
    forall i :: 0 <= i < |events| ==>
      (flag(States(events)[i + 1]) <==> flag(States(events)[i]) || what(States(events)[i], events[i]))
  }

  lemma SetIffHappened(events: seq<Event>, flag: Stream -> bool, what: (Stream, Event) -> bool)
    requires !flag(START) && Sets(events, flag, what)
    ensures flag(Run(events)) <==> Happened(events, what)
  {
    SetIffOccurred(States(events), events, flag, what);
    assert events[..|events|] == events;
    assert forall k :: 0 <= k < |events| ==> States(events)[k] == Run(events[..k]);
  }

  /** The running generator saw a finish reason. */
  function Finishes(): (Stream, Event) -> bool {
    (s: Stream, e: Event) => s.generator.InNext? && e == Observe(true)
  }

  /** The provider's chunks were over while the call was still on. */
  function RunsOut(): (Stream, Event) -> bool {
    (s: Stream, e: Event) => s.generator.InNext? && e == Exhaust && s.phase.Calling?
  }

  /** The last body frame went out. */
  function SendsTerminal(): (Stream, Event) -> bool {
    (s: Stream, e: Event) => s.phase.Calling? && e == SendTerminal
  }

  /** The call ended without an exception. */
  function Returns(): (Stream, Event) -> bool {
    (s: Stream, e: Event) => s.phase.Calling? && e == Return(false)
  }

  function SawFinish(): Stream -> bool {
    (s: Stream) => s.finishSeen
  }

  function RanOut(): Stream -> bool {
    (s: Stream) => s.ending == Exhausted(false)
  }

  function SentTerminal(): Stream -> bool {
    (s: Stream) => s.terminalDelivered
  }

  function Returned(): Stream -> bool {
    (s: Stream) => s.delivered
  }

  lemma FinishSets(events: seq<Event>)
    ensures Sets(events, SawFinish(), Finishes())
  {
    forall i | 0 <= i < |events|
      ensures SawFinish()(States(events)[i + 1]) <==> SawFinish()(States(events)[i]) || Finishes()(States(events)[i], events[i])
    {
      RunSteps(events, i);
      FinishStep(States(events)[i], events[i]);
    }
  }

  lemma FinishStep(s: Stream, e: Event)
    requires Invariant(s)
    ensures SawFinish()(Do(s, e)) <==> SawFinish()(s) || Finishes()(s, e)
  {
  }

  lemma ExhaustSets(events: seq<Event>)
    ensures Sets(events, RanOut(), RunsOut())
  {
    forall i | 0 <= i < |events|
      ensures RanOut()(States(events)[i + 1]) <==> RanOut()(States(events)[i]) || RunsOut()(States(events)[i], events[i])
    {
      RunSteps(events, i);
      ExhaustStep(States(events)[i], events[i]);
    }
  }

  lemma ExhaustStep(s: Stream, e: Event)
    requires Invariant(s)
    ensures RanOut()(Do(s, e)) <==> RanOut()(s) || RunsOut()(s, e)
  {
  }

  lemma TerminalSets(events: seq<Event>)
    ensures Sets(events, SentTerminal(), SendsTerminal())
  {
    forall i | 0 <= i < |events|
      ensures SentTerminal()(States(events)[i + 1]) <==> SentTerminal()(States(events)[i]) || SendsTerminal()(States(events)[i], events[i])
    {
      RunSteps(events, i);
      TerminalStep(States(events)[i], events[i]);
    }
  }

  lemma TerminalStep(s: Stream, e: Event)
    requires Invariant(s)
    ensures SentTerminal()(Do(s, e)) <==> SentTerminal()(s) || SendsTerminal()(s, e)
  {
  }

  lemma ReturnSets(events: seq<Event>)
    ensures Sets(events, Returned(), Returns())
  {
    forall i | 0 <= i < |events|
      ensures Returned()(States(events)[i + 1]) <==> Returned()(States(events)[i]) || Returns()(States(events)[i], events[i])
    {
      RunSteps(events, i);
      ReturnStep(States(events)[i], events[i]);
    }
  }

  lemma ReturnStep(s: Stream, e: Event)
    requires Invariant(s)
    ensures Returned()(Do(s, e)) <==> Returned()(s) || Returns()(s, e)
  {
  }

  /**
   In terms of what happened: a response that has run to its end is recorded as a success if and
   only if the running generator saw a finish reason and came to its end during the call, the last
   frame went out, and the call ended without an exception.
   */
  lemma SuccessIffHappened(events: seq<Event>)
    requires Run(events).phase.Ended?
    ensures Success in Run(events).outcomes <==>
            Happened(events, Finishes()) && Happened(events, RunsOut()) && Happened(events, SendsTerminal()) && Happened(events, Returns())
  {
    ExactlyOneOutcome(events);
    FinishSets(events);
    ExhaustSets(events);
    TerminalSets(events);
    ReturnSets(events);
    SetIffHappened(events, SawFinish(), Finishes());
    SetIffHappened(events, RanOut(), RunsOut());
    SetIffHappened(events, SentTerminal(), SendsTerminal());
    SetIffHappened(events, Returned(), Returns());
  }

  /** The streamed continuation is finalised once, with the success, and never otherwise. */
  lemma FinalisedOnlyOnSuccess(events: seq<Event>)
    ensures var s := Run(events);
      && s.finalised <= 1
      && (s.finalised == 1 <==> Success in s.outcomes)
      && (s.finalised == 1 ==> s.phase.Ended? && Earned(s) && s.generator.Done?)
  {
    RunKeepsInvariant(events);
  }

  /**
   An exception that leaves the cleanup skips the settling. The outcome is then missing, once
   the generator is over, exactly when the generator never ran or ended with everything seen:
   its own exit code records every other ending.
   */
  lemma EscapeLosesOutcomeIff(events: seq<Event>)
    requires Run(events).phase.Escaped? && Run(events).generator.Done?
    ensures var s := Run(events); s.outcomes == [] <==> !s.started || s.completed
    ensures Success !in Run(events).outcomes
  {
    RunKeepsInvariant(events);
  }

  /** A run in which the outcome is lost: everything was sent, and the cleanup was cancelled. */
  lemma OutcomeCanBeLost()
    ensures var events := [Construct(false), Next, Observe(true), Exhaust, SendTerminal, Return(false), CloseCancelled];
      Run(events).phase.Escaped? && Run(events).generator.Done? && Run(events).outcomes == []
  {
    var sent := [Construct(false)] + [Next] + [Observe(true)] + [Exhaust];
    RunNext([], Construct(false));
    RunNext([Construct(false)], Next);
    RunNext([Construct(false)] + [Next], Observe(true));
    RunNext([Construct(false)] + [Next] + [Observe(true)], Exhaust);
    RunNext(sent, SendTerminal);
    RunNext(sent + [SendTerminal], Return(false));
    RunNext(sent + [SendTerminal] + [Return(false)], CloseCancelled);
    assert sent + [SendTerminal] + [Return(false)] + [CloseCancelled]
        == [Construct(false), Next, Observe(true), Exhaust, SendTerminal, Return(false), CloseCancelled];
  }

  lemma RunNext(events: seq<Event>, e: Event)
    ensures Run(events + [e]) == Do(Run(events), e)
  {
    assert (events + [e])[..|events|] == events;
  }

  function RunFrom(s: Stream, events: seq<Event>): Stream {
    if events == [] then s else Do(RunFrom(s, events[..|events| - 1]), events[|events| - 1])
  }

  /** Once the generator is closed nothing it would still have seen counts: its end, its flags and a recorded outcome are final. */
  lemma {:induction false} ClosedIsFinal(s: Stream, events: seq<Event>)
    requires Invariant(s) && s.generator.Done? && !s.phase.Constructing?
    ensures var t := RunFrom(s, events);
      && Invariant(t) && t.generator.Done? && !t.phase.Constructing?
      && t.finishSeen == s.finishSeen && t.completed == s.completed && t.ending == s.ending
      && (s.recorded ==> t.outcomes == s.outcomes && t.finalised == s.finalised)
  {
    if events != [] {
      var n := |events| - 1;
      ClosedIsFinal(s, events[..n]);
      EventKeepsInvariant(RunFrom(s, events[..n]), events[n]);
    }
  }

  // The closures of one streamed request

  /** The variables the generator, its workers and the ASGI call share. */
  class StreamedResponse {
    var generator: Generator
    var started: bool
    var finishSeen: bool
    var streamCompleted: bool
    var interrupted: bool
    var phase: Phase
    var delivered: bool
    var terminalDelivered: bool
    var recorded: bool
    ghost var outcomes: seq<Outcome>
    ghost var finalised: nat
    ghost var ending: Ending

    constructor ()
      ensures State() == START
    {
      generator, started, finishSeen, streamCompleted, interrupted := NotStarted, false, false, false, false;
      phase, delivered, terminalDelivered, recorded := Constructing, false, false, false;
      outcomes, finalised, ending := [], 0, NoEnding;
    }

    ghost function State(): Stream
      reads this
    {
      Stream(generator, started, finishSeen, streamCompleted, interrupted, phase, delivered, terminalDelivered,
             recorded, outcomes, finalised, ending)
    }

    /** Reports to the engine unless that has been done. */
    method RecordStreamOutcome(outcome: Outcome)
      modifies this`recorded, this`outcomes
      ensures State() == Record(old(State()), outcome)
    {
      if recorded {
        return;
      }
      recorded := true;
      outcomes := outcomes + [outcome];
    }

    /** Steps into the generator, under the lock; false when the stream is over or interrupted. */
    method NextStreamBody() returns (entered: bool)
      requires !phase.Constructing? && !generator.InNext?
      modifies this`generator, this`started
      ensures State() == Do(old(State()), Next)
      ensures entered <==> generator.InNext?
    {
      if interrupted || generator.Done? {
        return false;
      }
      generator, started := InNext, true;
      return true;
    }

    method ObserveStreamChunk(finishReason: bool)
      requires generator.InNext?
      modifies this`finishSeen
      ensures State() == Do(old(State()), Observe(finishReason))
    {
      if finishReason {
        finishSeen := true;
      }
    }

    method YieldChunk()
      requires generator.InNext?
      modifies this`generator
      ensures State() == Do(old(State()), Yield)
    {
      generator := AtYield;
    }

    /** The generator's body after the last chunk, with its exit code. */
    method FinishStream()
      requires generator.InNext?
      modifies this`generator, this`streamCompleted, this`ending, this`recorded, this`outcomes
      ensures State() == Do(old(State()), Exhaust)
    {
      var completed := finishSeen && !interrupted;
      streamCompleted := completed;
      generator, ending := Done, Exhausted(interrupted);
      if !completed {
        var error := if interrupted then Interrupted else Incomplete;
        RecordStreamOutcome(Failure(error));
      }
    }

    /** The generator's body when a chunk cannot be read, with its exit code. */
    method FailStream()
      requires generator.InNext?
      modifies this`generator, this`ending, this`recorded, this`outcomes
      ensures State() == Do(old(State()), Raise)
    {
      generator, ending := Done, Failed;
      RecordStreamOutcome(Failure(Upstream));
    }

    /** Closes the generator, under the lock. */
    method CloseStreamBody()
      requires !generator.InNext?
      modifies this`generator, this`ending, this`recorded, this`outcomes
      ensures State() == ClosedGenerator(old(State()))
    {
      if generator.AtYield? {
        generator, ending := Done, Abandoned;
        RecordStreamOutcome(Failure(Interrupted));
      }
      generator := Done;
    }

    /** What a response that cannot be built leaves behind. */
    method AbandonResponse()
      requires phase.Constructing? && !generator.InNext?
      modifies this
      ensures State() == Do(old(State()), Construct(true))
    {
      interrupted := true;
      CloseStreamBody();
      RecordStreamOutcome(Failure(Interrupted));
      phase := Ended;
    }

    /** Finalises the continuation and reports success, or reports that the stream was cut short. */
    method SettleOutcome()
      modifies this`finalised, this`recorded, this`outcomes
      ensures State() == Settled(old(State()))
    {
      if delivered && terminalDelivered && streamCompleted {
        finalised := finalised + 1;
        RecordStreamOutcome(Success);
      } else {
        RecordStreamOutcome(Failure(Interrupted));
      }
    }

    /** The end of the ASGI call, when nothing escapes its cleanup: no worker is inside the generator any more. */
    method Unwind(raises: bool)
      requires phase.Calling? && !generator.InNext?
      modifies this
      ensures State() == Unwound(old(State()), raises)
    {
      delivered, interrupted := !raises, true;
      CloseStreamBody();
      SettleOutcome();
      phase := Ended;
    }
  }

  /** The whole cleanup in one piece. */
  function Unwound(s: Stream, raises: bool): Stream {
    Settled(ClosedGenerator(s.(delivered := !raises, interrupted := true))).(phase := Ended)
  }

  /** When nothing interferes, the cleanup is its four events in a row. */
  lemma UnwindIsItsEvents(s: Stream, raises: bool)
    requires Invariant(s) && s.phase.Calling? && !s.generator.InNext?
    ensures Do(Do(Do(Do(s, Return(raises)), CloseGenerator(false)), CloseResponse(false)), Settle) == Unwound(s, raises)
  {
    var returned := Do(s, Return(raises));
    var closed := Do(returned, CloseGenerator(false));
    assert closed == ClosedGenerator(returned).(phase := Closed);
  }
}
