/**
 The record store's single writer: producers that enqueue operations without blocking, one
 worker that applies them, and a close that drains what was accepted.

 `Do` gives the atomic events: each critical section of a producer or closer, and each step of
 the worker between two of them. A run is any sequence of events.
 */
module RecordWriter {
  import opened Wrappers

  /** One queue entry; `index` stands for the future the producer may be waiting on. */
  datatype Item<O> = Operation(op: O, index: nat, waits: bool) | Sentinel

  datatype Worker<O> =
    | Idle
    | Running(item: Item<O>)  // taken off the queue, not finished
    | Failing(item: Item<O>)  // the operation raised; the error is not published yet
    | Stopped                 // left its loop on the sentinel
    | Died                    // left its loop on an exception it does not handle

  datatype Closer = Open | Putting | Awaiting | Joined

  datatype Answer = Value | Unavailable

  /** An operation a producer handed over, in the order the queue took them. */
  datatype Accepted<O> = Accepted(op: O, waits: bool)

  /**
   `accepted`, `taken`, `applied`, `failed` and `resolutions` are bookkeeping: what was
   enqueued, how much of it the worker took, what it applied, whether an operation raised, and
   each time a future was resolved.
   */
  datatype Writer<O> = Writer(
    queue: seq<Item<O>>, capacity: nat, error: bool, closed: bool,
    worker: Worker<O>, closer: Closer, answers: map<nat, Answer>,
    accepted: seq<Accepted<O>>, taken: nat, applied: seq<O>, failed: bool, resolutions: seq<nat>)

  datatype Event<O> =
    | Submit(op: O, waits: bool)
    | Take
    | Finish(raises: bool)
    | PublishError
    | WorkerDies
    | BackendCloseFails
    | BeginClose
    | PutSentinel
    | JoinClose

  predicate Rejects<O>(w: Writer<O>) {
    w.closed || w.error || w.worker.Stopped? || w.worker.Died? || |w.queue| >= w.capacity
  }

  /** Resolves the future of an operation, if somebody waits on it. */
  function Resolve<O>(w: Writer<O>, item: Item<O>, answer: Answer): Writer<O>
    requires item.Operation?
  {
    if item.waits then w.(answers := w.answers[item.index := answer], resolutions := w.resolutions + [item.index]) else w
  }

  function Do<O>(w: Writer<O>, e: Event<O>): Writer<O> {
    match e
    case Submit(op, waits) =>
      if Rejects(w) then w
      else w.(queue := w.queue + [Operation(op, |w.accepted|, waits)], accepted := w.accepted + [Accepted(op, waits)])
    case Take =>
      if !w.worker.Idle? || w.queue == [] then w
      else w.(queue := w.queue[1..], worker := Running(w.queue[0]), taken := w.taken + if w.queue[0].Operation? then 1 else 0)
    case Finish(raises) =>
      if !w.worker.Running? then w
      else if w.worker.item.Sentinel? then w.(worker := Stopped)
      else if w.error then Resolve(w, w.worker.item, Unavailable).(worker := Idle)
      else if raises then w.(worker := Failing(w.worker.item), failed := true)
      else Resolve(w, w.worker.item, Value).(worker := Idle, applied := w.applied + [w.worker.item.op])
    case PublishError =>
      if !w.worker.Failing? || w.worker.item.Sentinel? then w
      else Resolve(w, w.worker.item, Unavailable).(worker := Idle, error := true)
    case WorkerDies =>
      if w.worker.Running? && w.worker.item.Operation? && !w.error then w.(worker := Died, failed := true) else w
    case BackendCloseFails => if w.worker.Stopped? || w.worker.Died? then w.(error := true) else w
    case BeginClose => if w.closed then w else w.(closed := true, closer := Putting)
    case PutSentinel =>
      if w.closer.Putting? && |w.queue| < w.capacity then w.(queue := w.queue + [Sentinel], closer := Awaiting) else w
    case JoinClose => if w.closer.Awaiting? && w.worker.Stopped? then w.(closer := Joined) else w
  }

  function Run<O>(w: Writer<O>, events: seq<Event<O>>): Writer<O> {
    if events == [] then w else Do(Run(w, events[..|events| - 1]), events[|events| - 1])
  }

  function Start<O>(capacity: nat): Writer<O> {
    Writer([], capacity, false, false, Idle, Open, map[], [], 0, [], false, [])
  }

  // The invariant

  predicate Busy<O>(w: Writer<O>) {
    (w.worker.Running? && w.worker.item.Operation?) || w.worker.Failing?
  }

  /** Operations the worker is done with, in the order they were accepted. */
  function Finished<O>(w: Writer<O>): int {
    w.taken - if Busy(w) || w.worker.Died? then 1 else 0
  }

  predicate HasSentinel<O>(queue: seq<Item<O>>) {
    queue != [] && queue[|queue| - 1].Sentinel?
  }

  /** The queue holds the accepted operations not yet taken, in order, and the sentinel only behind them. */
  ghost predicate QueueHolds<O>(queue: seq<Item<O>>, accepted: seq<Accepted<O>>, taken: nat) {
    && taken <= |accepted|
    && |queue| == |accepted| - taken + (if HasSentinel(queue) then 1 else 0)
    && (forall i :: 0 <= i < |accepted| - taken ==>
          queue[i] == Operation(accepted[taken + i].op, taken + i, accepted[taken + i].waits))
  }

  /** The close protocol: one sentinel, and nothing accepted once closing began. */
  ghost predicate CloseHolds<O>(queue: seq<Item<O>>, closed: bool, closer: Closer, worker: Worker<O>) {
    var leaving := worker == Running(Sentinel) || worker.Stopped?;
    && (closer.Open? <==> !closed)
    && (HasSentinel(queue) ==> closer.Awaiting? && !leaving)
    && (closer.Awaiting? ==> HasSentinel(queue) || (leaving && queue == []))
    && (closer.Joined? ==> worker.Stopped? && queue == [])
    && (leaving ==> queue == [] && (closer.Awaiting? || closer.Joined?))
  }

  ghost predicate WorkerHolds<O>(worker: Worker<O>, accepted: seq<Accepted<O>>, taken: nat, error: bool, failed: bool) {
    && taken <= |accepted|
    && (worker.Died? ==> taken > 0)
    && (worker.Failing? ==> worker.item.Operation?)
    && ((worker.Running? && worker.item.Operation?) || worker.Failing? ==>
          && taken > 0
          && worker.item == Operation(accepted[taken - 1].op, taken - 1, accepted[taken - 1].waits))
    && (worker.Failing? ==> failed && !error)
    && (error && !worker.Stopped? && !worker.Died? ==> failed)
    && (failed ==> error || worker.Failing? || worker.Died?)
  }

  /** What was applied is the accepted operations up to the first one that failed. */
  ghost predicate AppliedHolds<O>(applied: seq<O>, accepted: seq<Accepted<O>>, finished: int, failed: bool) {
    && |applied| <= finished <= |accepted|
    && (forall i :: 0 <= i < |applied| ==> applied[i] == accepted[i].op)
    && (!failed ==> |applied| == finished)
  }

  ghost predicate Increasing(s: seq<nat>) {
    forall i, j :: 0 <= i < j < |s| ==> s[i] < s[j]
  }

  /** Exactly the finished operations somebody waited on are answered, each once, in order. */
  ghost predicate AnswersHold<O>(answers: map<nat, Answer>, resolutions: seq<nat>, accepted: seq<Accepted<O>>, finished: int, applied: nat) {
    && finished <= |accepted|
    && (forall i: nat :: i in answers <==> i < finished && accepted[i].waits)
    && (forall i :: i in answers ==> (answers[i] == Value <==> i < applied))
    && Increasing(resolutions)
    && (forall i :: i in resolutions <==> i in answers)
  }

  ghost predicate Invariant<O>(w: Writer<O>) {
    && QueueHolds(w.queue, w.accepted, w.taken)
    && CloseHolds(w.queue, w.closed, w.closer, w.worker)
    && WorkerHolds(w.worker, w.accepted, w.taken, w.error, w.failed)
    && AppliedHolds(w.applied, w.accepted, Finished(w), w.failed)
    && AnswersHold(w.answers, w.resolutions, w.accepted, Finished(w), |w.applied|)
  }

  lemma SubmitKeeps<O>(w: Writer<O>, e: Event<O>)
    requires Invariant(w) && e.Submit?
    ensures Invariant(Do(w, e))
  {
    if !Rejects(w) {
      var v := Do(w, e);
      assert !HasSentinel(w.queue) && !HasSentinel(v.queue);
      assert Finished(v) == Finished(w);
      assert AnswersHold(v.answers, v.resolutions, v.accepted, Finished(v), |v.applied|);
    }
  }

  lemma TakeKeeps<O>(w: Writer<O>)
    requires Invariant(w)
    ensures Invariant(Do(w, Take))
  {
    if w.worker.Idle? && w.queue != [] {
      var v := Do(w, Take);
      if w.queue[0].Operation? {
        assert HasSentinel(v.queue) <==> HasSentinel(w.queue);
        assert v.worker.item == w.queue[0];
      } else {
        assert |w.accepted| == w.taken;
        assert !HasSentinel(v.queue);
      }
      assert Finished(v) == Finished(w);
    }
  }

  lemma ResolveKeeps<O>(w: Writer<O>, item: Item<O>, answer: Answer, applied: nat)
    requires AnswersHold(w.answers, w.resolutions, w.accepted, Finished(w), |w.applied|)
    requires 0 <= Finished(w) < |w.accepted|
    requires if answer == Value then applied == |w.applied| + 1 == Finished(w) + 1 else applied == |w.applied| <= Finished(w)
    requires item == Operation(w.accepted[Finished(w)].op, Finished(w), w.accepted[Finished(w)].waits)
    ensures var v := Resolve(w, item, answer);
      AnswersHold(v.answers, v.resolutions, w.accepted, Finished(w) + 1, applied)
  {
    var v := Resolve(w, item, answer);
    if item.waits {
      forall k | 0 <= k < |w.resolutions| ensures w.resolutions[k] < item.index {
        assert w.resolutions[k] in w.answers;
      }
      assert forall i :: i in v.resolutions <==> i in w.resolutions || i == item.index;
    }
  }

  /** Finishing with an operation moves on by one, and what was applied is still right. */
  lemma FinishApplied<O>(w: Writer<O>, e: Event<O>)
    requires Invariant(w) && (e.Finish? || e.PublishError?) && Busy(w) && Do(w, e).worker.Idle?
    ensures var v := Do(w, e);
      && v.accepted == w.accepted && Finished(v) == w.taken == Finished(w) + 1
      && AppliedHolds(v.applied, v.accepted, Finished(v), v.failed)
  {
    var v := Do(w, e);
    assert Finished(w) == w.taken - 1 && Finished(v) == w.taken;
  }

  /** The answered part of the invariant, when the worker finishes with an operation. */
  lemma FinishAnswers<O>(w: Writer<O>, e: Event<O>)
    requires Invariant(w) && (e.Finish? || e.PublishError?) && Busy(w) && Do(w, e).worker.Idle?
    ensures var v := Do(w, e);
      AnswersHold(v.answers, v.resolutions, v.accepted, Finished(v), |v.applied|)
  {
    var v := Do(w, e);
    FinishApplied(w, e);
    ResolveKeeps(w, w.worker.item, if |v.applied| > |w.applied| then Value else Unavailable, |v.applied|);
  }

  lemma FinishKeeps<O>(w: Writer<O>, e: Event<O>)
    requires Invariant(w) && (e.Finish? || e.PublishError?)
    ensures Invariant(Do(w, e))
  {
    var v := Do(w, e);
    if Busy(w) && v.worker.Idle? {
      FinishApplied(w, e);
      FinishAnswers(w, e);
    } else {
      assert Finished(v) == Finished(w);
    }
  }

  lemma CloseKeeps<O>(w: Writer<O>, e: Event<O>)
    requires Invariant(w) && (e.BeginClose? || e.PutSentinel? || e.JoinClose?)
    ensures Invariant(Do(w, e))
  {
    var v := Do(w, e);
    if e.PutSentinel? && w.closer.Putting? && |w.queue| < w.capacity {
      assert !HasSentinel(w.queue) && HasSentinel(v.queue);
    }
    assert Finished(v) == Finished(w);
  }

  lemma FailureKeeps<O>(w: Writer<O>, e: Event<O>)
    requires Invariant(w) && (e.WorkerDies? || e.BackendCloseFails?)
    ensures Invariant(Do(w, e))
  {
    assert Finished(Do(w, e)) == Finished(w);
  }

  lemma EventKeepsInvariant<O>(w: Writer<O>, e: Event<O>)
    requires Invariant(w)
    ensures Invariant(Do(w, e))
  {
    if e.Submit? {
      SubmitKeeps(w, e);
    } else if e.Take? {
      TakeKeeps(w);
    } else if e.Finish? || e.PublishError? {
      FinishKeeps(w, e);
    } else if e.WorkerDies? || e.BackendCloseFails? {
      FailureKeeps(w, e);
    } else {
      CloseKeeps(w, e);
    }
  }

  lemma {:induction false} RunKeepsInvariant<O>(capacity: nat, events: seq<Event<O>>)
    ensures Invariant(Run(Start<O>(capacity), events))
  {
    if events != [] {
      var n := |events| - 1;
      RunKeepsInvariant<O>(capacity, events[..n]);
      EventKeepsInvariant(Run(Start<O>(capacity), events[..n]), events[n]);
    }
  }

  // Main results, over every interleaving of producers, closers and the worker

  /**
   What reached the table is a prefix of the accepted operations in acceptance order: all that
   the worker is done with while nothing has failed, cut at the first failure otherwise.
   */
  lemma AppliedIsPrefix<O>(capacity: nat, events: seq<Event<O>>)
    ensures var w := Run(Start<O>(capacity), events);
      && |w.applied| <= |w.accepted|
      && (forall i :: 0 <= i < |w.applied| ==> w.applied[i] == w.accepted[i].op)
      && (!w.failed ==> |w.applied| == Finished(w))
  {
    RunKeepsInvariant<O>(capacity, events);
  }

  /** Once one operation has failed, nothing is applied any more. */
  lemma NothingAppliedAfterFailure<O>(capacity: nat, events: seq<Event<O>>, e: Event<O>)
    requires Run(Start<O>(capacity), events).failed
    ensures Do(Run(Start<O>(capacity), events), e).applied == Run(Start<O>(capacity), events).applied
    ensures Do(Run(Start<O>(capacity), events), e).failed
  {
    RunKeepsInvariant<O>(capacity, events);
  }

  /** The sentinel is the last entry the queue ever gets. */
  lemma NothingBehindSentinel<O>(capacity: nat, events: seq<Event<O>>, i: nat)
    requires var w := Run(Start<O>(capacity), events); i < |w.queue| && w.queue[i].Sentinel?
    ensures i == |Run(Start<O>(capacity), events).queue| - 1
    ensures forall e :: |Do(Run(Start<O>(capacity), events), e).queue| <= |Run(Start<O>(capacity), events).queue|
  {
    RunKeepsInvariant<O>(capacity, events);
  }

  /** The worker is running an operation of a healthy store, and this event is the exception that operation raises. */
  predicate Raised<O>(w: Writer<O>, e: Event<O>) {
    && w.worker.Running? && w.worker.item.Operation? && !w.error
    && (e.WorkerDies? || (e.Finish? && e.raises))
  }

  /** At this point of the run an operation raised. */
  predicate RaisedAt<O>(capacity: nat, events: seq<Event<O>>, k: nat) {
    k < |events| && Raised(Run(Start<O>(capacity), events[..k]), events[k])
  }

  /** What one event does to what was applied. */
  lemma EventFails<O>(w: Writer<O>, e: Event<O>)
    requires WorkerHolds(w.worker, w.accepted, w.taken, w.error, w.failed)
    requires AppliedHolds(w.applied, w.accepted, Finished(w), w.failed)
    ensures Do(w, e).failed <==> w.failed || Raised(w, e)
    ensures w.failed ==> Do(w, e).applied == w.applied
    ensures Raised(w, e) ==> |w.applied| == w.taken - 1 && Do(w, e).applied == w.applied
  {
  }

  lemma LastEventFails<O>(capacity: nat, events: seq<Event<O>>)
    requires events != []
    ensures var n := |events| - 1; var before, w := Run(Start<O>(capacity), events[..n]), Run(Start<O>(capacity), events);
      && (w.failed <==> before.failed || Raised(before, events[n]))
      && (before.failed ==> w.applied == before.applied)
      && (Raised(before, events[n]) ==> |before.applied| == before.taken - 1 && w.applied == before.applied)
  {
    var n := |events| - 1;
    RunKeepsInvariant<O>(capacity, events[..n]);
    EventFails(Run(Start<O>(capacity), events[..n]), events[n]);
  }

  /**
   Once an operation has raised, the store has failed for good: everything accepted before that
   operation was applied, and neither it nor anything behind it ever will be.
   */
  lemma {:induction false} RaiseIsFinal<O>(capacity: nat, events: seq<Event<O>>, k: nat)
    requires RaisedAt(capacity, events, k)
    ensures var w, at := Run(Start<O>(capacity), events), Run(Start<O>(capacity), events[..k]);
      w.failed && w.applied == at.applied && |at.applied| == at.taken - 1
    decreases |events|
  {
    var n := |events| - 1;
    LastEventFails(capacity, events);
    if k < n {
      assert events[..n][..k] == events[..k];
      RaiseIsFinal(capacity, events[..n], k);
    }
  }

  /** And it has failed only when one has raised. */
  lemma {:induction false} FailureWasRaised<O>(capacity: nat, events: seq<Event<O>>) returns (k: nat)
    requires Run(Start<O>(capacity), events).failed
    ensures RaisedAt(capacity, events, k)
  {
    var n := |events| - 1;
    LastEventFails(capacity, events);
    if Run(Start<O>(capacity), events[..n]).failed {
      k := FailureWasRaised(capacity, events[..n]);
      assert events[..n][..k] == events[..k];
    } else {
      k := n;
    }
  }

  /**
   The error that a closer is told of is there exactly when an operation's exception was handled,
   or the table itself could not be closed once the worker had left its loop.
   */
  lemma {:induction false} ErrorIff<O>(capacity: nat, events: seq<Event<O>>)
    ensures Run(Start<O>(capacity), events).error <==> exists k: nat :: ReportedAt(capacity, events, k)
  {
    if events != [] {
      var n := |events| - 1;
      ErrorIff(capacity, events[..n]);
      LastEventReports(capacity, events);
      forall k: nat | k < n ensures ReportedAt(capacity, events[..n], k) <==> ReportedAt(capacity, events, k) {
        assert events[..n][..k] == events[..k];
      }
      ReportedSoFar(capacity, events);
    }
  }

  lemma EventReports<O>(w: Writer<O>, e: Event<O>)
    requires WorkerHolds(w.worker, w.accepted, w.taken, w.error, w.failed)
    ensures Do(w, e).error <==> w.error || Reports(w, e)
  {
  }

  lemma LastEventReports<O>(capacity: nat, events: seq<Event<O>>)
    requires events != []
    ensures var n := |events| - 1;
      Run(Start<O>(capacity), events).error <==> Run(Start<O>(capacity), events[..n]).error || ReportedAt(capacity, events, n)
  {
    var n := |events| - 1;
    RunKeepsInvariant<O>(capacity, events[..n]);
    EventReports(Run(Start<O>(capacity), events[..n]), events[n]);
  }

  lemma ReportedSoFar<O>(capacity: nat, events: seq<Event<O>>)
    requires events != []
    requires var n := |events| - 1; forall k: nat :: k < n ==> (ReportedAt(capacity, events[..n], k) <==> ReportedAt(capacity, events, k))
    ensures var n := |events| - 1;
      (exists k: nat :: ReportedAt(capacity, events, k)) <==>
      ReportedAt(capacity, events, n) || exists k: nat :: ReportedAt(capacity, events[..n], k)
  {
  }

  /** The event publishes an exception of an operation, or of closing the table. */
  predicate Reports<O>(w: Writer<O>, e: Event<O>) {
    || (e.PublishError? && w.worker.Failing?)
    || (e.BackendCloseFails? && (w.worker.Stopped? || w.worker.Died?))
  }

  predicate ReportedAt<O>(capacity: nat, events: seq<Event<O>>, k: nat) {
    k < |events| && Reports(Run(Start<O>(capacity), events[..k]), events[k])
  }

  /**
   No future is resolved twice, and every answer is right. Whoever waits on an operation that was
   applied has been given its value, and everybody else who was answered an error: a flush returns
   if and only if everything before it was written.
   */
  lemma AnswersAreTrue<O>(capacity: nat, events: seq<Event<O>>)
    ensures var w := Run(Start<O>(capacity), events);
      && Increasing(w.resolutions)
      && (forall i :: i in w.resolutions <==> i in w.answers)
      && (forall i :: i in w.answers ==> i < |w.accepted| && w.accepted[i].waits)
      && |w.applied| <= |w.accepted|
      && (forall i :: 0 <= i < |w.accepted| && w.accepted[i].waits ==>
            (i in w.answers && w.answers[i] == Value <==> i < |w.applied|))
      && (forall i :: i in w.answers ==> (w.answers[i] == Unavailable <==> |w.applied| <= i))
      && (forall i, j :: i in w.answers && w.answers[i] == Value && 0 <= j <= i ==> w.applied[j] == w.accepted[j].op)
  {
    RunKeepsInvariant<O>(capacity, events);
  }

  /** What raised at this point is operation i or one accepted before it. */
  predicate RaisedBy<O>(capacity: nat, events: seq<Event<O>>, k: nat, i: nat) {
    RaisedAt(capacity, events, k) && Run(Start<O>(capacity), events[..k]).taken - 1 <= i
  }

  lemma UnansweredFails<O>(capacity: nat, events: seq<Event<O>>, i: nat)
    requires i in Run(Start<O>(capacity), events).answers
    ensures var w := Run(Start<O>(capacity), events);
      (w.answers[i] == Unavailable <==> |w.applied| <= i) && (|w.applied| <= i ==> w.failed)
  {
    RunKeepsInvariant<O>(capacity, events);
  }

  /** An answer is an error exactly when the operation waited on raised or came after the one that did. */
  lemma ErrorsFollowTheRaise<O>(capacity: nat, events: seq<Event<O>>, i: nat)
    requires i in Run(Start<O>(capacity), events).answers
    ensures Run(Start<O>(capacity), events).answers[i] == Unavailable <==>
            exists k: nat :: RaisedBy(capacity, events, k, i)
  {
    UnansweredFails<O>(capacity, events, i);
    var w := Run(Start<O>(capacity), events);
    if w.failed {
      var k := FailureWasRaised(capacity, events);
      RaiseIsFinal(capacity, events, k);
      assert w.answers[i] == Unavailable ==> RaisedBy(capacity, events, k, i);
    }
    if k: nat :| RaisedBy(capacity, events, k, i) {
      RaiseIsFinal(capacity, events, k);
    }
  }

  /**
   When the worker leaves on the sentinel, every awaited operation has been answered and every
   accepted one was applied or came at or after the first failure.
   */
  lemma CloseDrainsEverything<O>(capacity: nat, events: seq<Event<O>>)
    requires Run(Start<O>(capacity), events).worker.Stopped?
    ensures var w := Run(Start<O>(capacity), events);
      && w.queue == [] && w.taken == |w.accepted|
      && (forall i :: 0 <= i < |w.accepted| && w.accepted[i].waits ==> i in w.answers)
      && (!w.failed ==> |w.applied| == |w.accepted|)
  {
    RunKeepsInvariant<O>(capacity, events);
  }

  /** The close that put the sentinel returns only once everything was drained. */
  lemma JoinedCloseIsDrained<O>(capacity: nat, events: seq<Event<O>>)
    requires Run(Start<O>(capacity), events).closer.Joined?
    ensures var w := Run(Start<O>(capacity), events);
      && w.worker.Stopped? && w.queue == [] && w.taken == |w.accepted|
      && (forall i :: 0 <= i < |w.accepted| && w.accepted[i].waits ==> i in w.answers)
  {
    RunKeepsInvariant<O>(capacity, events);
    CloseDrainsEverything<O>(capacity, events);
  }

  /** A second close finds the store closed and returns at once, whatever is still queued. */
  lemma SecondCloseReturnsEarly<O>(op: O)
    ensures var w := Do(Do(Start<O>(1), Submit(op, true)), BeginClose);
      && Do(w, BeginClose) == w && w.closed
      && w.queue != [] && w.accepted[0].waits && 0 !in w.answers
  {
  }

  /**
   Once the worker has left its loop, every awaited operation is answered if and only if it left
   on the sentinel, or nobody waited on the operation that killed it or on anything behind it.
   */
  lemma AllAnsweredIff<O>(capacity: nat, events: seq<Event<O>>)
    requires var w := Run(Start<O>(capacity), events); w.worker.Stopped? || w.worker.Died?
    ensures var w := Run(Start<O>(capacity), events);
      (forall i :: 0 <= i < |w.accepted| && w.accepted[i].waits ==> i in w.answers) <==>
      w.worker.Stopped? || forall i: nat :: w.taken - 1 <= i < |w.accepted| ==> !w.accepted[i].waits
  {
    RunKeepsInvariant<O>(capacity, events);
    var w := Run(Start<O>(capacity), events);
    if w.worker.Stopped? {
      CloseDrainsEverything<O>(capacity, events);
    } else if i: nat :| w.taken - 1 <= i < |w.accepted| && w.accepted[i].waits {
      assert i !in w.answers;
    }
  }

  /**
   A worker killed by an exception it does not handle answers nobody any more: neither the
   producer waiting on it, nor those queued behind it, nor a closer, now or later.
   */
  lemma DeathStrandsWaiters<O>(w: Writer<O>, rest: seq<Event<O>>)
    requires Invariant(w) && w.worker.Died?
    ensures var v := Run(w, rest);
      && v.accepted == w.accepted
      && (forall i :: w.taken - 1 <= i < |w.accepted| ==> i !in v.answers)
      && !v.closer.Joined?
  {
    AfterDeath(w, rest);
  }

  lemma {:induction false} AfterDeath<O>(w: Writer<O>, rest: seq<Event<O>>)
    requires w.worker.Died? && !w.closer.Joined?
    ensures var v := Run(w, rest); v.worker.Died? && v.answers == w.answers && v.accepted == w.accepted && !v.closer.Joined?
  {
    if rest != [] {
      AfterDeath(w, rest[..|rest| - 1]);
    }
  }

  /** Such a worker is reachable: one awaited operation whose exception it lets through. */
  lemma WorkerCanDie<O>(op: O)
    ensures var w := Do(Do(Do(Start<O>(1), Submit(op, true)), Take), WorkerDies);
      Invariant(w) && w.worker.Died? && w.accepted[w.taken - 1].waits
  {
    EventKeepsInvariant(Start<O>(1), Submit(op, true));
    EventKeepsInvariant(Do(Start<O>(1), Submit(op, true)), Take);
    EventKeepsInvariant(Do(Do(Start<O>(1), Submit(op, true)), Take), WorkerDies);
  }

  /** How one operation ends: normally, with an exception the worker handles, or with one it does not. */
  datatype Turn = Worked | Raises | Dies

  /** Running what was taken, and publishing what it raised. */
  function Performed<O>(w: Writer<O>, end: Turn): Writer<O> {
    if end.Dies? then Do(w, WorkerDies) else Do(Do(w, Finish(end.Raises?)), PublishError)
  }

  /** One turn of the worker's loop. */
  function Served<O>(w: Writer<O>, end: Turn): Writer<O> {
    Performed(Do(w, Take), end)
  }

  lemma PerformKeeps<O>(w: Writer<O>, end: Turn)
    requires Invariant(w)
    ensures Invariant(Performed(w, end))
  {
    if end.Dies? {
      EventKeepsInvariant(w, WorkerDies);
    } else {
      EventKeepsInvariant(w, Finish(end.Raises?));
      EventKeepsInvariant(Do(w, Finish(end.Raises?)), PublishError);
    }
  }

  lemma ServeKeeps<O>(w: Writer<O>, end: Turn)
    requires Invariant(w) && w.worker.Idle? && w.queue != [] && (w.queue[0].Sentinel? ==> end.Worked?) && (end.Dies? ==> !w.error)
    ensures var v := Served(w, end);
      && Invariant(v) && (v.worker.Idle? || v.worker.Stopped? || v.worker.Died?)
      && v.queue == w.queue[1..] && v.accepted == w.accepted && v.closer == w.closer
  {
    EventKeepsInvariant(w, Take);
    PerformKeeps(Do(w, Take), end);
    TurnMoves(w, end);
  }

  lemma TurnMoves<O>(w: Writer<O>, end: Turn)
    requires w.worker.Idle? && w.queue != [] && (w.queue[0].Sentinel? ==> end.Worked?) && (end.Dies? ==> !w.error)
    ensures var v := Served(w, end);
      && (v.worker.Idle? || v.worker.Stopped? || v.worker.Died?)
      && v.queue == w.queue[1..] && v.accepted == w.accepted && v.closer == w.closer
  {
  }

  // The store as it runs: fields changed in place under its lock, and the worker's loop

  class RecordStore<O> {
    const capacity: nat
    var queue: seq<Item<O>>
    var error: bool
    var closed: bool
    var worker: Worker<O>
    var closer: Closer
    var answers: map<nat, Answer>
    ghost var accepted: seq<Accepted<O>>
    ghost var taken: nat
    ghost var applied: seq<O>
    ghost var failed: bool
    ghost var resolutions: seq<nat>
    var next: nat

    constructor (capacity: nat)
      ensures this.capacity == capacity && State() == Start(capacity) && Valid()
    {
      this.capacity := capacity;
      queue, error, closed, worker, closer, answers, next := [], false, false, Idle, Open, map[], 0;
      accepted, taken, applied, failed, resolutions := [], 0, [], false, [];
    }

    ghost function State(): Writer<O>
      reads this
    {
      Writer(queue, capacity, error, closed, worker, closer, answers, accepted, taken, applied, failed, resolutions)
    }

    ghost predicate Valid()
      reads this
    {
      Invariant(State()) && next == |accepted|
    }

    /** Enqueues one operation without blocking; the result is the future's number, or a refusal. */
    method Submit(op: O, waits: bool) returns (ticket: Option<nat>)
      requires Valid()
      modifies this
      ensures Valid() && State() == Do(old(State()), Event.Submit(op, waits))
      ensures ticket == if old(closed || error || worker.Stopped? || worker.Died? || |queue| >= capacity) then None else Some(old(|accepted|))
      ensures ticket.None? ==> State() == old(State())
      ensures ticket.Some? ==>
        queue == old(queue) + [Operation(op, ticket.value, waits)] && accepted == old(accepted) + [Accepted(op, waits)]
    {
      EventKeepsInvariant(State(), Event.Submit(op, waits));
      if closed || error || worker.Stopped? || worker.Died? || |queue| >= capacity {
        return None;
      }
      ticket := Some(next);
      queue := queue + [Operation(op, next, waits)];
      accepted := accepted + [Accepted(op, waits)];
      next := next + 1;
    }

    /** Resolves the future of an operation. */
    method Answer(item: Item<O>, answer: Answer)
      requires item.Operation?
      modifies this`answers, this`resolutions
      ensures State() == Resolve(old(State()), item, answer)
    {
      if item.waits {
        answers := answers[item.index := answer];
        resolutions := resolutions + [item.index];
      }
    }

    /** Takes the oldest entry off the queue. */
    method TakeOldest() returns (item: Item<O>)
      requires worker.Idle? && queue != []
      modifies this`queue, this`worker, this`taken
      ensures State() == Do(old(State()), Take)
      ensures item == old(queue[0]) && worker == Running(item)
    {
      item := queue[0];
      queue, worker := queue[1..], Running(item);
      taken := taken + if item.Operation? then 1 else 0;
    }

    /** Runs one operation; an exception is published as the store's error, unless it is one that ends the worker. */
    method Perform(item: Item<O>) returns (end: Turn)
      requires worker == Running(item) && item.Operation?
      modifies this`applied, this`error, this`failed, this`worker, this`answers, this`resolutions
      ensures State() == Performed(old(State()), end) && (end.Dies? ==> !old(error))
    {
      end := *;
      var broken := error;
      if broken {
        end := Worked;
      } else if end.Dies? {
        failed, worker := true, Died;
        return;
      } else if end.Raises? {
        failed, error := true, true;
      } else {
        applied := applied + [item.op];
      }
      Answer(item, if broken || end.Raises? then Unavailable else Value);
      worker := Idle;
    }

    /** One turn of the worker's loop. */
    method Serve() returns (end: Turn)
      requires worker.Idle? && queue != []
      modifies this
      ensures State() == Served(old(State()), end)
      ensures (old(queue[0]).Sentinel? ==> end.Worked?) && (end.Dies? ==> !old(error))
      ensures next == old(next)
    {
      var item := TakeOldest();
      if item.Sentinel? {
        end := Worked;
        worker := Stopped;
      } else {
        end := Perform(item);
      }
    }

    /**
     The worker's loop once closing has begun and no producer can add to the queue: it runs to
     the sentinel, applying operations until one of them raises, or ends where one kills it.
     */
    method Drain()
      requires Valid() && closer.Awaiting? && worker.Idle?
      modifies this
      ensures Valid() && (worker.Stopped? || worker.Died?)
      ensures accepted == old(accepted)
      ensures worker.Stopped? ==> queue == [] && taken == |accepted| && (!failed ==> |applied| == |accepted|)
      ensures forall i: nat :: i < |accepted| && accepted[i].waits ==> (i in answers <==> worker.Stopped? || i < taken - 1)
    {
      while worker.Idle?
        invariant Valid() && closer.Awaiting? && (worker.Idle? || worker.Stopped? || worker.Died?)
        invariant accepted == old(accepted)
        decreases |queue|, worker.Idle?
      {
        ghost var before := State();
        var end := Serve();
        ServeKeeps(before, end);
      }
    }
  }
}
