/**
 The blocking queue between the network thread and its one consumer, as a transition system.
 A step is what one thread does without anyone else being able to come between: a section under the lock,
 a notification sent outside it, a check, or the moment a waiting thread falls asleep.
 */
module BlockingQueue {
  import opened WideText

  type Message = string

  /** How the queue was ended: by `complete`, or by `fail` with an exception. */
  datatype Ending = Completed | Failed(error: string)

  datatype Result = Value(message: Message) | Nothing | Thrown(error: string)

  /**
   Where the consumer is: outside `take`; wanting the lock; holding it at the loop's condition, about to wait, or
   past the loop; asleep in the wait; or on its way out with a result, the lock released.
   */
  datatype Consumer = Away | Wanting | Checking | Parking | Chosen | Asleep | Leaving(result: Result)

  /** A stop request: none, flag set, the callback past its lock, all done. */
  datatype Stop = NoStop | Flagged | Passed | Finished

  /**
   The queue's fields, the notifications that pushes still owe, the consumer and the stop request; and as history
   what was accepted, what was taken, and how the queue was ended.
   */
  datatype Queue = Queue(
    queue: seq<Message>, complete: bool, except: Option<string>,
    owed: nat, consumer: Consumer, stop: Stop,
    accepted: seq<Message>, taken: seq<Message>, ended: Option<Ending>)

  const START := Queue([], false, None, 0, Away, NoStop, [], [], None)

  predicate LockFree(q: Queue) {
    !q.consumer.Checking? && !q.consumer.Parking? && !q.consumer.Chosen?
  }

  /** Notifying reaches the consumer only while it sleeps. */
  function Notify(q: Queue): Queue {
    if q.consumer == Asleep then q.(consumer := Wanting) else q
  }

  // ---- Steps ----

  datatype Step =
    | Push(message: Message)
    | NotifyPushed
    | Complete
    | Fail(error: string)
    | RequestStop
    | CallbackLock
    | CallbackNotify
    | Enter
    | Acquire
    | Check
    | Park
    | Spurious
    | Finish
    | Return

  predicate Enabled(q: Queue, step: Step) {
    match step
    case Push(_) => LockFree(q)
    case NotifyPushed => q.owed > 0
    case Complete => LockFree(q)
    case Fail(_) => LockFree(q)
    case RequestStop => q.stop == NoStop
    case CallbackLock => q.stop == Flagged && LockFree(q)
    case CallbackNotify => q.stop == Passed
    case Enter => q.consumer == Away
    case Acquire => q.consumer == Wanting
    case Check => q.consumer == Checking
    case Park => q.consumer == Parking
    case Spurious => q.consumer == Asleep
    case Finish => q.consumer == Chosen
    case Return => q.consumer.Leaving? && q.stop != Flagged && q.stop != Passed
  }

  function PushLocked(q: Queue, m: Message): Queue {
    if q.complete then q else q.(queue := q.queue + [m], owed := q.owed + 1, accepted := q.accepted + [m])
  }

  function CompleteLocked(q: Queue): Queue {
    if q.complete then q
    else
      var done := q.(complete := true, ended := Some(Completed));
      if q.queue == [] then Notify(done) else done
  }

  function FailLocked(q: Queue, error: string): Queue {
    if q.complete then q
    else Notify(q.(except := Some(error), complete := true, ended := Some(Failed(error))))
  }

  /** The condition of the waiting loop. */
  predicate MustWait(q: Queue) {
    q.stop == NoStop && q.queue == [] && !q.complete
  }

  /** What `take` does once it no longer waits. */
  function TakeLocked(q: Queue): Queue {
    if q.except.Some? then q.(consumer := Leaving(Thrown(q.except.value)))
    else if q.stop != NoStop || q.queue == [] then q.(consumer := Leaving(Nothing))
    else q.(consumer := Leaving(Value(q.queue[0])), queue := q.queue[1..], taken := q.taken + [q.queue[0]])
  }

  function Apply(q: Queue, step: Step): Queue
    requires Enabled(q, step)
  {
    match step
    case Push(m) => PushLocked(q, m)
    case NotifyPushed => Notify(q.(owed := q.owed - 1))
    case Complete => CompleteLocked(q)
    case Fail(e) => FailLocked(q, e)
    case RequestStop => q.(stop := if q.consumer == Away then Finished else Flagged)
    case CallbackLock => q.(stop := Passed)
    case CallbackNotify => Notify(q.(stop := Finished))
    case Enter => q.(consumer := Wanting)
    case Acquire => q.(consumer := Checking)
    case Check => q.(consumer := if MustWait(q) then Parking else Chosen)
    case Park => q.(consumer := Asleep)
    case Spurious => q.(consumer := Wanting)
    case Finish => TakeLocked(q)
    case Return => q.(consumer := Away)
  }

  // ---- Invariant ----

  /** Something has happened that the consumer should be told of. */
  predicate HasNews(q: Queue) {
    q.queue != [] || q.complete || q.stop != NoStop
  }

  /** A notification is still to come: owed by a push, or by the stop callback. */
  predicate Pending(q: Queue) {
    q.owed > 0 || q.stop == Flagged || q.stop == Passed
  }

  predicate Safe(q: Queue) {
    // nothing is lost, duplicated or reordered
    && q.accepted == q.taken + q.queue
    // the first ending is the one in force
    && (q.complete <==> q.ended.Some?)
    && q.except == (if q.ended.Some? && q.ended.value.Failed? then Some(q.ended.value.error) else None)
    // no lost wake-up
    && (q.consumer == Asleep && HasNews(q) ==> Pending(q))
    && (q.consumer == Asleep ==> q.stop != Finished)
    // the lock is kept from the check to the wait, so only the stop flag can have changed
    && (q.consumer == Parking ==> q.queue == [] && !q.complete && (q.stop == NoStop || q.stop == Flagged))
    && (q.consumer == Chosen ==> HasNews(q))
    // the callback runs only while the consumer is inside `take`
    && (q.consumer == Away ==> q.stop == NoStop || q.stop == Finished)
  }

  lemma ApplySafe(q: Queue, step: Step)
    requires Safe(q) && Enabled(q, step)
    ensures Safe(Apply(q, step))
  {
  }

  /** The state after a run; steps that are not enabled do not happen. */
  function Run(steps: seq<Step>): (q: Queue)
    ensures Safe(q)
  {
    if steps == [] then START
    else
      var q := Run(steps[..|steps| - 1]);
      var step := steps[|steps| - 1];
      if Enabled(q, step) then
        ApplySafe(q, step);
        Apply(q, step)
      else q
  }

  // ---- What the steps alone say ----

  /** Every step happens when it can. */
  predicate Feasible(steps: seq<Step>) {
    steps == [] || (Feasible(steps[..|steps| - 1]) && Enabled(Run(steps[..|steps| - 1]), steps[|steps| - 1]))
  }

  /** The first of the calls to `complete` and `fail`. */
  function FirstEnding(steps: seq<Step>): Option<Ending> {
    if steps == [] then None
    else
      var earlier := FirstEnding(steps[..|steps| - 1]);
      if earlier.Some? then earlier
      else
        match steps[|steps| - 1]
        case Complete => Some(Completed)
        case Fail(e) => Some(Failed(e))
        case _ => None
  }

  /** The messages pushed before it. */
  function Offered(steps: seq<Step>): seq<Message> {
    if steps == [] then []
    else
      var early, last := steps[..|steps| - 1], steps[|steps| - 1];
      Offered(early) + if last.Push? && FirstEnding(early).None? then [last.message] else []
  }

  /** A stop was requested. */
  predicate StopAsked(steps: seq<Step>) {
    steps != [] && (steps[|steps| - 1] == RequestStop || StopAsked(steps[..|steps| - 1]))
  }

  /**
   Over every run: what was taken is a prefix of what was pushed before the first ending, the rest is still queued
   in order, that first ending is the one in force, and the queue is stopped once that has been asked for.
   */
  lemma {:induction false} TakenIsPrefix(steps: seq<Step>)
    requires Feasible(steps)
    ensures var q := Run(steps);
      && q.taken + q.queue == Offered(steps) && q.taken <= Offered(steps)
      && q.ended == FirstEnding(steps) && (q.complete <==> FirstEnding(steps).Some?)
      && q.accepted == Offered(steps)
      && (q.stop != NoStop <==> StopAsked(steps))
  {
    SafeOrder(Run(steps));
    if steps != [] {
      var early := steps[..|steps| - 1];
      TakenIsPrefix(early);
      StepHistory(Run(early), steps[|steps| - 1]);
      assert Run(steps) == Apply(Run(early), steps[|steps| - 1]);
    }
    hide Safe, Apply, Enabled, Run;
  }

  lemma StepHistory(q: Queue, step: Step)
    requires Enabled(q, step) && (q.complete <==> q.ended.Some?)
    ensures var r := Apply(q, step);
      && r.accepted == q.accepted + (if step.Push? && q.ended.None? then [step.message] else [])
      && r.ended == (if q.ended.Some? then q.ended
                     else match step case Complete => Some(Completed) case Fail(e) => Some(Failed(e)) case _ => None)
      && (r.stop != NoStop <==> q.stop != NoStop || step == RequestStop)
  {
  }

  lemma SafeOrder(q: Queue)
    requires Safe(q)
    ensures q.accepted == q.taken + q.queue && (q.complete <==> q.ended.Some?)
  {
  }

  /** What `take` returns, exactly: a failure before anything else, else nothing when stopped or drained, else the next message. */
  lemma TakeGives(q: Queue)
    requires Safe(q) && q.consumer == Chosen
    ensures var r := Apply(q, Finish);
      r.consumer.Leaving? &&
      match r.consumer.result
      case Thrown(e) => q.ended == Some(Failed(e)) && r.taken == q.taken
      case Nothing => (q.ended.None? || q.ended.value.Completed?) && r.taken == q.taken
                      && (q.stop != NoStop || (q.ended == Some(Completed) && q.taken == q.accepted))
      case Value(m) => (q.ended.None? || q.ended.value.Completed?) && q.stop == NoStop
                       && |q.taken| < |q.accepted| && m == q.accepted[|q.taken|] && r.taken == q.taken + [m]
  {
  }

  /** What wakes the consumer, exactly: nothing else does, and completing does only when nothing is queued. */
  lemma WokenBy(q: Queue, step: Step)
    requires Safe(q) && q.consumer == Asleep && Enabled(q, step)
    ensures Apply(q, step).consumer == (
      match step
      case Spurious => Wanting
      case NotifyPushed => Wanting
      case CallbackNotify => Wanting
      case Fail(_) => if q.ended.None? then Wanting else Asleep
      case Complete => if q.ended.None? && q.taken == q.accepted then Wanting else Asleep
      case _ => Asleep)
  {
    assert q.taken == q.accepted ==> |q.accepted| == |q.taken| + |q.queue|;
  }

  /** The consumer's own steps until it gives up the lock. */
  function Release(q: Queue): seq<Step> {
    match q.consumer
    case Checking => [Check] + if MustWait(q) then [Park] else [Finish]
    case Parking => [Park]
    case Chosen => [Finish]
    case _ => []
  }

  /** Nobody is kept out: with a few steps of its own the consumer gives up the lock, and then every call of others can go on. */
  lemma OthersGoOn(q: Queue, m: Message, e: string)
    requires Safe(q)
    ensures AllEnabled(q, Release(q))
    ensures var r := After(q, Release(q));
      Enabled(r, Push(m)) && Enabled(r, Complete) && Enabled(r, Fail(e)) && (q.stop == Flagged ==> Enabled(r, CallbackLock))
    ensures q.stop == NoStop ==> Enabled(q, RequestStop)
    ensures q.consumer == Away ==> Enabled(q, Enter)
  {
    if q.consumer == Checking {
      var last := if MustWait(q) then Park else Finish;
      assert Release(q) == [Check, last] && [Check, last][1..] == [last] && [last][1..] == [];
      AllThere(Apply(q, Check), last);
    } else if q.consumer == Parking || q.consumer == Chosen {
      AllThere(q, if q.consumer == Parking then Park else Finish);
    }
  }

  lemma AllThere(q: Queue, step: Step)
    requires Enabled(q, step)
    ensures AllEnabled(q, [step]) && After(q, [step]) == Apply(q, step)
  {
    assert [step][1..] == [];
    assert AllEnabled(Apply(q, step), []);
    assert After(Apply(q, step), []) == Apply(q, step);
    hide Apply;
  }

  /** The steps other threads take to deliver a notification. */
  function Deliver(q: Queue): seq<Step> {
    if q.owed > 0 then [NotifyPushed]
    else if q.stop == Flagged then [CallbackLock, CallbackNotify]
    else if q.stop == Passed then [CallbackNotify]
    else []
  }

  function After(q: Queue, steps: seq<Step>): Queue
    decreases |steps|
  {
    if steps == [] then q
    else After(if Enabled(q, steps[0]) then Apply(q, steps[0]) else q, steps[1..])
  }

  predicate AllEnabled(q: Queue, steps: seq<Step>)
    decreases |steps|
  {
    steps == [] || (Enabled(q, steps[0]) && AllEnabled(Apply(q, steps[0]), steps[1..]))
  }

  /** No lost wake-up: whenever it sleeps with news, other threads can take the steps that wake it, none of them waiting for it. */
  lemma NewsWakes(q: Queue)
    requires Safe(q) && q.consumer == Asleep && HasNews(q)
    ensures Deliver(q) != [] && AllEnabled(q, Deliver(q)) && After(q, Deliver(q)).consumer == Wanting
  {
    if q.owed == 0 && q.stop == Flagged {
      var p := Apply(q, CallbackLock);
      assert Deliver(q)[1..] == [CallbackNotify];
      assert [CallbackNotify][1..] == [];
      assert AllEnabled(Apply(p, CallbackNotify), []);
      assert AllEnabled(p, [CallbackNotify]);
      assert After(p, [CallbackNotify]).consumer == Wanting;
    }
  }

  /** Leaving `take` never deadlocks with the stop callback, which it has to wait for. */
  lemma CanReturn(q: Queue)
    requires Safe(q) && q.consumer.Leaving?
    ensures var steps := Deliver(q.(owed := 0)) + [Return];
      AllEnabled(q, steps) && After(q, steps).consumer == Away
  {
    if q.stop == Flagged {
      var p := Apply(q, CallbackLock);
      assert [CallbackLock, CallbackNotify] + [Return] == [CallbackLock, CallbackNotify, Return];
      assert [CallbackLock, CallbackNotify, Return][1..] == [CallbackNotify, Return];
      PassedReturns(p);
    } else if q.stop == Passed {
      assert [CallbackNotify] + [Return] == [CallbackNotify, Return];
      PassedReturns(q);
    } else {
      assert [] + [Return] == [Return];
      QuietReturns(q);
    }
  }

  lemma PassedReturns(q: Queue)
    requires q.stop == Passed && q.consumer.Leaving?
    ensures AllEnabled(q, [CallbackNotify, Return]) && After(q, [CallbackNotify, Return]).consumer == Away
  {
    assert [CallbackNotify, Return][1..] == [Return];
    QuietReturns(Apply(q, CallbackNotify));
  }

  lemma QuietReturns(q: Queue)
    requires q.stop != Flagged && q.stop != Passed && q.consumer.Leaving?
    ensures AllEnabled(q, [Return]) && After(q, [Return]).consumer == Away
  {
    assert [Return][1..] == [];
  }

  // ---- The object ----

  class MessageQueue {
    var queue: seq<Message>
    var complete: bool
    var except: Option<string>
    ghost var owed: nat
    ghost var consumer: Consumer
    ghost var stop: Stop
    ghost var accepted: seq<Message>
    ghost var taken: seq<Message>
    ghost var ended: Option<Ending>

    constructor ()
      ensures Snapshot() == START
    {
      queue, complete, except := [], false, None;
      owed, consumer, stop, accepted, taken, ended := 0, Away, NoStop, [], [], None;
    }

    ghost function Snapshot(): Queue
      reads this
    {
      Queue(queue, complete, except, owed, consumer, stop, accepted, taken, ended)
    }

    ghost method NotifyAll()
      modifies this`consumer
      ensures Snapshot() == Notify(old(Snapshot()))
    {
      if consumer == Asleep {
        consumer := Wanting;
      }
    }

    /** The part of `push` under the lock. */
    method PushLockedPart(message: Message)
      requires Enabled(Snapshot(), Push(message))
      modifies this`queue, this`owed, this`accepted
      ensures Snapshot() == Apply(old(Snapshot()), Push(message))
    {
      if complete {
        return;
      }
      queue := queue + [message];
      owed, accepted := owed + 1, accepted + [message];
    }

    method CompleteQueue()
      requires Enabled(Snapshot(), Complete)
      modifies this`complete, this`ended, this`consumer
      ensures Snapshot() == Apply(old(Snapshot()), Complete)
    {
      if complete {
        return;
      }
      complete := true;
      ended := Some(Completed);
      if queue == [] {
        NotifyAll();
      }
    }

    method FailQueue(error: string)
      requires Enabled(Snapshot(), Fail(error))
      modifies this`complete, this`except, this`ended, this`consumer
      ensures Snapshot() == Apply(old(Snapshot()), Fail(error))
    {
      if complete {
        return;
      }
      except := Some(error);
      complete := true;
      ended := Some(Failed(error));
      NotifyAll();
    }

    /** The condition of the loop in `take`, the stop flag read through the token. */
    method CheckCondition(stopRequested: bool) returns (wait: bool)
      requires Enabled(Snapshot(), Check) && stopRequested == (stop != NoStop)
      modifies this`consumer
      ensures Snapshot() == Apply(old(Snapshot()), Check)
      ensures wait <==> consumer == Parking
    {
      wait := !stopRequested && queue == [] && !complete;
      consumer := if wait then Parking else Chosen;
    }

    /** The rest of `take`, past the loop. */
    method FinishTake(stopRequested: bool) returns (result: Result)
      requires Enabled(Snapshot(), Finish) && stopRequested == (stop != NoStop)
      modifies this`queue, this`consumer, this`taken
      ensures Snapshot() == Apply(old(Snapshot()), Finish) && consumer == Leaving(result)
    {
      if except.Some? {
        result := Thrown(except.value);
      } else if stopRequested || queue == [] {
        result := Nothing;
      } else {
        result := Value(queue[0]);
        taken := taken + [queue[0]];
        queue := queue[1..];
      }
      consumer := Leaving(result);
    }
  }
}
