/** What every step of the task queue keeps. */
module TaskQueueInvariants {
  import opened Prelude
  import opened TaskQueueModel

  /** First in, first out: the accepted tasks are the executed ones, then those
      in the worker's hands, then the queued ones, then the abandoned ones. */
  ghost predicate FifoOrder<T>(s: Queue<T>) {
    && s.executed + InHand(s) + s.runnables + s.abandoned == s.accepted
    && (s.abandoned != [] ==> s.destroyed)
  }

  /** The i-th accepted task carries ticket i, and the futures settled so far
      are exactly those of the first tickets, in ticket order, once each. */
  ghost predicate Tickets<T>(s: Queue<T>) {
    && (forall i :: 0 <= i < |s.accepted| ==> s.accepted[i].ticket == i)
    && |s.settled| == |s.executed| + |s.abandoned|
    && (forall i :: 0 <= i < |s.settled| ==> s.settled[i].ticket == i)
    && (forall i :: 0 <= i < |s.settled| ==> (s.settled[i].outcome == Broken <==> |s.executed| <= i))
  }

  /** Which threads can be where. */
  ghost predicate Phases<T>(s: Queue<T>) {
    && (s.constructed <==> s.state != Stopped)
    && (!s.constructed ==> s.calls == map[] && s.accepted == [] && !s.destroyed)
    && (s.destroyed ==> s.worker == Exited && s.runnables == [] && s.calls == map[])
    && (s.worker == Exited ==> IsStopPending(s))
    && (s.worker != InBatch ==> s.current.None?)
    && (s.worker !in {InBatch, Stole} ==> s.batch == [])
    && (Worker in s.calls ==> s.current.Some? && s.calls[Worker] == OwesNotify(Return))
    && (forall t :: t in s.calls && s.calls[t] != OwesNotify(Return) ==> IsStopPending(s))
  }

  /** No lost wake-up: a sleeping worker that has something to do is about to
      be notified by some thread. */
  ghost predicate WakeUpOwed<T>(s: Queue<T>) {
    s.worker == Asleep && WaitPredicate(s) ==> exists t :: Owes(s, t)
  }

  ghost predicate Inv<T>(s: Queue<T>) {
    FifoOrder(s) && Tickets(s) && Phases(s) && WakeUpOwed(s)
  }

  lemma {:induction false} StepKeepsPhases<T>(s: Queue<T>, step: Step<T>)
    requires Phases(s) && Enabled(s, step)
    ensures Phases(Apply(s, step))
  {
    var s' := Apply(s, step);
    if step.JoinReturn? && s.calls[step.thread].destroy {
      assert s'.calls.Keys == {};
    }
  }

  lemma {:induction false} StepKeepsWakeUp<T>(s: Queue<T>, step: Step<T>)
    requires WakeUpOwed(s) && Phases(s) && Enabled(s, step)
    ensures WakeUpOwed(Apply(s, step))
  {
    var s' := Apply(s, step);
    if s'.worker == Asleep && WaitPredicate(s') {
      match step
      case Post(t, _) =>
        if s' != s && s.runnables == [] {
          assert Owes(s', t);
        } else {
          var u :| Owes(s, u);
          assert Owes(s', u);
        }
      case Stop(t, _, _) => assert Owes(s', t);
      case JoinReturn(_) => assert false;
      case FinishTask(_) => assert false;
      case _ =>
    }
  }

  /** The line of tasks, from the executed ones to the queued ones. */
  function Line<T>(s: Queue<T>): seq<Task<T>> {
    s.executed + InHand(s) + s.runnables
  }

  /** The worker's steps move tasks along the line and keep its order. */
  lemma CheckKeepsLine<T>(s: Queue<T>)
    requires s.batch == [] && s.current == None
    ensures Line(CheckLocked(s)) == Line(s)
  {
    var s' := CheckLocked(s);
    assert Line(s) == s.executed + [] + s.runnables == s.executed + s.runnables;
    if s'.worker == Stole {
      assert InHand(s') == [] + s.runnables == s.runnables;
      assert Line(s') == s.executed + s.runnables + [] == s.executed + s.runnables;
    } else {
      assert InHand(s') == InHand(s) && s'.runnables == s.runnables;
    }
  }

  lemma StartKeepsLine<T>(s: Queue<T>)
    requires Enabled(s, StartTask)
    ensures Line(Apply(s, StartTask)) == Line(s)
  {
    assert InHand(Apply(s, StartTask)) == InHand(s);
  }

  lemma FinishKeepsLine<T>(s: Queue<T>, outcome: Outcome)
    requires Enabled(s, FinishTask(outcome))
    ensures Line(Apply(s, FinishTask(outcome))) == Line(s)
  {
    var s' := Apply(s, FinishTask(outcome));
    assert InHand(s) == [s.current.value] + InHand(s');
    assert s.executed + InHand(s) == s'.executed + InHand(s');
  }

  lemma {:induction false} OthersKeepLine<T>(s: Queue<T>, step: Step<T>)
    requires Phases(s) && Enabled(s, step)
    requires !step.Check? && !step.StartTask? && !step.FinishTask? && !step.Post? && !step.JoinReturn?
    ensures var s' := Apply(s, step);
      && Line(s') == Line(s) && s'.accepted == s.accepted
      && s'.abandoned == s.abandoned && s'.destroyed == s.destroyed
  {
    assert InHand(Apply(s, step)) == InHand(s);
  }

  lemma PostKeepsFifo<T>(s: Queue<T>, t: Thread, body: T)
    requires FifoOrder(s) && s.abandoned == [] && Enabled(s, Post(t, body))
    ensures FifoOrder(Apply(s, Post(t, body)))
  {
    var s' := PostLocked(s, t, body);
    assert InHand(s') == InHand(s);
    assert Line(s) + [] == Line(s);
    assert Line(s') + [] == Line(s');
  }

  lemma MovedToTheEnd<A>(front: seq<A>, queued: seq<A>, dropped: seq<A>)
    requires dropped == []
    ensures front + [] + (dropped + queued) == front + queued + dropped
  {
    assert dropped + queued == queued;
  }

  lemma JoinReturnKeepsFifo<T>(s: Queue<T>, t: Thread)
    requires FifoOrder(s) && s.abandoned == [] && Enabled(s, JoinReturn(t))
    ensures FifoOrder(Apply(s, JoinReturn(t)))
  {
    MovedToTheEnd(s.executed + InHand(s), s.runnables, s.abandoned);
    assert InHand(JoinReturned(s, t)) == InHand(s);
  }

  lemma {:induction false} StepKeepsFifo<T>(s: Queue<T>, step: Step<T>)
    requires FifoOrder(s) && Phases(s) && Enabled(s, step)
    ensures FifoOrder(Apply(s, step))
  {
    match step
    case Post(t, body) => PostKeepsFifo(s, t, body);
    case JoinReturn(t) => JoinReturnKeepsFifo(s, t);
    case Check => CheckKeepsLine(s);
    case StartTask => StartKeepsLine(s);
    case FinishTask(outcome) => FinishKeepsLine(s, outcome);
    case _ => OthersKeepLine(s, step);
  }

  lemma FinishKeepsTickets<T>(s: Queue<T>, outcome: Outcome)
    requires FifoOrder(s) && Tickets(s) && s.abandoned == [] && Enabled(s, FinishTask(outcome))
    ensures Tickets(Apply(s, FinishTask(outcome)))
  {
    assert s.accepted[|s.executed|] == s.current.value;
  }

  lemma JoinReturnKeepsTickets<T>(s: Queue<T>, t: Thread)
    requires FifoOrder(s) && Tickets(s) && s.abandoned == [] && InHand(s) == [] && Enabled(s, JoinReturn(t))
    ensures Tickets(Apply(s, JoinReturn(t)))
  {
    forall i | 0 <= i < |s.runnables|
      ensures s.runnables[i].ticket == |s.executed| + i
    {
      assert s.accepted[|s.executed| + i] == s.runnables[i];
    }
  }

  lemma {:induction false} StepKeepsTickets<T>(s: Queue<T>, step: Step<T>)
    requires FifoOrder(s) && Tickets(s) && Phases(s) && Enabled(s, step)
    ensures Tickets(Apply(s, step))
  {
    match step
    case FinishTask(outcome) => FinishKeepsTickets(s, outcome);
    case JoinReturn(t) => JoinReturnKeepsTickets(s, t);
    case _ =>
  }

  lemma {:induction false} StepKeepsInv<T>(s: Queue<T>, step: Step<T>)
    requires Inv(s) && Enabled(s, step)
    ensures Inv(Apply(s, step))
  {
    StepKeepsPhases(s, step);
    StepKeepsWakeUp(s, step);
    StepKeepsFifo(s, step);
    StepKeepsTickets(s, step);
  }

  lemma {:induction false} RunKeepsInv<T>(s: Queue<T>, steps: seq<Step<T>>)
    requires Inv(s) && ValidRun(s, steps)
    ensures Inv(Exec(s, steps))
    decreases |steps|
  {
    if steps != [] {
      StepKeepsInv(s, steps[0]);
      RunKeepsInv(Apply(s, steps[0]), steps[1..]);
    }
  }

  /** Every state the queue can reach, under any scheduling, is good. */
  lemma ReachableInv<T>(steps: seq<Step<T>>)
    requires ValidRun(Init(), steps)
    ensures Inv(Exec(Init(), steps))
  {
    RunKeepsInv(Init(), steps);
  }

  /** No lost wake-up, over every run: a worker asleep with something to do
      has a thread that still owes it a notification, and that notification
      followed by the worker's own check makes it steal the queue or exit. */
  lemma NoLostWakeUp<T>(steps: seq<Step<T>>) returns (t: Thread)
    requires ValidRun(Init(), steps)
    requires var s := Exec(Init(), steps); s.worker == Asleep && WaitPredicate(s)
    ensures var s := Exec(Init(), steps);
      && ValidRun(s, [Notify(t), Check])
      && Exec(s, [Notify(t), Check]).worker == (if ShouldQueueExit(s) then Exited else Stole)
  {
    ReachableInv(steps);
    var s := Exec(Init(), steps);
    t :| Owes(s, t);
    var run: seq<Step<T>> := [Notify(t), Check];
    assert run[1..] == [Check] && run[1..][1..] == [];
    assert Exec(Apply(s, Notify(t)), [Check]) == CheckLocked(NotifyBy(s, t));
  }
}
