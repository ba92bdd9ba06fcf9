/**
 * The simple queue that the batching worker refines: callers append to one
 * list, and one task at a time leaves from its front.
 */
module FifoQueue {

  datatype Fifo<T> = Fifo(open: bool, pending: seq<T>, done: seq<T>, dropped: seq<T>)

  datatype Action<T> = Stutter | Enqueue(item: T) | Close | Dequeue | DropAll

  predicate Allowed<T>(f: Fifo<T>, a: Action<T>) {
    match a
    case Stutter => true
    case Enqueue(_) => f.open
    case Close => f.open
    case Dequeue => f.pending != []
    case DropAll => !f.open
  }

  function Perform<T>(f: Fifo<T>, a: Action<T>): Fifo<T>
    requires Allowed(f, a)
  {
    match a
    case Stutter => f
    case Enqueue(x) => f.(pending := f.pending + [x])
    case Close => f.(open := false)
    case Dequeue => f.(done := f.done + [f.pending[0]], pending := f.pending[1..])
    case DropAll => f.(dropped := f.dropped + f.pending, pending := [])
  }

  predicate ValidActions<T>(f: Fifo<T>, actions: seq<Action<T>>)
    decreases |actions|
  {
    actions == [] || (Allowed(f, actions[0]) && ValidActions(Perform(f, actions[0]), actions[1..]))
  }

  function PerformAll<T>(f: Fifo<T>, actions: seq<Action<T>>): Fifo<T>
    requires ValidActions(f, actions)
    decreases |actions|
  {
    if actions == [] then f else PerformAll(Perform(f, actions[0]), actions[1..])
  }

  /** The items that a list of actions puts in, in order. */
  function Enqueued<T>(actions: seq<Action<T>>): seq<T>
    decreases |actions|
  {
    if actions == [] then []
    else (if actions[0].Enqueue? then [actions[0].item] else []) + Enqueued(actions[1..])
  }
}

/** The batching worker is a one-at-a-time FIFO queue. */
module TaskQueueRefinement {
  import opened TaskQueueModel
  import opened TaskQueueInvariants
  import opened FifoQueue

  function Abstract<T>(s: Queue<T>): Fifo<Task<T>> {
    Fifo(!IsStopPending(s), InHand(s) + s.runnables, s.executed, s.abandoned)
  }

  /** What a step of the task queue is to a user of the simple queue: stealing
      the batch, sleeping, waking and notifying are invisible, an accepted post
      is an enqueue, and finishing a task is a dequeue. */
  function ActionOf<T>(s: Queue<T>, step: Step<T>): Action<Task<T>> {
    match step
    case Post(_, body) => if IsStopPending(s) then Stutter else Enqueue(Task(|s.accepted|, body))
    case Stop(_, _, _) => if IsStopPending(s) then Stutter else Close
    case FinishTask(_) => Dequeue
    case JoinReturn(t) => if t in s.calls && s.calls[t] == Joining(true) then DropAll else Stutter
    case _ => Stutter
  }

  function ActionsOf<T>(s: Queue<T>, steps: seq<Step<T>>): (r: seq<Action<Task<T>>>)
    requires ValidRun(s, steps)
    ensures |r| == |steps|
    decreases |steps|
  {
    if steps == [] then []
    else [ActionOf(s, steps[0])] + ActionsOf(Apply(s, steps[0]), steps[1..])
  }

  /** The step is the action it is to a user of the simple queue. */
  ghost predicate IsItsAction<T>(s: Queue<T>, step: Step<T>)
    requires Enabled(s, step)
  {
    && Allowed(Abstract(s), ActionOf(s, step))
    && Perform(Abstract(s), ActionOf(s, step)) == Abstract(Apply(s, step))
  }

  lemma PostIsEnqueue<T>(s: Queue<T>, t: Thread, body: T)
    requires Enabled(s, Post(t, body))
    ensures IsItsAction(s, Post(t, body))
  {
    if !IsStopPending(s) {
      var s' := PostLocked(s, t, body);
      assert InHand(s') + s'.runnables == InHand(s) + s.runnables + [Task(|s.accepted|, body)];
    }
  }

  lemma CheckIsInvisible<T>(s: Queue<T>)
    requires Enabled(s, Check) && s.current.None? && s.batch == []
    ensures IsItsAction(s, Check)
  {
    var s' := CheckLocked(s);
    assert InHand(s) == [];
    assert InHand(s') + s'.runnables == s.runnables;
  }

  lemma StartIsInvisible<T>(s: Queue<T>)
    requires Enabled(s, StartTask)
    ensures IsItsAction(s, StartTask)
  {
    assert InHand(Apply(s, StartTask)) == InHand(s);
  }

  lemma FinishIsDequeue<T>(s: Queue<T>, outcome: Outcome)
    requires Enabled(s, FinishTask(outcome))
    ensures IsItsAction(s, FinishTask(outcome))
  {
    assert Abstract(s).pending == [s.current.value] + Abstract(Apply(s, FinishTask(outcome))).pending;
  }

  lemma JoinReturnDrops<T>(s: Queue<T>, t: Thread)
    requires Enabled(s, JoinReturn(t)) && IsStopPending(s) && s.current.None? && s.batch == []
    ensures IsItsAction(s, JoinReturn(t))
  {
    assert InHand(s) == [];
    assert InHand(s) + s.runnables == s.runnables;
  }

  lemma {:induction false} OthersAreInvisible<T>(s: Queue<T>, step: Step<T>)
    requires Enabled(s, step) && (!s.constructed ==> s.state == Stopped)
    requires !step.Post? && !step.Check? && !step.StartTask? && !step.FinishTask? && !step.JoinReturn?
    ensures IsItsAction(s, step)
  {
    assert InHand(Apply(s, step)) == InHand(s);
  }

  lemma {:induction false} StepRefines<T>(s: Queue<T>, step: Step<T>)
    requires Phases(s) && Enabled(s, step)
    ensures Allowed(Abstract(s), ActionOf(s, step))
    ensures Perform(Abstract(s), ActionOf(s, step)) == Abstract(Apply(s, step))
  {
    assert IsItsAction(s, step) by {
      match step
      case Post(t, body) => PostIsEnqueue(s, t, body);
      case Check => CheckIsInvisible(s);
      case StartTask => StartIsInvisible(s);
      case FinishTask(outcome) => FinishIsDequeue(s, outcome);
      case JoinReturn(t) => JoinReturnDrops(s, t);
      case _ => OthersAreInvisible(s, step);
    }
  }

  lemma {:induction false} RunRefines<T>(s: Queue<T>, steps: seq<Step<T>>)
    requires Inv(s) && ValidRun(s, steps)
    ensures ValidActions(Abstract(s), ActionsOf(s, steps))
    ensures PerformAll(Abstract(s), ActionsOf(s, steps)) == Abstract(Exec(s, steps))
    decreases |steps|
  {
    if steps != [] {
      var s1 := Apply(s, steps[0]);
      assert ActionsOf(s, steps)[1..] == ActionsOf(s1, steps[1..]);
      StepRefines(s, steps[0]);
      StepKeepsInv(s, steps[0]);
      RunRefines(s1, steps[1..]);
    }
  }

  lemma {:induction false} StepEnqueues<T>(s: Queue<T>, step: Step<T>)
    requires Enabled(s, step)
    ensures var a := ActionOf(s, step);
      Apply(s, step).accepted == s.accepted + (if a.Enqueue? then [a.item] else [])
  {
  }

  lemma {:induction false} AcceptedAreEnqueued<T>(s: Queue<T>, steps: seq<Step<T>>)
    requires ValidRun(s, steps)
    ensures Exec(s, steps).accepted == s.accepted + Enqueued(ActionsOf(s, steps))
    decreases |steps|
  {
    if steps != [] {
      var s1 := Apply(s, steps[0]);
      var actions := ActionsOf(s, steps);
      assert actions[0] == ActionOf(s, steps[0]) && actions[1..] == ActionsOf(s1, steps[1..]);
      StepEnqueues(s, steps[0]);
      AcceptedAreEnqueued(s1, steps[1..]);
    }
  }

  /** Over every interleaving of posters, stoppers and the worker: the run is a
      run of the simple queue with the same enqueues in the same order, and the
      executed tasks, the ones in the worker's hands, the queued ones and the
      abandoned ones are together exactly the accepted posts in lock order. */
  lemma BatchingRefinesFifo<T>(steps: seq<Step<T>>)
    requires ValidRun(Init(), steps)
    ensures var s := Exec(Init<T>(), steps); var actions := ActionsOf(Init(), steps);
      && ValidActions(Fifo(true, [], [], []), actions)
      && PerformAll(Fifo(true, [], [], []), actions)
         == Fifo(!IsStopPending(s), InHand(s) + s.runnables, s.executed, s.abandoned)
      && s.accepted == Enqueued(actions)
      && s.executed + InHand(s) + s.runnables + s.abandoned == s.accepted
  {
    ReachableInv(steps);
    RunRefines(Init(), steps);
    AcceptedAreEnqueued(Init(), steps);
  }

  /** When the worker's check goes past its exit test, in any reachable state,
      there is something to steal, the worker's hands are empty, and it takes
      the whole queue in order. */
  lemma StealIsNeverEmpty<T>(steps: seq<Step<T>>)
    requires ValidRun(Init(), steps)
    requires var s := Exec(Init(), steps); s.worker == AtGate && CheckLocked(s).worker == Stole
    ensures var s := Exec(Init(), steps);
      && s.runnables != []
      && InHand(s) == []
      && InHand(CheckLocked(s)) == s.runnables
      && CheckLocked(s).runnables == []
  {
    ReachableInv(steps);
    var s := Exec(Init(), steps);
    assert InHand(CheckLocked(s)) == s.runnables;
  }
}
