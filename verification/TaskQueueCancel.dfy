/**
 * What canceling bounds, and what a later stop undoes: `stop` stores its own
 * mode over the previous one, and the destructor always stores `run`.
 */
module TaskQueueCancel {
  import opened Prelude
  import opened TaskQueueModel
  import opened TaskQueueInvariants
  import opened TaskQueueStop

  /** No `stop(run)` happens in the run before the worker exits. */
  predicate NotOverwritten<T>(s: Queue<T>, steps: seq<Step<T>>)
    requires ValidRun(s, steps)
    decreases |steps|
  {
    steps == [] || s.worker == Exited
    || (!(steps[0].Stop? && steps[0].action == Run) && NotOverwritten(Apply(s, steps[0]), steps[1..]))
  }

  /** An exited worker never runs anything again. */
  lemma {:induction false} ExitIsFinal<T>(s: Queue<T>, steps: seq<Step<T>>)
    requires Inv(s) && s.worker == Exited && ValidRun(s, steps)
    ensures var e := Exec(s, steps);
      e.worker == Exited && e.executed == s.executed && e.runnables + e.abandoned == s.runnables + s.abandoned
    decreases |steps|
  {
    if steps != [] {
      var s1 := Apply(s, steps[0]);
      StepKeepsInv(s, steps[0]);
      assert s1.runnables + s1.abandoned == s.runnables + s.abandoned;
      ExitIsFinal(s1, steps[1..]);
    }
  }

  lemma HandsEmptyOrder<T>(s: Queue<T>)
    requires FifoOrder(s) && Phases(s) && s.worker in {AtGate, Exited}
    ensures s.accepted == s.executed + (s.runnables + s.abandoned)
    ensures s.runnables + s.abandoned == if s.destroyed then s.abandoned else s.runnables
  {
    assert InHand(s) == [];
  }

  /** What becomes of the tasks at the worker's exit, over every run: those
      queued then never run, and are what the destructor abandons; every other
      accepted task has run. In mode `run` none is queued then. */
  lemma ExitDecides<T>(before: seq<Step<T>>, after: seq<Step<T>>)
    requires ValidRun(Init(), before) && Enabled(Exec(Init(), before), Check)
    requires var e := Apply(Exec(Init(), before), Check); e.worker == Exited && ValidRun(e, after)
    ensures var s := Exec(Init(), before); var end := Exec(Apply(s, Check), after);
      && end.accepted == s.accepted == end.executed + s.runnables
      && (end.executed == end.accepted <==> s.runnables == [])
      && (s.state == Stopping ==> s.runnables == [])
      && (end.destroyed ==> end.abandoned == s.runnables)
      && (!end.destroyed ==> end.runnables == s.runnables && end.abandoned == [])
  {
    var s := Exec(Init(), before);
    var e := Apply(s, Check);
    var end := Exec(e, after);
    assert Inv(s) && Inv(e) && Inv(end) by {
      ReachableInv(before);
      StepKeepsInv(s, Check);
      RunKeepsInv(e, after);
    }
    ExitIsFinal(e, after);
    StopClosesTheQueue(e, after);
    HandsEmptyOrder(e);
    HandsEmptyOrder(end);
  }

  lemma {:induction false} CancelingStep<T>(s: Queue<T>, step: Step<T>)
    requires Phases(s) && s.state == Canceling && s.worker != Exited && Enabled(s, step)
    requires !(step.Stop? && step.action == Run)
    ensures var s1 := Apply(s, step);
      && s1.state == Canceling && s1.runnables == s.runnables && s1.abandoned == s.abandoned
      && s1.executed + InHand(s1) == s.executed + InHand(s)
  {
    var s1 := Apply(s, step);
    match step
    case StartTask => assert InHand(s1) == InHand(s);
    case FinishTask(_) => assert InHand(s) == [s.current.value] + InHand(s1);
    case _ =>
  }

  /** After `stop(cancel)`, in every run that no `stop(run)` overwrites before
      the worker exits, the worker runs at most the tasks it already had in its
      hands, exactly those if it exits, and never one that was still queued. */
  lemma {:induction false} CancelBound<T>(s: Queue<T>, steps: seq<Step<T>>)
    requires Inv(s) && s.state == Canceling && s.worker != Exited
    requires ValidRun(s, steps) && NotOverwritten(s, steps)
    ensures var e := Exec(s, steps);
      && e.executed <= s.executed + InHand(s)
      && (e.worker == Exited ==> e.executed == s.executed + InHand(s))
      && e.runnables + e.abandoned == s.runnables
    decreases |steps|
  {
    if steps == [] {
      assert s.abandoned == [];
      assert s.runnables + s.abandoned == s.runnables;
    } else {
      var s1 := Apply(s, steps[0]);
      CancelingStep(s, steps[0]);
      StepKeepsInv(s, steps[0]);
      if s1.worker == Exited {
        assert InHand(s1) == [];
        assert s1.executed == s.executed + InHand(s);
        assert s1.runnables + s1.abandoned == s.runnables;
        ExitIsFinal(s1, steps[1..]);
      } else {
        CancelBound(s1, steps[1..]);
      }
    }
  }

  predicate NoCheck<T>(steps: seq<Step<T>>)
    decreases |steps|
  {
    steps == [] || (!steps[0].Check? && NoCheck(steps[1..]))
  }

  /** What the worker has run and what it has in its hands. */
  function Taken<T>(s: Queue<T>): seq<Task<T>> {
    s.executed + InHand(s)
  }

  lemma CheckTakes<T>(s: Queue<T>)
    requires s.current.None? && s.batch == []
    ensures Taken(s) <= Taken(CheckLocked(s))
  {
    assert InHand(s) == [];
  }

  lemma FinishKeepsTaken<T>(s: Queue<T>, outcome: Outcome)
    requires Enabled(s, FinishTask(outcome))
    ensures Taken(Apply(s, FinishTask(outcome))) == Taken(s)
  {
    assert InHand(s) == [s.current.value] + InHand(Apply(s, FinishTask(outcome)));
  }

  /** Only a check adds to it, and finishing a task leaves it as it is. */
  lemma {:induction false} StepTakes<T>(s: Queue<T>, step: Step<T>)
    requires Phases(s) && Enabled(s, step)
    ensures if step.Check? then Taken(s) <= Taken(Apply(s, step)) else Taken(Apply(s, step)) == Taken(s)
  {
    if step.Check? {
      CheckTakes(s);
    } else if step.FinishTask? {
      FinishKeepsTaken(s, step.outcome);
    } else {
      assert InHand(Apply(s, step)) == InHand(s);
    }
  }

  lemma {:induction false} StepBetweenChecks<T>(s: Queue<T>, step: Step<T>)
    requires s.constructed && s.worker != Exited && Enabled(s, step) && !step.Check?
    ensures var s1 := Apply(s, step);
      && s1.constructed && s1.worker != Exited
      && s1.state == LastState(s.state, [step])
      && s.runnables <= s1.runnables && (IsStopPending(s) ==> s1.runnables == s.runnables)
  {
    assert [step][1..] == [];
  }

  lemma {:induction false} BetweenChecks<T>(s: Queue<T>, steps: seq<Step<T>>)
    requires Phases(s) && s.constructed && s.worker != Exited
    requires ValidRun(s, steps) && NoCheck(steps)
    ensures var e := Exec(s, steps);
      && Phases(e) && e.state == LastState(s.state, steps)
      && s.runnables <= e.runnables && (IsStopPending(s) ==> e.runnables == s.runnables)
      && Taken(e) == Taken(s)
    decreases |steps|
  {
    if steps != [] {
      assert [steps[0]][1..] == [];
      StepKeepsPhases(s, steps[0]);
      StepTakes(s, steps[0]);
      StepBetweenChecks(s, steps[0]);
      BetweenChecks(Apply(s, steps[0]), steps[1..]);
    }
  }

  /** Exactly when canceling cancels. Take any run from a canceled queue up to
      the worker's next check. By then the worker has run just what it had in
      hand; it exits at that check if and only if the last stop issued was a
      canceling one or nothing was queued; otherwise it takes every task that
      was to be canceled and runs on. */
  lemma CancelTakesEffectIff<T>(s: Queue<T>, steps: seq<Step<T>>)
    requires Inv(s) && s.state == Canceling && s.worker != Exited
    requires ValidRun(s, steps) && NoCheck(steps) && Enabled(Exec(s, steps), Check)
    ensures var e := Apply(Exec(s, steps), Check);
      && e.executed == s.executed + InHand(s)
      && (e.worker == Exited <==> LastState(s.state, steps) == Canceling || s.runnables == [])
      && (e.worker == Exited ==> e.runnables == s.runnables)
      && (e.worker != Exited ==> e.worker == Stole && e.batch == s.runnables && e.runnables == [])
  {
    BetweenChecks(s, steps);
    LastStateIsStored(s, steps);
    assert InHand(Exec(s, steps)) == [];
  }

  // ---- which posted task runs ----

  lemma QueuedHasNotRun<T>(s: Queue<T>, task: Task<T>)
    requires FifoOrder(s) && Tickets(s) && task in s.runnables
    ensures task !in s.executed
  {
    var i :| 0 <= i < |s.runnables| && s.runnables[i] == task;
    var n := |s.executed + InHand(s)|;
    assert s.accepted[n + i] == task;
    forall k | 0 <= k < |s.executed|
      ensures s.executed[k] != task
    {
      assert s.accepted[k] == s.executed[k];
    }
  }

  /** What the worker has taken it has run by the time it exits. */
  lemma {:induction false} TakenTaskRuns<T>(s: Queue<T>, task: Task<T>, steps: seq<Step<T>>)
    requires Inv(s) && task in Taken(s) && ValidRun(s, steps) && Exec(s, steps).worker == Exited
    ensures task in Exec(s, steps).executed
    decreases |steps|
  {
    if steps == [] {
      assert InHand(s) == [];
    } else {
      StepTakes(s, steps[0]);
      StepKeepsInv(s, steps[0]);
      TakenTaskRuns(Apply(s, steps[0]), task, steps[1..]);
    }
  }

  /** Exactly when a posted task runs. Take a queued task in any good state,
      running or stopped, any run from there up to the worker's next check, and
      any continuation in which the worker exits: the task runs if and only if
      the last stop before that check is not a canceling one. */
  lemma PostRunsIff<T>(s: Queue<T>, task: Task<T>, steps: seq<Step<T>>, after: seq<Step<T>>)
    requires Inv(s) && s.constructed && s.worker != Exited && task in s.runnables
    requires ValidRun(s, steps) && NoCheck(steps) && Enabled(Exec(s, steps), Check)
    requires var e := Apply(Exec(s, steps), Check); ValidRun(e, after) && Exec(e, after).worker == Exited
    ensures var end := Exec(Apply(Exec(s, steps), Check), after);
      task in end.executed <==> LastState(s.state, steps) != Canceling
  {
    var c := Exec(s, steps);
    var e := Apply(c, Check);
    RunKeepsInv(s, steps);
    StepKeepsInv(c, Check);
    assert c.state == LastState(s.state, steps) && s.runnables <= c.runnables by {
      BetweenChecks(s, steps);
    }
    assert task in c.runnables;
    if c.state == Canceling {
      QueuedHasNotRun(e, task);
      ExitIsFinal(e, after);
    } else {
      assert task in InHand(e);
      TakenTaskRuns(e, task, after);
    }
  }

  // ---- two runs ----

  /** A client posts a task, and no other call is in progress. */
  lemma PostOne<T>(body: T) returns (steps: seq<Step<T>>)
    ensures ValidRun(Init(), steps)
    ensures Exec(Init(), steps) == Queue(Running, [Task(0, body)], true, false, AtGate, [], None, map[],
                                         [Task(0, body)], [], [], [])
  {
    steps := ExecSnoc(Init(), [], FinishConstruction);
    steps := ExecSnoc(Init(), steps, Post(Client(0), body));
    steps := ExecSnoc(Init(), steps, Notify(Client(0)));
    assert Exec(Init(), steps).calls == map[];
  }

  /** Another client cancels the queue. */
  lemma CancelNow<T>(s: Queue<T>) returns (steps: seq<Step<T>>)
    requires CanCall(s, Client(1)) && s.worker == AtGate && s.calls == map[]
    ensures ValidRun(s, steps) && Exec(s, steps) == s.(state := Canceling)
  {
    steps := ExecSnoc(s, [], Stop(Client(1), Cancel, Return));
    steps := ExecSnoc(s, steps, Notify(Client(1)));
    assert Exec(s, steps).calls == map[];
  }

  /** The worker checks, and the queue is destroyed. */
  lemma CheckThenDestroy<T>(s: Queue<T>) returns (steps: seq<Step<T>>)
    requires CanCall(s, Client(0)) && s.worker == AtGate && s.calls == map[] && s.state == Canceling
    ensures ValidRun(s, steps)
    ensures var e := Exec(s, steps);
      e.destroyed && e.executed == s.executed && e.abandoned == s.abandoned + s.runnables
      && e.settled == s.settled + BreakAll(s.runnables)
  {
    steps := ExecSnoc(s, [], Check);
    steps := ExecSnoc(s, steps, Stop(Client(0), Run, Destroy));
    steps := ExecSnoc(s, steps, Notify(Client(0)));
    assert Exec(s, steps).calls == map[Client(0) := Joining(true)];
    steps := ExecSnoc(s, steps, JoinReturn(Client(0)));
  }

  /** A task whose `post` has returned before anyone stopped the queue, and that
      never runs: after a cancel the worker checks before the destructor stops
      the queue, and the task's future is broken. */
  lemma CanceledTaskIsAbandoned<T>(body: T) returns (before: seq<Step<T>>, after: seq<Step<T>>)
    ensures ValidRun(Init(), before) && ValidRun(Exec(Init(), before), after)
    ensures var s := Exec(Init(), before);
      !IsStopPending(s) && s.calls == map[] && s.runnables == s.accepted == [Task(0, body)]
    ensures var e := Exec(Exec(Init(), before), after);
      e.destroyed && e.executed == [] && e.abandoned == [Task(0, body)] && e.settled == [Settlement(0, Broken)]
  {
    before := PostOne(body);
    var s := Exec(Init(), before);
    var first := CancelNow(s);
    var rest := CheckThenDestroy(Exec(s, first));
    ExecConcat(s, first, rest);
    after := first + rest;
  }

  predicate BeginsWithDestructor<T>(steps: seq<Step<T>>) {
    steps != [] && steps[0] == Stop(Client(0), Run, Destroy)
  }

  lemma DestructorTakesTheRest<T>(s: Queue<T>) returns (steps: seq<Step<T>>)
    requires s.constructed && !s.destroyed && s.worker == AtGate && s.calls == map[] && s.runnables != []
    ensures ValidRun(s, steps) && BeginsWithDestructor(steps)
    ensures Exec(s, steps) == s.(state := Stopping, calls := map[Client(0) := OwesNotify(Destroy)],
                                 worker := InBatch, batch := s.runnables, runnables := [])
  {
    steps := ExecSnoc(s, [], Stop(Client(0), Run, Destroy));
    steps := ExecSnoc(s, steps, Check);
    steps := ExecSnoc(s, steps, NotifyStolen);
  }

  lemma DestructorRunsTheRest<T>(s: Queue<T>) returns (steps: seq<Step<T>>)
    requires s.constructed && !s.destroyed && s.worker == AtGate && s.calls == map[] && s.current == None
    requires |s.runnables| == 1
    ensures ValidRun(s, steps) && BeginsWithDestructor(steps)
    ensures Exec(s, steps).worker == Exited && Exec(s, steps).executed == s.executed + s.runnables
  {
    steps := DestructorTakesTheRest(s);
    steps := ExecSnoc(s, steps, StartTask);
    steps := ExecSnoc(s, steps, FinishTask(Returned));
    assert Exec(s, steps).batch == [] && Exec(s, steps).executed == s.executed + s.runnables;
    steps := ExecSnoc(s, steps, LoopBack);
    steps := ExecSnoc(s, steps, Check);
  }

  /** Or the destructor's own `stop` comes first, and the canceled task runs
      after all. */
  lemma DestructorUndoesCancel<T>(body: T) returns (before: seq<Step<T>>, after: seq<Step<T>>)
    ensures ValidRun(Init(), before)
    ensures var s := Exec(Init(), before);
      && s.state == Canceling && s.worker != Exited
      && s.runnables == [Task(0, body)] && s.executed == [] && InHand(s) == []
      && ValidRun(s, after) && after != [] && after[0] == Stop(Client(0), Run, Destroy)
      && Exec(s, after).worker == Exited && Exec(s, after).executed == [Task(0, body)]
  {
    before := PostOne(body);
    var cancel := CancelNow(Exec(Init(), before));
    ExecConcat(Init(), before, cancel);
    before := before + cancel;
    after := DestructorRunsTheRest(Exec(Init(), before));
  }
}
