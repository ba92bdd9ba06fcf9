/**
 * The task queue's methods, each proved to be a run of the step relation: the
 * real fields hold what the relation says they hold after the method's steps,
 * so every theorem about reachable states speaks of the object.
 */
module TaskQueueCode {
  import opened Prelude
  import opened TaskQueueModel
  import opened TaskQueueInvariants
  import opened TaskQueueStop
  import opened TaskQueueCancel

  datatype PostError = PostWhileStopping

  /** The steps of one `post` call: notify only when the queue was empty. */
  function PostCall<T>(s: Queue<T>, t: Thread, body: T): seq<Step<T>> {
    if IsStopPending(s) || s.runnables != [] then [Post(t, body)] else [Post(t, body), Notify(t)]
  }

  lemma ReachablePhases<T>(steps: seq<Step<T>>)
    requires ValidRun(Init(), steps)
    ensures Phases(Exec(Init(), steps))
  {
    ReachableInv(steps);
  }

  /** No step is the worker's own; the task it runs may call the queue. */
  predicate OnlyOthers<T>(steps: seq<Step<T>>) {
    forall i :: 0 <= i < |steps| ==> !IsWorkerStep(steps[i])
  }

  lemma {:induction false} OtherStep<T>(s: Queue<T>, step: Step<T>)
    requires Phases(s) && s.worker !in {Asleep, Exited} && Enabled(s, step) && !IsWorkerStep(step)
    ensures var s1 := Apply(s, step);
      && s1.worker == s.worker && s1.batch == s.batch && s1.current == s.current && s1.executed == s.executed
      && (IsStopPending(s) ==> IsStopPending(s1) && s1.runnables == s.runnables && s1.accepted == s.accepted)
  {
  }

  /** What the others leave as it is while the worker does not wait. */
  lemma {:induction false} OthersKeep<T>(s: Queue<T>, steps: seq<Step<T>>)
    requires Phases(s) && s.worker !in {Asleep, Exited} && ValidRun(s, steps) && OnlyOthers(steps)
    ensures var e := Exec(s, steps);
      && Phases(e)
      && e.worker == s.worker && e.batch == s.batch && e.current == s.current && e.executed == s.executed
      && (IsStopPending(s) ==> IsStopPending(e) && e.runnables == s.runnables && e.accepted == s.accepted)
    decreases |steps|
  {
    if steps != [] {
      assert !IsWorkerStep(steps[0]);
      assert forall i :: 0 <= i < |steps| - 1 ==> steps[1..][i] == steps[i + 1];
      OtherStep(s, steps[0]);
      StepKeepsPhases(s, steps[0]);
      OthersKeep(Apply(s, steps[0]), steps[1..]);
    }
  }

  /** What a `stop(run)` by a thread that then waits for the worker's exit comes
      to, whatever all threads do meanwhile. */
  lemma StopThenExit<T>(s: Queue<T>, thread: Thread, steps: seq<Step<T>>)
    requires Inv(s) && ValidRun(s, steps) && steps != [] && steps[0] == Stop(thread, Run, Join)
    requires Exec(s, steps).worker == Exited && !Exec(s, steps).destroyed
    ensures var e := Exec(s, steps);
      && e.accepted == s.accepted
      && (s.worker == Exited ==> e.executed == s.executed && e.runnables == s.runnables)
      && (s.worker != Exited && NeverCancels(steps) ==>
            e.executed == e.accepted && e.runnables == [] && e.state == Stopping)
  {
    var s1, e := Apply(s, steps[0]), Exec(s, steps);
    StepKeepsInv(s, steps[0]);
    StopClosesTheQueue(s1, steps[1..]);
    if s.worker == Exited {
      RunKeepsInv(s1, steps[1..]);
      ExitIsFinal(s1, steps[1..]);
      assert e.runnables + e.abandoned == e.runnables && s1.runnables + s1.abandoned == s.runnables;
    } else if NeverCancels(steps) {
      NeverCancelsRest(steps);
      NeverCanceledRun(s1, steps[1..]);
    }
  }

  /** The same about a run and the part of it that goes before the call. */
  lemma StopThenExitRun<T>(before: seq<Step<T>>, thread: Thread, run: seq<Step<T>>)
    requires ValidRun(Init(), run) && before + [Stop(thread, Run, Join)] <= run
    requires Exec(Init(), run).worker == Exited && !Exec(Init(), run).destroyed
    ensures ValidRun(Init(), before)
    ensures var s, e := Exec(Init(), before), Exec(Init(), run);
      && e.accepted == s.accepted
      && (s.worker == Exited ==> e.executed == s.executed && e.runnables == s.runnables)
      && (s.worker != Exited && NeverCancels(run[|before|..]) ==>
            e.executed == e.accepted && e.runnables == [] && e.state == Stopping)
  {
    assert before <= run;
    RunSplits(Init(), before, run);
    ReachableInv(before);
    StopThenExit(Exec(Init(), before), thread, run[|before|..]);
  }

  class TaskQueue<T> {
    var state: State
    var runnables: seq<Task<T>>
    // How many futures `post` has handed out.
    var tickets: nat
    // Whether the worker thread has returned.
    var exited: bool
    // The steps taken so far, by any thread, and where they led.
    ghost var run: seq<Step<T>>
    ghost var model: Queue<T>

    ghost predicate Valid()
      reads this
    {
      && ValidRun(Init(), run) && model == Exec(Init(), run)
      && model.state == state && model.runnables == runnables && |model.accepted| == tickets
      && (model.worker == Exited <==> exited)
    }

    /** Record that the model takes a step, which the code's next lines carry out. */
    ghost method Take(step: Step<T>)
      requires ValidRun(Init(), run) && model == Exec(Init(), run) && Enabled(model, step)
      modifies this`model, this`run
      ensures ValidRun(Init(), run) && model == Exec(Init(), run)
      ensures run == old(run) + [step] && model == Apply(old(model), step)
    {
      run := ExecSnoc(Init(), run, step);
      model := Apply(model, step);
    }

    /** The thread starts on a stopped state; the constructor then stores `running`. */
    constructor ()
      ensures Valid()
      ensures run == [FinishConstruction] && model == Apply(Init(), FinishConstruction)
      ensures state == Running && runnables == [] && !exited
    {
      state, runnables, tickets, exited := Stopped, [], 0, false;
      model, run := Init(), [];
      new;
      state := Running;
      Take(FinishConstruction);
    }

    predicate ShouldQueueExit()
      reads this
      ensures Valid() ==> ShouldQueueExit() == TaskQueueModel.ShouldQueueExit(model)
    {
      match state
      case Stopping => |runnables| == 0
      case Canceling => true
      case _ => false
    }

    predicate IsStopPending()
      reads this
      ensures Valid() ==> IsStopPending() == TaskQueueModel.IsStopPending(model)
    {
      match state
      case Stopping => true
      case Canceling => true
      case _ => false
    }

    /** One `post` by a thread, or by the task the worker is running. */
    method Post(ghost thread: Thread, body: T) returns (future: Result<nat, PostError>)
      requires Valid() && CanCall(model, thread)
      modifies this
      ensures Valid() && run == old(run) + PostCall(old(model), thread, body)
      ensures future == if old(IsStopPending()) then Err(PostWhileStopping) else Ok(old(tickets))
      ensures model.accepted == old(model).accepted + (if future.Ok? then [Task(future.value, body)] else [])
      ensures runnables == old(runnables) + (if future.Ok? then [Task(future.value, body)] else [])
      ensures CanCall(model, thread)
      // What a caller that knows the model needs, without unfolding the run.
      ensures var posted := PostLocked(old(model), thread, body);
        model == if thread in posted.calls then NotifyBy(posted, thread) else posted
    {
      Take(Step.Post(thread, body));
      if IsStopPending() {
        return Err(PostWhileStopping);
      }
      var task := Task(tickets, body);
      future := Ok(tickets);
      tickets := tickets + 1;
      var wasEmpty := |runnables| == 0;
      runnables := runnables + [task];
      if wasEmpty {
        Take(Notify(thread));
      }
    }

    method Stop(ghost thread: Thread, action: PendingTaskAction)
      requires Valid() && CanCall(model, thread)
      modifies this
      ensures Valid() && run == old(run) + [Step.Stop(thread, action, Return), Notify(thread)]
      ensures state == if action == Cancel then Canceling else Stopping
      ensures runnables == old(runnables) && model.accepted == old(model).accepted
      ensures model.worker != Asleep && model.calls == old(model).calls
    {
      Take(Step.Stop(thread, action, Return));
      match action {
        case Cancel => state := Canceling;
        case _ => state := Stopping;
      }
      Take(Notify(thread));
    }

    // ---- the worker ----

    /** The steps taken since `start` are all the worker's own. */
    ghost predicate OnlyWorkerSince(start: seq<Step<T>>)
      reads this
    {
      start <= run && forall i :: |start| <= i < |run| ==> IsWorkerStep(run[i])
    }

    /** What the other threads and the running task do between two steps of the
        worker: any posts, stops, notifications and joins, or nothing if the
        worker is `alone`. A caller knows only the contract, so what it proves
        holds for all of them; this body is the case in which nothing happens. */
    method OthersAct(ghost alone: bool)
      requires Valid()
      modifies this
      ensures Valid() && old(run) <= run && OnlyOthers(run[|old(run)|..])
      ensures alone ==> run == old(run)
    {
    }

    /** The same, for a worker that is not waiting. */
    method OthersActBeside(ghost alone: bool)
      requires Valid() && model.worker !in {Asleep, Exited}
      modifies this
      ensures Valid() && old(run) <= run && (alone ==> run == old(run) && model == old(model))
      ensures model.worker == old(model).worker && model.batch == old(model).batch
      ensures model.current == old(model).current && model.executed == old(model).executed
      ensures old(IsStopPending()) ==>
                IsStopPending() && runnables == old(runnables) && model.accepted == old(model).accepted
    {
      OthersAct(alone);
      ReachablePhases(old(run));
      RunSplits(Init(), old(run), run);
      OthersKeep(old(model), run[|old(run)|..]);
    }

    /** The running task is done with its calls and returns or throws. */
    ghost method TaskEnds()
      requires Valid() && model.current.Some?
      modifies this`model, this`run
      ensures Valid() && old(run) <= run
      ensures Worker !in model.calls
      ensures Worker !in old(model).calls ==> |run| == |old(run)| + 1 && run[|old(run)|].FinishTask?
      ensures model == old(model).(current := None, executed := old(model).executed + [old(model).current.value],
                                   calls := model.calls, settled := model.settled)
      ensures Worker !in old(model).calls ==> model.calls == old(model).calls
    {
      ReachablePhases(run);
      if Worker in model.calls {
        Take(Notify(Worker));
      }
      var outcome :| outcome in {Returned, Threw};
      Take(FinishTask(outcome));
    }

    /** One task of the inner loop, without the mutex. */
    method RunTask(taskToRun: Task<T>, ghost start: seq<Step<T>>, ghost alone: bool)
      requires Valid() && model.worker == InBatch && model.current.None?
      requires model.batch != [] && model.batch[0] == taskToRun
      requires alone ==> OnlyWorkerSince(start)
      modifies this
      ensures Valid() && old(run) <= run && (alone ==> OnlyWorkerSince(start))
      ensures model.worker == InBatch && model.batch == old(model).batch[1..] && model.current.None?
      ensures model.executed == old(model).executed + [taskToRun]
      ensures old(IsStopPending()) ==>
                IsStopPending() && runnables == old(runnables) && model.accepted == old(model).accepted
      ensures alone ==>
                model == old(model).(batch := model.batch, executed := model.executed, settled := model.settled)
    {
      OthersActBeside(alone);
      assert Worker !in model.calls by {
        ReachablePhases(run);
      }
      Take(StartTask);
      OthersActBeside(alone);
      TaskEnds();
    }

    /** The inner loop: run the stolen tasks, first to last. */
    method RunTasks(stolen: seq<Task<T>>, ghost start: seq<Step<T>>, ghost alone: bool)
      requires Valid() && model.worker == InBatch && model.batch == stolen && model.current.None?
      requires alone ==> OnlyWorkerSince(start)
      modifies this
      ensures Valid() && old(run) <= run && (alone ==> OnlyWorkerSince(start))
      ensures model.worker == InBatch && model.batch == [] && model.current.None?
      ensures model.executed == old(model).executed + stolen
      ensures old(IsStopPending()) ==>
                IsStopPending() && runnables == old(runnables) && model.accepted == old(model).accepted
      ensures alone ==>
                model == old(model).(batch := [], executed := old(model).executed + stolen, settled := model.settled)
    {
      var tasks := stolen;
      while |tasks| > 0
        invariant Valid() && old(run) <= run && (alone ==> OnlyWorkerSince(start))
        invariant model.worker == InBatch && model.batch == tasks && model.current.None?
        invariant model.executed + tasks == old(model).executed + stolen
        invariant old(IsStopPending()) ==>
                    IsStopPending() && runnables == old(runnables) && model.accepted == old(model).accepted
        invariant alone ==>
                    model == old(model).(batch := tasks, executed := model.executed, settled := model.settled)
      {
        ghost var ran := model.executed;
        var taskToRun := tasks[0];
        tasks := tasks[1..];
        RunTask(taskToRun, start, alone);
        assert ran + [taskToRun] + tasks == old(model).executed + stolen;
      }
    }

    /** The critical section of a round: the worker blocks in the wait or exits,
        or takes the whole queue. */
    method Steal() returns (tasks: Option<seq<Task<T>>>)
      requires Valid() && model.worker == AtGate && model.current.None?
      modifies this
      ensures Valid() && run == old(run) + [Check] && state == old(state)
      ensures tasks == if old(runnables) != [] && state != Canceling then Some(old(runnables)) else None
      ensures runnables == if tasks.Some? then [] else old(runnables)
      ensures model == old(model).(worker := model.worker, batch := model.batch, runnables := runnables)
      ensures model.worker == if tasks.Some? then Stole else if IsStopPending() then Exited else Asleep
      ensures tasks.Some? ==> model.batch == tasks.value
    {
      Take(Check);
      // The wait blocks here when its predicate is false.
      if |runnables| == 0 && !ShouldQueueExit() {
        return None;
      }
      if ShouldQueueExit() {
        exited := true;
        return None;
      }
      assert |runnables| > 0;
      tasks := Some(runnables);
      runnables := [];
    }

    /** The rest of a round that stole something: notify, run, and come back. */
    method RunStolen(stolen: seq<Task<T>>, ghost start: seq<Step<T>>, ghost alone: bool)
      requires Valid() && model.worker == Stole && model.batch == stolen && model.current.None?
      requires alone ==> OnlyWorkerSince(start)
      modifies this
      ensures Valid() && old(run) <= run && (alone ==> OnlyWorkerSince(start))
      ensures model.worker == AtGate && model.batch == []
      ensures model.executed == old(model).executed + stolen
      ensures old(IsStopPending()) ==>
                IsStopPending() && runnables == old(runnables) && model.accepted == old(model).accepted
      ensures alone ==> model == old(model).(worker := AtGate, batch := [], executed := old(model).executed + stolen,
                                             settled := model.settled)
    {
      OthersActBeside(alone);
      Take(NotifyStolen);
      RunTasks(stolen, start, alone);
      OthersActBeside(alone);
      Take(LoopBack);
    }

    /** One round of the worker's loop: it goes to sleep, exits, or empties the
        queue and runs what it took, whatever the others do meanwhile. */
    method Round(ghost start: seq<Step<T>>, ghost alone: bool) returns (again: bool)
      requires Valid() && model.worker == AtGate && (alone ==> OnlyWorkerSince(start))
      modifies this
      ensures Valid() && old(run) <= run && (alone ==> OnlyWorkerSince(start))
      ensures again == (old(runnables) != [] && old(state) != Canceling)
      ensures model.worker == if again then AtGate else if IsStopPending() then Exited else Asleep
      ensures model.executed == old(model).executed + (if again then old(runnables) else [])
      ensures !again ==> runnables == old(runnables) && state == old(state) && model.accepted == old(model).accepted
      ensures old(IsStopPending()) && again ==>
                IsStopPending() && runnables == [] && model.accepted == old(model).accepted
      ensures alone ==>
                runnables == (if again then [] else old(runnables))
                && model == old(model).(worker := model.worker, runnables := runnables, batch := model.batch,
                                        executed := model.executed, settled := model.settled)
    {
      assert model.current.None? by {
        ReachablePhases(run);
      }
      var tasks := Steal();
      if tasks.None? {
        return false;
      }
      RunStolen(tasks.value, start, alone);
      return true;
    }

    /** The worker's loop. Left alone it runs until it would block or until it
        exits, and executes the queued tasks in order unless the queue is
        canceled. Once a stop is issued it exits whatever the others do. */
    method ProcessQueue(ghost alone: bool)
      requires Valid() && model.worker == AtGate && (alone || IsStopPending())
      modifies this
      ensures Valid() && old(run) <= run && (alone ==> OnlyWorkerSince(old(run)))
      ensures model.worker == if IsStopPending() then Exited else Asleep
      ensures old(IsStopPending()) ==> IsStopPending() && model.accepted == old(model).accepted
      ensures state != Canceling ==> runnables == []
      ensures model.executed + runnables == old(model).executed + old(runnables)
      ensures alone ==>
                && runnables == (if state == Canceling then old(runnables) else [])
                && model == old(model).(worker := model.worker, runnables := runnables, batch := model.batch,
                                        executed := model.executed, settled := model.settled)
    {
      var again := true;
      while again
        invariant Valid() && old(run) <= run && (alone ==> OnlyWorkerSince(old(run)))
        invariant model.worker == if again then AtGate else if IsStopPending() then Exited else Asleep
        invariant alone || IsStopPending()
        invariant old(IsStopPending()) ==> IsStopPending() && model.accepted == old(model).accepted
        invariant model.executed + runnables == old(model).executed + old(runnables)
        invariant !again && state != Canceling ==> runnables == []
        invariant alone ==>
                    && (state == Canceling ==> runnables == old(runnables))
                    && model == old(model).(worker := model.worker, runnables := runnables, batch := model.batch,
                                            executed := model.executed, settled := model.settled)
        decreases again, |runnables|
      {
        OthersActBeside(alone);
        ghost var executed, queued := model.executed, runnables;
        again := Round(old(run), alone);
        assert model.executed + runnables == executed + queued;
      }
    }

    // ---- waiting for the worker ----

    /** What all threads do while a thread stays at one place of its call; if it
        is there to `join`, until the worker has exited. As above, a caller knows
        only the contract; in this body the worker just runs to its exit. */
    method Meanwhile(ghost thread: Thread, join: bool)
      requires Valid() && thread in model.calls
      requires join ==> IsStopPending() && model.calls[thread] == Joining(false)
      modifies this
      ensures Valid() && old(run) <= run
      ensures thread in model.calls && model.calls[thread] == old(model).calls[thread]
      ensures old(IsStopPending()) ==> IsStopPending()
      ensures join ==> exited
    {
      if join && !exited {
        ReachableInv(run);
        ghost var steps := RunToExit(model);
        StillJoining(model, thread, steps);
        StopClosesTheQueue(model, steps);
        ExecConcat(Init(), run, steps);
        run, model := run + steps, Exec(model, steps);
        exited := true;
        if state == Stopping {
          runnables := [];
        }
      }
    }

    /** `stop()` then join, whatever the worker and the other threads do: on
        return the worker is gone, and if it was not before and nobody canceled
        meanwhile, every accepted task has been executed, even those a previous
        `stop(cancel)` was to drop. */
    method StopAndWaitForTaskCompletion(ghost thread: Thread)
      requires Valid() && CanCall(model, thread) && thread.Client?
      modifies this
      ensures Valid() && old(run) <= run
      ensures exited && IsStopPending() && thread !in model.calls
      ensures model.accepted == old(model).accepted
      ensures !old(exited) && NeverCancels(run[|old(run)|..]) ==>
                state == Stopping && runnables == [] && model.executed == model.accepted
      ensures old(exited) ==> model.executed == old(model).executed && runnables == old(runnables)
    {
      Take(Step.Stop(thread, Run, Join));
      state := Stopping;
      Meanwhile(thread, false);
      Take(Notify(thread));
      Meanwhile(thread, true);
      assert !model.destroyed by {
        ReachablePhases(run);
      }
      Take(JoinReturn(thread));
      StopThenExitRun(old(run), thread, run);
    }
  }
}
