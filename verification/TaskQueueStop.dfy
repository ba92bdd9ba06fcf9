/** Stopping the task queue: draining, canceling and settling every future. */
module TaskQueueStop {
  import opened TaskQueueModel
  import opened TaskQueueInvariants

  // ---- once a stop is issued, the queue accepts nothing ----

  /** From the moment a stop is issued, no run ever adds an accepted task,
      whoever posts it, and the stop stays issued. */
  lemma {:induction false} StopClosesTheQueue<T>(s: Queue<T>, steps: seq<Step<T>>)
    requires Inv(s) && IsStopPending(s) && ValidRun(s, steps)
    ensures IsStopPending(Exec(s, steps))
    ensures Exec(s, steps).accepted == s.accepted
    decreases |steps|
  {
    if steps != [] {
      StepKeepsInv(s, steps[0]);
      StopClosesTheQueue(Apply(s, steps[0]), steps[1..]);
    }
  }

  // ---- what the two tests of the queue's state mean ----

  /** The state that the last stop of a run stored, `state` if it has none. */
  function LastState<T>(state: State, steps: seq<Step<T>>): State
    decreases |steps|
  {
    if steps == [] then state
    else if steps[0].Stop? then LastState(if steps[0].action == Cancel then Canceling else Stopping, steps[1..])
    else LastState(state, steps[1..])
  }

  predicate WasStopped<T>(steps: seq<Step<T>>) {
    exists i :: 0 <= i < |steps| && steps[i].Stop?
  }

  lemma WasStoppedFirst<T>(steps: seq<Step<T>>)
    requires steps != []
    ensures WasStopped(steps) <==> steps[0].Stop? || WasStopped(steps[1..])
  {
    if WasStopped(steps) && !steps[0].Stop? {
      var i :| 0 <= i < |steps| && steps[i].Stop?;
      assert steps[1..][i - 1].Stop?;
    }
    if WasStopped(steps[1..]) {
      var i :| 0 <= i < |steps| - 1 && steps[1..][i].Stop?;
      assert steps[i + 1].Stop?;
    }
  }

  lemma {:induction false} LastStateIsStored<T>(s: Queue<T>, steps: seq<Step<T>>)
    requires s.constructed && ValidRun(s, steps)
    ensures Exec(s, steps).constructed && Exec(s, steps).state == LastState(s.state, steps)
    ensures IsStopPending(Exec(s, steps)) <==> IsStopPending(s) || WasStopped(steps)
    decreases |steps|
  {
    if steps != [] {
      WasStoppedFirst(steps);
      LastStateIsStored(Apply(s, steps[0]), steps[1..]);
    }
  }

  lemma {:induction false} StateFromTheStart<T>(s: Queue<T>, steps: seq<Step<T>>)
    requires !s.constructed && s.state == Stopped && ValidRun(s, steps)
    requires s.current.None? && s.calls == map[] && s.runnables == [] && s.worker in {AtGate, Asleep}
    ensures var e := Exec(s, steps);
      && e.state == (if e.constructed then LastState(Running, steps) else Stopped)
      && (IsStopPending(e) <==> WasStopped(steps))
    decreases |steps|
  {
    if steps != [] {
      WasStoppedFirst(steps);
      var s1 := Apply(s, steps[0]);
      if steps[0].FinishConstruction? {
        LastStateIsStored(s1, steps[1..]);
      } else {
        assert steps[0].Check? || steps[0].SpuriousWake?;
        assert s1 == s.(worker := s1.worker);
        StateFromTheStart(s1, steps[1..]);
      }
    }
  }

  /** The stop test, over every run: it holds exactly when somebody has called
      `stop`, whatever the mode, and these are the states in which a post is
      refused. */
  lemma StopTestIff<T>(steps: seq<Step<T>>, t: Thread, body: T)
    requires ValidRun(Init(), steps)
    ensures var s := Exec(Init(), steps);
      && (IsStopPending(s) <==> WasStopped(steps))
      && (PostLocked(s, t, body).accepted == s.accepted <==> WasStopped(steps))
  {
    StateFromTheStart(Init(), steps);
    var s := Exec(Init(), steps);
    assert |s.accepted + [Task(|s.accepted|, body)]| == |s.accepted| + 1;
  }

  /** The exit test, over every run: it holds exactly when somebody has stopped
      the queue and the last stop cancels or nothing is queued, and these are
      the states in which the worker's check is its last one. */
  lemma ExitTestIff<T>(steps: seq<Step<T>>)
    requires ValidRun(Init(), steps)
    ensures var s := Exec(Init<T>(), steps);
      && (ShouldQueueExit(s) <==>
            WasStopped(steps) && (LastState(Running, steps) == Canceling || s.runnables == []))
      && (s.worker == AtGate ==> (ShouldQueueExit(s) <==> CheckLocked(s).worker == Exited))
  {
    StateFromTheStart(Init(), steps);
  }

  // ---- futures ----

  /** How often a ticket's future has been settled. */
  function TimesSettled(ticket: nat, log: seq<Settlement>): nat {
    if log == [] then 0
    else (if log[|log| - 1].ticket == ticket then 1 else 0) + TimesSettled(ticket, log[..|log| - 1])
  }

  lemma {:induction false} SettledInOrder(ticket: nat, log: seq<Settlement>)
    requires forall i :: 0 <= i < |log| ==> log[i].ticket == i
    ensures TimesSettled(ticket, log) == if ticket < |log| then 1 else 0
  {
    if log != [] {
      SettledInOrder(ticket, log[..|log| - 1]);
    }
  }

  /** Where an accepted task is, by its ticket. */
  ghost predicate HasRun<T>(s: Queue<T>, ticket: nat) {
    ticket < |s.executed| && ticket < |s.accepted| && s.executed[ticket] == s.accepted[ticket]
  }

  ghost predicate IsPending<T>(s: Queue<T>, ticket: nat) {
    |s.executed| <= ticket < |s.accepted| - |s.abandoned| && s.accepted[ticket] in InHand(s) + s.runnables
  }

  ghost predicate IsAbandoned<T>(s: Queue<T>, ticket: nat) {
    |s.accepted| - |s.abandoned| <= ticket < |s.accepted| && s.accepted[ticket] in s.abandoned
  }

  lemma PlacesPartition<T>(s: Queue<T>, ticket: nat)
    requires FifoOrder(s) && ticket < |s.accepted|
    ensures HasRun(s, ticket) || IsPending(s, ticket) || IsAbandoned(s, ticket)
    ensures !(HasRun(s, ticket) && IsPending(s, ticket))
    ensures !(HasRun(s, ticket) && IsAbandoned(s, ticket))
    ensures !(IsPending(s, ticket) && IsAbandoned(s, ticket))
  {
    var waiting := InHand(s) + s.runnables;
    assert s.accepted == s.executed + waiting + s.abandoned;
    if ticket < |s.executed| {
    } else if ticket < |s.executed| + |waiting| {
      assert s.accepted[ticket] == waiting[ticket - |s.executed|];
    } else {
      assert s.accepted[ticket] == s.abandoned[ticket - |s.executed| - |waiting|];
    }
  }

  /** How the tasks that a run finishes end, one after the other. */
  function Outcomes<T>(steps: seq<Step<T>>): seq<Outcome> {
    if steps == [] then []
    else
      var last := steps[|steps| - 1];
      Outcomes(steps[..|steps| - 1]) + (if last.FinishTask? then [last.outcome] else [])
  }

  /** The futures of the executed tasks have these outcomes, in this order, and
      a future that nobody's task has settled is broken. */
  ghost predicate SettledAs<T>(s: Queue<T>, outcomes: seq<Outcome>) {
    && |outcomes| == |s.executed| <= |s.settled|
    && (forall i :: 0 <= i < |outcomes| ==> s.settled[i].outcome == outcomes[i])
    && (forall i :: |outcomes| <= i < |s.settled| ==> s.settled[i].outcome == Broken)
  }

  lemma FinishSettles<T>(s: Queue<T>, outcome: Outcome, outcomes: seq<Outcome>)
    requires SettledAs(s, outcomes) && |s.settled| == |s.executed| && Enabled(s, FinishTask(outcome))
    ensures SettledAs(Apply(s, FinishTask(outcome)), outcomes + [outcome])
  {
  }

  lemma {:induction false} OthersSettle<T>(s: Queue<T>, step: Step<T>, outcomes: seq<Outcome>)
    requires SettledAs(s, outcomes) && Enabled(s, step) && !step.FinishTask?
    ensures SettledAs(Apply(s, step), outcomes)
  {
    if step.JoinReturn? {
      var broken := BreakAll(s.runnables);
      assert Apply(s, step).settled == s.settled || Apply(s, step).settled == s.settled + broken;
    } else {
      assert Apply(s, step).settled == s.settled && Apply(s, step).executed == s.executed;
    }
  }

  lemma NothingBrokenYet<T>(s: Queue<T>)
    requires FifoOrder(s) && Tickets(s) && Phases(s) && s.current.Some?
    ensures |s.settled| == |s.executed|
  {
    assert s.abandoned == [];
  }

  /** Over every run, the future of the i-th finished task is settled with what
      that task did: it returned, or it threw. */
  lemma {:induction false} FuturesTellTheOutcome<T>(steps: seq<Step<T>>)
    requires ValidRun(Init<T>(), steps)
    ensures SettledAs(Exec(Init<T>(), steps), Outcomes(steps))
    decreases |steps|
  {
    if steps != [] {
      var n := |steps| - 1;
      RunSplits(Init(), steps[..n], steps);
      var front := Exec(Init<T>(), steps[..n]);
      assert steps[n..] == [steps[n]];
      ExecOne(front, steps[n]);
      FuturesTellTheOutcome(steps[..n]);
      ReachableInv(steps[..n]);
      if steps[n].FinishTask? {
        NothingBrokenYet(front);
        FinishSettles(front, steps[n].outcome, Outcomes(steps[..n]));
      } else {
        OthersSettle(front, steps[n], Outcomes(steps[..n]));
        assert Outcomes(steps) == Outcomes(steps[..n]) + [] == Outcomes(steps[..n]);
      }
    }
  }

  /** Over every run, an accepted task has run, is pending, or was abandoned,
      and only one of these; its future is settled once in the first and last
      case (with what the task did, or broken) and not at all while it is
      pending; and after the destructor nothing is pending. */
  lemma SettledExactlyOnce<T>(steps: seq<Step<T>>, ticket: nat)
    requires ValidRun(Init(), steps)
    requires ticket < |Exec(Init<T>(), steps).accepted|
    ensures var s := Exec(Init<T>(), steps); var times := TimesSettled(ticket, s.settled);
      if HasRun(s, ticket) then
        !IsPending(s, ticket) && !IsAbandoned(s, ticket)
        && times == 1 && ticket < |s.settled| && s.settled[ticket].outcome != Broken
        && ticket < |Outcomes(steps)| && s.settled[ticket].outcome == Outcomes(steps)[ticket]
      else if IsPending(s, ticket) then
        !IsAbandoned(s, ticket) && !s.destroyed && times == 0
      else
        IsAbandoned(s, ticket) && s.destroyed
        && times == 1 && ticket < |s.settled| && s.settled[ticket].outcome == Broken
  {
    ReachableInv(steps);
    var s := Exec(Init<T>(), steps);
    PlacesPartition(s, ticket);
    SettledInOrder(ticket, s.settled);
    FuturesTellTheOutcome(steps);
    assert |s.accepted| == |s.executed| + |InHand(s)| + |s.runnables| + |s.abandoned|;
  }

  // ---- draining ----

  /** The worker's own steps; the rest are calls, made by clients or by the
      task that is running, and notifications. */
  predicate IsWorkerStep<T>(step: Step<T>) {
    step.Check? || step.NotifyStolen? || step.StartTask? || step.FinishTask? || step.LoopBack?
  }

  predicate NeverCancels<T>(steps: seq<Step<T>>) {
    forall i :: 0 <= i < |steps| ==> !(steps[i].Stop? && steps[i].action == Cancel)
  }

  lemma NeverCancelsRest<T>(steps: seq<Step<T>>)
    requires steps != [] && NeverCancels(steps)
    ensures NeverCancels(steps[1..])
  {
    forall i | 0 <= i < |steps| - 1
      ensures steps[1..][i] == steps[i + 1]
    {
    }
  }

  function WorkerSteps<T>(steps: seq<Step<T>>): nat
    decreases |steps|
  {
    if steps == [] then 0
    else (if IsWorkerStep(steps[0]) then 1 else 0) + WorkerSteps(steps[1..])
  }

  /** A bound on the worker steps left once the queue is stopping. */
  function Remaining<T>(s: Queue<T>): nat {
    2 * |s.runnables| + 2 * |s.batch| + (if s.current.Some? then 1 else 0)
    + (if s.runnables != [] then 3 else 0)
    + match s.worker
      case Exited => 0
      case AtGate => 1
      case Asleep => 1
      case InBatch => 2
      case Stole => 3
  }

  lemma {:induction false} StoppingStep<T>(s: Queue<T>, step: Step<T>)
    requires Phases(s) && s.state == Stopping && Enabled(s, step)
    requires !(step.Stop? && step.action == Cancel)
    ensures Apply(s, step).state == Stopping
    ensures Remaining(Apply(s, step)) + (if IsWorkerStep(step) then 1 else 0) <= Remaining(s)
  {
  }

  /** Once stopping and never canceled, whatever callers and tasks attempt, the
      worker takes at most `Remaining` more steps. */
  lemma {:induction false} DrainIsBounded<T>(s: Queue<T>, steps: seq<Step<T>>)
    requires Inv(s) && s.state == Stopping && ValidRun(s, steps) && NeverCancels(steps)
    ensures Exec(s, steps).state == Stopping
    ensures WorkerSteps(steps) + Remaining(Exec(s, steps)) <= Remaining(s)
    decreases |steps|
  {
    if steps != [] {
      assert !(steps[0].Stop? && steps[0].action == Cancel);
      NeverCancelsRest(steps);
      StoppingStep(s, steps[0]);
      StepKeepsInv(s, steps[0]);
      DrainIsBounded(Apply(s, steps[0]), steps[1..]);
    }
  }

  /** The worker is never stuck: unless it is gone, or asleep with nothing to
      do, it can take a step of its own after at most one notification that is
      already owed. */
  lemma WorkerCanStep<T>(s: Queue<T>) returns (owed: seq<Step<T>>, step: Step<T>)
    requires Inv(s) && s.worker != Exited && (s.worker == Asleep ==> WaitPredicate(s))
    ensures |owed| <= 1 && (owed != [] ==> owed[0].Notify?)
    ensures ValidRun(s, owed) && IsWorkerStep(step) && Enabled(Exec(s, owed), step)
    ensures step.Check? ==> s.worker in {AtGate, Asleep}
  {
    owed := [];
    if s.current.Some? {
      step := FinishTask(Returned);
      if Worker in s.calls {
        owed := [Notify(Worker)];
        assert owed[1..] == [];
      }
    } else {
      match s.worker {
        case AtGate => step := Check;
        case Asleep =>
          var t :| Owes(s, t);
          owed, step := [Notify(t)], Check;
          assert owed[1..] == [];
        case Stole => step := NotifyStolen;
        case InBatch => step := if s.batch == [] then LoopBack else StartTask;
      }
    }
  }

  /** A worker that has exited left no task behind. */
  ghost predicate NothingLeft<T>(s: Queue<T>) {
    s.worker == Exited ==> s.runnables == [] && s.abandoned == []
  }

  lemma {:induction false} NeverCanceledStep<T>(s: Queue<T>, step: Step<T>)
    requires Phases(s) && (s.abandoned != [] ==> s.destroyed)
    requires s.state != Canceling && NothingLeft(s) && Enabled(s, step)
    requires !(step.Stop? && step.action == Cancel)
    ensures Apply(s, step).state != Canceling && NothingLeft(Apply(s, step))
  {
  }

  lemma {:induction false} NeverCanceledRun<T>(s: Queue<T>, steps: seq<Step<T>>)
    requires Inv(s) && s.state != Canceling && NothingLeft(s)
    requires ValidRun(s, steps) && NeverCancels(steps)
    ensures var e := Exec(s, steps);
      && Inv(e) && e.state != Canceling && NothingLeft(e)
      && (e.worker == Exited ==> e.executed == e.accepted)
    decreases |steps|
  {
    if steps == [] {
      if s.worker == Exited {
        assert InHand(s) == [];
      }
    } else {
      assert !(steps[0].Stop? && steps[0].action == Cancel);
      NeverCancelsRest(steps);
      StepKeepsInv(s, steps[0]);
      NeverCanceledStep(s, steps[0]);
      NeverCanceledRun(Apply(s, steps[0]), steps[1..]);
    }
  }

  /** In every run in which nobody cancels, a join returns only after every
      accepted task has been executed, in acceptance order and once each, and
      destroying the queue then breaks no future. */
  lemma JoinMeansDrained<T>(steps: seq<Step<T>>, t: Thread)
    requires ValidRun(Init(), steps) && NeverCancels(steps)
    requires Enabled(Exec(Init(), steps), JoinReturn(t))
    ensures var s := Exec(Init<T>(), steps); var s' := Apply(s, JoinReturn(t));
      && s.executed == s.accepted
      && s'.executed == s'.accepted && s'.abandoned == []
      && |s'.settled| == |s'.accepted|
      && (forall i :: 0 <= i < |s'.accepted| ==>
            s'.settled[i].ticket == s'.accepted[i].ticket == i && s'.settled[i].outcome != Broken)
      && |Outcomes(steps)| == |s'.accepted|
      && (forall i :: 0 <= i < |s'.accepted| ==> s'.settled[i].outcome == Outcomes(steps)[i])
  {
    NeverCanceledRun(Init(), steps);
    StepKeepsInv(Exec(Init(), steps), JoinReturn(t));
    FuturesTellTheOutcome(steps);
    OthersSettle(Exec(Init(), steps), JoinReturn(t), Outcomes(steps));
  }

  // ---- the worker gets everything done ----

  predicate OnlyWorks<T>(steps: seq<Step<T>>) {
    forall i :: 0 <= i < |steps| ==> IsWorkerStep(steps[i]) || steps[i].Notify?
  }

  /** Nothing is left for the worker to do, for now or for ever. */
  predicate AtRest<T>(s: Queue<T>) {
    s.worker == Exited || (s.worker == Asleep && !WaitPredicate(s))
  }

  lemma {:induction false} WorkingStep<T>(s: Queue<T>, step: Step<T>)
    requires Phases(s) && s.constructed && Enabled(s, step)
    requires IsWorkerStep(step) || step.Notify?
    requires step.Check? ==> WaitPredicate(s)
    ensures var s1 := Apply(s, step);
      && s1.constructed && s1.state == s.state && s1.accepted == s.accepted
      && (step.Notify? || s.state == Canceling ==> s1.runnables == s.runnables)
      && Remaining(s1) + (if step.Notify? then 0 else 1) <= Remaining(s)
  {
  }

  lemma PayingWhatIsOwed<T>(s: Queue<T>, owed: seq<Step<T>>)
    requires Inv(s) && s.constructed
    requires |owed| <= 1 && (owed != [] ==> owed[0].Notify?) && ValidRun(s, owed)
    ensures var s1 := Exec(s, owed);
      && Inv(s1) && s1.constructed && s1.state == s.state && s1.accepted == s.accepted
      && s1.runnables == s.runnables && Remaining(s1) <= Remaining(s)
  {
    if owed != [] {
      assert owed == [owed[0]];
      ExecOne(s, owed[0]);
      WorkingStep(s, owed[0]);
      StepKeepsInv(s, owed[0]);
    }
  }

  lemma TakingAStep<T>(s: Queue<T>, step: Step<T>)
    requires Inv(s) && s.constructed && Enabled(s, step) && IsWorkerStep(step)
    requires step.Check? ==> WaitPredicate(s)
    ensures var e := Apply(s, step);
      && Inv(e) && e.constructed && e.state == s.state && e.accepted == s.accepted
      && (s.state == Canceling ==> e.runnables == s.runnables) && Remaining(e) < Remaining(s)
  {
    StepKeepsInv(s, step);
    WorkingStep(s, step);
  }

  /** One worker step, after the notification it may need. */
  lemma OneWorkerStep<T>(s: Queue<T>) returns (steps: seq<Step<T>>)
    requires Inv(s) && s.constructed && s.worker != Exited
    requires s.worker in {AtGate, Asleep} ==> WaitPredicate(s)
    ensures ValidRun(s, steps) && |steps| <= 2 && OnlyWorks(steps)
    ensures var e := Exec(s, steps);
      && Inv(e) && e.constructed && e.state == s.state && e.accepted == s.accepted
      && (s.state == Canceling ==> e.runnables == s.runnables)
      && Remaining(e) < Remaining(s)
  {
    var owed, step := WorkerCanStep(s);
    var s1 := Exec(s, owed);
    PayingWhatIsOwed(s, owed);
    TakingAStep(s1, step);
    steps := ExecSnoc(s, owed, step);
  }

  /** From any good state the worker can run to its rest without any new call,
      within the bound. */
  lemma {:induction false} RunToRest<T>(s: Queue<T>) returns (steps: seq<Step<T>>)
    requires Inv(s) && s.constructed
    ensures ValidRun(s, steps) && |steps| <= 2 * Remaining(s) && OnlyWorks(steps)
    ensures var e := Exec(s, steps);
      && AtRest(e) && e.state == s.state && e.accepted == s.accepted
      && (s.state == Canceling ==> e.runnables == s.runnables)
    decreases Remaining(s)
  {
    if AtRest(s) {
      steps := [];
    } else if s.worker == AtGate && !WaitPredicate(s) {
      steps := [Check];
      assert steps[1..] == [];
    } else {
      var first := OneWorkerStep(s);
      var rest := RunToRest(Exec(s, first));
      ExecConcat(s, first, rest);
      steps := first + rest;
    }
  }

  lemma RunToExit<T>(s: Queue<T>) returns (steps: seq<Step<T>>)
    requires Inv(s) && IsStopPending(s)
    ensures ValidRun(s, steps) && |steps| <= 2 * Remaining(s) && OnlyWorks(steps)
    ensures var e := Exec(s, steps);
      && e.worker == Exited && e.state == s.state
      && e.runnables == if s.worker == Exited || s.state == Canceling then s.runnables else []
  {
    if s.worker == Exited {
      steps := [];
    } else {
      steps := RunToRest(s);
      if s.state == Stopping {
        NeverCanceledRun(s, steps);
      }
    }
  }

  /** A thread that joins goes on doing so while the worker works. */
  lemma {:induction false} StillJoining<T>(s: Queue<T>, t: Thread, steps: seq<Step<T>>)
    requires t in s.calls && s.calls[t].Joining? && ValidRun(s, steps) && OnlyWorks(steps)
    ensures t in Exec(s, steps).calls && Exec(s, steps).calls[t] == s.calls[t]
    decreases |steps|
  {
    if steps != [] {
      assert IsWorkerStep(steps[0]) || steps[0].Notify?;
      StillJoining(Apply(s, steps[0]), t, steps[1..]);
    }
  }

  lemma RestIsDone<T>(s: Queue<T>)
    requires FifoOrder(s) && Phases(s) && AtRest(s) && NothingLeft(s)
    ensures s.executed == s.accepted
  {
    assert InHand(s) == [] && s.abandoned == [];
  }

  /** From every good state that is not canceled and whose worker lives, running
      or stopping, the worker can catch up without any new call: it executes
      exactly the accepted tasks, and is then asleep, or gone if the queue is
      stopping. */
  lemma WorkerCatchesUp<T>(s: Queue<T>) returns (steps: seq<Step<T>>)
    requires Inv(s) && s.constructed && s.state != Canceling && s.worker != Exited
    ensures ValidRun(s, steps) && |steps| <= 2 * Remaining(s) && OnlyWorks(steps)
    ensures var e := Exec(s, steps);
      && e.executed == e.accepted == s.accepted
      && e.worker == (if s.state == Stopping then Exited else Asleep)
  {
    steps := RunToRest(s);
    NeverCanceledRun(s, steps);
    RestIsDone(Exec(s, steps));
  }

  /** In particular a stopping queue can drain: the worker exits, and has then
      executed exactly the accepted tasks. */
  lemma DrainCompletes<T>(s: Queue<T>) returns (steps: seq<Step<T>>)
    requires Inv(s) && s.state == Stopping && s.worker != Exited
    ensures ValidRun(s, steps) && |steps| <= 2 * Remaining(s) && OnlyWorks(steps)
    ensures Exec(s, steps).worker == Exited
    ensures Exec(s, steps).executed == Exec(s, steps).accepted == s.accepted
  {
    steps := WorkerCatchesUp(s);
  }

  // ---- the running task as a caller ----

  /** A running task may post to its own queue in every good state in which it is
      in no call already; it is refused exactly once a stop is pending, and is
      queued behind everything otherwise. */
  lemma PostFromTask<T>(s: Queue<T>, body: T)
    requires Inv(s) && s.current.Some? && Worker !in s.calls
    ensures Enabled(s, Post(Worker, body))
    ensures var s' := Apply(s, Post(Worker, body)); var task := Task(|s.accepted|, body);
      if IsStopPending(s) then s' == s
      else s'.runnables == s.runnables + [task] && s'.accepted == s.accepted + [task]
  {
    assert |s.accepted| == |s.executed| + |InHand(s)| + |s.runnables| + |s.abandoned| > 0;
  }

  // ---- the wait ----

  /** A worker that is woken without a reason goes back to sleep, and nothing
      else has happened. */
  lemma SpuriousWakeIsHarmless<T>(s: Queue<T>)
    requires s.worker == Asleep && !WaitPredicate(s)
    ensures ValidRun(s, [SpuriousWake, Check]) && Exec(s, [SpuriousWake, Check]) == s
  {
    ExecOne(s, SpuriousWake);
    var steps := ExecSnoc(s, [SpuriousWake], Check);
    assert steps == [SpuriousWake, Check];
  }
}
