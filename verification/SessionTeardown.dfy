/** The destructor of a session can always finish, and what it has delivered then. */
module SessionTeardown {
  import opened NearObjects
  import opened TaskQueueModel
  import opened TaskQueueInvariants
  import opened TaskQueueStop
  import opened SessionModel
  import opened SessionInvariants
  import opened SessionTheorems

  /** The state differs from `s` at most in the queue, and there not in what was
      accepted nor in its state. */
  ghost predicate OnlyQueueMoved(s: Session, e: Session) {
    && e == s.(queue := e.queue)
    && e.queue.accepted == s.queue.accepted && e.queue.state == s.queue.state
    && e.queue.constructed == s.queue.constructed && e.queue.destroyed == s.queue.destroyed
  }

  /** No call is in progress and the session is not being destroyed. */
  predicate IsQuiet(s: Session) {
    && s.phase.Live? && s.membersGate == Free && s.rangingGate == Free
    && s.queue.constructed && !s.queue.destroyed && s.queue.calls == map[]
  }

  /** A thread that posted does the notification it may owe, and is in no call. */
  lemma LeaveCall(s: Session, d: Thread) returns (actions: seq<Action>)
    requires d.Client? && (s.queue.calls == map[] || s.queue.calls == map[d := OwesNotify(Return)])
    ensures ValidHistory(s, actions)
    ensures OnlyQueueMoved(s, DoAll(s, actions)) && DoAll(s, actions).queue.calls == map[]
  {
    actions := [];
    if s.queue.calls != map[] {
      actions := HistorySnoc(s, [], QueueStep(Notify(d)));
      assert DoAll(s, actions).queue.calls == map[];
    }
  }

  /** The destructor stops ranging. */
  lemma EndStopsRanging(s: Session, d: Thread) returns (actions: seq<Action>)
    requires GatesInPhase(s) && IsQuiet(s) && d.Client? && !IsStopPending(s.queue)
    ensures ValidHistory(s, actions)
    ensures var e := DoAll(s, actions);
      && e.phase == EndAnnounce(d) && e.rangingGate == Free && e.membersGate == Free
      && e.queue.calls == map[] && e.queue.constructed && !e.queue.destroyed
      && e.queue.state == s.queue.state && e.destroyedMembers == s.destroyedMembers
      && e.callbacksAlive == s.callbacksAlive
      && Posted(e) == Posted(s) + (if s.ranging then [RangingStopped] else [])
  {
    actions := HistorySnoc(s, [], BeginDestructor(d));
    actions := HistorySnoc(s, actions, DestructorStopRanging);
    if s.ranging {
      actions := HistorySnoc(s, actions, Announce(d));
      var posted := DoAll(s, actions);
      assert posted.queue == PostLocked(s.queue, d, RangingStopped);
      BodiesOne(s.queue.accepted, Task(|s.queue.accepted|, RangingStopped));
      var notified := LeaveCall(posted, d);
      HistoryConcat(s, actions, notified);
      actions := HistorySnoc(s, actions + notified, Unlock(d));
    } else {
      assert Posted(s) + [] == Posted(s);
    }
  }

  /** Then it announces the end, and its members are to be destroyed. */
  lemma EndAnnounces(s: Session, d: Thread) returns (actions: seq<Action>)
    requires s.phase == EndAnnounce(d) && d.Client? && s.rangingGate == Free && s.membersGate == Free
    requires s.queue.calls == map[] && s.queue.constructed && !s.queue.destroyed && !IsStopPending(s.queue)
    ensures ValidHistory(s, actions)
    ensures var e := DoAll(s, actions);
      && e.phase == DestroyMembers(d) && e.rangingGate == Free && e.membersGate == Free
      && e.queue.calls == map[] && e.queue.constructed && !e.queue.destroyed
      && e.destroyedMembers == s.destroyedMembers && e.callbacksAlive == s.callbacksAlive
      && Posted(e) == Posted(s) + [SessionEnded]
  {
    actions := HistorySnoc(s, [], DestructorAnnounce);
    var posted := DoAll(s, actions);
    assert posted.queue == PostLocked(s.queue, d, SessionEnded);
    BodiesOne(s.queue.accepted, Task(|s.queue.accepted|, SessionEnded));
    var notified := LeaveCall(posted, d);
    HistoryConcat(s, actions, notified);
    actions := actions + notified;
  }

  /** The queue is destroyed first: its destructor stops it and joins. */
  lemma StopsTheQueue(s: Session, d: Thread) returns (actions: seq<Action>)
    requires s.phase == DestroyMembers(d) && d.Client? && s.destroyedMembers == 0
    requires s.queue.calls == map[] && s.queue.constructed && !s.queue.destroyed
    ensures ValidHistory(s, actions)
    ensures var e := DoAll(s, actions);
      && e == s.(queue := e.queue) && e.queue.accepted == s.queue.accepted
      && e.queue.state == Stopping && e.queue.calls == map[d := Joining(true)] && !e.queue.destroyed
  {
    actions := HistorySnoc(s, [], QueueStep(Stop(d, Run, Destroy)));
    actions := HistorySnoc(s, actions, QueueStep(Notify(d)));
    assert DoAll(s, actions).queue.calls == map[d := Joining(true)];
  }

  function Lifted(steps: seq<Step<Event>>): (r: seq<Action>)
    ensures |r| == |steps|
  {
    if steps == [] then [] else [QueueStep(steps[0])] + Lifted(steps[1..])
  }

  lemma WorkerStepLifts(s: Session, step: Step<Event>)
    requires s.membersGate == Free && s.rangingGate == Free && Enabled(s.queue, step) && IsWorkerStep(step)
    ensures Allowed(s, QueueStep(step))
    ensures var e := Do(s, QueueStep(step));
      && e == s.(queue := Apply(s.queue, step), delivered := e.delivered)
      && e.queue.calls == s.queue.calls && e.queue.accepted == s.queue.accepted
      && e.queue.destroyed == s.queue.destroyed
  {
  }

  /** The worker's steps are the session's while no callback holds a gate. */
  lemma {:induction false} WorkerRunLifts(s: Session, d: Thread, steps: seq<Step<Event>>)
    requires s.membersGate == Free && s.rangingGate == Free && s.queue.calls == map[d := Joining(true)]
    requires ValidRun(s.queue, steps)
    requires forall i :: 0 <= i < |steps| ==> IsWorkerStep(steps[i]) || steps[i].Notify?
    ensures ValidHistory(s, Lifted(steps))
    ensures var e := DoAll(s, Lifted(steps));
      && e == s.(queue := Exec(s.queue, steps), delivered := e.delivered)
      && e.queue.calls == s.queue.calls && e.queue.accepted == s.queue.accepted
      && e.queue.destroyed == s.queue.destroyed
    decreases |steps|
  {
    if steps != [] {
      // Nobody owes a notification, so the step is the worker's.
      assert IsWorkerStep(steps[0]);
      WorkerStepLifts(s, steps[0]);
      var s1 := Do(s, QueueStep(steps[0]));
      assert Lifted(steps)[0] == QueueStep(steps[0]) && Lifted(steps)[1..] == Lifted(steps[1..]);
      WorkerRunLifts(s1, d, steps[1..]);
    }
  }

  lemma {:induction false} DestroysTheRest(s: Session) returns (actions: seq<Action>)
    requires s.phase.DestroyMembers? && s.queue.destroyed && s.destroyedMembers <= |DECLARED|
    ensures ValidHistory(s, actions)
    ensures DoAll(s, actions) == s.(destroyedMembers := |DECLARED|)
    decreases |DECLARED| - s.destroyedMembers
  {
    if s.destroyedMembers == |DECLARED| {
      actions := [];
    } else {
      var first := HistorySnoc(s, [], DestroyMember);
      var rest := DestroysTheRest(DoAll(s, first));
      HistoryConcat(s, first, rest);
      actions := first + rest;
    }
  }

  /** From a stopped queue that the destructor joins, the worker drains it, the
      join returns and the members go. */
  lemma DrainsAndDestroys(s: Session, d: Thread) returns (actions: seq<Action>)
    requires Inv(s.queue) && s.queue.state == Stopping && s.queue.calls == map[d := Joining(true)]
    requires s.phase == DestroyMembers(d) && s.destroyedMembers == 0
    requires s.membersGate == Free && s.rangingGate == Free && !s.queue.destroyed
    ensures ValidHistory(s, actions)
    ensures var e := DoAll(s, actions);
      && e.destroyedMembers == |DECLARED| && e.queue.accepted == s.queue.accepted
      && e.callbacksAlive == s.callbacksAlive
  {
    var steps := RunToExit(s.queue);
    WorkerRunLifts(s, d, steps);
    var drained := DoAll(s, Lifted(steps));
    actions := HistorySnoc(s, Lifted(steps), QueueStep(JoinReturn(d)));
    var rest := DestroysTheRest(DoAll(s, actions));
    HistoryConcat(s, actions, rest);
    actions := actions + rest;
  }

  /** The destructor's body, and the first half of its queue's destructor. */
  lemma EndsAndStops(s: Session, d: Thread) returns (actions: seq<Action>)
    requires Progress(s) && IsQuiet(s) && d.Client?
    ensures ValidHistory(s, actions)
    ensures var e := DoAll(s, actions);
      && e.phase == DestroyMembers(d) && e.destroyedMembers == 0
      && e.membersGate == Free && e.rangingGate == Free && e.callbacksAlive == s.callbacksAlive
      && e.queue.state == Stopping && e.queue.calls == map[d := Joining(true)] && !e.queue.destroyed
      && Posted(e) == Posted(s) + (if s.ranging then [RangingStopped] else []) + [SessionEnded]
  {
    actions := EndStopsRanging(s, d);
    var more := EndAnnounces(DoAll(s, actions), d);
    HistoryConcat(s, actions, more);
    actions := actions + more;
    more := StopsTheQueue(DoAll(s, actions), d);
    HistoryConcat(s, actions, more);
    actions := actions + more;
  }

  lemma FinishesTeardown(supportsRanging: bool, initial: seq<NearObject>, history: seq<Action>, d: Thread)
    returns (actions: seq<Action>)
    requires ValidHistory(Begin(supportsRanging, initial), history)
    requires var s := DoAll(Begin(supportsRanging, initial), history);
      && s.phase == DestroyMembers(d) && s.destroyedMembers == 0 && s.membersGate == Free && s.rangingGate == Free
      && s.queue.state == Stopping && s.queue.calls == map[d := Joining(true)] && !s.queue.destroyed
    ensures var begin := Begin(supportsRanging, initial);
      && ValidHistory(begin, history + actions)
      && DoAll(begin, history + actions).destroyedMembers == |DECLARED|
      && DoAll(begin, history + actions).queue.accepted == DoAll(begin, history).queue.accepted
      && DoAll(begin, history + actions).callbacksAlive == DoAll(begin, history).callbacksAlive
  {
    ReachableQueue(supportsRanging, initial, history);
    actions := DrainsAndDestroys(DoAll(Begin(supportsRanging, initial), history), d);
    HistoryConcat(Begin(supportsRanging, initial), history, actions);
  }

  /** From every reachable state in which no call is in progress, a client can
      destroy the session to the end. What its destructor posts is the stop of an
      active ranging session and then the session's end, and a client whose
      callbacks object stays alive has then received everything ever posted. */
  lemma TeardownCompletes(supportsRanging: bool, initial: seq<NearObject>, history: seq<Action>, d: Thread)
    returns (actions: seq<Action>)
    requires ValidHistory(Begin(supportsRanging, initial), history)
    requires IsQuiet(DoAll(Begin(supportsRanging, initial), history)) && d.Client?
    ensures ValidHistory(Begin(supportsRanging, initial), history + actions)
    ensures var s := DoAll(Begin(supportsRanging, initial), history);
      var e := DoAll(Begin(supportsRanging, initial), history + actions);
      && e.destroyedMembers == |DECLARED|
      && Posted(e) == Posted(s) + (if s.ranging then [RangingStopped] else []) + [SessionEnded]
      && (s.callbacksAlive ==> e.delivered == Posted(e))
  {
    var begin := Begin(supportsRanging, initial);
    ReachableProgress(supportsRanging, initial, history);
    actions := EndsAndStops(DoAll(begin, history), d);
    HistoryConcat(begin, history, actions);
    var more := FinishesTeardown(supportsRanging, initial, history + actions, d);
    assert history + actions + more == history + (actions + more);
    actions := actions + more;
    TeardownDeliversEverything(supportsRanging, initial, history + actions);
  }
}
