/** What every action of a session keeps. */
module SessionInvariants {
  import opened Prelude
  import opened NearObjects
  import opened TaskQueueModel
  import opened TaskQueueInvariants
  import opened TaskQueueStop
  import opened SessionModel

  /** The destructor's progress matches the gates. */
  ghost predicate GatesInPhase(s: Session) {
    && (s.membersGate.Changed? ==> s.membersGate.event.MembershipChanged?)
    && (s.rangingGate.Changed? ==> IsRanging(s.rangingGate.event))
    && (!s.phase.Live? ==> s.membersGate == Free)
    && (s.phase.EndStopRanging? ==> s.rangingGate == Free)
    && (s.phase.EndAnnounce? ==> !s.ranging && (s.rangingGate == Free || Holds(s.rangingGate, s.phase.destroyer)))
    && (s.phase.DestroyMembers? ==> !s.ranging && s.rangingGate == Free)
  }

  /** Only the destruction of the members stops the queue; it starts after the
      last event, and the queue is the first member to go. */
  ghost predicate QueueInPhase(s: Session) {
    && (IsStopPending(s.queue) || s.destroyedMembers > 0 ==> s.phase.DestroyMembers?)
    && (s.destroyedMembers > 0 ==> s.queue.destroyed)
    && (s.phase.DestroyMembers? ==> Posted(s) != [] && Posted(s)[|Posted(s)| - 1] == SessionEnded)
  }

  ghost predicate Progress(s: Session) {
    GatesInPhase(s) && QueueInPhase(s)
  }

  /** The membership is what the posted events replay to, and one event more
      while a thread holds the gate between its change and its post. */
  ghost predicate MembershipReplays(s: Session) {
    if s.membersGate.Changed? then
      s.members == ReplayEvent(Replay(s.initial, Posted(s)), s.membersGate.event)
    else s.members == Replay(s.initial, Posted(s))
  }

  function FullRangingLog(s: Session): seq<Event> {
    RangingLog(Posted(s)) + (if s.rangingGate.Changed? then [s.rangingGate.event] else [])
  }

  ghost predicate RangingAlternates(s: Session) {
    && Alternates(FullRangingLog(s))
    && (s.ranging <==> |FullRangingLog(s)| % 2 == 1)
    && (!s.supportsRanging ==> FullRangingLog(s) == [])
  }

  /** The tasks the queue's worker has started. */
  function StartedTasks(q: Queue<Event>): seq<Task<Event>> {
    q.executed + (if q.current.Some? then [q.current.value] else [])
  }

  /** The events whose callback has started. */
  function Started(s: Session): seq<Event> {
    Bodies(StartedTasks(s.queue))
  }

  ghost predicate DeliversPrefix(s: Session) {
    && s.delivered <= Started(s)
    && (s.callbacksAlive ==> s.delivered == Started(s))
  }

  ghost predicate Good(s: Session) {
    Progress(s) && MembershipReplays(s) && RangingAlternates(s) && DeliversPrefix(s)
  }

  /** The events an action posts. */
  function Posts(s: Session, a: Action): seq<Event>
    requires Allowed(s, a)
  {
    match a
    case Announce(t) =>
      [if Holds(s.membersGate, t) && s.membersGate.Changed? then s.membersGate.event else s.rangingGate.event]
    case PostUngated(_, event) => [event]
    case DestructorAnnounce => [SessionEnded]
    case _ => []
  }

  /** A queue step moves the queue and may deliver an event, no more. */
  lemma {:induction false} QueueStepFrame(s: Session, step: Step<Event>)
    requires Allowed(s, QueueStep(step))
    ensures var e := Do(s, QueueStep(step));
      && e == s.(queue := Apply(s.queue, step), delivered := e.delivered)
      && e.queue.accepted == s.queue.accepted && (s.queue.destroyed ==> e.queue.destroyed)
      && (IsStopPending(e.queue) ==> IsStopPending(s.queue) || s.phase.DestroyMembers?)
  {
  }

  /** Any other action that posts nothing leaves the queue as it is. */
  lemma {:induction false} QuietActionFrame(s: Session, a: Action)
    requires Allowed(s, a) && Posts(s, a) == [] && !a.QueueStep?
    ensures Do(s, a).queue == s.queue
  {
  }

  /** The session is open, and its queue with it, whenever something is posted. */
  lemma {:induction false} PostsWhileOpen(s: Session, a: Action)
    requires Progress(s) && Allowed(s, a) && Posts(s, a) != []
    ensures !IsStopPending(s.queue) && !s.phase.DestroyMembers? && s.destroyedMembers == 0
  {
  }

  function Poster(s: Session, a: Action): Thread
    requires Allowed(s, a) && Posts(s, a) != []
  {
    if a.DestructorAnnounce? then s.phase.destroyer else a.thread
  }

  lemma {:induction false} PostingFrame(s: Session, a: Action)
    requires Allowed(s, a) && Posts(s, a) != []
    ensures |Posts(s, a)| == 1 && CanCall(s.queue, Poster(s, a))
    ensures Do(s, a).queue == PostLocked(s.queue, Poster(s, a), Posts(s, a)[0])
    ensures Do(s, a).destroyedMembers == s.destroyedMembers && Do(s, a).members == s.members
    ensures Do(s, a).initial == s.initial && Do(s, a).ranging == s.ranging
  {
  }

  lemma BodiesOne(tasks: seq<Task<Event>>, task: Task<Event>)
    ensures Bodies(tasks + [task]) == Bodies(tasks) + [task.body]
  {
  }

  /** No post of the session is ever refused: the queue is stopped only when the
      members are destroyed. */
  lemma {:induction false} PostsAreAccepted(s: Session, a: Action)
    requires Progress(s) && Allowed(s, a)
    ensures Posted(Do(s, a)) == Posted(s) + Posts(s, a)
  {
    if Posts(s, a) != [] {
      PostsWhileOpen(s, a);
      PostingFrame(s, a);
      BodiesOne(s.queue.accepted, Task(|s.queue.accepted|, Posts(s, a)[0]));
    } else {
      assert Posted(Do(s, a)) == Posted(s) by {
        if a.QueueStep? {
          QueueStepFrame(s, a.step);
        } else {
          QuietActionFrame(s, a);
        }
      }
      assert Posted(s) + [] == Posted(s);
    }
  }

  lemma {:induction false} ActionKeepsGates(s: Session, a: Action)
    requires GatesInPhase(s) && Allowed(s, a)
    ensures GatesInPhase(Do(s, a))
  {
    if a.QueueStep? {
      assert Do(s, a).phase == s.phase && Do(s, a).membersGate == s.membersGate;
      assert Do(s, a).ranging == s.ranging && Do(s, a).rangingGate == s.rangingGate;
    }
  }

  lemma {:induction false} PhaseAfter(s: Session, a: Action)
    requires Allowed(s, a)
    ensures s.phase.DestroyMembers? ==> Do(s, a).phase.DestroyMembers?
    ensures Do(s, a).phase.DestroyMembers? ==> s.phase.DestroyMembers? || a.DestructorAnnounce?
    ensures Do(s, a).destroyedMembers == s.destroyedMembers + (if a.DestroyMember? then 1 else 0)
    ensures a.DestroyMember? ==> s.phase.DestroyMembers? && (s.destroyedMembers == 0 ==> s.queue.destroyed)
  {
    if a.QueueStep? {
      QueueStepFrame(s, a.step);
    }
  }

  lemma {:induction false} QueueAfter(s: Session, a: Action)
    requires Progress(s) && Allowed(s, a)
    ensures IsStopPending(Do(s, a).queue) ==> IsStopPending(s.queue) || s.phase.DestroyMembers?
    ensures s.queue.destroyed ==> Do(s, a).queue.destroyed
  {
    if a.QueueStep? {
      QueueStepFrame(s, a.step);
    } else if Posts(s, a) != [] {
      PostingFrame(s, a);
    } else {
      QuietActionFrame(s, a);
    }
  }

  lemma {:induction false} ActionKeepsQueuePhase(s: Session, a: Action)
    requires Progress(s) && Allowed(s, a)
    ensures QueueInPhase(Do(s, a))
  {
    PhaseAfter(s, a);
    QueueAfter(s, a);
    PostsAreAccepted(s, a);
    if Posts(s, a) != [] {
      PostsWhileOpen(s, a);
      assert a.DestructorAnnounce? ==> Posts(s, a) == [SessionEnded];
    }
  }

  lemma {:induction false} ActionKeepsProgress(s: Session, a: Action)
    requires Progress(s) && Allowed(s, a)
    ensures Progress(Do(s, a))
  {
    ActionKeepsGates(s, a);
    ActionKeepsQueuePhase(s, a);
  }

  lemma ReplayOne(initial: seq<NearObject>, events: seq<Event>, event: Event)
    ensures Replay(initial, events + [event]) == ReplayEvent(Replay(initial, events), event)
  {
    assert (events + [event])[..|events|] == events;
  }

  /** A change made under the membership gate is what its event replays to. */
  lemma ChangeIsItsEvent(members: seq<NearObject>, objects: seq<NearObject>)
    ensures ReplayEvent(members, MembershipChanged(Pruned(members, objects), [])) == WithAdded(members, objects)
    ensures ReplayEvent(members, MembershipChanged([], RemovedFrom(members, objects))) == Without(members, objects)
  {
    WithoutNone(WithAdded(members, objects), []);
    assert members + [] == members;
    RemovedStandsForList(members, objects);
  }

  lemma {:induction false} EditReplays(s: Session, a: Action)
    requires MembershipReplays(s) && Allowed(s, a) && (a.Add? || a.Remove?)
    ensures MembershipReplays(Do(s, a))
  {
    match a
    case Add(_, batch) => ChangeIsItsEvent(s.members, batch);
    case Remove(_, list) => ChangeIsItsEvent(s.members, list);
  }

  /** Either the posted event is the one the gate's change owes, or no
      membership event is posted. */
  lemma {:induction false} PostingAndTheGate(s: Session, a: Action)
    requires GatesInPhase(s) && Allowed(s, a) && Posts(s, a) != []
    ensures var e, event := Do(s, a), Posts(s, a)[0];
      || (s.membersGate.Changed? && event == s.membersGate.event && !e.membersGate.Changed?)
      || (e.membersGate == s.membersGate && !event.MembershipChanged?)
  {
  }

  lemma {:induction false} PostReplays(s: Session, a: Action)
    requires Progress(s) && MembershipReplays(s) && Allowed(s, a) && Posts(s, a) != []
    ensures MembershipReplays(Do(s, a))
  {
    PostsAreAccepted(s, a);
    PostingFrame(s, a);
    PostingAndTheGate(s, a);
    assert Posts(s, a) == [Posts(s, a)[0]];
    ReplayOne(s.initial, Posted(s), Posts(s, a)[0]);
  }

  lemma {:induction false} OthersKeepMembers(s: Session, a: Action)
    requires Allowed(s, a) && Posts(s, a) == [] && !a.Add? && !a.Remove?
    ensures var e := Do(s, a);
      && e.members == s.members && e.initial == s.initial
      && (e.membersGate == s.membersGate || (!e.membersGate.Changed? && !s.membersGate.Changed?))
  {
    if a.QueueStep? {
      QueueStepFrame(s, a.step);
    }
  }

  lemma {:induction false} ActionKeepsMembership(s: Session, a: Action)
    requires Progress(s) && MembershipReplays(s) && Allowed(s, a)
    ensures MembershipReplays(Do(s, a))
  {
    if a.Add? || a.Remove? {
      EditReplays(s, a);
    } else if Posts(s, a) != [] {
      PostReplays(s, a);
    } else {
      PostsAreAccepted(s, a);
      assert Posted(s) + [] == Posted(s);
      OthersKeepMembers(s, a);
    }
  }

  lemma RangingLogOne(events: seq<Event>, event: Event)
    ensures RangingLog(events + [event]) == RangingLog(events) + (if IsRanging(event) then [event] else [])
  {
    FilterConcat(IsRanging, events, [event]);
  }

  /** The ranging event an action adds to the log, posted or still to post. */
  function Toggles(s: Session, a: Action): seq<Event> {
    match a
    case StartRanging(_) => if !s.ranging && s.supportsRanging then [RangingStarted] else []
    case StopRanging(_) => if s.ranging then [RangingStopped] else []
    case DestructorStopRanging => if s.ranging then [RangingStopped] else []
    case _ => []
  }

  /** Posting moves the event a gate owes from the gate to the log. */
  lemma {:induction false} PostingAndTheRangingGate(s: Session, a: Action)
    requires GatesInPhase(s) && Allowed(s, a) && Posts(s, a) != []
    ensures var e, event := Do(s, a), Posts(s, a)[0];
      || (s.rangingGate.Changed? && event == s.rangingGate.event && !e.rangingGate.Changed? && IsRanging(event))
      || (e.rangingGate == s.rangingGate && !IsRanging(event))
    ensures Toggles(s, a) == []
  {
  }

  lemma {:induction false} TogglesAtTheGate(s: Session, a: Action)
    requires Allowed(s, a) && Posts(s, a) == []
    ensures var e, more := Do(s, a), Toggles(s, a);
      if more == [] then
        e.rangingGate == s.rangingGate || (!e.rangingGate.Changed? && !s.rangingGate.Changed?)
      else
        !s.rangingGate.Changed? && e.rangingGate.Changed? && more == [e.rangingGate.event]
  {
    if a.QueueStep? {
      QueueStepFrame(s, a.step);
    }
  }

  lemma {:induction false} RangingLogGrows(s: Session, a: Action)
    requires Progress(s) && Allowed(s, a)
    ensures FullRangingLog(Do(s, a)) == FullRangingLog(s) + Toggles(s, a)
  {
    PostsAreAccepted(s, a);
    if Posts(s, a) == [] {
      assert Posted(s) + [] == Posted(s);
      TogglesAtTheGate(s, a);
    } else {
      PostingFrame(s, a);
      PostingAndTheRangingGate(s, a);
      assert Posts(s, a) == [Posts(s, a)[0]];
      RangingLogOne(Posted(s), Posts(s, a)[0]);
    }
  }

  lemma {:induction false} TogglesFlip(s: Session, a: Action)
    requires Allowed(s, a)
    ensures Do(s, a).supportsRanging == s.supportsRanging
    ensures if Toggles(s, a) == [] then Do(s, a).ranging == s.ranging
            else Do(s, a).ranging != s.ranging
                 && Toggles(s, a) == [if s.ranging then RangingStopped else RangingStarted]
    ensures Toggles(s, a) != [] ==> s.ranging || s.supportsRanging
  {
    if a.QueueStep? {
      QueueStepFrame(s, a.step);
    }
  }

  lemma AlternatesOne(log: seq<Event>, event: Event)
    requires Alternates(log) && event == if |log| % 2 == 0 then RangingStarted else RangingStopped
    ensures Alternates(log + [event])
  {
  }

  lemma {:induction false} ActionKeepsRanging(s: Session, a: Action)
    requires Progress(s) && RangingAlternates(s) && Allowed(s, a)
    ensures RangingAlternates(Do(s, a))
  {
    var log := FullRangingLog(s);
    assert FullRangingLog(Do(s, a)) == log + Toggles(s, a) by {
      RangingLogGrows(s, a);
    }
    TogglesFlip(s, a);
    if Toggles(s, a) == [] {
      assert log + [] == log;
    } else {
      AlternatesOne(log, if s.ranging then RangingStopped else RangingStarted);
    }
  }

  lemma {:induction false} StartedTasksGrow(q: Queue<Event>, step: Step<Event>)
    requires Enabled(q, step)
    ensures StartedTasks(Apply(q, step)) == StartedTasks(q) + (if step.StartTask? then [q.batch[0]] else [])
  {
    match step
    case StartTask => assert StartedTasks(q) == q.executed;
    case FinishTask(_) => assert q.executed + [q.current.value] + [] == q.executed + [q.current.value];
    case _ => assert Apply(q, step).executed == q.executed && Apply(q, step).current == q.current;
  }

  lemma {:induction false} StartedGrows(s: Session, a: Action)
    requires Allowed(s, a)
    ensures Started(Do(s, a)) ==
            Started(s) + (if a == QueueStep(StartTask) then [s.queue.batch[0].body] else [])
  {
    if a.QueueStep? {
      StartedTasksGrow(s.queue, a.step);
      if a.step.StartTask? {
        BodiesOne(StartedTasks(s.queue), s.queue.batch[0]);
      }
    } else if Posts(s, a) != [] {
      PostingFrame(s, a);
    } else {
      QuietActionFrame(s, a);
    }
  }

  lemma {:induction false} ActionKeepsDelivery(s: Session, a: Action)
    requires DeliversPrefix(s) && Allowed(s, a)
    ensures DeliversPrefix(Do(s, a))
  {
    StartedGrows(s, a);
  }

  lemma {:induction false} ActionKeepsParameters(s: Session, a: Action)
    requires Allowed(s, a)
    ensures Do(s, a).initial == s.initial && Do(s, a).supportsRanging == s.supportsRanging
  {
    if a.QueueStep? {
      QueueStepFrame(s, a.step);
    }
  }

  lemma ActionIsGood(s: Session, a: Action)
    requires Good(s) && Allowed(s, a)
    ensures Good(Do(s, a))
    ensures Do(s, a).initial == s.initial && Do(s, a).supportsRanging == s.supportsRanging
  {
    ActionKeepsProgress(s, a);
    ActionKeepsMembership(s, a);
    ActionKeepsRanging(s, a);
    ActionKeepsDelivery(s, a);
    ActionKeepsParameters(s, a);
  }

  lemma {:induction false} HistoryIsGood(s: Session, actions: seq<Action>)
    requires Good(s) && ValidHistory(s, actions)
    ensures Good(DoAll(s, actions))
    ensures DoAll(s, actions).initial == s.initial && DoAll(s, actions).supportsRanging == s.supportsRanging
    decreases |actions|
  {
    if actions != [] {
      ActionIsGood(s, actions[0]);
      HistoryIsGood(Do(s, actions[0]), actions[1..]);
    }
  }

  lemma BeginIsGood(supportsRanging: bool, initial: seq<NearObject>)
    ensures Good(Begin(supportsRanging, initial))
  {
    var s := Begin(supportsRanging, initial);
    assert Progress(s);
    assert Posted(s) == [] && Started(s) == [];
    assert FullRangingLog(s) == [];
  }

  /** Every state a session can reach, under any scheduling, is good. */
  lemma ReachableIsGood(supportsRanging: bool, initial: seq<NearObject>, actions: seq<Action>)
    requires ValidHistory(Begin(supportsRanging, initial), actions)
    ensures var s := DoAll(Begin(supportsRanging, initial), actions);
      Good(s) && s.initial == initial && s.supportsRanging == supportsRanging
  {
    BeginIsGood(supportsRanging, initial);
    HistoryIsGood(Begin(supportsRanging, initial), actions);
  }

  lemma ReachableProgress(supportsRanging: bool, initial: seq<NearObject>, actions: seq<Action>)
    requires ValidHistory(Begin(supportsRanging, initial), actions)
    ensures Progress(DoAll(Begin(supportsRanging, initial), actions))
  {
    ReachableIsGood(supportsRanging, initial, actions);
  }

  lemma ReachableMembership(supportsRanging: bool, initial: seq<NearObject>, actions: seq<Action>)
    requires ValidHistory(Begin(supportsRanging, initial), actions)
    ensures var s := DoAll(Begin(supportsRanging, initial), actions);
      Progress(s) && MembershipReplays(s) && s.initial == initial
  {
    ReachableIsGood(supportsRanging, initial, actions);
  }

  lemma ReachableRanging(supportsRanging: bool, initial: seq<NearObject>, actions: seq<Action>)
    requires ValidHistory(Begin(supportsRanging, initial), actions)
    ensures var s := DoAll(Begin(supportsRanging, initial), actions);
      RangingAlternates(s) && s.supportsRanging == supportsRanging
  {
    ReachableIsGood(supportsRanging, initial, actions);
  }

  lemma ReachableDelivery(supportsRanging: bool, initial: seq<NearObject>, actions: seq<Action>)
    requires ValidHistory(Begin(supportsRanging, initial), actions)
    ensures DeliversPrefix(DoAll(Begin(supportsRanging, initial), actions))
  {
    ReachableIsGood(supportsRanging, initial, actions);
  }

  // ---- the session's queue is a task queue ----

  /** The queue's steps that an action consists of. */
  function QueueSteps(s: Session, a: Action): seq<Step<Event>>
    requires Allowed(s, a)
  {
    if a.QueueStep? then [a.step]
    else if Posts(s, a) != [] then [Post(Poster(s, a), Posts(s, a)[0])]
    else []
  }

  function QueueRun(s: Session, actions: seq<Action>): seq<Step<Event>>
    requires ValidHistory(s, actions)
    decreases |actions|
  {
    if actions == [] then []
    else QueueSteps(s, actions[0]) + QueueRun(Do(s, actions[0]), actions[1..])
  }

  lemma {:induction false} ActionRunsQueue(s: Session, a: Action)
    requires Allowed(s, a)
    ensures ValidRun(s.queue, QueueSteps(s, a)) && Exec(s.queue, QueueSteps(s, a)) == Do(s, a).queue
    ensures NeverCancels(QueueSteps(s, a))
  {
    if a.QueueStep? {
      QueueStepFrame(s, a.step);
      ExecOne(s.queue, a.step);
    } else if Posts(s, a) != [] {
      PostingFrame(s, a);
      ExecOne(s.queue, Post(Poster(s, a), Posts(s, a)[0]));
    } else {
      QuietActionFrame(s, a);
    }
  }

  /** What happens to the queue in a history of its session is a run of the task
      queue in which nobody cancels, so every theorem about such runs holds of
      it. */
  lemma {:induction false} HistoryRunsQueue(s: Session, actions: seq<Action>)
    requires ValidHistory(s, actions)
    ensures ValidRun(s.queue, QueueRun(s, actions))
    ensures Exec(s.queue, QueueRun(s, actions)) == DoAll(s, actions).queue
    ensures NeverCancels(QueueRun(s, actions))
    decreases |actions|
  {
    if actions != [] {
      var s1 := Do(s, actions[0]);
      ActionRunsQueue(s, actions[0]);
      HistoryRunsQueue(s1, actions[1..]);
      ExecConcat(s.queue, QueueSteps(s, actions[0]), QueueRun(s1, actions[1..]));
    }
  }

  lemma ReachableQueue(supportsRanging: bool, initial: seq<NearObject>, actions: seq<Action>)
    requires ValidHistory(Begin(supportsRanging, initial), actions)
    ensures var q := DoAll(Begin(supportsRanging, initial), actions).queue;
      Inv(q) && q.state != Canceling && NothingLeft(q)
  {
    var begin := Begin(supportsRanging, initial);
    HistoryRunsQueue(begin, actions);
    NeverCanceledRun(Init(), QueueRun(begin, actions));
  }
}
