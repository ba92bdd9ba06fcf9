/** What a client of a session can rely on, over every history of it. */
module SessionTheorems {
  import opened Prelude
  import opened NearObjects
  import opened TaskQueueModel
  import opened TaskQueueInvariants
  import opened TaskQueueStop
  import opened SessionModel
  import opened SessionInvariants

  /** Event replay: in every reachable state whose membership gate is free, the
      membership is exactly what the posted events replay to, whatever adds,
      removes and other calls interleaved. */
  lemma PostedEventsReplay(supportsRanging: bool, initial: seq<NearObject>, actions: seq<Action>)
    requires ValidHistory(Begin(supportsRanging, initial), actions)
    ensures var s := DoAll(Begin(supportsRanging, initial), actions);
      !s.membersGate.Changed? ==> s.members == Replay(initial, Posted(s))
  {
    ReachableMembership(supportsRanging, initial, actions);
  }

  lemma StartedIsPrefix(s: Session)
    requires FifoOrder(s.queue)
    ensures Started(s) <= Posted(s)
  {
    assert s.queue.accepted == StartedTasks(s.queue) + (s.queue.batch + s.queue.runnables + s.queue.abandoned);
  }

  lemma {:induction false} HistorySplits(s: Session, actions: seq<Action>, k: nat)
    requires ValidHistory(s, actions) && k <= |actions|
    ensures ValidHistory(s, actions[..k]) && ValidHistory(DoAll(s, actions[..k]), actions[k..])
    ensures DoAll(s, actions) == DoAll(DoAll(s, actions[..k]), actions[k..])
    decreases k
  {
    if k == 0 {
      assert actions[..0] == [] && actions[0..] == actions;
    } else {
      var s1 := Do(s, actions[0]);
      HistorySplits(s1, actions[1..], k - 1);
      assert actions[..k][0] == actions[0] && actions[..k][1..] == actions[1..][..k - 1];
      assert actions[k..] == actions[1..][k - 1..];
    }
  }

  lemma DeliveredInOrder(supportsRanging: bool, initial: seq<NearObject>, actions: seq<Action>)
    requires ValidHistory(Begin(supportsRanging, initial), actions)
    ensures var s := DoAll(Begin(supportsRanging, initial), actions);
      && s.delivered <= Posted(s)
      && (s.callbacksAlive ==> s.delivered == Started(s))
  {
    ReachableDelivery(supportsRanging, initial, actions);
    ReachableQueue(supportsRanging, initial, actions);
    StartedIsPrefix(DoAll(Begin(supportsRanging, initial), actions));
  }

  /** How many actions a history takes before the callbacks object expires. */
  function FirstExpiry(actions: seq<Action>): (k: nat)
    ensures k <= |actions| && (k < |actions| ==> actions[k].ExpireCallbacks?)
    ensures forall i :: 0 <= i < k ==> !actions[i].ExpireCallbacks?
  {
    if actions == [] || actions[0].ExpireCallbacks? then 0 else 1 + FirstExpiry(actions[1..])
  }

  lemma {:induction false} AliveStep(s: Session, a: Action)
    requires Allowed(s, a)
    ensures Do(s, a).callbacksAlive <==> s.callbacksAlive && !a.ExpireCallbacks?
    ensures !s.callbacksAlive || a.ExpireCallbacks? ==> Do(s, a).delivered == s.delivered
  {
    if a.QueueStep? && !a.step.StartTask? {
      QueueStepFrame(s, a.step);
    }
  }

  /** A client whose callbacks object has expired is never called again, from any
      state on. */
  lemma {:induction false} SilentAfterExpiry(s: Session, actions: seq<Action>)
    requires !s.callbacksAlive && ValidHistory(s, actions)
    ensures !DoAll(s, actions).callbacksAlive && DoAll(s, actions).delivered == s.delivered
    decreases |actions|
  {
    if actions != [] {
      AliveStep(s, actions[0]);
      SilentAfterExpiry(Do(s, actions[0]), actions[1..]);
    }
  }

  /** Up to the expiry the callbacks object is alive, and then nothing more is
      delivered. */
  lemma {:induction false} DeliveredAtExpiry(s: Session, actions: seq<Action>)
    requires s.callbacksAlive && ValidHistory(s, actions)
    ensures var k := FirstExpiry(actions);
      && ValidHistory(s, actions[..k]) && DoAll(s, actions[..k]).callbacksAlive
      && DoAll(s, actions).delivered == DoAll(s, actions[..k]).delivered
      && (DoAll(s, actions).callbacksAlive <==> k == |actions|)
    decreases |actions|
  {
    if actions != [] {
      var k, s1 := FirstExpiry(actions), Do(s, actions[0]);
      AliveStep(s, actions[0]);
      if k == 0 {
        SilentAfterExpiry(s1, actions[1..]);
      } else {
        DeliveredAtExpiry(s1, actions[1..]);
        assert actions[..k][0] == actions[0] && actions[..k][1..] == actions[1..][..k - 1];
      }
    }
  }

  /** The callbacks a client receives are, in order, the first events posted: in
      every history exactly those whose task had started when the callbacks
      object expired, or has started by now if it has not. */
  lemma DeliveredIsPrefix(supportsRanging: bool, initial: seq<NearObject>, actions: seq<Action>)
    requires ValidHistory(Begin(supportsRanging, initial), actions)
    ensures var begin := Begin(supportsRanging, initial); var s := DoAll(begin, actions);
      && s.delivered <= Posted(s)
      && (s.callbacksAlive ==> s.delivered == Started(s))
      && (s.callbacksAlive <==> FirstExpiry(actions) == |actions|)
      && ValidHistory(begin, actions[..FirstExpiry(actions)])
      && s.delivered == Started(DoAll(begin, actions[..FirstExpiry(actions)]))
  {
    DeliveredAtExpiry(Begin(supportsRanging, initial), actions);
    DeliveredInOrder(supportsRanging, initial, actions[..FirstExpiry(actions)]);
    DeliveredInOrder(supportsRanging, initial, actions);
  }

  /** A client ends a session whose callbacks object has expired. */
  lemma EndWithoutClient(supportsRanging: bool, initial: seq<NearObject>) returns (actions: seq<Action>)
    ensures ValidHistory(Begin(supportsRanging, initial), actions)
    ensures DoAll(Begin(supportsRanging, initial), actions) ==
            Begin(supportsRanging, initial).(
              callbacksAlive := false,
              queue := PostLocked(Apply(Init(), FinishConstruction), Client(0), SessionEnded))
  {
    var begin := Begin(supportsRanging, initial);
    actions := HistorySnoc(begin, [], QueueStep(FinishConstruction));
    actions := HistorySnoc(begin, actions, ExpireCallbacks);
    actions := HistorySnoc(begin, actions, PostUngated(Client(0), SessionEnded));
  }

  lemma WorkerTakesTheQueue(s: Session) returns (actions: seq<Action>)
    requires s.queue.worker == AtGate && s.queue.state == Running && s.queue.runnables != []
    ensures ValidHistory(s, actions)
    ensures DoAll(s, actions) == s.(queue := s.queue.(worker := InBatch, batch := s.queue.runnables, runnables := []))
  {
    actions := HistorySnoc(s, [], QueueStep(Check));
    actions := HistorySnoc(s, actions, QueueStep(NotifyStolen));
  }

  lemma WorkerStartsTheFirst(s: Session)
    requires s.queue.worker == InBatch && s.queue.batch != [] && s.queue.current == None
    ensures Allowed(s, QueueStep(StartTask))
    ensures var e := Do(s, QueueStep(StartTask));
      && e.queue.current == Some(s.queue.batch[0])
      && e.delivered == s.delivered + (if s.callbacksAlive then [s.queue.batch[0].body] else [])
  {
  }

  /** A history in which the callback's task runs after the expiry: the event is
      started, and the client is not called. */
  lemma ExpiredClientHearsNothing(supportsRanging: bool, initial: seq<NearObject>) returns (actions: seq<Action>)
    ensures ValidHistory(Begin(supportsRanging, initial), actions)
    ensures var s := DoAll(Begin(supportsRanging, initial), actions);
      s.queue.current == Some(Task(0, SessionEnded)) && s.delivered == []
  {
    var begin := Begin(supportsRanging, initial);
    actions := EndWithoutClient(supportsRanging, initial);
    var more := WorkerTakesTheQueue(DoAll(begin, actions));
    HistoryConcat(begin, actions, more);
    WorkerStartsTheFirst(DoAll(begin, actions + more));
    actions := HistorySnoc(begin, actions + more, QueueStep(StartTask));
  }

  /** Ranging events strictly alternate, beginning with a start; whenever the
      ranging gate is free, ranging is active exactly when the last of them is a
      start; and a session that cannot range never posts one. */
  lemma RangingEventsAlternate(supportsRanging: bool, initial: seq<NearObject>, actions: seq<Action>)
    requires ValidHistory(Begin(supportsRanging, initial), actions)
    ensures var s := DoAll(Begin(supportsRanging, initial), actions); var log := RangingLog(Posted(s));
      && Alternates(log)
      && (s.rangingGate == Free ==> (s.ranging <==> log != [] && log[|log| - 1] == RangingStarted))
      && (!supportsRanging ==> log == [] && !s.ranging)
  {
    ReachableRanging(supportsRanging, initial, actions);
    var s := DoAll(Begin(supportsRanging, initial), actions);
    var log := RangingLog(Posted(s));
    assert log <= FullRangingLog(s);
    assert forall i :: 0 <= i < |log| ==> log[i] == FullRangingLog(s)[i];
  }

  /** A mutex that the worker holds is held by the callback it is running. */
  ghost predicate LocksHaveHolders(s: Session) {
    Holds(s.membersGate, Worker) || Holds(s.rangingGate, Worker) ==> s.queue.current.Some?
  }

  lemma {:induction false} ActionKeepsLocks(s: Session, a: Action)
    requires LocksHaveHolders(s) && Allowed(s, a)
    ensures LocksHaveHolders(Do(s, a))
  {
    if a.QueueStep? {
      QueueStepFrame(s, a.step);
    } else if Posts(s, a) != [] {
      PostingFrame(s, a);
    } else {
      QuietActionFrame(s, a);
    }
  }

  /** No callback leaves a mutex locked: in every state a history can reach, while
      the worker runs no task it holds neither. */
  lemma {:induction false} CallbacksUnlock(s: Session, actions: seq<Action>)
    requires LocksHaveHolders(s) && ValidHistory(s, actions)
    ensures LocksHaveHolders(DoAll(s, actions))
    decreases |actions|
  {
    if actions != [] {
      ActionKeepsLocks(s, actions[0]);
      CallbacksUnlock(Do(s, actions[0]), actions[1..]);
    }
  }

  /** A callback may call its own session until the destructor starts, and adds or
      removes near objects whenever it finds their mutex free. */
  lemma CallbackMayCall(supportsRanging: bool, initial: seq<NearObject>, actions: seq<Action>, list: seq<NearObject>)
    requires ValidHistory(Begin(supportsRanging, initial), actions)
    requires var s := DoAll(Begin(supportsRanging, initial), actions);
      && s.phase.Live? && s.queue.current.Some? && Worker !in s.queue.calls
      && !Holds(s.membersGate, Worker) && !Holds(s.rangingGate, Worker)
    ensures var s := DoAll(Begin(supportsRanging, initial), actions);
      && MayCall(s, Worker)
      && (s.membersGate == Free ==> Allowed(s, Add(Worker, list)) && Allowed(s, Remove(Worker, list)))
  {
    ReachableQueue(supportsRanging, initial, actions);
    PostFromTask(DoAll(Begin(supportsRanging, initial), actions).queue, SessionEnded);
  }

  function Count(event: Event, log: seq<Event>): nat {
    multiset(log)[event]
  }

  lemma {:induction false} AlternatingCounts(log: seq<Event>)
    requires Alternates(log)
    ensures Count(RangingStarted, log) == (|log| + 1) / 2
    ensures Count(RangingStopped, log) == |log| / 2
  {
    if log != [] {
      var front := log[..|log| - 1];
      AlternatingCounts(front);
      assert log == front + [log[|log| - 1]];
    }
  }

  lemma {:induction false} CountInRangingLog(event: Event, events: seq<Event>)
    requires IsRanging(event)
    ensures Count(event, events) == Count(event, RangingLog(events))
  {
    if events != [] {
      CountInRangingLog(event, events[1..]);
      assert events == [events[0]] + events[1..];
    }
  }

  lemma StartsEqualStops(s: Session)
    requires RangingAlternates(s) && !s.ranging && s.rangingGate == Free
    ensures Count(RangingStarted, Posted(s)) == Count(RangingStopped, Posted(s))
  {
    CountInRangingLog(RangingStarted, Posted(s));
    CountInRangingLog(RangingStopped, Posted(s));
    assert FullRangingLog(s) == RangingLog(Posted(s));
    AlternatingCounts(RangingLog(Posted(s)));
  }

  lemma EverythingStarted(q: Queue<Event>)
    requires FifoOrder(q) && Phases(q) && NothingLeft(q) && q.destroyed
    ensures q.worker == Exited && q.abandoned == [] && StartedTasks(q) == q.accepted
  {
    assert InHand(q) == [];
  }

  /** Teardown: in every history, at the moment any member of a session but its
      queue is destroyed, the worker is gone and every posted event has been
      executed; the last is the session's end, starts equal stops, and a client
      whose callbacks object is alive has received them all and computes from
      them the final membership. */
  lemma TeardownDeliversEverything(supportsRanging: bool, initial: seq<NearObject>, actions: seq<Action>)
    requires ValidHistory(Begin(supportsRanging, initial), actions)
    requires DoAll(Begin(supportsRanging, initial), actions).destroyedMembers > 0
    ensures var s := DoAll(Begin(supportsRanging, initial), actions);
      && s.queue.worker == Exited && s.queue.abandoned == []
      && Started(s) == Posted(s)
      && Posted(s) != [] && Posted(s)[|Posted(s)| - 1] == SessionEnded
      && Count(RangingStarted, Posted(s)) == Count(RangingStopped, Posted(s))
      && (s.callbacksAlive ==> s.delivered == Posted(s) && Replay(initial, s.delivered) == s.members)
  {
    var s := DoAll(Begin(supportsRanging, initial), actions);
    ReachableProgress(supportsRanging, initial, actions);
    assert s.queue.worker == Exited && s.queue.abandoned == [] && Started(s) == Posted(s) by {
      ReachableQueue(supportsRanging, initial, actions);
      EverythingStarted(s.queue);
    }
    assert Count(RangingStarted, Posted(s)) == Count(RangingStopped, Posted(s)) by {
      ReachableRanging(supportsRanging, initial, actions);
      StartsEqualStops(s);
    }
    PostedEventsReplay(supportsRanging, initial, actions);
    DeliveredInOrder(supportsRanging, initial, actions);
  }

  /** A task that runs a callback reads the session's members: while one is
      running, or can still be started, no member has been destroyed. */
  lemma CallbacksFindTheirSession(supportsRanging: bool, initial: seq<NearObject>, actions: seq<Action>)
    requires ValidHistory(Begin(supportsRanging, initial), actions)
    ensures var s := DoAll(Begin(supportsRanging, initial), actions);
      InHand(s.queue) + s.queue.runnables != [] ==> s.destroyedMembers == 0
  {
    ReachableProgress(supportsRanging, initial, actions);
    ReachableQueue(supportsRanging, initial, actions);
  }

  /** After the first `k` actions the session had exactly this membership. */
  ghost predicate HadMembers(s: Session, actions: seq<Action>, k: nat, view: seq<NearObject>) {
    k <= |actions| && ValidHistory(s, actions[..k]) && DoAll(s, actions[..k]).members == view
  }

  /** Some state that the history went through had it. */
  ghost predicate WasMembership(s: Session, actions: seq<Action>, view: seq<NearObject>) {
    exists k: nat :: HadMembers(s, actions, k, view)
  }

  lemma HadMembersBefore(s: Session, actions: seq<Action>, n: nat, k: nat, view: seq<NearObject>)
    requires n <= |actions| && HadMembers(s, actions[..n], k, view)
    ensures HadMembers(s, actions, k, view)
  {
    assert actions[..n][..k] == actions[..k];
  }

  /** An event posted while another thread is between its change and its post
      is not a membership event, so it does not change the replay. */
  lemma PostedBesideAChange(s: Session, a: Action)
    requires Progress(s) && Allowed(s, a) && Posts(s, a) != [] && Do(s, a).membersGate.Changed?
    ensures Replay(s.initial, Posted(Do(s, a))) == Replay(s.initial, Posted(s))
  {
    PostsAreAccepted(s, a);
    PostingFrame(s, a);
    PostingAndTheGate(s, a);
    assert Posts(s, a) == [Posts(s, a)[0]];
    ReplayOne(s.initial, Posted(s), Posts(s, a)[0]);
  }

  /** After the first `k` actions the session had the replay of `n` events. */
  ghost predicate HadView(begin: Session, actions: seq<Action>, events: seq<Event>, n: nat, k: nat) {
    n <= |events| && HadMembers(begin, actions, k, Replay(begin.initial, events[..n]))
  }

  ghost predicate InOrder(at: seq<nat>) {
    forall m, n :: 0 <= m < n < |at| ==> at[m] <= at[n]
  }

  /** The times at which the session had the successive replays of the events. */
  ghost predicate ViewTimes(begin: Session, actions: seq<Action>, events: seq<Event>, at: seq<nat>) {
    && |at| == |events| + 1 && InOrder(at)
    && (forall n :: 0 <= n < |at| ==> HadView(begin, actions, events, n, at[n]))
  }

  lemma ViewTimesLater(begin: Session, actions: seq<Action>, k: nat, events: seq<Event>, at: seq<nat>)
    requires k <= |actions| && ViewTimes(begin, actions[..k], events, at)
    ensures ViewTimes(begin, actions, events, at)
  {
    forall n | 0 <= n < |at|
      ensures HadView(begin, actions, events, n, at[n])
    {
      assert HadView(begin, actions[..k], events, n, at[n]);
      HadMembersBefore(begin, actions, k, at[n], Replay(begin.initial, events[..n]));
    }
  }

  lemma HadViewOf(begin: Session, actions: seq<Action>, events: seq<Event>, more: seq<Event>, n: nat, k: nat)
    requires HadView(begin, actions, events, n, k) && events <= more
    ensures HadView(begin, actions, more, n, k)
  {
    assert more[..n] == events[..n];
  }

  lemma OneMoreView(begin: Session, actions: seq<Action>, events: seq<Event>, more: seq<Event>, at: seq<nat>, k: nat)
    requires ViewTimes(begin, actions, events, at) && events <= more && |more| == |events| + 1
    requires at[|events|] <= k && HadView(begin, actions, more, |more|, k)
    ensures ViewTimes(begin, actions, more, at + [k])
  {
    var times := at + [k];
    forall n | 0 <= n < |times|
      ensures HadView(begin, actions, more, n, times[n])
    {
      if n < |at| {
        HadViewOf(begin, actions, events, more, n, at[n]);
      }
    }
    assert forall m :: 0 <= m < |at| ==> at[m] <= at[|events|];
  }

  lemma LastAction(begin: Session, actions: seq<Action>)
    requires ValidHistory(begin, actions) && actions != []
    ensures var k := |actions| - 1;
      && ValidHistory(begin, actions[..k]) && Allowed(DoAll(begin, actions[..k]), actions[k])
      && DoAll(begin, actions) == Do(DoAll(begin, actions[..k]), actions[k])
  {
    var k := |actions| - 1;
    HistorySplits(begin, actions, k);
    assert actions[k..] == [actions[k]] && actions[k..][1..] == [];
    var front := DoAll(begin, actions[..k]);
    assert DoAll(front, actions[k..]) == DoAll(Do(front, actions[k]), []);
  }

  /** The time for one more posted event: now, or, if a thread holds the gate
      between its change and its post, the time of the replay before it. */
  lemma TimeOfPost(begin: Session, actions: seq<Action>, front: Session, a: Action, at: seq<nat>)
    returns (longer: seq<nat>)
    requires ValidHistory(begin, actions) && front.initial == begin.initial
    requires Progress(front) && Allowed(front, a) && Posts(front, a) != []
    requires DoAll(begin, actions) == Do(front, a) && MembershipReplays(Do(front, a))
    requires Do(front, a).initial == begin.initial
    requires ViewTimes(begin, actions, Posted(front), at)
    ensures ViewTimes(begin, actions, Posted(Do(front, a)), longer)
  {
    var s, events := Do(front, a), Posted(front);
    PostsAreAccepted(front, a);
    PostingFrame(front, a);
    assert HadView(begin, actions, events, |events|, at[|events|]);
    var k := |actions|;
    if s.membersGate.Changed? {
      PostedBesideAChange(front, a);
      k := at[|events|];
      assert events[..|events|] == events;
    } else {
      assert actions[..k] == actions;
    }
    assert Posted(s)[..|Posted(s)|] == Posted(s);
    OneMoreView(begin, actions, events, Posted(s), at, k);
    longer := at + [k];
  }

  lemma {:induction false} PostedViewsInOrder(supportsRanging: bool, initial: seq<NearObject>, actions: seq<Action>)
    returns (at: seq<nat>)
    requires ValidHistory(Begin(supportsRanging, initial), actions)
    ensures var begin := Begin(supportsRanging, initial);
      ViewTimes(begin, actions, Posted(DoAll(begin, actions)), at)
    decreases |actions|
  {
    var begin := Begin(supportsRanging, initial);
    if actions == [] {
      at := [0];
    } else {
      var k := |actions| - 1;
      LastAction(begin, actions);
      var front := DoAll(begin, actions[..k]);
      at := PostedViewsInOrder(supportsRanging, initial, actions[..k]);
      ViewTimesLater(begin, actions, k, Posted(front), at);
      ReachableMembership(supportsRanging, initial, actions[..k]);
      ReachableMembership(supportsRanging, initial, actions);
      if Posts(front, actions[k]) == [] {
        PostsAreAccepted(front, actions[k]);
        assert Posted(front) + [] == Posted(front);
      } else {
        at := TimeOfPost(begin, actions, front, actions[k], at);
      }
    }
  }

  /** The memberships that a client computes from its callbacks, one after the
      other, are memberships the session had, one after the other: its view may
      be late, but is never wrong and never goes back. */
  lemma ClientViewsInOrder(supportsRanging: bool, initial: seq<NearObject>, actions: seq<Action>)
    returns (at: seq<nat>)
    requires ValidHistory(Begin(supportsRanging, initial), actions)
    ensures var begin := Begin(supportsRanging, initial); var delivered := DoAll(begin, actions).delivered;
      ViewTimes(begin, actions, delivered, at)
  {
    var s := DoAll(Begin(supportsRanging, initial), actions);
    var all := PostedViewsInOrder(supportsRanging, initial, actions);
    DeliveredInOrder(supportsRanging, initial, actions);
    at := all[..|s.delivered| + 1];
    forall n | 0 <= n < |at|
      ensures HadView(Begin(supportsRanging, initial), actions, s.delivered, n, at[n])
    {
      assert HadView(Begin(supportsRanging, initial), actions, Posted(s), n, all[n]);
      assert s.delivered[..n] == Posted(s)[..n];
    }
  }

  /** In particular its present view is a membership the session really had. */
  lemma ClientViewWasReal(supportsRanging: bool, initial: seq<NearObject>, actions: seq<Action>)
    requires ValidHistory(Begin(supportsRanging, initial), actions)
    ensures var s := DoAll(Begin(supportsRanging, initial), actions);
      WasMembership(Begin(supportsRanging, initial), actions, Replay(initial, s.delivered))
  {
    var delivered := DoAll(Begin(supportsRanging, initial), actions).delivered;
    var at := ClientViewsInOrder(supportsRanging, initial, actions);
    assert delivered[..|delivered|] == delivered;
    assert HadView(Begin(supportsRanging, initial), actions, delivered, |delivered|, at[|delivered|]);
  }
}
