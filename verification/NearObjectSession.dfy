/**
 * The session's methods, each proved to be a history of the session's step
 * relation that starts and ends with both mutexes free.
 */
module NearObjectSessionCode {
  import opened Prelude
  import opened NearObjects
  import opened TaskQueueModel
  import opened TaskQueueCode
  import opened SessionModel
  import opened SessionInvariants

  datatype RangingSessionStatus = Active | Error | NotSupported | MaximumSessionsReached

  datatype RangingHandle = RangingHandle

  lemma PostsInHistory(supportsRanging: bool, initial: seq<NearObject>, actions: seq<Action>, a: Action)
    requires ValidHistory(Begin(supportsRanging, initial), actions)
    requires Allowed(DoAll(Begin(supportsRanging, initial), actions), a)
    ensures var s := DoAll(Begin(supportsRanging, initial), actions);
      Posted(Do(s, a)) == Posted(s) + Posts(s, a)
  {
    ReachableProgress(supportsRanging, initial, actions);
    PostsAreAccepted(DoAll(Begin(supportsRanging, initial), actions), a);
  }

  lemma PostingAction(s: Session, thread: Thread, a: Action)
    requires Allowed(s, a) && Posts(s, a) != []
    requires a == Announce(thread) || (a.PostUngated? && a.thread == thread)
    ensures Do(s, a).queue == PostLocked(s.queue, thread, Posts(s, a)[0])
    ensures thread !in s.queue.calls
    ensures thread in Do(s, a).queue.calls ==>
              Allowed(Do(s, a), QueueStep(Notify(thread)))
              && Posted(Do(Do(s, a), QueueStep(Notify(thread)))) == Posted(Do(s, a))
  {
  }

  /** Near the end of a gated call: one gate is held with its event to post. */
  predicate OwesEvent(s: Session, thread: Thread, event: Event) {
    || (s.membersGate == Changed(thread, event) && s.rangingGate == Free)
    || (s.rangingGate == Changed(thread, event) && s.membersGate == Free)
  }

  predicate HoldsAnnounced(s: Session, thread: Thread) {
    || (s.membersGate == Announced(thread) && s.rangingGate == Free)
    || (s.rangingGate == Announced(thread) && s.membersGate == Free)
  }

  lemma AnnouncingStep(s: Session, thread: Thread, event: Event)
    requires CanCall(s.queue, thread) && OwesEvent(s, thread, event)
    ensures Allowed(s, Announce(thread)) && Posts(s, Announce(thread)) == [event]
    ensures var e := Do(s, Announce(thread));
      && HoldsAnnounced(e, thread)
      && e == s.(queue := e.queue, membersGate := e.membersGate, rangingGate := e.rangingGate)
  {
  }

  lemma UnlockingStep(s: Session, thread: Thread)
    requires thread !in s.queue.calls && HoldsAnnounced(s, thread)
    ensures Allowed(s, Unlock(thread))
    ensures Do(s, Unlock(thread)) == s.(membersGate := Free, rangingGate := Free)
  {
  }

  class NearObjectSession {
    const supportsRanging: bool
    const taskQueue: TaskQueue<Event>
    var rangingSession: Option<RangingHandle>
    var nearObjects: seq<NearObject>
    // The actions taken so far, by any thread, and where they led.
    ghost const initial: seq<NearObject>
    ghost var history: seq<Action>
    ghost var model: Session

    ghost predicate Recorded()
      reads this
    {
      && ValidHistory(Begin(supportsRanging, initial), history)
      && model == DoAll(Begin(supportsRanging, initial), history)
    }

    ghost predicate Valid()
      reads this, taskQueue
    {
      && Recorded() && taskQueue.Valid() && model.queue == taskQueue.model
      && model.supportsRanging == supportsRanging
      && model.ranging == rangingSession.Some? && model.members == nearObjects
      && model.membersGate == Free && model.rangingGate == Free
    }

    /** Record that the model performs an action, which the code's next lines
        carry out. */
    ghost method Take(a: Action)
      requires Recorded() && Allowed(model, a)
      modifies this`model, this`history
      ensures Recorded() && model == Do(old(model), a) && history == old(history) + [a]
    {
      history := HistorySnoc(Begin(supportsRanging, initial), history, a);
      model := Do(model, a);
    }

    constructor (supportsRanging: bool, nearObjects: seq<NearObject>)
      ensures Valid() && fresh(taskQueue) && MayCall(model, Client(0))
      ensures this.supportsRanging == supportsRanging && this.initial == nearObjects
      ensures history == [QueueStep(FinishConstruction)]
    {
      this.supportsRanging := supportsRanging;
      this.initial := nearObjects;
      var queue := new TaskQueue<Event>();
      this.taskQueue := queue;
      this.rangingSession := None;
      this.nearObjects := nearObjects;
      model := Begin(supportsRanging, nearObjects);
      history := [];
      new;
      Take(QueueStep(FinishConstruction));
    }

    /** Record a posting action and the notification it may owe. */
    ghost method TakePost(thread: Thread, a: Action)
      requires Recorded() && Allowed(model, a) && Posts(model, a) != []
      requires a == Announce(thread) || (a.PostUngated? && a.thread == thread)
      modifies this`model, this`history
      ensures Recorded() && old(history) <= history
      ensures Posted(model) == Posted(old(model)) + Posts(old(model), a)
      ensures var posted := PostLocked(old(model).queue, thread, Posts(old(model), a)[0]);
        model.queue == if thread in posted.calls then NotifyBy(posted, thread) else posted
      ensures model == Do(old(model), a).(queue := model.queue)
    {
      PostsInHistory(supportsRanging, initial, history, a);
      PostingAction(model, thread, a);
      Take(a);
      if thread in model.queue.calls {
        Take(QueueStep(Notify(thread)));
      }
    }

    /** Posts one event, as the action `a` says. */
    method InvokeEventCallback(event: Event, ghost thread: Thread, ghost a: Action)
      requires Recorded() && taskQueue.Valid() && model.queue == taskQueue.model
      requires a == Announce(thread) || a == PostUngated(thread, event)
      requires Allowed(model, a) && Posts(model, a) == [event]
      modifies this`model, this`history, taskQueue
      ensures Recorded() && taskQueue.Valid() && model.queue == taskQueue.model
      ensures Posted(model) == Posted(old(model)) + [event]
      ensures CanCall(model.queue, thread) && old(history) <= history
      ensures model == Do(old(model), a).(queue := model.queue)
    {
      var future := taskQueue.Post(thread, event);
      TakePost(thread, a);
    }

    /** Posts the event that a gate's change owes, and the gate's lock goes. */
    method InvokeAndUnlock(event: Event, ghost thread: Thread)
      requires Recorded() && taskQueue.Valid() && model.queue == taskQueue.model
      requires CanCall(model.queue, thread) && OwesEvent(model, thread, event)
      modifies this`model, this`history, taskQueue
      ensures Recorded() && taskQueue.Valid() && model.queue == taskQueue.model
      ensures Posted(model) == Posted(old(model)) + [event]
      ensures CanCall(model.queue, thread) && old(history) <= history
      ensures model == old(model).(queue := model.queue, membersGate := Free, rangingGate := Free)
    {
      AnnouncingStep(model, thread, event);
      InvokeEventCallback(event, thread, Announce(thread));
      UnlockingStep(model, thread);
      Take(Unlock(thread));
    }

    method AddNearObjects(nearObjectsToAdd: seq<NearObject>, ghost thread: Thread)
      requires Valid() && MayCall(model, thread)
      modifies this, taskQueue
      ensures old(history) <= history && MayCall(model, thread)
      ensures Valid()
      ensures nearObjects == WithAdded(old(nearObjects), nearObjectsToAdd)
      ensures Posted(model) ==
              Posted(old(model)) + [MembershipChanged(Pruned(old(nearObjects), nearObjectsToAdd), [])]
      // What is added, and reported, is what no member equals by value.
      ensures var was, added := old(nearObjects), Pruned(old(nearObjects), nearObjectsToAdd);
        && nearObjects == was + added
        && IsSelection((x: NearObject) => forall m :: m in was ==> !ValueEq(x, m), nearObjectsToAdd, added)
      ensures rangingSession == old(rangingSession)
    {
      AddTakesTheNew(nearObjects, nearObjectsToAdd);
      Take(Add(thread, nearObjectsToAdd));
      var added := Pruned(nearObjects, nearObjectsToAdd);
      nearObjects := nearObjects + added;
      InvokeAndUnlock(MembershipChanged(added, []), thread);
    }

    method RemoveNearObjects(nearObjectsToRemove: seq<NearObject>, ghost thread: Thread)
      requires Valid() && MayCall(model, thread)
      modifies this, taskQueue
      ensures old(history) <= history && MayCall(model, thread)
      ensures Valid()
      ensures nearObjects == Without(old(nearObjects), nearObjectsToRemove)
      ensures Posted(model) ==
              Posted(old(model)) + [MembershipChanged([], RemovedFrom(old(nearObjects), nearObjectsToRemove))]
      // What is removed, and reported, is what the list points to, and no more.
      ensures var was, removed := old(nearObjects), RemovedFrom(old(nearObjects), nearObjectsToRemove);
        && IsSelection((x: NearObject) => x !in nearObjectsToRemove, was, nearObjects)
        && IsSelection((x: NearObject) => x in nearObjectsToRemove, was, removed)
      ensures forall x :: x in nearObjects <==> x in old(nearObjects) && x !in nearObjectsToRemove
      ensures rangingSession == old(rangingSession)
    {
      RemoveTakesThePointedTo(nearObjects, nearObjectsToRemove);
      Take(Remove(thread, nearObjectsToRemove));
      var removed := RemovedFrom(nearObjects, nearObjectsToRemove);
      nearObjects := Without(nearObjects, nearObjectsToRemove);
      InvokeAndUnlock(MembershipChanged([], removed), thread);
    }

    method StartRanging(ghost thread: Thread) returns (status: RangingSessionStatus)
      requires Valid() && MayCall(model, thread)
      modifies this, taskQueue
      ensures old(history) <= history && MayCall(model, thread)
      ensures Valid()
      ensures status == if old(rangingSession).Some? then MaximumSessionsReached
                        else if supportsRanging then Active else NotSupported
      ensures rangingSession.Some? == (old(rangingSession).Some? || supportsRanging)
      ensures Posted(model) == Posted(old(model)) + (if status == Active then [RangingStarted] else [])
      ensures nearObjects == old(nearObjects)
    {
      Take(Action.StartRanging(thread));
      if rangingSession.Some? {
        return MaximumSessionsReached;
      }
      if !supportsRanging {
        return NotSupported;
      }
      rangingSession := Some(RangingHandle);
      InvokeAndUnlock(RangingStarted, thread);
      return Active;
    }

    method StopRanging(ghost thread: Thread)
      requires Valid() && MayCall(model, thread)
      modifies this, taskQueue
      ensures old(history) <= history && MayCall(model, thread)
      ensures Valid() && rangingSession.None?
      ensures Posted(model) == Posted(old(model)) + (if old(rangingSession).Some? then [RangingStopped] else [])
      ensures nearObjects == old(nearObjects)
    {
      Take(Action.StopRanging(thread));
      if rangingSession.None? {
        return;
      }
      rangingSession := None;
      InvokeAndUnlock(RangingStopped, thread);
    }

    method EndSession(ghost thread: Thread)
      requires Valid() && MayCall(model, thread)
      modifies this, taskQueue
      ensures old(history) <= history && MayCall(model, thread)
      ensures Valid() && rangingSession.None? && nearObjects == old(nearObjects)
      ensures Posted(model) ==
              Posted(old(model)) + (if old(rangingSession).Some? then [RangingStopped] else []) + [SessionEnded]
    {
      StopRanging(thread);
      InvokeEventCallback(SessionEnded, thread, PostUngated(thread, SessionEnded));
    }

    method NearObjectPropertiesChanged(nearObjectChanged: NearObject, ghost thread: Thread)
      requires Valid() && MayCall(model, thread)
      modifies this, taskQueue
      ensures old(history) <= history && MayCall(model, thread)
      ensures Valid() && nearObjects == old(nearObjects) && rangingSession == old(rangingSession)
      ensures Posted(model) == Posted(old(model)) + [PropertiesChanged(nearObjectChanged)]
    {
      InvokeEventCallback(PropertiesChanged(nearObjectChanged), thread,
                          PostUngated(thread, PropertiesChanged(nearObjectChanged)));
    }
  }
}
