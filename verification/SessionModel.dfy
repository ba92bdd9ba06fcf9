/**
 * A near object session as a step relation over the task queue: API calls of
 * any number of threads (and of running callbacks), the two mutexes, the event
 * queue with its worker, the weakly held callbacks, and the destructor.
 */
module SessionModel {
  import opened Prelude
  import opened NearObjects
  import opened TaskQueueModel

  datatype Event =
    | MembershipChanged(added: seq<NearObject>, removed: seq<NearObject>)
    | RangingStarted
    | RangingStopped
    | PropertiesChanged(changed: NearObject)
    | SessionEnded

  /** A mutex of the session: free; held, with the guarded state changed and the
      event still to post; or held with the event posted. */
  datatype Gate = Free | Changed(holder: Thread, event: Event) | Announced(holder: Thread)

  /** The destructor's progress: its body is `EndSession`, then the members go. */
  datatype Phase =
    | Live
    | EndStopRanging(destroyer: Thread)
    | EndAnnounce(destroyer: Thread)
    | DestroyMembers(destroyer: Thread)

  datatype Member = RangingStateGate | RangingSession | Capabilities | EventCallbacks
                  | NearObjectsGate | NearObjectList | EventQueue

  /** The members in declaration order; they are destroyed in the reverse one. */
  const DECLARED: seq<Member> :=
    [RangingStateGate, RangingSession, Capabilities, EventCallbacks, NearObjectsGate, NearObjectList, EventQueue]

  datatype Session = Session(
    supportsRanging: bool,
    initial: seq<NearObject>,
    members: seq<NearObject>,
    membersGate: Gate,
    ranging: bool,
    rangingGate: Gate,
    callbacksAlive: bool,
    phase: Phase,
    destroyedMembers: nat,
    queue: Queue<Event>,
    delivered: seq<Event>)

  datatype Action =
    | Add(thread: Thread, batch: seq<NearObject>)
    | Remove(thread: Thread, list: seq<NearObject>)
    | StartRanging(thread: Thread)
    | StopRanging(thread: Thread)
    | Announce(thread: Thread)
    | Unlock(thread: Thread)
    | PostUngated(thread: Thread, event: Event)
    | BeginDestructor(thread: Thread)
    | DestructorStopRanging
    | DestructorAnnounce
    | QueueStep(step: Step<Event>)
    | ExpireCallbacks
    | DestroyMember

  function Begin(supportsRanging: bool, initial: seq<NearObject>): Session {
    Session(supportsRanging, initial, initial, Free, false, Free, true, Live, 0, Init(), [])
  }

  function Bodies(tasks: seq<Task<Event>>): (r: seq<Event>)
    ensures |r| == |tasks|
    ensures forall i :: 0 <= i < |r| ==> r[i] == tasks[i].body
  {
    seq(|tasks|, i requires 0 <= i < |tasks| => tasks[i].body)
  }

  /** The events posted so far, in the order of the queue's mutex. */
  function Posted(s: Session): seq<Event> {
    Bodies(s.queue.accepted)
  }

  predicate Holds(g: Gate, t: Thread) {
    g != Free && g.holder == t
  }

  predicate InNoCall(s: Session, t: Thread) {
    CanCall(s.queue, t) && !Holds(s.membersGate, t) && !Holds(s.rangingGate, t)
  }

  /** A thread may call the session until its destructor starts. */
  predicate MayCall(s: Session, t: Thread) {
    s.phase.Live? && InNoCall(s, t)
  }

  predicate QueueStepAllowed(s: Session, step: Step<Event>) {
    && Enabled(s.queue, step)
    && match step
       case Post(_, _) => false
       case Stop(t, action, next) =>
         // Only the queue's destructor, when the members are destroyed, stops it.
         s.phase == DestroyMembers(t) && s.destroyedMembers == 0 && action == Run && next == Destroy
       case FinishTask(_) => !Holds(s.membersGate, Worker) && !Holds(s.rangingGate, Worker)
       case _ => true
  }

  predicate Allowed(s: Session, a: Action) {
    match a
    case Add(t, _) => MayCall(s, t) && s.membersGate == Free
    case Remove(t, _) => MayCall(s, t) && s.membersGate == Free
    case StartRanging(t) => MayCall(s, t) && s.rangingGate == Free
    case StopRanging(t) => MayCall(s, t) && s.rangingGate == Free
    case Announce(t) =>
      CanCall(s.queue, t) && ((Holds(s.membersGate, t) && s.membersGate.Changed?)
                              || (Holds(s.rangingGate, t) && s.rangingGate.Changed?))
    case Unlock(t) =>
      t !in s.queue.calls && ((Holds(s.membersGate, t) && s.membersGate.Announced?)
                              || (Holds(s.rangingGate, t) && s.rangingGate.Announced?))
    case PostUngated(t, event) => MayCall(s, t) && (event.PropertiesChanged? || event.SessionEnded?)
    case BeginDestructor(t) =>
      // No other thread or callback is inside the session from here on.
      MayCall(s, t) && t.Client? && s.membersGate == Free && s.rangingGate == Free && s.queue.calls == map[]
    case DestructorStopRanging => s.phase.EndStopRanging? && InNoCall(s, s.phase.destroyer) && s.rangingGate == Free
    case DestructorAnnounce => s.phase.EndAnnounce? && InNoCall(s, s.phase.destroyer) && s.rangingGate == Free
    case QueueStep(step) => QueueStepAllowed(s, step)
    case ExpireCallbacks => true
    case DestroyMember =>
      && s.phase.DestroyMembers? && s.destroyedMembers < |DECLARED|
      && (DECLARED[|DECLARED| - 1 - s.destroyedMembers] == EventQueue ==> s.queue.destroyed)
  }

  /** `InvokeEventCallback`: the event goes to the queue as a task. */
  function Invoke(s: Session, t: Thread, event: Event): Session {
    s.(queue := PostLocked(s.queue, t, event))
  }

  function StopRangingLocked(s: Session, t: Thread): Session {
    if !s.ranging then s
    else s.(ranging := false, rangingGate := Changed(t, RangingStopped))
  }

  /** The task that runs an event's callback: if the weak pointer can still be
      locked, the client is called. */
  function StartCallback(s: Session): Session
    requires Enabled(s.queue, StartTask)
  {
    s.(queue := Apply(s.queue, StartTask),
       delivered := if s.callbacksAlive then s.delivered + [s.queue.batch[0].body] else s.delivered)
  }

  function Do(s: Session, a: Action): Session
    requires Allowed(s, a)
  {
    match a
    case Add(t, batch) =>
      s.(members := WithAdded(s.members, batch),
         membersGate := Changed(t, MembershipChanged(Pruned(s.members, batch), [])))
    case Remove(t, list) =>
      s.(members := Without(s.members, list),
         membersGate := Changed(t, MembershipChanged([], RemovedFrom(s.members, list))))
    case StartRanging(t) =>
      if s.ranging || !s.supportsRanging then s
      else s.(ranging := true, rangingGate := Changed(t, RangingStarted))
    case StopRanging(t) => StopRangingLocked(s, t)
    case Announce(t) =>
      if Holds(s.membersGate, t) && s.membersGate.Changed? then
        Invoke(s, t, s.membersGate.event).(membersGate := Announced(t))
      else
        Invoke(s, t, s.rangingGate.event).(rangingGate := Announced(t))
    case Unlock(t) =>
      if Holds(s.membersGate, t) && s.membersGate.Announced? then s.(membersGate := Free)
      else s.(rangingGate := Free)
    case PostUngated(t, event) => Invoke(s, t, event)
    case BeginDestructor(t) => s.(phase := EndStopRanging(t))
    case DestructorStopRanging =>
      StopRangingLocked(s, s.phase.destroyer).(phase := EndAnnounce(s.phase.destroyer))
    case DestructorAnnounce =>
      Invoke(s, s.phase.destroyer, SessionEnded).(phase := DestroyMembers(s.phase.destroyer))
    case QueueStep(step) =>
      if step.StartTask? then StartCallback(s) else s.(queue := Apply(s.queue, step))
    case ExpireCallbacks => s.(callbacksAlive := false)
    case DestroyMember => s.(destroyedMembers := s.destroyedMembers + 1)
  }

  predicate ValidHistory(s: Session, actions: seq<Action>)
    decreases |actions|
  {
    actions == [] || (Allowed(s, actions[0]) && ValidHistory(Do(s, actions[0]), actions[1..]))
  }

  function DoAll(s: Session, actions: seq<Action>): Session
    requires ValidHistory(s, actions)
    decreases |actions|
  {
    if actions == [] then s else DoAll(Do(s, actions[0]), actions[1..])
  }

  lemma {:induction false} HistoryConcat(s: Session, a: seq<Action>, b: seq<Action>)
    requires ValidHistory(s, a) && ValidHistory(DoAll(s, a), b)
    ensures ValidHistory(s, a + b) && DoAll(s, a + b) == DoAll(DoAll(s, a), b)
    decreases |a|
  {
    if a == [] {
      assert a + b == b;
    } else {
      assert (a + b)[0] == a[0] && (a + b)[1..] == a[1..] + b;
      HistoryConcat(Do(s, a[0]), a[1..], b);
    }
  }

  lemma HistorySnoc(s: Session, actions: seq<Action>, a: Action) returns (longer: seq<Action>)
    requires ValidHistory(s, actions) && Allowed(DoAll(s, actions), a)
    ensures longer == actions + [a]
    ensures ValidHistory(s, longer) && DoAll(s, longer) == Do(DoAll(s, actions), a)
  {
    var last: seq<Action> := [a];
    assert last[1..] == [];
    HistoryConcat(s, actions, last);
    longer := actions + last;
  }

  // ---- what a client makes of the events it has seen ----

  function ReplayEvent(members: seq<NearObject>, event: Event): seq<NearObject> {
    if event.MembershipChanged? then Without(members + event.added, event.removed) else members
  }

  /** The membership a client computes from the events: append the added
      objects, drop the removed pointers. */
  function Replay(initial: seq<NearObject>, events: seq<Event>): seq<NearObject> {
    if events == [] then initial
    else ReplayEvent(Replay(initial, events[..|events| - 1]), events[|events| - 1])
  }

  predicate IsRanging(event: Event) {
    event == RangingStarted || event == RangingStopped
  }

  function RangingLog(events: seq<Event>): seq<Event> {
    Filter(IsRanging, events)
  }

  /** Started, Stopped, Started, ... */
  predicate Alternates(log: seq<Event>) {
    forall i :: 0 <= i < |log| ==> log[i] == if i % 2 == 0 then RangingStarted else RangingStopped
  }
}
