/**
 * The serialized task queue as a step relation: one worker thread and any
 * number of client threads, which post tasks and stop the queue.
 *
 * A step is one critical section of the queue's mutex, or one thread's action
 * between two critical sections. The choice of the next step is the
 * scheduler's, so a theorem about every list of steps speaks of every
 * interleaving.
 */
module TaskQueueModel {
  import opened Prelude

  datatype State = Running | Stopping | Canceling | Stopped

  datatype PendingTaskAction = Run | Cancel

  /** The caller of `post` or `stop`. The worker is one while it runs a task. */
  datatype Thread = Worker | Client(id: nat)

  /** A packaged task; its ticket names the future that `post` handed out. */
  datatype Task<T> = Task(ticket: nat, body: T)

  /** How a future is settled: the task ran, or was destroyed without running. */
  datatype Outcome = Returned | Threw | Broken

  datatype Settlement = Settlement(ticket: nat, outcome: Outcome)

  /** What a thread that called `stop` does next: return (`stop`), join the
      worker (`stop_and_wait_for_task_completion`), or join it and then destroy
      the queue (the destructor). */
  datatype Completion = Return | Join | Destroy

  /** Where a thread is inside a call: past the critical section with a
      `notify_all` still to do, or waiting for the worker to exit. */
  datatype CallPc = OwesNotify(next: Completion) | Joining(destroy: bool)

  /** Where the worker is: about to take the mutex, blocked in the wait, past
      the steal with its own `notify_all` to do, in the inner loop, or gone. */
  datatype WorkerPc = AtGate | Asleep | Stole | InBatch | Exited

  datatype Queue<T> = Queue(
    // shared, guarded by the mutex
    state: State,
    runnables: seq<Task<T>>,
    // threads
    constructed: bool,
    destroyed: bool,
    worker: WorkerPc,
    batch: seq<Task<T>>,
    current: Option<Task<T>>,
    calls: map<Thread, CallPc>,
    // history
    accepted: seq<Task<T>>,
    executed: seq<Task<T>>,
    abandoned: seq<Task<T>>,
    settled: seq<Settlement>)

  datatype Step<T> =
    | FinishConstruction
    | Post(thread: Thread, body: T)
    | Stop(thread: Thread, action: PendingTaskAction, next: Completion)
    | Notify(thread: Thread)
    | JoinReturn(thread: Thread)
    | Check
    | SpuriousWake
    | NotifyStolen
    | StartTask
    | FinishTask(outcome: Outcome)
    | LoopBack

  /** The thread is started before the constructor stores `running`. */
  function Init<T>(): Queue<T> {
    Queue(Stopped, [], false, false, AtGate, [], None, map[], [], [], [], [])
  }

  predicate ShouldQueueExit<T>(s: Queue<T>) {
    match s.state
    case Stopping => s.runnables == []
    case Canceling => true
    case _ => false
  }

  predicate IsStopPending<T>(s: Queue<T>) {
    s.state == Stopping || s.state == Canceling
  }

  predicate WaitPredicate<T>(s: Queue<T>) {
    s.runnables != [] || ShouldQueueExit(s)
  }

  /** The tasks the worker took and has not finished. */
  function InHand<T>(s: Queue<T>): seq<Task<T>> {
    (if s.current.Some? then [s.current.value] else []) + s.batch
  }

  predicate CanCall<T>(s: Queue<T>, t: Thread) {
    s.constructed && !s.destroyed && t !in s.calls && (t == Worker ==> s.current.Some?)
  }

  predicate Owes<T>(s: Queue<T>, t: Thread) {
    t in s.calls && s.calls[t].OwesNotify?
  }

  predicate Enabled<T>(s: Queue<T>, step: Step<T>) {
    match step
    case FinishConstruction => !s.constructed
    case Post(t, _) => CanCall(s, t)
    case Stop(t, action, next) =>
      // Joining callers always pass `run`, and a worker cannot join itself.
      CanCall(s, t) && (next != Return ==> action == Run && t.Client?)
    case Notify(t) => Owes(s, t)
    case JoinReturn(t) =>
      // The destroying thread must be the last one inside the queue.
      && t in s.calls && s.calls[t].Joining? && s.worker == Exited
      && (s.calls[t].destroy ==> s.calls.Keys == {t})
    case Check => s.worker == AtGate
    case SpuriousWake => s.worker == Asleep
    case NotifyStolen => s.worker == Stole
    case StartTask => s.worker == InBatch && s.current.None? && s.batch != []
    case FinishTask(outcome) => s.current.Some? && Worker !in s.calls && outcome != Broken
    case LoopBack => s.worker == InBatch && s.current.None? && s.batch == []
  }

  function NotifyAll<T>(s: Queue<T>): Queue<T> {
    if s.worker == Asleep then s.(worker := AtGate) else s
  }

  /** The critical section of `post`: refused once a stop is pending, and a
      notification is owed only when the queue was empty. */
  function PostLocked<T>(s: Queue<T>, t: Thread, body: T): Queue<T> {
    if IsStopPending(s) then s
    else
      var task := Task(|s.accepted|, body);
      s.(runnables := s.runnables + [task], accepted := s.accepted + [task],
         calls := if s.runnables == [] then s.calls[t := OwesNotify(Return)] else s.calls)
  }

  function StopLocked<T>(s: Queue<T>, t: Thread, action: PendingTaskAction, next: Completion): Queue<T> {
    s.(state := if action == Cancel then Canceling else Stopping,
       calls := s.calls[t := OwesNotify(next)])
  }

  /** A thread's `notify_all`, after which it returns or waits for the worker. */
  function NotifyBy<T>(s: Queue<T>, t: Thread): Queue<T>
    requires Owes(s, t)
  {
    NotifyAll(s).(calls := match s.calls[t].next
                           case Return => s.calls - {t}
                           case Join => s.calls[t := Joining(false)]
                           case Destroy => s.calls[t := Joining(true)])
  }

  /** The futures of the tasks still queued when the queue is destroyed. */
  function BreakAll<T>(tasks: seq<Task<T>>): (r: seq<Settlement>)
    ensures |r| == |tasks|
    ensures forall i :: 0 <= i < |r| ==> r[i] == Settlement(tasks[i].ticket, Broken)
  {
    if tasks == [] then [] else [Settlement(tasks[0].ticket, Broken)] + BreakAll(tasks[1..])
  }

  function JoinReturned<T>(s: Queue<T>, t: Thread): Queue<T>
    requires t in s.calls && s.calls[t].Joining?
  {
    var r := s.(calls := s.calls - {t});
    if s.calls[t].destroy then
      r.(destroyed := true, runnables := [], abandoned := s.abandoned + s.runnables,
         settled := s.settled + BreakAll(s.runnables))
    else r
  }

  /** The worker's critical section: sleep, exit, or steal the whole queue. */
  function CheckLocked<T>(s: Queue<T>): Queue<T> {
    if !WaitPredicate(s) then s.(worker := Asleep)
    else if ShouldQueueExit(s) then s.(worker := Exited)
    else s.(worker := Stole, batch := s.runnables, runnables := [])
  }

  function Apply<T>(s: Queue<T>, step: Step<T>): Queue<T>
    requires Enabled(s, step)
  {
    match step
    case FinishConstruction => s.(constructed := true, state := Running)
    case Post(t, body) => PostLocked(s, t, body)
    case Stop(t, action, next) => StopLocked(s, t, action, next)
    case Notify(t) => NotifyBy(s, t)
    case JoinReturn(t) => JoinReturned(s, t)
    case Check => CheckLocked(s)
    case SpuriousWake => s.(worker := AtGate)
    case NotifyStolen => NotifyAll(s).(worker := InBatch)
    case StartTask => s.(current := Some(s.batch[0]), batch := s.batch[1..])
    case FinishTask(outcome) =>
      s.(current := None, executed := s.executed + [s.current.value],
         settled := s.settled + [Settlement(s.current.value.ticket, outcome)])
    case LoopBack => s.(worker := AtGate)
  }

  predicate ValidRun<T>(s: Queue<T>, steps: seq<Step<T>>)
    decreases |steps|
  {
    steps == [] || (Enabled(s, steps[0]) && ValidRun(Apply(s, steps[0]), steps[1..]))
  }

  function Exec<T>(s: Queue<T>, steps: seq<Step<T>>): Queue<T>
    requires ValidRun(s, steps)
    decreases |steps|
  {
    if steps == [] then s else Exec(Apply(s, steps[0]), steps[1..])
  }

  lemma ExecOne<T>(s: Queue<T>, step: Step<T>)
    requires Enabled(s, step)
    ensures ValidRun(s, [step]) && Exec(s, [step]) == Apply(s, step)
  {
    var steps: seq<Step<T>> := [step];
    assert steps[1..] == [];
    assert Exec(s, steps) == Exec(Apply(s, step), []);
  }

  lemma {:induction false} ExecConcat<T>(s: Queue<T>, a: seq<Step<T>>, b: seq<Step<T>>)
    requires ValidRun(s, a) && ValidRun(Exec(s, a), b)
    ensures ValidRun(s, a + b) && Exec(s, a + b) == Exec(Exec(s, a), b)
    decreases |a|
  {
    if a == [] {
      assert a + b == b;
    } else {
      assert (a + b)[0] == a[0] && (a + b)[1..] == a[1..] + b;
      ExecConcat(Apply(s, a[0]), a[1..], b);
    }
  }

  lemma ExecSnoc<T>(s: Queue<T>, steps: seq<Step<T>>, step: Step<T>) returns (longer: seq<Step<T>>)
    requires ValidRun(s, steps) && Enabled(Exec(s, steps), step)
    ensures longer == steps + [step]
    ensures ValidRun(s, longer) && Exec(s, longer) == Apply(Exec(s, steps), step)
  {
    ExecOne(Exec(s, steps), step);
    ExecConcat(s, steps, [step]);
    longer := steps + [step];
  }

  /** A run that begins with another one goes on from where that one led. */
  lemma {:induction false} RunSplits<T>(s: Queue<T>, start: seq<Step<T>>, run: seq<Step<T>>)
    requires ValidRun(s, run) && start <= run
    ensures ValidRun(s, start) && ValidRun(Exec(s, start), run[|start|..])
    ensures Exec(Exec(s, start), run[|start|..]) == Exec(s, run)
    decreases |start|
  {
    if start == [] {
      assert run[0..] == run;
    } else {
      RunSplits(Apply(s, run[0]), start[1..], run[1..]);
      assert run[1..][|start| - 1..] == run[|start|..];
    }
  }
}
