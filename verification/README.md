# Near object framework: verified model

This project models four parts of the near object framework and proves what a
caller can rely on.

- **The serialized task queue** (`notstd::task_queue`). One worker thread and any
  number of posting, stopping and joining threads, including the tasks the worker
  runs, are a step relation: a step is one critical section of the queue's mutex or
  one action between two of them, so a theorem about every list of steps speaks of
  every interleaving. `TaskQueueModel` has the relation, `TaskQueueInvariants`,
  `TaskQueueRefinement`, `TaskQueueStop` and `TaskQueueCancel` the theorems, and
  `TaskQueueCode` the class, whose methods are proved to be runs of the relation.
- **`NearObjectSession`.** The session's step relation contains the task queue's: API
  calls from any thread or from a running callback, the two mutexes with the change
  and its event as separate steps, the weakly held callbacks object, and the
  destructor with the members' destruction in reverse declaration order.
- **Device discovery on Windows.** The agent's cache of weak pointers, the manager's
  list of strong pointers, notifications in flight, probes, and clients that copy
  and drop references.
- **Two parsers.** SIMPLE-TLV data objects (section 5.2.1 of ISO/IEC 7816-4:2005) and
  the double-null-terminated list of device interface names.

## What the theorems rest on

- A critical section is one step. A wait may wake without a notification. A
  moved-from `m_runnables` is empty, as the comment at
  `lib/shared/notstd/task_queue.cxx:149` says. A pushed `packaged_task` is always valid,
  and absorbs what its body throws.
- Every task body returns or throws. Nobody calls the queue after it is destroyed, the
  destroying thread is the last one inside it, the worker does not join itself, and
  no two threads join at the same time.
- During a session's destructor no other thread and no callback enters the session.
- Pointers to near objects are not null, and a near object's properties do not change
  (nothing in the library changes them).
- Interference is the step relations' subject. Of the class methods, the worker's
  (`RunTask`, `RunTasks`, `RunStolen`, `Round`, `ProcessQueue`) and
  `StopAndWaitForTaskCompletion` are proved whatever other threads do between their
  steps, which `OthersAct` and `Meanwhile` stand for; the others are proved without
  interference between the steps of one call. Objects record the steps taken, so each of
  their states is a reachable state of the relation.

## What is not as the documentation says

- `stop` stores its mode over the previous one, and `stop_and_wait_for_task_completion`
  and the destructor always store `run`. So tasks canceled by `stop(cancel)` can still
  run; `TaskQueueCancel.DestructorUndoesCancel` is such a run and
  `TaskQueueCancel.CancelTakesEffectIff` says exactly when cancel takes effect.
- A task whose `post` returned before destruction was requested need not run once
  someone cancels: `TaskQueueCancel.CanceledTaskIsAbandoned` is a run in which it is
  dropped and its future broken. `TaskQueueCancel.PostRunsIff` is the exact condition: a
  queued task runs if and only if the last stop before the worker's next check, if there
  is one, is not a canceling one.
- Every UWB controller gets the same identifier
  (`lib/nearobject/service/NearObjectDeviceControllerUwb.cxx:10`), and the manager removes by
  identifier, so it can drop the wrong device: `DeviceAgreement.WrongDeviceStays` is such a
  stream and `DeviceAgreement.FallbackIdsAgreeIff` the exact condition.
- `AddNearObjects` is said to add its collection to the session. Nothing sets a near
  object's properties, so every two near objects are equal by value, and a session that
  has a member adds none and posts an event with an empty list:
  `NearObjects.AddAsBuilt`.
- The comment in `NearObjectSession::EndSession` speaks of a blocking call; the event is
  posted like every other, and it is the queue's destructor that waits.

## Model

| member | source | states |
|---|---|---|
| TaskQueueInvariants.StepKeepsInv | lib/shared/notstd/task_queue.cxx:47-185 | every post, stop, join, notification and worker step keeps FIFO order, ticket numbering, the threads' positions and the debt of a wake-up |
| TaskQueueInvariants.NoLostWakeUp | lib/shared/notstd/task_queue.cxx:124-134 | in every reachable state a worker asleep with something to do has a thread that owes it a notification, which makes it steal or exit although `post` notifies only when the queue was empty and after unlocking |
| TaskQueueRefinement.StepRefines | lib/shared/notstd/task_queue.cxx:120-161 | each step is one action of a one-at-a-time FIFO queue: the steal is invisible, an accepted post enqueues, a finished task dequeues |
| TaskQueueRefinement.BatchingRefinesFifo | lib/shared/notstd/task_queue.cxx:120-185 | every run of the batching worker is a run of the simple FIFO queue with the same enqueues; executed, in hand, queued and abandoned tasks are the accepted ones in lock order |
| TaskQueueRefinement.StealIsNeverEmpty | lib/shared/notstd/task_queue.cxx:131-139 | past the exit test the queue is not empty (the assertion holds), the worker's hands are, and it takes the whole queue |
| TaskQueueStop.StopClosesTheQueue | lib/shared/notstd/task_queue.cxx:102-118 | once a stop is issued the accepted tasks never grow, whoever posts |
| TaskQueueStop.StopTestIff | lib/shared/notstd/task_queue.cxx:102-118 | over every run the stop test holds exactly when somebody has called `stop`, and in exactly these states a post adds nothing |
| TaskQueueStop.ExitTestIff | lib/shared/notstd/task_queue.cxx:81-100 | over every run the exit test holds exactly when somebody has stopped the queue and the last stop cancels or nothing is queued, and exactly then the worker's check is its last one |
| TaskQueueStop.FuturesTellTheOutcome | lib/shared/notstd/task_queue.cxx:153-168 | over every run the future of the i-th finished task is settled with what that task did, return or throw, and every other settled future is broken |
| TaskQueueStop.SettledExactlyOnce | lib/shared/notstd/task_queue.cxx:153-185 | an accepted task has run, is pending or was abandoned, only one of these; its future is settled once, by the run with the task's own outcome or broken, never while pending, and nothing is pending after the destructor |
| TaskQueueStop.DrainIsBounded | lib/shared/notstd/task_queue.cxx:81-100 | once stopping and never canceled, the worker's remaining steps are bounded by a measure, whatever callers and tasks attempt |
| TaskQueueStop.WorkerCanStep | lib/shared/notstd/task_queue.cxx:120-161 | the worker is never stuck: unless it is gone, or asleep with nothing to do, it can take a step after at most one notification already owed |
| TaskQueueStop.WorkerCatchesUp | lib/shared/notstd/task_queue.cxx:120-161 | from every good state that is not canceled the worker, with only owed notifications and within a bound, executes exactly the accepted tasks and is then asleep, or gone if the queue is stopping |
| TaskQueueStop.DrainCompletes | lib/shared/notstd/task_queue.cxx:81-100 | in particular a stopping queue can drain: the worker exits without a new call, having executed exactly the accepted tasks |
| TaskQueueStop.NeverCanceledRun | lib/shared/notstd/task_queue.cxx:47-100 | in a run without cancel, an exited worker has executed exactly the accepted tasks, in order |
| TaskQueueStop.JoinMeansDrained | lib/shared/notstd/task_queue.cxx:66-79 | without cancel a join returns only after every accepted task was executed once; each future then tells its task's outcome, and the destructor breaks none |
| TaskQueueStop.PostFromTask | lib/shared/notstd/task_queue.cxx:163-185 | a running task may post to its own queue: refused exactly once a stop is pending, otherwise queued behind everything |
| TaskQueueStop.SpuriousWakeIsHarmless | lib/shared/notstd/task_queue.cxx:126-129 | a wait that wakes without a reason goes back to sleep and changes nothing |
| TaskQueueCancel.CancelBound | lib/shared/notstd/task_queue.cxx:53-60 | after cancel and before any overwriting stop, the worker runs at most the tasks in its hands, exactly those if it exits, and none that was queued |
| TaskQueueCancel.CancelTakesEffectIff | lib/shared/notstd/task_queue.cxx:47-64 | the worker's next check exits if and only if the last stop stored cancel or nothing was queued; otherwise it takes every canceled task to run it |
| TaskQueueCancel.DestructorUndoesCancel | lib/shared/notstd/task_queue.cxx:66-69 | a run in which a task is posted and canceled, the destructor's `stop` is the next step, and the worker then runs the task and exits |
| TaskQueueCancel.PostRunsIff | lib/shared/notstd/include/notstd/task_queue.hxx:38-49 | from any good state, running or stopped, whatever is called up to the worker's next check and after it: a queued task has run when the worker exits if and only if the last mode stored before that check is not cancel |
| TaskQueueCancel.CanceledTaskIsAbandoned | lib/shared/notstd/include/notstd/task_queue.hxx:42-45 | a run in which a `post` returns before any stop, and its task is canceled, never runs and has its future broken by the destructor |
| TaskQueueCancel.ExitDecides | lib/shared/notstd/task_queue.cxx:131-134 | over every run, what is queued at the worker's exit never runs and is what the destructor abandons, everything else accepted has run, and in mode run nothing is queued then |
| TaskQueueCode.TaskQueue.constructor | lib/shared/notstd/task_queue.cxx:18-27 | a new queue is running and empty, after the thread started on the stopped state |
| TaskQueueCode.TaskQueue.Post | lib/shared/notstd/task_queue.cxx:163-185 | refuses after a stop; otherwise appends the task with a fresh future and notifies exactly when the queue was empty |
| TaskQueueCode.TaskQueue.Stop | lib/shared/notstd/task_queue.cxx:47-64 | stores the requested mode, keeps the queue, and leaves no worker asleep |
| TaskQueueCode.TaskQueue.RunTask | lib/shared/notstd/task_queue.cxx:153-158 | the first stolen task is executed and no other, whatever it and other threads call meanwhile; once a stop is pending the queue stays as it is |
| TaskQueueCode.TaskQueue.RunTasks | lib/shared/notstd/task_queue.cxx:152-159 | the inner loop executes the stolen tasks in order and nothing else, whatever the tasks and other threads call meanwhile |
| TaskQueueCode.TaskQueue.Steal | lib/shared/notstd/task_queue.cxx:124-147 | the critical section takes the whole queue, or puts the worker to sleep, or ends it |
| TaskQueueCode.TaskQueue.Round | lib/shared/notstd/task_queue.cxx:123-160 | one round sleeps, exits, or executes exactly what was queued at its check, whatever others call meanwhile |
| TaskQueueCode.TaskQueue.ProcessQueue | lib/shared/notstd/task_queue.cxx:120-161 | left alone, the loop executes all queued tasks in order, or none if canceled, and ends asleep or exited; after a stop it exits whatever others do, and has executed all that is no longer queued |
| TaskQueueCode.TaskQueue.StopAndWaitForTaskCompletion | lib/shared/notstd/task_queue.cxx:66-79 | wherever the worker and the other threads are and whatever they do: on return the worker is gone and nothing more was accepted, and unless it was gone before or somebody canceled meanwhile every accepted task was executed, also those a previous cancel was to drop |
| NearObjects.ValueEqLaws | lib/nearobject/NearObject.cxx:15-33 | value equality is reflexive exactly without NaN, symmetric and transitive |
| NearObjects.ValueEqIff | lib/nearobject/NearObject.cxx:15-33 | two near objects are equal exactly if all four properties are the same and none is a NaN |
| NearObjects.PrunedIsNew | lib/nearobject/NearObjectSession.cxx:61-65 | what an add reports equals no member by value, and was a member by pointer only if it has a NaN |
| NearObjects.AddTakesTheNew | lib/nearobject/NearObjectSession.cxx:57-68 | an add takes exactly the objects of the batch that differ by value from every member, with their multiplicities and order, and puts them behind the members |
| NearObjects.RemoveTakesThePointedTo | lib/nearobject/NearObjectSession.cxx:87-104 | a removal takes exactly the members the list points to and keeps exactly the others, each with multiplicities and order |
| NearObjects.RemoveIsByPointer | lib/nearobject/NearObjectSession.cxx:91-95 | of two members, even if equal by value, removing one keeps the other |
| NearObjects.RemovedStandsForList | lib/nearobject/NearObjectSession.cxx:91-104 | removing what a remove reports is removing the requested list |
| NearObjects.RemovePartitions | lib/nearobject/NearObjectSession.cxx:91-104 | kept and removed members are together the members, with multiplicities |
| NearObjects.AddThenUndo | lib/nearobject/NearObjectSession.cxx:61-104 | for any properties a near object might have, removing exactly what an add reported restores the membership if and only if the batch names no present member with a NaN |
| NearObjects.AddAsBuilt | lib/nearobject/include/nearobject/NearObject.hxx:54-56 | as near objects are built, an add to a session with a member adds nothing and reports nothing, and an add to an empty one takes the whole batch |
| NearObjects.UndoAsBuilt | lib/nearobject/NearObjectSession.cxx:61-104 | as near objects are built, removing what an add reported always restores the membership |
| NearObjects.AddKeepsDistinctIff | lib/nearobject/NearObjectSession.cxx:57-68 | an add keeps the members different by value exactly when the part added is so itself; adding one always does |
| SessionInvariants.PostsAreAccepted | lib/nearobject/NearObjectSession.cxx:30-44 | no event a session posts is ever refused by its queue, and the posted log grows by exactly it |
| SessionInvariants.ActionIsGood | lib/nearobject/NearObjectSession.cxx:30-195 | every call step, queue step, expiry and destructor step keeps the replay, alternation, delivery and teardown invariants |
| SessionInvariants.HistoryRunsQueue | lib/nearobject/NearObjectSession.cxx:30-44 | what any history of a session does to its queue is a run of the task queue in which nobody cancels, so the theorems about the queue hold of it |
| SessionTheorems.PostedEventsReplay | lib/nearobject/NearObjectSession.cxx:52-110 | after every interleaving of adds and removes the membership is what the posted events replay to |
| SessionTheorems.DeliveredIsPrefix | lib/nearobject/NearObjectSession.cxx:30-44 | the callbacks a client receives are the first posted events in order: exactly those whose task had started when the callbacks object expired, or has started by now if it has not |
| SessionTheorems.SilentAfterExpiry | lib/nearobject/NearObjectSession.cxx:36-39 | once the callbacks object has expired, nothing is delivered any more, from any state and whatever happens |
| SessionTheorems.ExpiredClientHearsNothing | lib/nearobject/NearObjectSession.cxx:36-39 | a history in which the task of an event starts after the expiry and the client is not called |
| SessionTheorems.RangingEventsAlternate | lib/nearobject/NearObjectSession.cxx:138-195 | ranging events strictly alternate from a start, ranging is active exactly when the last is a start, and a session without the capability posts none |
| SessionTheorems.CallbackMayCall | lib/nearobject/NearObjectSession.cxx:52-110 | in every reachable state before the destructor a callback may call its own session, and adds and removes where the mutex is free |
| SessionTheorems.CallbacksUnlock | lib/nearobject/NearObjectSession.cxx:55-85 | no callback leaves a mutex of the session locked: while the worker runs no task it holds neither |
| SessionTheorems.ClientViewsInOrder | lib/nearobject/include/nearobject/NearObjectSession.hxx:98-106 | the memberships a client computes from its callbacks, one after the other, are memberships the session had at times that never go back |
| SessionTheorems.ClientViewWasReal | lib/nearobject/include/nearobject/NearObjectSession.hxx:98-106 | the membership a client has computed from its callbacks is at every moment one the session really had |
| SessionTheorems.TeardownDeliversEverything | lib/nearobject/include/nearobject/NearObjectSession.hxx:189-198 | when any member but the queue is destroyed, every posted event was executed, the last is the end, starts equal stops, and a live client has them all and the final membership |
| SessionTheorems.CallbacksFindTheirSession | lib/nearobject/include/nearobject/NearObjectSession.hxx:189-198 | while a callback task runs or can start, no member of the session is destroyed |
| SessionTeardown.EndsAndStops | lib/nearobject/NearObjectSession.cxx:112-121 | the destructor posts the stop of an active ranging session, then the end, and stops its queue |
| SessionTeardown.TeardownCompletes | lib/nearobject/NearObjectSession.cxx:19-22 | from every reachable state without a call in progress the destructor can finish, having delivered everything to a live client |
| NearObjectSessionCode.NearObjectSession.InvokeEventCallback | lib/nearobject/NearObjectSession.cxx:30-44 | posts exactly the one event, as a history step that keeps session and queue together |
| NearObjectSessionCode.NearObjectSession.AddNearObjects | lib/nearobject/NearObjectSession.cxx:52-74 | appends exactly the objects that no member equals by value, in the batch's order, and posts one event that reports exactly them |
| NearObjectSessionCode.NearObjectSession.RemoveNearObjects | lib/nearobject/NearObjectSession.cxx:82-110 | keeps exactly the members not pointed to, in order, and posts one event that reports exactly the others |
| NearObjectSessionCode.NearObjectSession.StartRanging | lib/nearobject/NearObjectSession.cxx:138-172 | the three outcomes, with a start event only when ranging starts |
| NearObjectSessionCode.NearObjectSession.StopRanging | lib/nearobject/NearObjectSession.cxx:174-188 | ranging ends, with a stop event only when it was active |
| NearObjectSessionCode.NearObjectSession.EndSession | lib/nearobject/NearObjectSession.cxx:112-121 | stops ranging and then posts the end |
| NearObjectSessionCode.NearObjectSession.NearObjectPropertiesChanged | lib/nearobject/NearObjectSession.cxx:123-129 | posts the change and alters nothing else |
| DeviceModel.MoveKeepsCache | windows/nearobject/service/NearObjectDeviceDiscoveryAgentUwb.cxx:24-107 | every arrival, removal, delivery, probe, copy, drop and loss of the manager keeps the cache the index of live controllers |
| DeviceModel.OneLiveControllerPerEpoch | windows/nearobject/service/NearObjectDeviceDiscoveryAgentUwb.cxx:24-61 | of the controllers created for a name since its last removal at most one is live, it is the cached one, and no two names share one |
| DeviceModel.ObtainedAgainIff | windows/nearobject/service/NearObjectDeviceDiscoveryAgentUwb.cxx:24-51 | two controllers obtained with anything in between are the same one if and only if the name is, the first is still alive, and the name was not removed in between |
| DeviceReferences.UsesAreCounted | windows/nearobject/service/NearObjectDeviceDiscoveryAgentUwb.cxx:24-107 | every notification, delivery, probe, addition, client action and loss of the manager makes and gives up exactly these strong references, and a controller can be promoted exactly while it has one |
| DeviceReferences.DeadStaysDead | windows/nearobject/service/NearObjectDeviceDiscoveryAgentUwb.cxx:33-44 | a controller whose last reference is gone is never handed out again |
| DeviceReferences.BorrowAndReturn | lib/nearobject/service/NearObjectDeviceControllerManager.cxx:58-66 | copying a live reference and dropping it is always possible and changes nothing |
| DeviceReferences.DestroyingTheManager | lib/nearobject/service/NearObjectDeviceControllerManager.cxx:87-95 | destroying the manager gives up its list, and then only notices and clients keep controllers alive |
| DeviceReferences.ManagerStaysGone | lib/nearobject/service/NearObjectDeviceControllerManager.cxx:91-95 | once the manager is gone no delivery brings it or its list back, over every run |
| DeviceReferences.LateArrivalIsLost | lib/nearobject/service/NearObjectDeviceControllerManager.cxx:91-95 | an arrival delivered after the manager's loss leaves no device, and the next arrival of the name makes another controller |
| DeviceAgreement.RemovesTheRightOneIff | lib/nearobject/service/NearObjectDeviceControllerManager.cxx:43-56 | removal by identifier removes the intended device if and only if no earlier one has the same identifier |
| DeviceAgreement.CacheAndManagerAgreeIff | windows/nearobject/service/NearObjectDeviceDiscoveryAgentUwb.cxx:84-107 | for alternating streams, cache, manager and present devices agree after every change if and only if no device leaves while an earlier one with its identifier is present |
| DeviceAgreement.DistinctIdsAgree | lib/nearobject/service/NearObjectDeviceControllerManager.cxx:132-145 | with distinct identifiers they always agree |
| DeviceAgreement.FallbackIdsAgreeIff | lib/nearobject/service/NearObjectDeviceControllerUwb.cxx:8-17 | with the one identifier the controllers get, they agree throughout if and only if devices leave in arrival order |
| DeviceAgreement.WrongDeviceStays | lib/nearobject/service/NearObjectDeviceControllerUwb.cxx:8-17 | a stream after which the manager holds a device although none is present |
| DeviceManagerFifo.ListIsMergedFifos | lib/nearobject/service/NearObjectDeviceControllerManager.cxx:28-56 | after any arrivals and departures the list keeps arrival order and, restricted to an identifier, is that identifier's FIFO queue |
| DeviceManagerFifo.MergeIsUnique | lib/nearobject/service/NearObjectDeviceControllerManager.cxx:28-56 | these two facts determine the list |
| DeviceManagerFifo.ListOverRuns | lib/nearobject/service/NearObjectDeviceControllerManager.cxx:91-125 | over every run the list is the list of the delivered notices and added probe results while the manager lives, and empty once it is gone |
| DeviceManagerCode.NearObjectDeviceControllerManager.AddDevice | lib/nearobject/service/NearObjectDeviceControllerManager.cxx:28-41 | always appends, as no device is taken to be a duplicate |
| DeviceManagerCode.NearObjectDeviceControllerManager.RemoveDevice | lib/nearobject/service/NearObjectDeviceControllerManager.cxx:43-56 | erases the first device with an equal identifier, or nothing |
| DeviceManagerCode.NearObjectDeviceControllerManager.GetDefaultDevice | lib/nearobject/service/NearObjectDeviceControllerManager.cxx:58-66 | the oldest arrival of all that are left, or none |
| DeviceManagerCode.NearObjectDeviceControllerManager.OnDevicePresenceChanged | lib/nearobject/service/NearObjectDeviceControllerManager.cxx:132-145 | arrivals add, departures remove, anything else changes nothing |
| DeviceManagerCode.NearObjectDeviceControllerManager.DiscoveryEventCallback | lib/nearobject/service/NearObjectDeviceControllerManager.cxx:91-95 | passes the change on to a manager that lives, and does nothing otherwise |
| DeviceManagerCode.NearObjectDeviceControllerManager.AddDiscoveryAgent | lib/nearobject/service/NearObjectDeviceControllerManager.cxx:114-129 | appends every device that the probe found, in order, and none if there was no probe or it was late |
| DeviceDiscoveryAgentCode.NearObjectDeviceDiscoveryAgentUwb.AddCachedUwbNearObjectDevice | windows/nearobject/service/NearObjectDeviceDiscoveryAgentUwb.cxx:24-51 | returns the cached controller if it can be promoted, otherwise a new one that replaces it |
| DeviceDiscoveryAgentCode.NearObjectDeviceDiscoveryAgentUwb.ExtractCachedNearObjectDevice | windows/nearobject/service/NearObjectDeviceDiscoveryAgentUwb.cxx:53-61 | the name leaves the cache; its controller is returned if it can be promoted |
| DeviceDiscoveryAgentCode.NearObjectDeviceDiscoveryAgentUwb.OnDeviceInterfaceNotification | windows/nearobject/service/NearObjectDeviceDiscoveryAgentUwb.cxx:84-107 | each notification is its move of the relation and passes on exactly the change it makes |
| DeviceDiscoveryAgentCode.NearObjectDeviceDiscoveryAgentUwb.Probe | windows/nearobject/service/NearObjectDeviceDiscoveryAgentUwb.cxx:118-133 | at the end the cache holds each result under its name and every other name as before |
| DeviceDiscoveryAgentCode.ProbedIsMoves | windows/nearobject/service/NearObjectDeviceDiscoveryAgentUwb.cxx:118-133 | a probe is a run of the relation, one move a name |
| DeviceDiscoveryAgentCode.ProbeIsAdded | lib/nearobject/service/NearObjectDeviceControllerManager.cxx:114-125 | from every state with a live manager a probe and the addition of its results is a run that appends exactly the probed controllers in order, keeping no other reference to them |
| DeviceDiscoveryAgentCode.ProbeIsInjective | windows/nearobject/service/NearObjectDeviceDiscoveryAgentUwb.cxx:118-133 | two names of one probe give the same controller exactly when they are the same name |
| TlvSimple.TwoByteLength | lib/shared/tlv/TlvSimple.cxx:38-40 | the shift and or in 16 bits is the big-endian number, without overflow |
| TlvSimple.ReadLength | lib/shared/tlv/TlvSimple.cxx:28-46 | a length is found exactly for data of the size its length field says |
| TlvSimple.Parse | lib/shared/tlv/TlvSimple.cxx:14-55 | succeeds exactly on the one-byte-length encodings up to 254 bytes and the three-byte-length ones up to 65535, and returns the encoded tag and value; otherwise clears the output |
| TlvSimple.ParsesIff | lib/shared/tlv/TlvSimple.cxx:28-47 | the parser's size test accepts exactly the encodings |
| TlvSimple.EncodingIsUnique | lib/shared/tlv/TlvSimple.cxx:47-52 | an encoding, short or long, determines its tag and value |
| TlvSimple.PrefixFree | lib/shared/tlv/TlvSimple.cxx:28-46 | no encoding is a proper prefix of another |
| TlvSimple.ConcatIsInjective | lib/shared/tlv/TlvSimple.cxx:28-46 | a concatenation of encodings splits in one way only |
| DeviceNames.CopyString | windows/devices/util/DeviceEnumerator.cxx:47 | copies up to the first null and reads nothing after it |
| DeviceNames.Split | windows/devices/util/DeviceEnumerator.cxx:44-49 | reads inside the buffer, finds the names whose encoding it starts with, and stops at their final null |
| DeviceNames.SplitIsUnique | windows/devices/util/DeviceEnumerator.cxx:44-49 | a buffer starts with the encoding of one list of names at most, whatever follows |
| DeviceNames.SplitRoundTrip | windows/devices/util/DeviceEnumerator.cxx:44-49 | the loop's precondition is exactly that the buffer starts with some list's encoding; from an encoding followed by anything the encoded list comes back |

## Left out

- `lib/nearobject/service/ServiceRuntime.cxx`: `Run` waits without a predicate and `Stop` changes its flag outside the mutex, so no wake-up theorem holds of it.
- Smart card and APDU code: stubs without a settled layout.
- Profiles, their JSON form and their persistence: a thin layer over a library, with only appending facts.
- Agent start and stop, futures' timeouts, `std::async` and the CM_* calls: notifications and enumerated names are arbitrary inputs, and which weak pointers can be promoted is a parameter.
- `GetAllDevices`, `GetCapabilities`, `GetNearObjects`, `IsRangingActive`: they only copy a field; the theorems state the fields under the gates these functions take.
- TaskQueueCode.TaskQueue.constructor: does not model `creation_exception`; whether the platform can start a thread is not part of the model.
- TaskQueueCode.TaskQueue.ProcessQueue: a running queue that others keep posting to need not come to rest, so the method requires a pending stop or a worker left alone; the relation covers the rest.
- DeviceDiscoveryAgentCode.NearObjectDeviceDiscoveryAgentUwb.Probe: no client, notification or delivery acts between two names of one call; `DeviceModel.ObtainedAgainIff` allows anything between two names.
- DeviceManagerCode.NearObjectDeviceControllerManager.AddDiscoveryAgent: registering the callback, starting the agent and the wait for its probe are an input, and nothing is delivered between two additions; `DeviceManagerFifo.ListOverRuns` allows any deliveries.
- TaskQueueCode.TaskQueue.Post, `Stop` and the session's methods: no other thread acts between the steps of one call; the relations cover that.
- The two destructors as class methods: destroying the queue and the session interleaves with the worker, so both are steps of the relations and not methods of the classes.
- Fairness: the drain theorems bound the worker's steps and give a finishing schedule; that a scheduler eventually runs an enabled thread is not part of the model.
- Concurrent calls to the device classes: the step relation interleaves notifications, deliveries, probes and clients; only the agreement theorems handle one notification with its delivery at a time.
