/** assign5/thread-pool.cc as an interleaving machine.

    One step is one flag write, counter change, semaphore operation, queue
    operation or mutex hand-over of one thread.  The threads are the dispatcher,
    any number of workers, and any number of clients that call `schedule` and
    `wait`; at most one client calls the destructor.  A failing `assert` sends
    its thread to a `Failed` program point. */
module ThreadPoolMachine {
  import opened Wrappers
  import opened Sums

  /** A scheduled routine; only its identity matters here. */
  datatype Thunk = Thunk(code: int)

  datatype WorkerPc =
    | NotStarted
    | SetFlag        // markWorkerAsAvailable: assert and flag write
    | Increment      // numAvailableWorkers++ under its mutex
    | SignalFree     // availableWorker.signal(), mutex held
    | NotifyAll      // allWorkFinished.notify_all(), then the mutex is released
    | AwaitRequest   // requested.wait()
    | TestStop       // if (stopWorking) break
    | RunThunk       // work()
    | Exited
    | WorkerFailed

  /** The last two fields are history: whether `work` has been assigned and not
      yet run to its end, and how many requests were taken as stop signals. */
  datatype Worker = Worker(
    pc: WorkerPc,
    requested: nat,
    work: Option<Thunk>,
    available: bool,
    stopWorking: bool,
    live: bool,
    stopsTaken: nat)

  datatype DispatcherPc =
    | Spawn(next: nat)                        // constructor loop starting workers
    | AwaitWork                               // availableWork.wait()
    | AwaitWorker                             // availableWorker.wait()
    | TestPoolStop                            // if (stopWorking) break
    | Scan(at: nat)                           // getAvailableWorker, one flag at a time
    | ClearFlag(target: nat)                  // markWorkerAsUnavailable: asserts and flag write
    | Decrement(target: nat)                  // numAvailableWorkers-- under its mutex
    | PopWork(target: nat)
    | AssignWork(target: nat, thunk: Thunk)   // workers[i].work = ...
    | SignalRequest(target: nat)              // workers[i].requested.signal()
    | SetStop(at: nat)                        // workers[i].stopWorking = true
    | SignalStop(at: nat)                     // workers[i].requested.signal()
    | Join(at: nat)                           // workers[i].thread.join()
    | DispatcherDone
    | DispatcherFailed

  /** A client is outside the pool, between the push and the signal of
      `schedule`, or inside `wait`.  `retest` says the condition variable's
      predicate, not the leading `if`, is being evaluated.  A sleeping client
      may wake at any time, as the C++ standard permits; which sleeps a
      notification ends is the subject of ThreadPoolWakeup. */
  datatype ClientPc =
    | Idle
    | Pushed
    | WantLock
    | Locked(retest: bool)     // about to test workQueue.empty()
    | SawEmpty(retest: bool)   // about to test the counter
    | AboutToSleep             // the predicate was false, the mutex is still held
    | Asleep
    | ClientFailed

  /** How far the destructor is past its own `wait()`. */
  datatype Phase = Open | StopNext | WorkSignalNext | WorkerSignalNext | JoinNext | Gone

  datatype Pool = Pool(
    workers: seq<Worker>,
    dispatcher: DispatcherPc,
    clients: seq<ClientPc>,
    destroyer: Option<nat>,
    phase: Phase,
    queue: seq<Thunk>,
    availableWork: nat,
    availableWorker: nat,
    stopWorking: bool,
    numAvailable: int,
    queueMutex: Option<nat>,
    counterMutex: Option<nat>,
    // history
    pushed: seq<Thunk>,
    popped: seq<Thunk>,
    finished: multiset<Thunk>)

  datatype Step =
    | WorkerStep(worker: nat)
    | DispatcherStep
    | DestructorStep
    | ClientStep(client: nat)
    | CallSchedule(client: nat, thunk: Thunk)
    | CallWait(client: nat)
    | CallDestructor(client: nat)

  const NEW_WORKER := Worker(NotStarted, 0, None, false, false, false, 0)

  function Init(numThreads: nat, numClients: nat): Pool
  {
    Pool(seq(numThreads, _ => NEW_WORKER), Spawn(0), seq(numClients, _ => Idle),
         None, Open, [], 0, 0, false, 0, None, None, [], [], multiset{})
  }

  // ----- workers

  predicate WorkerCan(s: Pool, i: nat)
  {
    && i < |s.workers|
    && match s.workers[i].pc
       case NotStarted => false
       case Increment => s.counterMutex == None
       case AwaitRequest => s.workers[i].requested > 0
       case Exited => false
       case WorkerFailed => false
       case _ => true
  }

  function WorkerNext(s: Pool, i: nat): Pool
    requires WorkerCan(s, i)
  {
    var w := s.workers[i];
    match w.pc
    case SetFlag =>
      if w.available then s.(workers := s.workers[i := w.(pc := WorkerFailed)])
      else s.(workers := s.workers[i := w.(pc := Increment, available := true)])
    case Increment =>
      s.(workers := s.workers[i := w.(pc := SignalFree)],
         numAvailable := s.numAvailable + 1, counterMutex := Some(i))
    case SignalFree =>
      s.(workers := s.workers[i := w.(pc := NotifyAll)], availableWorker := s.availableWorker + 1)
    case NotifyAll =>
      s.(workers := s.workers[i := w.(pc := AwaitRequest)], counterMutex := None)
    case AwaitRequest =>
      s.(workers := s.workers[i := w.(pc := TestStop, requested := w.requested - 1)])
    case TestStop =>
      if w.stopWorking then s.(workers := s.workers[i := w.(pc := Exited, stopsTaken := w.stopsTaken + 1)])
      else s.(workers := s.workers[i := w.(pc := RunThunk)])
    case RunThunk =>
      (match w.work
       case None => s.(workers := s.workers[i := w.(pc := WorkerFailed)])
       case Some(t) =>
         s.(workers := s.workers[i := w.(pc := SetFlag, live := false)],
            finished := s.finished + multiset{t}))
  }

  // ----- dispatcher

  predicate DispatcherCan(s: Pool)
  {
    match s.dispatcher
    case AwaitWork => s.availableWork > 0
    case AwaitWorker => s.availableWorker > 0
    case Decrement(i) => i < |s.workers| && s.counterMutex == None
    case PopWork(i) => s.queueMutex == None
    case AssignWork(i, t) => i < |s.workers|
    case SignalRequest(i) => i < |s.workers|
    case SignalStop(i) => i < |s.workers|
    case Join(i) => i < |s.workers| ==> s.workers[i].pc == Exited
    case DispatcherDone => false
    case DispatcherFailed => false
    case _ => true
  }

  function DispatcherNext(s: Pool): Pool
    requires DispatcherCan(s)
  {
    match s.dispatcher
    case Spawn(i) =>
      if i < |s.workers| then
        s.(workers := s.workers[i := s.workers[i].(pc := SetFlag)], dispatcher := Spawn(i + 1))
      else s.(dispatcher := AwaitWork)
    case AwaitWork => s.(availableWork := s.availableWork - 1, dispatcher := AwaitWorker)
    case AwaitWorker => s.(availableWorker := s.availableWorker - 1, dispatcher := TestPoolStop)
    case TestPoolStop => s.(dispatcher := if s.stopWorking then SetStop(0) else Scan(0))
    case Scan(i) =>
      if i >= |s.workers| then s.(dispatcher := DispatcherFailed)  // assert(i >= 0)
      else s.(dispatcher := if s.workers[i].available then ClearFlag(i) else Scan(i + 1))
    case ClearFlag(i) =>
      if i < |s.workers| && s.workers[i].available && s.numAvailable > 0 then
        s.(workers := s.workers[i := s.workers[i].(available := false)], dispatcher := Decrement(i))
      else s.(dispatcher := DispatcherFailed)
    case Decrement(i) => s.(numAvailable := s.numAvailable - 1, dispatcher := PopWork(i))
    case PopWork(i) =>
      if s.queue == [] then s.(dispatcher := DispatcherFailed)     // front() of an empty queue
      else s.(queue := s.queue[1..], popped := s.popped + [s.queue[0]], dispatcher := AssignWork(i, s.queue[0]))
    case AssignWork(i, t) =>
      s.(workers := s.workers[i := s.workers[i].(work := Some(t), live := true)], dispatcher := SignalRequest(i))
    case SignalRequest(i) =>
      s.(workers := s.workers[i := s.workers[i].(requested := s.workers[i].requested + 1)], dispatcher := AwaitWork)
    case SetStop(i) =>
      if i < |s.workers| then
        s.(workers := s.workers[i := s.workers[i].(stopWorking := true)], dispatcher := SignalStop(i))
      else s.(dispatcher := Join(0))
    case SignalStop(i) =>
      s.(workers := s.workers[i := s.workers[i].(requested := s.workers[i].requested + 1)], dispatcher := SetStop(i + 1))
    case Join(i) => s.(dispatcher := if i < |s.workers| then Join(i + 1) else DispatcherDone)
  }

  // ----- destructor, after its wait() has returned

  predicate DestructorCan(s: Pool)
  {
    match s.phase
    case Open => false
    case JoinNext => s.dispatcher == DispatcherDone
    case Gone => false
    case _ => true
  }

  function DestructorNext(s: Pool): Pool
    requires DestructorCan(s)
  {
    match s.phase
    case StopNext => s.(stopWorking := true, phase := WorkSignalNext)
    case WorkSignalNext => s.(availableWork := s.availableWork + 1, phase := WorkerSignalNext)
    case WorkerSignalNext => s.(availableWorker := s.availableWorker + 1, phase := JoinNext)
    case JoinNext => s.(phase := Gone)
  }

  // ----- clients

  predicate ClientCan(s: Pool, c: nat)
  {
    && c < |s.clients|
    && match s.clients[c]
       case Idle => false
       case ClientFailed => false
       case WantLock => s.queueMutex == None
       case SawEmpty(_) => s.counterMutex == None
       case Asleep => s.queueMutex == None
       case _ => true
  }

  /** A failed test goes on to the condition variable's own test, or towards sleep. */
  function TestFailed(s: Pool, c: nat, retest: bool): Pool
    requires c < |s.clients|
  {
    if retest then s.(clients := s.clients[c := AboutToSleep])
    else s.(clients := s.clients[c := Locked(true)])
  }

  /** `wait` returns; if the destructor called it, the destructor goes on. */
  function WaitReturns(s: Pool, c: nat): Pool
    requires c < |s.clients|
  {
    s.(clients := s.clients[c := Idle], queueMutex := None,
       phase := if s.destroyer == Some(c) && s.phase == Open then StopNext else s.phase)
  }

  function ClientNext(s: Pool, c: nat): Pool
    requires ClientCan(s, c)
  {
    match s.clients[c]
    case Pushed => s.(clients := s.clients[c := Idle], availableWork := s.availableWork + 1)
    case WantLock => s.(clients := s.clients[c := Locked(false)], queueMutex := Some(c))
    case Locked(retest) =>
      if s.queue == [] then s.(clients := s.clients[c := SawEmpty(retest)])
      else TestFailed(s, c, retest)
    case SawEmpty(retest) =>
      if s.numAvailable == |s.workers| then WaitReturns(s, c) else TestFailed(s, c, retest)
    case AboutToSleep => s.(clients := s.clients[c := Asleep], queueMutex := None)
    case Asleep => s.(clients := s.clients[c := Locked(true)], queueMutex := Some(c))
  }

  /** New calls need an idle client and a pool whose destructor is not past its
      wait; scheduling takes the queue's mutex for the push. */
  predicate MayCall(s: Pool, c: nat)
  {
    c < |s.clients| && s.clients[c] == Idle && s.phase == Open && s.destroyer != Some(c)
  }

  // ----- the whole machine

  predicate Enabled(s: Pool, step: Step)
  {
    match step
    case WorkerStep(i) => WorkerCan(s, i)
    case DispatcherStep => DispatcherCan(s)
    case DestructorStep => DestructorCan(s)
    case ClientStep(c) => ClientCan(s, c)
    case CallSchedule(c, _) => MayCall(s, c) && s.queueMutex == None
    case CallWait(c) => MayCall(s, c)
    case CallDestructor(c) => MayCall(s, c) && s.destroyer == None
  }

  function Apply(s: Pool, step: Step): Pool
    requires Enabled(s, step)
  {
    match step
    case WorkerStep(i) => WorkerNext(s, i)
    case DispatcherStep => DispatcherNext(s)
    case DestructorStep => DestructorNext(s)
    case ClientStep(c) => ClientNext(s, c)
    case CallSchedule(c, t) =>
      if s.stopWorking then s.(clients := s.clients[c := ClientFailed])   // assert(!stopWorking)
      else s.(clients := s.clients[c := Pushed], queue := s.queue + [t], pushed := s.pushed + [t])
    case CallWait(c) => s.(clients := s.clients[c := WantLock])
    case CallDestructor(c) => s.(clients := s.clients[c := WantLock], destroyer := Some(c))
  }

  /** Runs a schedule; a step that is not enabled when its turn comes is skipped,
      so the results over all schedules are exactly the reachable states. */
  function Execute(s: Pool, schedule: seq<Step>): Pool
    decreases |schedule|
  {
    if schedule == [] then s
    else Execute(if Enabled(s, schedule[0]) then Apply(s, schedule[0]) else s, schedule[1..])
  }
}
