/** The open pool gets its work done: its own threads can take only boundedly many
    steps between calls, and they stop only when everything pushed has been run. */
module ThreadPoolProgress {
  import opened Wrappers
  import opened Sums
  import opened ThreadPoolMachine
  import opened ThreadPoolInvariant
  import opened ThreadPoolResults

  /** How many steps a worker can still take before it waits for a request. */
  function WorkerRank(w: Worker): nat
  {
    7 * w.requested + match w.pc
                      case TestStop => 6
                      case RunThunk => 5
                      case SetFlag => 4
                      case Increment => 3
                      case SignalFree => 2
                      case NotifyAll => 1
                      case _ => 0
  }

  /** And the dispatcher, before it waits for work or pops some. */
  function DispatcherRank(d: DispatcherPc, n: nat): nat
  {
    match d
    case Spawn(i) => n + 9 + (if i <= n then 5 * (n - i) else 0)
    case AwaitWork => n + 8
    case AwaitWorker => n + 7
    case TestPoolStop => n + 6
    case Scan(i) => 5 + (if i <= n then n - i else 0)
    case ClearFlag(_) => 4
    case Decrement(_) => 3
    case PopWork(_) => 2
    case AssignWork(_, _) => n + 17
    case SignalRequest(_) => n + 16
    case _ => 0
  }

  /** What a queued thunk is worth. */
  function ThunkWork(n: nat): nat { n + 16 }

  function WorkAs(s: Pool, workers: nat): nat
  {
    workers + DispatcherRank(s.dispatcher, |s.workers|) + ThunkWork(|s.workers|) * |s.queue|
  }

  /** A bound on the steps left to the open pool's threads. */
  function OpenWork(s: Pool): nat { WorkAs(s, Sum(s.workers, WorkerRank)) }

  lemma WorkerLowersRank(s: Pool, i: nat)
    requires WorkerCan(s, i)
    ensures var t := WorkerNext(s, i);
            && WorkerRank(t.workers[i]) < WorkerRank(s.workers[i])
            && t.workers == s.workers[i := t.workers[i]] && t.dispatcher == s.dispatcher && t.queue == s.queue
  {
  }

  lemma WorkerLowersWork(s: Pool, i: nat)
    requires WorkerCan(s, i)
    ensures OpenWork(WorkerNext(s, i)) < OpenWork(s)
  {
    var t := WorkerNext(s, i);
    WorkerLowersRank(s, i);
    hide WorkerNext, WorkerRank, DispatcherRank;
    SumUpdate(s.workers, i, t.workers[i], WorkerRank);
  }

  lemma PopLowersWork(s: Pool, r: nat)
    requires DispatcherCan(s) && s.dispatcher.PopWork? && s.queue != []
    ensures WorkAs(DispatcherNext(s), r) < WorkAs(s, r)
  {
    var W := ThunkWork(|s.workers|);
    assert W * (|s.queue| - 1) == W * |s.queue| - W;
  }

  /** A step of the dispatcher that leaves the queue; r counts the workers. */
  lemma DispatcherLowersRank(s: Pool, r: nat, r': nat)
    requires DispatcherCan(s) && DispatcherOk(s) && Supplied(s) && !s.dispatcher.PopWork?
    requires !PastLoop(s.dispatcher) && !s.stopWorking
    requires Written(s) == None ==> r' == r
    requires Written(s).Some? ==>
               Written(s).value < |s.workers| &&
               r' + WorkerRank(s.workers[Written(s).value]) == r + WorkerRank(DispatcherNext(s).workers[Written(s).value])
    ensures WorkAs(DispatcherNext(s), r') < WorkAs(s, r)
  {
    assert DispatcherNext(s).queue == s.queue && |DispatcherNext(s).workers| == |s.workers|;
  }

  lemma DispatcherLowersWork(s: Pool)
    requires DispatcherCan(s) && DispatcherOk(s) && Supplied(s) && !PastLoop(s.dispatcher) && !s.stopWorking
    ensures OpenWork(DispatcherNext(s)) < OpenWork(s)
  {
    var t := DispatcherNext(s);
    DispatcherWrites(s);
    if s.dispatcher.PopWork? {
      PopLowersWork(s, Sum(s.workers, WorkerRank));
    } else {
      if Written(s).Some? {
        SumUpdate(s.workers, Written(s).value, t.workers[Written(s).value], WorkerRank);
      }
      DispatcherLowersRank(s, Sum(s.workers, WorkerRank), Sum(t.workers, WorkerRank));
    }
  }

  /** While the pool is open, every own step uses up some of the bounded work, a
      scheduled thunk adds its share, and nothing else adds any. */
  lemma OpenStep(s: Pool, step: Step)
    requires Inv(s) && s.phase == Open && Enabled(s, step)
    ensures |Apply(s, step).workers| == |s.workers|
    ensures if Own(step) then OpenWork(Apply(s, step)) < OpenWork(s)
            else if step.CallSchedule? then OpenWork(Apply(s, step)) == OpenWork(s) + ThunkWork(|s.workers|)
            else OpenWork(Apply(s, step)) == OpenWork(s)
  {
    hide WorkerNext, DispatcherNext, ClientNext, OpenWork, WorkersOk, Counted, Mutexes, Conserved, DispatcherOk;
    match step
    case WorkerStep(i) =>
      WorkerLowersWork(s, i);
      WorkerLowersRank(s, i);
    case DispatcherStep =>
      CountsSupply(s);
      DispatcherLowersWork(s);
      DispatcherWrites(s);
    case ClientStep(c) =>
      ClientLeaves(s, c);
      SameWork(s, ClientNext(s, c));
    case CallSchedule(c, thunk) => PushAddsWork(s, Apply(s, step), thunk);
    case CallWait(_) => SameWork(s, Apply(s, step));
    case CallDestructor(_) => SameWork(s, Apply(s, step));
  }

  lemma SameWork(s: Pool, t: Pool)
    requires t.workers == s.workers && t.dispatcher == s.dispatcher && t.queue == s.queue
    ensures OpenWork(t) == OpenWork(s)
  {
  }

  lemma PushAddsWork(s: Pool, t: Pool, thunk: Thunk)
    requires t.workers == s.workers && t.dispatcher == s.dispatcher && t.queue == s.queue + [thunk]
    ensures OpenWork(t) == OpenWork(s) + ThunkWork(|s.workers|)
  {
    var W := ThunkWork(|s.workers|);
    assert W * (|s.queue| + 1) == W * |s.queue| + W;
  }

  /** The calls of `schedule` that take effect when a schedule is run. */
  function Scheduled(s: Pool, schedule: seq<Step>): nat
    decreases |schedule|
  {
    if schedule == [] then 0
    else if Enabled(s, schedule[0]) then
      (if schedule[0].CallSchedule? then 1 else 0) + Scheduled(Apply(s, schedule[0]), schedule[1..])
    else Scheduled(s, schedule[1..])
  }

  /** However an open pool is scheduled, its threads take a number of steps bounded
      by the work at hand and the thunks scheduled meanwhile. */
  lemma {:induction false} OpenRunsAreBounded(s: Pool, schedule: seq<Step>)
    requires Inv(s) && Execute(s, schedule).phase == Open
    ensures s.phase == Open
    ensures OwnSteps(s, schedule) <= OpenWork(s) + ThunkWork(|s.workers|) * Scheduled(s, schedule)
    decreases |schedule|
  {
    hide Inv, Apply, OpenWork, ThunkWork;
    if s.phase != Open {
      ShutdownBounded(s, schedule);
      assert false;
    }
    if schedule != [] {
      var step, rest := schedule[0], schedule[1..];
      if Enabled(s, step) {
        StepKeepsInv(s, step);
        OpenStep(s, step);
        OpenRunsAreBounded(Apply(s, step), rest);
        var W, k := ThunkWork(|s.workers|), Scheduled(Apply(s, step), rest);
        assert W * (1 + k) == W + W * k;
      } else {
        OpenRunsAreBounded(s, rest);
      }
    }
  }

  lemma HolderCanStep(s: Pool, i: nat)
    requires Mutexes(s) && s.counterMutex == Some(i)
    ensures WorkerCan(s, i)
  {
    assert s.workers[i].pc == SignalFree || s.workers[i].pc == NotifyAll;
  }

  /** With no worker step enabled and none claimed by the dispatcher, every worker
      waits with no request and no thunk. */
  lemma QuietWorker(s: Pool, i: nat)
    requires i < |s.workers| && !WorkerCan(s, i) && WorkerOk(s.workers[i], i, s.dispatcher) && s.counterMutex == None
    requires s.dispatcher.AwaitWork? || s.dispatcher.AwaitWorker?
    ensures s.workers[i].available && !s.workers[i].live && s.workers[i].pc == AwaitRequest
  {
  }

  /** The dispatcher without an enabled step waits for one of its semaphores. */
  lemma QuietDispatcher(s: Pool)
    requires DispatcherOk(s) && !PastLoop(s.dispatcher) && s.queueMutex == None && s.counterMutex == None && !DispatcherCan(s)
    ensures (s.dispatcher.AwaitWork? && s.availableWork == 0) || (s.dispatcher.AwaitWorker? && s.availableWorker == 0)
  {
  }

  /** An open pool whose threads have all come to rest, with no `schedule` or test
      of `wait` under way, has run everything that was ever pushed. */
  lemma QuietPoolIsDone(s: Pool)
    requires Reachable(s) && s.phase == Open && |s.workers| > 0 && s.queueMutex == None
    requires forall c :: 0 <= c < |s.clients| ==> s.clients[c] != Pushed
    requires forall step :: Own(step) ==> !Enabled(s, step)
    ensures s.queue == [] && multiset(s.pushed) == s.finished
    ensures s.numAvailable == |s.workers| && s.counterMutex == None
    ensures forall i :: 0 <= i < |s.workers| ==> s.workers[i].available && s.workers[i].pc == AwaitRequest
  {
    ReachableInv(s);
    assert Own(DispatcherStep) && !DispatcherCan(s);
    forall i: nat ensures !WorkerCan(s, i) {
      assert Own(WorkerStep(i));
    }
    hide WorkerCan, DispatcherCan, WorkerOk, Mutexes, DispatcherOk, Reachable, Enabled, CountedAs;
    if s.counterMutex.Some? {
      HolderCanStep(s, s.counterMutex.value);
      assert false;
    }
    QuietDispatcher(s);
    forall i | 0 <= i < |s.workers|
      ensures s.workers[i].available && s.workers[i].pc == AwaitRequest && HeldOf(s.workers[i]) == multiset{}
    {
      QuietWorker(s, i);
    }
    QuietCounts(s);
    BagEmpty(s.workers, HeldOf);
    assert s.popped + [] == s.popped;
  }

  lemma QuietCounts(s: Pool)
    requires Counted(s) && s.phase == Open && |s.workers| > 0
    requires forall i :: 0 <= i < |s.workers| ==> s.workers[i].available && s.workers[i].pc == AwaitRequest
    requires forall c :: 0 <= c < |s.clients| ==> s.clients[c] != Pushed
    requires (s.dispatcher.AwaitWork? && s.availableWork == 0) || (s.dispatcher.AwaitWorker? && s.availableWorker == 0)
    ensures s.queue == [] && s.numAvailable == |s.workers|
  {
    SumZero(s.workers, UnsignalledOf);
    SumZero(s.workers, UncountedOf);
    SumZero(s.clients, PushedOf);
    SumTerm(s.workers, 0, FlagOf);
    AllFlags(s.workers);
  }

  lemma {:induction false} AllFlags(workers: seq<Worker>)
    requires forall i :: 0 <= i < |workers| ==> workers[i].available
    ensures Sum(workers, FlagOf) == |workers|
  {
    if workers != [] {
      AllFlags(workers[..|workers| - 1]);
    }
  }

  // ----- wait returns

  /** The client is inside `wait`, and no other thread holds a mutex it needs. */
  predicate CanFinishWait(s: Pool, c: nat)
  {
    && c < |s.clients| && s.counterMutex == None
    && if HoldsQueue(s.clients[c]) then s.queueMutex == Some(c)
       else (s.clients[c].WantLock? || s.clients[c].Asleep?) && s.queueMutex == None
  }

  /** How many actions the client is away from the end of a successful test. */
  function WaitRank(pc: ClientPc): nat
  {
    match pc
    case AboutToSleep => 4
    case WantLock => 3
    case Asleep => 3
    case Locked(_) => 2
    case SawEmpty(_) => 1
    case _ => 0
  }

  /** The phase once the client's `wait` has returned: the destructor goes on. */
  function PhaseAfterWait(s: Pool, c: nat): Phase
  {
    if s.destroyer == Some(c) && s.phase == Open then StopNext else s.phase
  }

  /** How many actions the client is away from giving up the queue's mutex. */
  function HoldRank(pc: ClientPc): nat
  {
    match pc
    case Locked(retest) => if retest then 3 else 5
    case SawEmpty(retest) => if retest then 2 else 4
    case AboutToSleep => 1
    case _ => 0
  }

  /** Whatever its tests find, a client in `wait` gives the queue's mutex up within
      five actions, either to sleep or to return. */
  lemma HoldStep(s: Pool, c: nat)
    requires ClientCan(s, c) && HoldsQueue(s.clients[c]) && s.queueMutex == Some(c)
    ensures HoldRank(s.clients[c]) <= 5
    ensures var t := ClientNext(s, c);
            && |t.clients| == |s.clients| && HoldRank(t.clients[c]) < HoldRank(s.clients[c])
            && if HoldsQueue(t.clients[c]) then t.queueMutex == Some(c)
               else t.queueMutex == None && (t.clients[c].Asleep? || t.clients[c] == Idle)
  {
  }

  /** With the queue empty and all workers available, each action of a client in
      `wait`, whether newly called or woken after any number of sleeps, brings it
      nearer to its return. */
  lemma WaitStep(s: Pool, c: nat)
    requires CanFinishWait(s, c) && s.queue == [] && s.numAvailable == |s.workers|
    ensures ClientCan(s, c)
    ensures var t := ClientNext(s, c);
            && t.queue == [] && t.numAvailable == |t.workers| && t.workers == s.workers && t.destroyer == s.destroyer
            && if s.clients[c].SawEmpty? then t.clients[c] == Idle && t.queueMutex == None && t.phase == PhaseAfterWait(s, c)
               else CanFinishWait(t, c) && WaitRank(t.clients[c]) < WaitRank(s.clients[c]) && t.phase == s.phase
  {
  }

  function Actions(c: nat, n: nat): seq<Step>
  {
    if n == 0 then [] else [ClientStep(c)] + Actions(c, n - 1)
  }

  /** So `wait` returns within four actions of the client, and the destructor's
      `wait` lets the destructor go on. */
  lemma {:induction false} WaitReturns(s: Pool, c: nat)
    requires CanFinishWait(s, c) && s.queue == [] && s.numAvailable == |s.workers|
    ensures WaitRank(s.clients[c]) <= 4
    ensures var t := Execute(s, Actions(c, WaitRank(s.clients[c]))); |t.clients| == |s.clients| && t.clients[c] == Idle && t.phase == PhaseAfterWait(s, c)
    decreases WaitRank(s.clients[c])
  {
    var n, t := WaitRank(s.clients[c]), ClientNext(s, c);
    WaitStep(s, c);
    ClientLeaves(s, c);
    hide ClientNext;
    assert Actions(c, n)[0] == ClientStep(c) && Actions(c, n)[1..] == Actions(c, n - 1);
    if s.clients[c].SawEmpty? {
      assert Execute(t, Actions(c, 0)) == t;
    } else {
      assert WaitRank(t.clients[c]) == n - 1;
      WaitReturns(t, c);
    }
  }
}
