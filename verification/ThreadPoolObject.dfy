/** The pool as the object its threads update: one method per thread performs the
    thread's next atomic action on the shared fields, and says what the pool's
    users may rely on after it. */
module ThreadPoolObject {
  import opened Wrappers
  import opened Sums
  import opened ThreadPoolMachine
  import opened ThreadPoolInvariant
  import opened ThreadPoolResults
  import opened ThreadPoolProgress

  class ThreadPool {
    var workers: seq<Worker>
    var dispatcher: DispatcherPc
    var clients: seq<ClientPc>
    var destroyer: Option<nat>
    var phase: Phase
    var workQueue: seq<Thunk>
    var availableWork: nat
    var availableWorker: nat
    var stopWorking: bool
    var numAvailableWorkers: int
    var workQueueMutex: Option<nat>
    var numAvailableWorkersMutex: Option<nat>
    // history
    var pushed: seq<Thunk>
    var popped: seq<Thunk>
    var finished: multiset<Thunk>

    function View(): Pool
      reads this
    {
      Pool(workers, dispatcher, clients, destroyer, phase, workQueue, availableWork, availableWorker,
           stopWorking, numAvailableWorkers, workQueueMutex, numAvailableWorkersMutex, pushed, popped, finished)
    }

    /** The pool is in a state that some schedule leads to. */
    ghost predicate Valid()
      reads this
    {
      Reachable(View())
    }

    constructor (numThreads: nat, numClients: nat)
      ensures Valid() && View() == Init(numThreads, numClients)
    {
      workers := seq(numThreads, _ => NEW_WORKER);
      dispatcher, clients := Spawn(0), seq(numClients, _ => Idle);
      destroyer, phase := None, Open;
      workQueue, availableWork, availableWorker := [], 0, 0;
      stopWorking, numAvailableWorkers := false, 0;
      workQueueMutex, numAvailableWorkersMutex := None, None;
      pushed, popped, finished := [], [], multiset{};
      new;
      assert View() == Execute(Init(numThreads, numClients), []);
    }

    method WorkerActs(i: nat)
      requires WorkerCan(View(), i)
      modifies this
      ensures View() == WorkerNext(old(View()), i)
    {
      var w := workers[i];
      match w.pc {
        case SetFlag =>
          workers := workers[i := if w.available then w.(pc := WorkerFailed) else w.(pc := Increment, available := true)];
        case Increment =>
          numAvailableWorkersMutex := Some(i);
          numAvailableWorkers := numAvailableWorkers + 1;
          workers := workers[i := w.(pc := SignalFree)];
        case SignalFree =>
          availableWorker := availableWorker + 1;
          workers := workers[i := w.(pc := NotifyAll)];
        case NotifyAll =>
          numAvailableWorkersMutex := None;
          workers := workers[i := w.(pc := AwaitRequest)];
        case AwaitRequest =>
          workers := workers[i := w.(pc := TestStop, requested := w.requested - 1)];
        case TestStop =>
          if w.stopWorking {
            workers := workers[i := w.(pc := Exited, stopsTaken := w.stopsTaken + 1)];
          } else {
            workers := workers[i := w.(pc := RunThunk)];
          }
        case RunThunk =>
          if w.work.None? {
            workers := workers[i := w.(pc := WorkerFailed)];
          } else {
            finished := finished + multiset{w.work.value};
            workers := workers[i := w.(pc := SetFlag, live := false)];
          }
      }
    }

    method DispatcherChooses()
      requires DispatcherCan(View())
      requires dispatcher.AwaitWork? || dispatcher.AwaitWorker? || dispatcher.TestPoolStop? || dispatcher.Scan? || dispatcher.ClearFlag?
      modifies this
      ensures View() == DispatcherNext(old(View()))
    {
      match dispatcher {
        case AwaitWork =>
          availableWork := availableWork - 1;
          dispatcher := AwaitWorker;
        case AwaitWorker =>
          availableWorker := availableWorker - 1;
          dispatcher := TestPoolStop;
        case TestPoolStop =>
          dispatcher := if stopWorking then SetStop(0) else Scan(0);
        case Scan(i) =>
          dispatcher := if i >= |workers| then DispatcherFailed
                        else if workers[i].available then ClearFlag(i) else Scan(i + 1);
        case ClearFlag(i) =>
          if i < |workers| && workers[i].available && numAvailableWorkers > 0 {
            workers := workers[i := workers[i].(available := false)];
            dispatcher := Decrement(i);
          } else {
            dispatcher := DispatcherFailed;
          }
      }
    }

    method DispatcherAssigns()
      requires DispatcherCan(View())
      requires dispatcher.Decrement? || dispatcher.PopWork? || dispatcher.AssignWork? || dispatcher.SignalRequest?
      modifies this
      ensures View() == DispatcherNext(old(View()))
    {
      match dispatcher {
        case Decrement(i) =>
          numAvailableWorkers := numAvailableWorkers - 1;
          dispatcher := PopWork(i);
        case PopWork(i) =>
          if workQueue == [] {
            dispatcher := DispatcherFailed;
          } else {
            var work := workQueue[0];
            workQueue := workQueue[1..];
            popped := popped + [work];
            dispatcher := AssignWork(i, work);
          }
        case AssignWork(i, work) =>
          workers := workers[i := workers[i].(work := Some(work), live := true)];
          dispatcher := SignalRequest(i);
        case SignalRequest(i) =>
          workers := workers[i := workers[i].(requested := workers[i].requested + 1)];
          dispatcher := AwaitWork;
      }
    }

    method DispatcherStartsOrStops()
      requires DispatcherCan(View())
      requires dispatcher.Spawn? || dispatcher.SetStop? || dispatcher.SignalStop? || dispatcher.Join?
      modifies this
      ensures View() == DispatcherNext(old(View()))
    {
      match dispatcher {
        case Spawn(i) =>
          if i < |workers| {
            workers := workers[i := workers[i].(pc := SetFlag)];
            dispatcher := Spawn(i + 1);
          } else {
            dispatcher := AwaitWork;
          }
        case SetStop(i) =>
          if i < |workers| {
            workers := workers[i := workers[i].(stopWorking := true)];
            dispatcher := SignalStop(i);
          } else {
            dispatcher := Join(0);
          }
        case SignalStop(i) =>
          workers := workers[i := workers[i].(requested := workers[i].requested + 1)];
          dispatcher := SetStop(i + 1);
        case Join(i) =>
          dispatcher := if i < |workers| then Join(i + 1) else DispatcherDone;
      }
    }

    method DispatcherActs()
      requires DispatcherCan(View())
      modifies this
      ensures View() == DispatcherNext(old(View()))
    {
      if dispatcher.Decrement? || dispatcher.PopWork? || dispatcher.AssignWork? || dispatcher.SignalRequest? {
        DispatcherAssigns();
      } else if dispatcher.Spawn? || dispatcher.SetStop? || dispatcher.SignalStop? || dispatcher.Join? {
        DispatcherStartsOrStops();
      } else {
        DispatcherChooses();
      }
    }

    method DestructorActs()
      requires DestructorCan(View())
      modifies this
      ensures View() == DestructorNext(old(View()))
    {
      match phase {
        case StopNext => stopWorking := true; phase := WorkSignalNext;
        case WorkSignalNext => availableWork := availableWork + 1; phase := WorkerSignalNext;
        case WorkerSignalNext => availableWorker := availableWorker + 1; phase := JoinNext;
        case JoinNext => phase := Gone;
      }
    }

    method ClientActs(c: nat)
      requires ClientCan(View(), c)
      modifies this
      ensures View() == ClientNext(old(View()), c)
    {
      var pc := clients[c];
      match pc {
        case Pushed =>
          availableWork := availableWork + 1;
          clients := clients[c := Idle];
        case WantLock =>
          workQueueMutex := Some(c);
          clients := clients[c := Locked(false)];
        case Locked(retest) =>
          if workQueue == [] {
            clients := clients[c := SawEmpty(retest)];
          } else {
            FailTest(c, retest);
          }
        case SawEmpty(retest) =>
          if numAvailableWorkers == |workers| {
            workQueueMutex := None;
            clients := clients[c := Idle];
            if destroyer == Some(c) && phase == Open {
              phase := StopNext;
            }
          } else {
            FailTest(c, retest);
          }
        case AboutToSleep =>
          workQueueMutex := None;
          clients := clients[c := Asleep];
        case Asleep =>
          workQueueMutex := Some(c);
          clients := clients[c := Locked(true)];
      }
    }

    method FailTest(c: nat, retest: bool)
      requires c < |clients|
      modifies this
      ensures View() == TestFailed(old(View()), c, retest)
    {
      clients := clients[c := if retest then AboutToSleep else Locked(true)];
    }

    /** `schedule` up to its signal. */
    method PushWork(c: nat, thunk: Thunk)
      requires Enabled(View(), CallSchedule(c, thunk))
      modifies this
      ensures View() == Apply(old(View()), CallSchedule(c, thunk))
    {
      if stopWorking {
        clients := clients[c := ClientFailed];
      } else {
        workQueue := workQueue + [thunk];
        pushed := pushed + [thunk];
        clients := clients[c := Pushed];
      }
    }

    // ----- what each thread's action promises

    /** The worker's asserts hold, and it finishes precisely the thunk in its slot
        when it runs one; popped thunks stay finished or held in one place. */
    method WorkerAction(i: nat)
      requires Valid() && WorkerCan(View(), i)
      modifies this
      ensures Valid() && View() == WorkerNext(old(View()), i)
      ensures i < |workers| && workers[i].pc != WorkerFailed
      ensures finished == old(finished) + (if old(workers)[i].pc == RunThunk then HeldOf(old(workers)[i]) else multiset{})
      ensures multiset(popped) == finished + Held(View())
    {
      hide Reachable, WorkerNext, Held, HeldOf;
      StepStaysReachable(View(), WorkerStep(i));
      RunsItsSlot(View(), i);
      WorkerActs(i);
      AssertsNeverFail(View());
      FifoAndExactlyOnce(View());
    }

    /** The dispatcher's asserts hold, it hands thunks out in the order they were
        pushed, and it never writes a slot still in use. */
    method DispatcherAction()
      requires Valid() && DispatcherCan(View())
      modifies this
      ensures Valid() && View() == DispatcherNext(old(View()))
      ensures dispatcher != DispatcherFailed
      ensures popped + workQueue == pushed
      ensures old(dispatcher).AssignWork? ==>
                var i := old(dispatcher).target; i < |old(workers)| && !old(workers)[i].live && old(workers)[i].requested == 0
    {
      StepStaysReachable(View(), DispatcherStep);
      SlotNeverOverwritten(View());
      hide Reachable, DispatcherNext;
      DispatcherActs();
      AssertsNeverFail(View());
      FifoAndExactlyOnce(View());
    }

    /** Once the destructor returns, all threads have been joined and every thunk
        ever pushed has been run. */
    method DestructorAction()
      requires Valid() && DestructorCan(View())
      modifies this
      ensures Valid() && View() == DestructorNext(old(View()))
      ensures phase == Gone ==> dispatcher == DispatcherDone && multiset(pushed) == finished
      ensures phase == Gone ==> forall i :: 0 <= i < |workers| ==> workers[i].pc == Exited && workers[i].stopsTaken == 1
    {
      StepStaysReachable(View(), DestructorStep);
      hide Reachable, DestructorNext;
      DestructorActs();
      if phase == Gone {
        ShutdownComplete(View());
      }
    }

    /** When the action makes `wait` return, every thunk pushed so far has been run. */
    method ClientAction(c: nat)
      requires Valid() && ClientCan(View(), c)
      modifies this
      ensures Valid() && View() == ClientNext(old(View()), c)
      ensures c < |clients| && clients[c] != ClientFailed
      ensures old(clients)[c] != Pushed && clients[c] == Idle ==> multiset(pushed) == finished
    {
      StepStaysReachable(View(), ClientStep(c));
      ClientLeaves(View(), c);
      if clients[c] != Pushed && ClientNext(View(), c).clients[c] == Idle {
        WaitReturnsOnlyWhenAllFinished(View(), c);
      }
      hide Reachable, ClientNext;
      ClientActs(c);
      AssertsNeverFail(View());
    }

    /** The assert holds, and the thunk is queued behind all others. */
    method Schedule(c: nat, thunk: Thunk)
      requires Valid() && Enabled(View(), CallSchedule(c, thunk))
      modifies this
      ensures Valid() && View() == Apply(old(View()), CallSchedule(c, thunk))
      ensures clients[c] == Pushed && workQueue == old(workQueue) + [thunk] && pushed == old(pushed) + [thunk]
    {
      StepStaysReachable(View(), CallSchedule(c, thunk));
      NotStopping(View());
      hide Reachable;
      PushWork(c, thunk);
    }

    // ----- whole runs

    method Perform(step: Step)
      requires Valid() && Enabled(View(), step)
      modifies this
      ensures Valid() && View() == Apply(old(View()), step)
    {
      StepStaysReachable(View(), step);
      hide Reachable;
      match step {
        case WorkerStep(i) => WorkerAction(i);
        case DispatcherStep => DispatcherAction();
        case DestructorStep => DestructorAction();
        case ClientStep(c) => ClientAction(c);
        case CallSchedule(c, t) => Schedule(c, t);
        case CallWait(c) => clients := clients[c := WantLock];
        case CallDestructor(c) => clients, destroyer := clients[c := WantLock], Some(c);
      }
    }

    /** Lets a scheduler pick the order of the actions; one that cannot be taken
        when its turn comes is passed over. */
    method Run(schedule: seq<Step>)
      requires Valid()
      modifies this
      ensures Valid() && View() == Execute(old(View()), schedule)
      ensures popped + workQueue == pushed && multiset(popped) == finished + Held(View())
      ensures numAvailableWorkers == Flags(View()) + (if dispatcher.Decrement? then 1 else 0) - Uncounted(View())
    {
      hide Reachable, Apply, Enabled, Held, Flags, Uncounted;
      var k := 0;
      while k < |schedule|
        invariant k <= |schedule| && Valid()
        invariant Execute(View(), schedule[k..]) == Execute(old(View()), schedule)
      {
        if Enabled(View(), schedule[k]) {
          Perform(schedule[k]);
        }
        assert schedule[k + 1..] == schedule[k..][1..];
        k := k + 1;
      }
      FifoAndExactlyOnce(View());
      CounterLagsFlags(View());
    }

    /** Any step of the pool's own threads or the destructor that can be taken. */
    method OwnAction()
      requires Valid() && exists k: nat :: OwnEnabled(View(), k)
      modifies this
      ensures Valid() && exists step :: Own(step) && Enabled(old(View()), step) && View() == Apply(old(View()), step)
    {
      hide Reachable, Apply;
      var k: nat :| k < |workers| + 2 && Enabled(View(), OwnStep(k, |workers|));
      Perform(OwnStep(k, |workers|));
    }

    /** The rest of the destructor, the pool's threads being scheduled by an
        adversary: it ends, with all threads joined, one stop signal taken by each
        worker, everything pushed run, and no thunk run on the way. */
    method Shutdown()
      requires Valid() && phase != Open
      modifies this
      ensures Valid() && phase == Gone && dispatcher == DispatcherDone
      ensures forall i :: 0 <= i < |workers| ==>
                workers[i].pc == Exited && workers[i].stopsTaken == 1 && workers[i].requested == 0
      ensures multiset(pushed) == finished && finished == old(finished) && pushed == old(pushed)
    {
      hide Reachable, Inv, ShutdownWork, Apply, Enabled;
      while phase != Gone
        invariant Valid() && phase != Open && finished == old(finished) && pushed == old(pushed)
        decreases ShutdownWork(View())
      {
        ghost var before := View();
        ReachableInv(before);
        ghost var possible := ShutdownProgress(before);
        OwnHasNumber(before, possible);
        OwnAction();
        forall step | Own(step) && Enabled(before, step) && View() == Apply(before, step)
          ensures phase != Open && finished == before.finished && pushed == before.pushed
          ensures ShutdownWork(View()) < ShutdownWork(before)
        {
          ShutdownStep(before, step);
          OwnPushesNothing(before, step);
        }
      }
      ShutdownComplete(View());
    }

    /** The open pool left to itself, its threads being scheduled by an adversary:
        they come to rest, and everything pushed has then been run. */
    method Drain()
      requires Valid() && phase == Open && |workers| > 0 && workQueueMutex == None
      requires forall c :: 0 <= c < |clients| ==> clients[c] != Pushed
      modifies this
      ensures Valid() && phase == Open && clients == old(clients)
      ensures workQueue == [] && multiset(pushed) == finished && pushed == old(pushed)
      ensures numAvailableWorkers == |workers| && numAvailableWorkersMutex == None && workQueueMutex == None
      ensures |workers| == |old(workers)| && destroyer == old(destroyer)
    {
      hide Reachable, Inv, OpenWork, Apply, Enabled;
      var busy := OwnWork();
      while busy
        invariant Valid() && Undisturbed(old(View()), View())
        invariant busy <==> exists k: nat :: OwnEnabled(View(), k)
        decreases OpenWork(View()) + (if busy then 1 else 0)
      {
        ghost var before := View();
        ReachableInv(before);
        OwnAction();
        forall step | Own(step) && Enabled(before, step) && View() == Apply(before, step)
          ensures Undisturbed(before, View()) && OpenWork(View()) < OpenWork(before)
        {
          OpenStep(before, step);
          OwnLeaves(before, step);
        }
        busy := OwnWork();
      }
      forall step | Own(step) ensures !Enabled(View(), step) {
        if Enabled(View(), step) {
          OwnHasNumber(View(), step);
        }
      }
      QuietPoolIsDone(View());
    }

    /** The rest of a client's `wait` once the pool is idle, whether the client has
        slept or not: it returns, with everything pushed run, and the destructor's
        goes on. */
    method FinishWait(c: nat)
      requires Valid() && CanFinishWait(View(), c) && workQueue == [] && numAvailableWorkers == |workers|
      modifies this
      ensures Valid() && |clients| == |old(clients)| && clients[c] == Idle
      ensures multiset(pushed) == finished && pushed == old(pushed)
      ensures phase == PhaseAfterWait(old(View()), c)
    {
      hide Reachable;
      while clients[c] != Idle
        invariant Valid() && |clients| == |old(clients)| && c < |clients| && pushed == old(pushed)
        invariant if clients[c] == Idle then multiset(pushed) == finished && phase == PhaseAfterWait(old(View()), c)
                  else CanFinishWait(View(), c) && workQueue == [] && numAvailableWorkers == |workers|
                       && phase == old(phase) && destroyer == old(destroyer)
        decreases WaitRank(clients[c])
      {
        hide ClientNext;
        WaitStep(View(), c);
        ClientLeaves(View(), c);
        ClientAction(c);
      }
    }

    /** A `wait` on an open pool that nobody else uses returns, under any scheduling
        of the pool's threads, with everything pushed run. */
    method DrainAndWait(c: nat)
      requires Valid() && phase == Open && |workers| > 0 && workQueueMutex == None
      requires c < |clients| && (clients[c].WantLock? || clients[c].Asleep?)
      requires forall c :: 0 <= c < |clients| ==> clients[c] != Pushed
      modifies this
      ensures Valid() && |clients| == |old(clients)| && clients[c] == Idle
      ensures multiset(pushed) == finished && pushed == old(pushed)
      ensures phase == if old(destroyer) == Some(c) then StopNext else Open
    {
      Drain();
      FinishWait(c);
    }

    /** Whether some thread of the pool, or the destructor, can move. */
    method OwnWork() returns (busy: bool)
      ensures busy <==> exists k: nat :: OwnEnabled(View(), k)
    {
      hide Enabled;
      for k := 0 to |workers| + 2
        invariant forall j: nat :: j < k ==> !OwnEnabled(View(), j)
      {
        if OwnEnabled(View(), k) {
          return true;
        }
      }
      return false;
    }
  }

  /** The life of a pool with one client: it is built, the thunks are scheduled, and
      it is destroyed, its threads being scheduled by an adversary. Exactly the
      thunks scheduled have been run when the destructor returns. */
  method RunAll(numThreads: nat, thunks: seq<Thunk>) returns (pool: ThreadPool)
    requires numThreads > 0
    ensures pool.Valid() && pool.phase == Gone && pool.pushed == thunks && pool.finished == multiset(thunks)
  {
    hide Reachable;
    pool := new ThreadPool(numThreads, 1);
    for i := 0 to |thunks|
      invariant pool.Valid() && fresh(pool) && pool.phase == Open && |pool.workers| == numThreads
      invariant pool.clients == [Idle] && pool.destroyer == None && pool.workQueueMutex == None
      invariant pool.pushed == thunks[..i]
    {
      pool.Schedule(0, thunks[i]);
      pool.ClientAction(0);
      assert thunks[..i + 1] == thunks[..i] + [thunks[i]];
    }
    assert thunks[..|thunks|] == thunks;
    pool.Perform(CallDestructor(0));
    pool.DrainAndWait(0);
    pool.Shutdown();
  }

  // ----- the own steps, numbered

  function OwnStep(k: nat, n: nat): Step
  {
    if k < n then WorkerStep(k) else if k == n then DispatcherStep else DestructorStep
  }

  predicate OwnEnabled(s: Pool, k: nat)
  {
    k < |s.workers| + 2 && Enabled(s, OwnStep(k, |s.workers|))
  }

  lemma OwnHasNumber(s: Pool, step: Step)
    requires Own(step) && Enabled(s, step)
    ensures exists k: nat :: OwnEnabled(s, k)
  {
    var n := |s.workers|;
    var k := match step
      case WorkerStep(i) => i
      case DispatcherStep => n
      case _ => n + 1;
    assert OwnEnabled(s, k);
  }

  /** What own steps leave alone in an open pool. */
  predicate Undisturbed(s: Pool, t: Pool)
  {
    t.phase == s.phase && t.clients == s.clients && t.destroyer == s.destroyer && t.queueMutex == s.queueMutex && t.pushed == s.pushed && |t.workers| == |s.workers|
  }

  lemma WorkerLeavesClients(s: Pool, i: nat)
    requires WorkerCan(s, i)
    ensures Undisturbed(s, WorkerNext(s, i))
  {
  }

  lemma DispatcherLeavesClients(s: Pool)
    requires DispatcherCan(s)
    ensures Undisturbed(s, DispatcherNext(s))
  {
  }

  lemma OwnLeaves(s: Pool, step: Step)
    requires Own(step) && Enabled(s, step) && s.phase == Open
    ensures Undisturbed(s, Apply(s, step))
  {
    hide WorkerNext, DispatcherNext, Undisturbed;
    match step
    case WorkerStep(i) => WorkerLeavesClients(s, i);
    case DispatcherStep => DispatcherLeavesClients(s);
  }

  lemma OwnPushesNothing(s: Pool, step: Step)
    requires Own(step) && Enabled(s, step)
    ensures Apply(s, step).pushed == s.pushed
  {
    hide WorkerNext, DispatcherNext;
    match step
    case WorkerStep(i) => WorkerLeavesClients(s, i);
    case DispatcherStep => DispatcherLeavesClients(s);
    case DestructorStep =>
  }

  lemma NotStopping(s: Pool)
    requires Reachable(s) && s.phase == Open
    ensures !s.stopWorking
  {
    ReachableInv(s);
  }

  /** What a worker adds to the finished thunks is what its slot held. */
  lemma RunsItsSlot(s: Pool, i: nat)
    requires Reachable(s) && WorkerCan(s, i)
    ensures |WorkerNext(s, i).workers| == |s.workers|
    ensures WorkerNext(s, i).finished == s.finished + (if s.workers[i].pc == RunThunk then HeldOf(s.workers[i]) else multiset{})
  {
    SlotNeverOverwritten(s);
  }
}
