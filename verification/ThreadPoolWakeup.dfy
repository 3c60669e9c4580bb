/** Which sleeps of `wait` a notification ends. The worker notifies without holding
    the queue's mutex, so a client that has found the counter short may fall asleep
    after the last notification. */
module ThreadPoolWakeup {
  import opened Wrappers
  import opened Sums
  import opened ThreadPoolMachine
  import opened ThreadPoolInvariant
  import opened ThreadPoolResults
  import opened ThreadPoolProgress

  /** A worker that still has something to do before it waits for a request. */
  predicate Unparked(w: Worker) { w.pc != AwaitRequest || !w.available }

  ghost predicate Busy(s: Pool) { s.queue != [] || exists i :: 0 <= i < |s.workers| && Unparked(s.workers[i]) }

  /** The step is a call of `notify_all`. */
  predicate Notifies(s: Pool, step: Step)
  {
    step.WorkerStep? && step.worker < |s.workers| && s.workers[step.worker].pc == NotifyAll
  }

  predicate NotifiedIn(s: Pool, schedule: seq<Step>)
    decreases |schedule|
  {
    schedule != [] &&
    if Enabled(s, schedule[0]) then Notifies(s, schedule[0]) || NotifiedIn(Apply(s, schedule[0]), schedule[1..])
    else NotifiedIn(s, schedule[1..])
  }

  // ----- a busy pool notifies

  lemma WorkerStaysUnparked(s: Pool, i: nat, k: nat)
    requires WorkerCan(s, i) && k < |s.workers| && s.workers[i].pc != NotifyAll && Unparked(s.workers[k])
    ensures var t := WorkerNext(s, i); |t.workers| == |s.workers| && Unparked(t.workers[k])
  {
  }

  lemma DispatcherStaysBusy(s: Pool, k: nat)
    requires DispatcherCan(s) && k < |s.workers| && Unparked(s.workers[k])
    ensures var t := DispatcherNext(s); |t.workers| == |s.workers| && Unparked(t.workers[k])
  {
  }

  /** Whoever pops the last thunk has taken a worker for it. */
  lemma PopStaysBusy(s: Pool)
    requires DispatcherCan(s) && DispatcherOk(s) && WorkersOk(s) && s.queue != []
    ensures Busy(DispatcherNext(s))
  {
    var t := DispatcherNext(s);
    if s.dispatcher.PopWork? {
      var i := s.dispatcher.target;
      assert WorkerOk(s.workers[i], i, s.dispatcher);
      assert t.workers == s.workers && Unparked(t.workers[i]);
    } else {
      assert t.queue == s.queue;
    }
  }

  lemma BusyStep(s: Pool, step: Step)
    requires Inv(s) && Busy(s) && Enabled(s, step) && !Notifies(s, step)
    ensures Busy(Apply(s, step))
  {
    hide WorkerNext, DispatcherNext, ClientNext, Unparked, Counted, Mutexes, Conserved, PhaseOk;
    match step
    case WorkerStep(i) =>
      WorkerLowersRank(s, i);
      if s.queue == [] {
        var k :| 0 <= k < |s.workers| && Unparked(s.workers[k]);
        WorkerStaysUnparked(s, i, k);
      }
    case DispatcherStep =>
      if s.queue == [] {
        var k :| 0 <= k < |s.workers| && Unparked(s.workers[k]);
        DispatcherStaysBusy(s, k);
      } else {
        PopStaysBusy(s);
      }
    case DestructorStep =>
    case ClientStep(c) => ClientLeaves(s, c);
    case CallSchedule(_, _) =>
    case CallWait(_) =>
    case CallDestructor(_) =>
  }

  /** A pool with work in it does not come to rest without a notification. */
  lemma {:induction false} BusyPoolNotifies(s: Pool, schedule: seq<Step>)
    requires Inv(s) && Busy(s) && !Busy(Execute(s, schedule))
    ensures NotifiedIn(s, schedule)
    decreases |schedule|
  {
    hide Inv, Busy, Apply, Enabled, Notifies;
    if schedule != [] {
      var step, rest := schedule[0], schedule[1..];
      if Enabled(s, step) {
        if !Notifies(s, step) {
          StepKeepsInv(s, step);
          BusyStep(s, step);
          BusyPoolNotifies(Apply(s, step), rest);
        }
      } else {
        BusyPoolNotifies(s, rest);
      }
    }
  }

  // ----- a pool at rest does not

  predicate AtRest(w: Worker) { w.available && (w.pc == AwaitRequest || w.pc == TestStop || w.pc == Exited) }

  ghost predicate Silent(s: Pool) { s.queue == [] && forall i :: 0 <= i < |s.workers| ==> AtRest(s.workers[i]) }

  lemma WorkerStaysAtRest(s: Pool, i: nat)
    requires WorkerCan(s, i) && WorkerOk(s.workers[i], i, s.dispatcher) && AtRest(s.workers[i])
    ensures s.workers[i].pc != NotifyAll && AtRest(WorkerNext(s, i).workers[i])
  {
  }

  lemma DispatcherStaysSilent(s: Pool, k: nat)
    requires DispatcherCan(s) && DispatcherOk(s) && Counted(s) && s.phase == Open && s.queue == []
    requires k < |s.workers| && WorkerOk(s.workers[k], k, s.dispatcher) && AtRest(s.workers[k])
    ensures var t := DispatcherNext(s); t.queue == [] && |t.workers| == |s.workers| && AtRest(t.workers[k])
  {
  }

  lemma ClosedIsSilent(s: Pool)
    requires Inv(s) && s.phase != Open
    ensures Silent(s)
  {
    hide WorkersOk, Counted, Mutexes, Conserved, DispatcherOk;
  }

  lemma SilentStep(s: Pool, step: Step)
    requires Inv(s) && Silent(s) && Enabled(s, step) && !step.CallSchedule?
    ensures Silent(Apply(s, step)) && !Notifies(s, step)
  {
    if s.phase != Open {
      StepKeepsInv(s, step);
      ShutdownStaysClosed(s, step);
      ClosedIsSilent(Apply(s, step));
    }
    hide WorkerNext, DispatcherNext, ClientNext, AtRest, Counted, Mutexes, Conserved, PhaseOk, DispatcherOk, WorkerOk;
    match step
    case WorkerStep(i) =>
      WorkerLowersRank(s, i);
      WorkerStaysAtRest(s, i);
    case DispatcherStep =>
      if s.phase == Open {
        forall k | 0 <= k < |s.workers|
          ensures |DispatcherNext(s).workers| == |s.workers| && AtRest(DispatcherNext(s).workers[k])
        {
          DispatcherStaysSilent(s, k);
        }
        DispatcherLeavesPcs(s);
      }
    case DestructorStep =>
    case ClientStep(c) => ClientLeaves(s, c);
    case CallWait(_) =>
    case CallDestructor(_) =>
  }

  lemma ShutdownStaysClosed(s: Pool, step: Step)
    requires Enabled(s, step) && s.phase != Open
    ensures Apply(s, step).phase != Open
  {
  }

  /** Once the pool is at rest nobody notifies before the next thunk is scheduled,
      not even when the pool is destroyed. */
  lemma {:induction false} SilentUntilScheduled(s: Pool, schedule: seq<Step>)
    requires Inv(s) && Silent(s) && Scheduled(s, schedule) == 0
    ensures !NotifiedIn(s, schedule)
    decreases |schedule|
  {
    hide Inv, Silent, Apply, Enabled, Notifies;
    if schedule != [] {
      var step, rest := schedule[0], schedule[1..];
      if Enabled(s, step) {
        StepKeepsInv(s, step);
        SilentStep(s, step);
        SilentUntilScheduled(Apply(s, step), rest);
      } else {
        SilentUntilScheduled(s, rest);
      }
    }
  }

  lemma NotBusyIsSilent(s: Pool)
    requires !Busy(s)
    ensures Silent(s)
  {
    forall i | 0 <= i < |s.workers| ensures AtRest(s.workers[i]) {
      assert !Unparked(s.workers[i]);
    }
  }

  // ----- a client that goes to sleep

  /** A client goes to sleep. If nothing more is scheduled until the pool is at rest,
      it is notified exactly if the pool was still busy when it went to sleep. */
  lemma NotifiedExactlyIfBusy(s: Pool, c: nat, schedule: seq<Step>)
    requires Reachable(s) && ClientCan(s, c) && s.clients[c].AboutToSleep?
    requires var t := ClientNext(s, c); Scheduled(t, schedule) == 0 && !Busy(Execute(t, schedule))
    ensures ClientNext(s, c).clients[c].Asleep?
    ensures NotifiedIn(ClientNext(s, c), schedule) <==> Busy(s)
  {
    var t := ClientNext(s, c);
    ReachableInv(s);
    StepKeepsInv(s, ClientStep(c));
    ClientLeaves(s, c);
    assert Busy(t) <==> Busy(s);
    hide Inv, Busy, Execute, Reachable;
    if Busy(t) {
      BusyPoolNotifies(t, schedule);
    } else {
      NotBusyIsSilent(t);
      SilentUntilScheduled(t, schedule);
    }
  }

  /** And it is at rest when its threads have nothing left to do. */
  lemma QuietPoolIsNotBusy(s: Pool)
    requires Reachable(s) && s.phase == Open && |s.workers| > 0 && s.queueMutex == None
    requires forall c :: 0 <= c < |s.clients| ==> s.clients[c] != Pushed
    requires forall step :: Own(step) ==> !Enabled(s, step)
    ensures !Busy(s)
  {
    QuietPoolIsDone(s);
  }

  // ----- a missed notification

  /** A pool of one worker and one client, nothing having been scheduled. */
  function Small(w: Worker, d: DispatcherPc, client: ClientPc, free: nat, count: int, queueMutex: Option<nat>, counterMutex: Option<nat>): Pool
  {
    Pool([w], d, [client], None, Open, [], 0, free, false, count, queueMutex, counterMutex, [], [], multiset{})
  }

  lemma Then(run: seq<Step>, s: Pool, step: Step, t: Pool) returns (run': seq<Step>)
    requires Execute(Init(1, 1), run) == s && Enabled(s, step) && Apply(s, step) == t
    ensures Execute(Init(1, 1), run') == t
  {
    hide Execute, Apply, Enabled;
    run' := run + [step];
    ExecuteOneMore(Init(1, 1), run, step);
  }

  function Looking(client: ClientPc, queueMutex: Option<nat>): Pool { Small(NEW_WORKER, Spawn(0), client, 0, 0, queueMutex, None) }

  /** The client looks before the worker has counted itself. */
  lemma ClientLooks() returns (run: seq<Step>)
    ensures Execute(Init(1, 1), run) == Looking(AboutToSleep, Some(0))
  {
    assert Execute(Init(1, 1), []) == Init(1, 1) == Looking(Idle, None);
    hide Execute;
    run := Then([], Looking(Idle, None), CallWait(0), Looking(WantLock, None));
    run := Then(run, Looking(WantLock, None), ClientStep(0), Looking(Locked(false), Some(0)));
    run := Then(run, Looking(Locked(false), Some(0)), ClientStep(0), Looking(SawEmpty(false), Some(0)));
    run := Then(run, Looking(SawEmpty(false), Some(0)), ClientStep(0), Looking(Locked(true), Some(0)));
    run := Then(run, Looking(Locked(true), Some(0)), ClientStep(0), Looking(SawEmpty(true), Some(0)));
    run := Then(run, Looking(SawEmpty(true), Some(0)), ClientStep(0), Looking(AboutToSleep, Some(0)));
  }

  function Starting(pc: WorkerPc, available: bool, free: nat, count: int, counterMutex: Option<nat>): Pool
  {
    Small(NEW_WORKER.(pc := pc, available := available), Spawn(1), AboutToSleep, free, count, Some(0), counterMutex)
  }

  /** Then the worker counts itself and notifies. */
  lemma WorkerNotifies(run: seq<Step>) returns (run': seq<Step>)
    requires Execute(Init(1, 1), run) == Looking(AboutToSleep, Some(0))
    ensures Execute(Init(1, 1), run') == Starting(AwaitRequest, true, 1, 1, None)
  {
    hide Execute;
    run' := Then(run, Looking(AboutToSleep, Some(0)), DispatcherStep, Starting(SetFlag, false, 0, 0, None));
    run' := Then(run', Starting(SetFlag, false, 0, 0, None), WorkerStep(0), Starting(Increment, true, 0, 0, None));
    run' := Then(run', Starting(Increment, true, 0, 0, None), WorkerStep(0), Starting(SignalFree, true, 0, 1, Some(0)));
    run' := Then(run', Starting(SignalFree, true, 0, 1, Some(0)), WorkerStep(0), Starting(NotifyAll, true, 1, 1, Some(0)));
    run' := Then(run', Starting(NotifyAll, true, 1, 1, Some(0)), WorkerStep(0), Starting(AwaitRequest, true, 1, 1, None));
  }

  /** A run after which the client sleeps although the queue is empty and the worker
      available; it will not be notified until something is scheduled. */
  lemma NotificationMissed() returns (run: seq<Step>)
    ensures var s := Execute(Init(1, 1), run);
            && s.clients == [Asleep] && s.queue == [] && s.numAvailable == |s.workers| == 1
            && forall later :: Scheduled(s, later) == 0 ==> !NotifiedIn(s, later)
  {
    hide Execute, NotifiedIn, Scheduled;
    run := ClientLooks();
    run := WorkerNotifies(run);
    var s := Starting(AwaitRequest, true, 1, 1, None);
    var t := s.(clients := [Asleep], queueMutex := None);
    run := Then(run, s, ClientStep(0), t);
    assert Reachable(t);
    ReachableInv(t);
    hide Inv, Reachable, Enabled, Apply;
    forall later | Scheduled(t, later) == 0 ensures !NotifiedIn(t, later) {
      SilentUntilScheduled(t, later);
    }
  }
}
