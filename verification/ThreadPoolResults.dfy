/** What the thread pool promises, over every schedule of every number of
    workers and clients. */
module ThreadPoolResults {
  import opened Wrappers
  import opened Sums
  import opened ThreadPoolMachine
  import opened ThreadPoolInvariant

  lemma {:induction false} ExecuteKeepsInv(s: Pool, schedule: seq<Step>)
    requires Inv(s)
    ensures Inv(Execute(s, schedule))
    decreases |schedule|
  {
    if schedule != [] {
      if Enabled(s, schedule[0]) {
        StepKeepsInv(s, schedule[0]);
        ExecuteKeepsInv(Apply(s, schedule[0]), schedule[1..]);
      } else {
        ExecuteKeepsInv(s, schedule[1..]);
      }
    }
  }

  ghost predicate Reachable(s: Pool)
  {
    exists n: nat, m: nat, schedule: seq<Step> :: s == Execute(Init(n, m), schedule)
  }

  lemma ReachableInv(s: Pool)
    requires Reachable(s)
    ensures Inv(s)
  {
    var n: nat, m: nat, schedule: seq<Step> :| s == Execute(Init(n, m), schedule);
    InitEstablishesInv(n, m);
    ExecuteKeepsInv(Init(n, m), schedule);
  }

  lemma {:induction false} ExecuteOneMore(s: Pool, schedule: seq<Step>, step: Step)
    requires Enabled(Execute(s, schedule), step)
    ensures Execute(s, schedule + [step]) == Apply(Execute(s, schedule), step)
    decreases |schedule|
  {
    if schedule == [] {
      assert [] + [step] == [step] && [step][1..] == [];
    } else {
      assert (schedule + [step])[1..] == schedule[1..] + [step];
      ExecuteOneMore(if Enabled(s, schedule[0]) then Apply(s, schedule[0]) else s, schedule[1..], step);
    }
  }

  lemma StepStaysReachable(s: Pool, step: Step)
    requires Reachable(s) && Enabled(s, step)
    ensures Reachable(Apply(s, step))
  {
    var n: nat, m: nat, schedule: seq<Step> :| s == Execute(Init(n, m), schedule);
    ExecuteOneMore(Init(n, m), schedule, step);
  }

  // ----- safety

  /** Whenever a step makes a `wait` return, every thunk pushed so far has been run
      to its end, each exactly as often as it was pushed. */
  lemma WaitReturnsOnlyWhenAllFinished(s: Pool, c: nat)
    requires Reachable(s) && ClientCan(s, c) && s.clients[c] != Pushed
    requires ClientNext(s, c).clients[c] == Idle
    ensures multiset(s.pushed) == s.finished
  {
    ReachableInv(s);
    assert s.clients[c].SawEmpty? && s.numAvailable == |s.workers| && s.counterMutex == None;
    assert s.queue == [];
    TestSucceedsOnlyWhenIdle(s);
    assert s.popped + [] == s.popped;
  }

  /** First in, first out, and nothing lost: what was popped followed by what is
      queued is what was pushed, and every popped thunk is finished or held in
      exactly one place. */
  lemma FifoAndExactlyOnce(s: Pool)
    requires Reachable(s)
    ensures s.popped + s.queue == s.pushed
    ensures multiset(s.popped) == s.finished + Held(s)
  {
    ReachableInv(s);
  }

  /** The slot the dispatcher is about to assign is not in use: its worker is
      parked with no request outstanding and no unfinished thunk.  And a worker
      only ever runs a slot that was assigned and not yet run. */
  lemma SlotNeverOverwritten(s: Pool)
    requires Reachable(s)
    ensures s.dispatcher.AssignWork? ==>
              var i := s.dispatcher.target;
              i < |s.workers| && !s.workers[i].live && s.workers[i].requested == 0 && Parking(s.workers[i].pc)
    ensures forall i :: 0 <= i < |s.workers| && s.workers[i].pc == RunThunk ==>
              s.workers[i].live && s.workers[i].work.Some? && s.workers[i].requested == 0
  {
    ReachableInv(s);
    if s.dispatcher.AssignWork? {
      var i := s.dispatcher.target;
      assert WorkerOk(s.workers[i], i, s.dispatcher);
    }
    forall i | 0 <= i < |s.workers| && s.workers[i].pc == RunThunk
      ensures s.workers[i].live && s.workers[i].work.Some? && s.workers[i].requested == 0
    {
      assert WorkerOk(s.workers[i], i, s.dispatcher);
    }
  }

  /** No assert fails in any reachable state: not the scan's for an available
      worker, not those on flags and counter, not the one in `schedule`; and
      `front` is never called on an empty queue. */
  lemma AssertsNeverFail(s: Pool)
    requires Reachable(s)
    ensures s.dispatcher != DispatcherFailed
    ensures forall i :: 0 <= i < |s.workers| ==> s.workers[i].pc != WorkerFailed
    ensures forall c :: 0 <= c < |s.clients| ==> s.clients[c] != ClientFailed
  {
    ReachableInv(s);
    forall i | 0 <= i < |s.workers| ensures s.workers[i].pc != WorkerFailed {
      assert WorkerOk(s.workers[i], i, s.dispatcher);
    }
  }

  /** What the asserts test, wherever the code is about to test it. */
  lemma AssertedFacts(s: Pool)
    requires Reachable(s)
    ensures s.dispatcher.Scan? ==> exists k :: s.dispatcher.at <= k < |s.workers| && s.workers[k].available
    ensures s.dispatcher.ClearFlag? ==>
              s.dispatcher.target < |s.workers| && s.workers[s.dispatcher.target].available && s.numAvailable > 0
    ensures s.dispatcher.PopWork? ==> s.queue != []
    ensures forall i :: 0 <= i < |s.workers| && s.workers[i].pc.SetFlag? ==> !s.workers[i].available
    ensures forall i :: 0 <= i < |s.workers| && s.workers[i].pc.RunThunk? ==> s.workers[i].work.Some?
    ensures s.phase == Open ==> !s.stopWorking
  {
    ReachableInv(s);
    CountsSupply(s);
    hide Counted, Mutexes, Conserved;
    forall i | 0 <= i < |s.workers|
      ensures s.workers[i].pc.SetFlag? ==> !s.workers[i].available
      ensures s.workers[i].pc.RunThunk? ==> s.workers[i].work.Some?
    {
      assert WorkerOk(s.workers[i], i, s.dispatcher);
    }
  }

  /** The counter lags the flags by exactly the writes under way. */
  lemma CounterLagsFlags(s: Pool)
    requires Reachable(s)
    ensures s.numAvailable == Flags(s) + (if s.dispatcher.Decrement? then 1 else 0) - Uncounted(s)
  {
    ReachableInv(s);
  }

  // ----- shutting down

  /** Steps of the pool's own threads and of the destructor, not of clients. */
  predicate Own(step: Step)
  {
    step.WorkerStep? || step.DispatcherStep? || step.DestructorStep?
  }

  function WorkerWork(w: Worker): nat
  {
    match w.pc
    case Exited => 0
    case TestStop => 1
    case _ => 2
  }

  function DispatcherWork(s: Pool): nat
  {
    var n := |s.workers|;
    match s.dispatcher
    case DispatcherDone => 0
    case Join(i) => if i <= n then n - i + 1 else 0
    case SetStop(i) => if i <= n then 2 * (n - i) + n + 2 else 0
    case SignalStop(i) => if i <= n then 2 * (n - i) + n + 1 else 0
    case TestPoolStop => 3 * n + 3
    case AwaitWorker => 3 * n + 4
    case AwaitWork => 3 * n + 5
    case _ => 3 * n + 6
  }

  function PhaseWork(p: Phase): nat
  {
    match p
    case Open => 5
    case StopNext => 4
    case WorkSignalNext => 3
    case WorkerSignalNext => 2
    case JoinNext => 1
    case Gone => 0
  }

  /** A bound on how many steps the pool's threads and the destructor can still take. */
  function ShutdownWork(s: Pool): nat
  {
    Sum(s.workers, WorkerWork) + DispatcherWork(s) + PhaseWork(s.phase)
  }

  lemma ClosedWorkerStep(s: Pool, i: nat)
    requires WorkerCan(s, i) && WorkerOk(s.workers[i], i, s.dispatcher) && Closed(s)
    ensures var t := WorkerNext(s, i);
            && WorkerWork(t.workers[i]) < WorkerWork(s.workers[i])
            && t.workers == s.workers[i := t.workers[i]]
            && DispatcherWork(t) == DispatcherWork(s) && t.phase == s.phase
            && t.finished == s.finished && t.popped == s.popped
  {
    assert s.workers[i].pc == AwaitRequest || s.workers[i].pc == TestStop;
  }

  lemma ClosedDispatcherStep(s: Pool)
    requires DispatcherCan(s) && DispatcherOk(s) && Supplied(s) && PhaseOk(s) && s.phase != Open
    ensures var t := DispatcherNext(s);
            && DispatcherWork(t) < DispatcherWork(s) && t.phase == s.phase
            && t.finished == s.finished && t.popped == s.popped
            && |t.workers| == |s.workers|
            && forall i :: 0 <= i < |s.workers| ==> WorkerWork(t.workers[i]) == WorkerWork(s.workers[i])
  {
  }

  /** Once the destructor's wait has returned, every own step uses up some of the
      bounded work and runs no thunk; client steps use none and never reopen. */
  lemma ShutdownStep(s: Pool, step: Step)
    requires Inv(s) && s.phase != Open && Enabled(s, step)
    ensures Apply(s, step).phase != Open
    ensures Apply(s, step).finished == s.finished && Apply(s, step).popped == s.popped
    ensures if Own(step) then ShutdownWork(Apply(s, step)) < ShutdownWork(s)
            else ShutdownWork(Apply(s, step)) == ShutdownWork(s)
  {
    match step
    case WorkerStep(i) =>
      assert WorkerOk(s.workers[i], i, s.dispatcher);
      ShutdownWorkerStep(s, i);
    case DispatcherStep =>
      CountsSupply(s);
      ShutdownDispatcherStep(s);
    case DestructorStep => ShutdownDestructorStep(s);
    case ClientStep(c) => ShutdownClientStep(s, c);
    case _ =>
  }

  lemma ShutdownDestructorStep(s: Pool)
    requires DestructorCan(s)
    ensures var t := DestructorNext(s);
            && t.phase != Open && t.finished == s.finished && t.popped == s.popped
            && ShutdownWork(t) < ShutdownWork(s)
  {
  }

  lemma ShutdownWorkerStep(s: Pool, i: nat)
    requires WorkerCan(s, i) && WorkerOk(s.workers[i], i, s.dispatcher) && Closed(s)
    ensures var t := WorkerNext(s, i);
            && t.phase == s.phase && t.finished == s.finished && t.popped == s.popped
            && ShutdownWork(t) < ShutdownWork(s)
  {
    ClosedWorkerStep(s, i);
    SumUpdate(s.workers, i, WorkerNext(s, i).workers[i], WorkerWork);
  }

  lemma ShutdownDispatcherStep(s: Pool)
    requires DispatcherCan(s) && DispatcherOk(s) && Supplied(s) && PhaseOk(s) && s.phase != Open
    ensures var t := DispatcherNext(s);
            && t.phase == s.phase && t.finished == s.finished && t.popped == s.popped
            && ShutdownWork(t) < ShutdownWork(s)
  {
    ClosedDispatcherStep(s);
    SumSame(s.workers, DispatcherNext(s).workers, WorkerWork);
  }

  lemma ShutdownClientStep(s: Pool, c: nat)
    requires ClientCan(s, c) && s.phase != Open
    ensures var t := ClientNext(s, c);
            && t.phase == s.phase && t.finished == s.finished && t.popped == s.popped
            && ShutdownWork(t) == ShutdownWork(s)
  {
    ClientLeaves(s, c);
  }

  lemma ClosedTokens(s: Pool)
    requires Inv(s) && s.phase == JoinNext
    ensures s.dispatcher.AwaitWork? ==> s.availableWork > 0
    ensures s.dispatcher.AwaitWorker? ==> s.availableWorker > 0
  {
    SumZero(s.workers, UnsignalledOf);
    SumZero(s.clients, PushedOf);
  }

  /** Until the destructor has returned, some own step is enabled. */
  lemma ShutdownProgress(s: Pool) returns (step: Step)
    requires Inv(s) && s.phase != Open && s.phase != Gone
    ensures Own(step) && Enabled(s, step)
  {
    if s.phase != JoinNext || s.dispatcher == DispatcherDone {
      step := DestructorStep;
    } else if DispatcherCan(s) {
      step := DispatcherStep;
    } else {
      ClosedTokens(s);
      var i := if s.dispatcher.Join? then s.dispatcher.at else 0;
      assert WorkerOk(s.workers[i], i, s.dispatcher);
      step := WorkerStep(i);
    }
  }

  /** The number of own steps that take effect when a schedule is run. */
  function OwnSteps(s: Pool, schedule: seq<Step>): nat
    decreases |schedule|
  {
    if schedule == [] then 0
    else if Enabled(s, schedule[0]) then
      (if Own(schedule[0]) then 1 else 0) + OwnSteps(Apply(s, schedule[0]), schedule[1..])
    else OwnSteps(s, schedule[1..])
  }

  /** However the shutdown is scheduled, it takes a bounded number of own steps
      and runs no further thunk. */
  lemma {:induction false} ShutdownBounded(s: Pool, schedule: seq<Step>)
    requires Inv(s) && s.phase != Open
    ensures OwnSteps(s, schedule) <= ShutdownWork(s)
    ensures Execute(s, schedule).phase != Open
    ensures Execute(s, schedule).finished == s.finished && Execute(s, schedule).popped == s.popped
    decreases |schedule|
  {
    if schedule != [] {
      if Enabled(s, schedule[0]) {
        StepKeepsInv(s, schedule[0]);
        ShutdownStep(s, schedule[0]);
        ShutdownBounded(Apply(s, schedule[0]), schedule[1..]);
      } else {
        ShutdownBounded(s, schedule[1..]);
      }
    }
  }

  /** When no own step is left, or the destructor has returned: every thread has
      been joined, every worker took exactly one stop signal and has none
      pending, and every thunk ever pushed has been run. */
  lemma ShutdownComplete(s: Pool)
    requires Reachable(s) && s.phase != Open
    requires s.phase == Gone || forall step :: Own(step) ==> !Enabled(s, step)
    ensures s.phase == Gone && s.dispatcher == DispatcherDone
    ensures forall i :: 0 <= i < |s.workers| ==>
              s.workers[i].pc == Exited && s.workers[i].stopsTaken == 1 && s.workers[i].requested == 0
    ensures multiset(s.pushed) == s.finished
  {
    ReachableInv(s);
    if s.phase != Gone {
      var step := ShutdownProgress(s);
    }
    forall i | 0 <= i < |s.workers|
      ensures s.workers[i].pc == Exited && s.workers[i].stopsTaken == 1 && s.workers[i].requested == 0 && !s.workers[i].live
    {
      assert WorkerOk(s.workers[i], i, s.dispatcher);
    }
    BagEmpty(s.workers, HeldOf);
    assert s.popped + [] == s.popped;
  }
}
