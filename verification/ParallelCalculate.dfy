/** assessment2/parallel_calculate.cc: any number of threads take items from one
    queue, compute in parallel, and print in queue order through a second queue
    of thread indices and a condition variable. */
module ParallelCalculate {
  import opened Wrappers
  import opened Sums

  datatype SomeData = SomeData(data: int)

  function Calculate(d: SomeData): int { d.data }

  datatype Pc =
    | LockData                  // dataQueueMutex.lock()
    | TestEmpty                 // if empty: unlock and return
    | LockPrint                 // printQueueMutex.lock()
    | Register                  // push the index, unlock
    | TakeData                  // front, pop, unlock
    | Calculating(data: SomeData)
    | LockForPrint(result: int) // printQueueMutex.lock()
    | TestFront(result: int)    // the leading if
    | TestPred(result: int)     // the condition variable's predicate
    | Waiting(result: int)
    | Woken(result: int)        // must take the mutex again
    | Print(result: int)
    | PopFront
    | Notify                    // notify_all
    | Unlock
    | Returned

  /** `popped` is history: how many times the print queue has been popped. */
  datatype State = State(
    dataQueue: seq<SomeData>,
    printQueue: seq<nat>,
    dataMutex: Option<nat>,
    printMutex: Option<nat>,
    threads: seq<Pc>,
    output: seq<int>,
    popped: nat)

  /** A thread's own next action, or the environment waking a waiter for no reason. */
  datatype Step = Act(thread: nat) | SpuriousWake(thread: nat)

  function Init(data: seq<SomeData>, numThreads: nat): State
  {
    State(data, [], None, None, seq(numThreads, _ => LockData), [], 0)
  }

  predicate CanAct(s: State, t: nat)
  {
    && t < |s.threads|
    && match s.threads[t]
       case LockData => s.dataMutex == None
       case LockPrint => s.printMutex == None
       case LockForPrint(_) => s.printMutex == None
       case Woken(_) => s.printMutex == None
       case TakeData => s.dataQueue != []       // front() of an empty queue is undefined
       case TestFront(_) => s.printQueue != []
       case TestPred(_) => s.printQueue != []
       case PopFront => s.printQueue != []
       case Waiting(_) => false
       case Returned => false
       case _ => true
  }

  predicate Enabled(s: State, step: Step)
  {
    match step
    case Act(t) => CanAct(s, t)
    case SpuriousWake(t) => t < |s.threads| && s.threads[t].Waiting?
  }

  function Wake(pc: Pc): Pc { if pc.Waiting? then Woken(pc.result) else pc }

  function WakeAll(threads: seq<Pc>): (r: seq<Pc>)
    ensures |r| == |threads| && forall i :: 0 <= i < |r| ==> r[i] == Wake(threads[i])
  {
    seq(|threads|, i requires 0 <= i < |threads| => Wake(threads[i]))
  }

  function Goto(s: State, t: nat, pc: Pc): State
    requires t < |s.threads|
  {
    s.(threads := s.threads[t := pc])
  }

  function Next(s: State, t: nat): State
    requires CanAct(s, t)
  {
    match s.threads[t]
    case LockData => Goto(s, t, TestEmpty).(dataMutex := Some(t))
    case TestEmpty =>
      if s.dataQueue == [] then Goto(s, t, Returned).(dataMutex := None) else Goto(s, t, LockPrint)
    case LockPrint => Goto(s, t, Register).(printMutex := Some(t))
    case Register => Goto(s, t, TakeData).(printQueue := s.printQueue + [t], printMutex := None)
    case TakeData =>
      Goto(s, t, Calculating(s.dataQueue[0])).(dataQueue := s.dataQueue[1..], dataMutex := None)
    case Calculating(d) => Goto(s, t, LockForPrint(Calculate(d)))
    case LockForPrint(r) => Goto(s, t, TestFront(r)).(printMutex := Some(t))
    case TestFront(r) => Goto(s, t, if s.printQueue[0] == t then Print(r) else TestPred(r))
    case TestPred(r) =>
      if s.printQueue[0] == t then Goto(s, t, Print(r)) else Goto(s, t, Waiting(r)).(printMutex := None)
    case Woken(r) => Goto(s, t, TestPred(r)).(printMutex := Some(t))
    case Print(r) => Goto(s, t, PopFront).(output := s.output + [r])
    case PopFront => Goto(s, t, Notify).(printQueue := s.printQueue[1..], popped := s.popped + 1)
    case Notify => s.(threads := WakeAll(s.threads)[t := Unlock])
    case Unlock => Goto(s, t, LockData).(printMutex := None)
  }

  function Apply(s: State, step: Step): State
    requires Enabled(s, step)
  {
    match step
    case Act(t) => Next(s, t)
    case SpuriousWake(t) => Goto(s, t, Wake(s.threads[t]))
  }

  function Execute(s: State, schedule: seq<Step>): State
    decreases |schedule|
  {
    if schedule == [] then s
    else Execute(if Enabled(s, schedule[0]) then Apply(s, schedule[0]) else s, schedule[1..])
  }

  // ----- the invariant

  predicate HoldsData(pc: Pc) { pc.TestEmpty? || pc.LockPrint? || pc.Register? || pc.TakeData? }

  predicate HoldsPrint(pc: Pc)
  {
    pc.Register? || pc.TestFront? || pc.TestPred? || pc.Print? || pc.PopFront? || pc.Notify? || pc.Unlock?
  }

  /** The thread's index is in the print queue. */
  predicate Registered(pc: Pc)
  {
    || pc.TakeData? || pc.Calculating? || pc.LockForPrint? || pc.TestFront? || pc.TestPred?
    || pc.Waiting? || pc.Woken? || pc.Print? || pc.PopFront?
  }

  function Results(data: seq<SomeData>): (r: seq<int>)
    ensures |r| == |data| && forall i :: 0 <= i < |r| ==> r[i] == Calculate(data[i])
  {
    seq(|data|, i requires 0 <= i < |data| => Calculate(data[i]))
  }

  ghost predicate Locks(s: State)
  {
    && (s.dataMutex.Some? ==> s.dataMutex.value < |s.threads|)
    && (s.printMutex.Some? ==> s.printMutex.value < |s.threads|)
    && (forall t :: 0 <= t < |s.threads| ==> (HoldsData(s.threads[t]) <==> s.dataMutex == Some(t)))
    && (forall t :: 0 <= t < |s.threads| ==> (HoldsPrint(s.threads[t]) <==> s.printMutex == Some(t)))
    && (forall t :: 0 <= t < |s.threads| && HoldsData(s.threads[t]) && !s.threads[t].TestEmpty? ==> s.dataQueue != [])
    && (forall t :: 0 <= t < |s.threads| && s.threads[t].Returned? ==> s.dataQueue == [])
  }

  /** Each index is queued once, and exactly while its thread owes a print. */
  ghost predicate Queued(s: State)
  {
    && (forall k :: 0 <= k < |s.printQueue| ==> s.printQueue[k] < |s.threads|)
    && (forall j, k :: 0 <= j < k < |s.printQueue| ==> s.printQueue[j] != s.printQueue[k])
    && (forall t: nat :: t < |s.threads| ==> (Registered(s.threads[t]) <==> t in s.printQueue))
  }

  /** What the thread at position k of the print queue is working on. */
  predicate WorksOn(s: State, data: seq<SomeData>, k: nat)
  {
    && k < |s.printQueue| && s.printQueue[k] < |s.threads|
    && match s.threads[s.printQueue[k]]
    case TakeData => k == |s.printQueue| - 1 && s.popped + k + |s.dataQueue| == |data|
    case Calculating(d) => s.popped + k < |data| && d == data[s.popped + k]
    case PopFront => k == 0 && s.popped + k < |data|
    case Print(r) => k == 0 && s.popped + k < |data| && r == Calculate(data[s.popped + k])
    case LockForPrint(r) => s.popped + k < |data| && r == Calculate(data[s.popped + k])
    case TestFront(r) => s.popped + k < |data| && r == Calculate(data[s.popped + k])
    case TestPred(r) => s.popped + k < |data| && r == Calculate(data[s.popped + k])
    case Waiting(r) => s.popped + k < |data| && r == Calculate(data[s.popped + k])
    case Woken(r) => s.popped + k < |data| && r == Calculate(data[s.popped + k])
    case _ => false
  }

  predicate Taking(s: State)
  {
    s.dataMutex.Some? && s.dataMutex.value < |s.threads| && s.threads[s.dataMutex.value].TakeData?
  }

  predicate Printed(s: State)
  {
    s.printQueue != [] && s.printQueue[0] < |s.threads| && s.threads[s.printQueue[0]].PopFront?
  }

  /** The pending entries line up with the items taken but not yet printed. */
  ghost predicate Aligned(s: State, data: seq<SomeData>)
  {
    && |s.dataQueue| <= |data|
    && s.popped + |s.printQueue| + |s.dataQueue| == |data| + (if Taking(s) then 1 else 0)
    && s.dataQueue == data[|data| - |s.dataQueue|..]
    && (forall k :: 0 <= k < |s.printQueue| ==> WorksOn(s, data, k))
    && s.popped + (if Printed(s) then 1 else 0) <= |data|
    && s.output == Results(data)[..s.popped + (if Printed(s) then 1 else 0)]
  }

  /** A waiter at the front has a notification on its way. */
  ghost predicate NoLostWakeup(s: State)
  {
    s.printQueue != [] && s.printQueue[0] < |s.threads| && s.threads[s.printQueue[0]].Waiting? ==>
      s.printMutex.Some? && s.printMutex.value < |s.threads| && s.threads[s.printMutex.value].Notify?
  }

  ghost predicate Inv(s: State, data: seq<SomeData>)
  {
    Locks(s) && Queued(s) && Aligned(s, data) && NoLostWakeup(s)
  }

  lemma InitEstablishesInv(data: seq<SomeData>, numThreads: nat)
    ensures Inv(Init(data, numThreads), data)
  {
    var s := Init(data, numThreads);
    assert Locks(s) && Queued(s) && NoLostWakeup(s);
    hide Locks, Queued, NoLostWakeup, WorksOn;
    assert s.dataQueue == data[0..];
    assert s.output == Results(data)[..0];
  }

  // ----- every step keeps the invariant

  /** Moving one thread from pc to pc', with the mutexes handed over as its pcs say. */
  lemma MoveKeepsLocks(s: State, s': State, t: nat, pc: Pc)
    requires Locks(s) && t < |s.threads| && s'.threads == s.threads[t := pc]
    requires s'.dataMutex == if HoldsData(pc) then Some(t) else if HoldsData(s.threads[t]) then None else s.dataMutex
    requires s'.printMutex == if HoldsPrint(pc) then Some(t) else if HoldsPrint(s.threads[t]) then None else s.printMutex
    requires HoldsData(pc) && !HoldsData(s.threads[t]) ==> s.dataMutex == None
    requires HoldsPrint(pc) && !HoldsPrint(s.threads[t]) ==> s.printMutex == None
    requires s'.dataQueue == s.dataQueue || s.threads[t].TakeData?
    requires HoldsData(pc) && !pc.TestEmpty? ==> s'.dataQueue != [] && HoldsData(s.threads[t])
    requires pc.Returned? ==> s'.dataQueue == []
    ensures Locks(s')
  {
  }

  /** What an action other than a notification does to its thread and the mutexes. */
  lemma ActMoves(s: State, t: nat)
    requires CanAct(s, t) && !s.threads[t].Notify?
    requires HoldsData(s.threads[t]) <==> s.dataMutex == Some(t)
    requires HoldsPrint(s.threads[t]) <==> s.printMutex == Some(t)
    ensures t < |Next(s, t).threads|
    ensures var s', pc, pc' := Next(s, t), s.threads[t], Next(s, t).threads[t];
            && s'.threads == s.threads[t := pc']
            && s'.dataMutex == (if HoldsData(pc') then Some(t) else if HoldsData(pc) then None else s.dataMutex)
            && s'.printMutex == (if HoldsPrint(pc') then Some(t) else if HoldsPrint(pc) then None else s.printMutex)
            && (HoldsData(pc') && !HoldsData(pc) ==> s.dataMutex == None)
            && (HoldsPrint(pc') && !HoldsPrint(pc) ==> s.printMutex == None)
            && (s'.dataQueue == s.dataQueue || pc.TakeData?)
            && (HoldsData(pc') && !pc'.TestEmpty? ==> s'.dataQueue == s.dataQueue && HoldsData(pc) && (pc.TestEmpty? ==> s.dataQueue != []))
            && (pc'.Returned? ==> s'.dataQueue == [])
  {
  }

  lemma NotifyKeepsLocks(s: State, t: nat)
    requires Locks(s) && CanAct(s, t) && s.threads[t].Notify?
    ensures Locks(Next(s, t))
  {
    var s' := Next(s, t);
    assert forall u :: 0 <= u < |s.threads| && u != t ==> s'.threads[u] == Wake(s.threads[u]);
  }

  lemma ActKeepsLocks(s: State, t: nat)
    requires Locks(s) && CanAct(s, t)
    ensures Locks(Next(s, t))
  {
    hide Next;
    if s.threads[t].Notify? {
      NotifyKeepsLocks(s, t);
    } else {
      ActMoves(s, t);
      MoveKeepsLocks(s, Next(s, t), t, Next(s, t).threads[t]);
    }
  }

  lemma RegisterKeepsQueued(s: State, s': State, t: nat)
    requires Queued(s) && t < |s.threads| && s.threads[t].Register?
    requires s'.threads == s.threads[t := TakeData] && s'.printQueue == s.printQueue + [t]
    ensures Queued(s')
  {
    assert t !in s.printQueue;
    assert forall u :: u in s'.printQueue <==> u in s.printQueue || u == t;
  }

  lemma PopKeepsQueued(s: State, s': State, t: nat)
    requires Queued(s) && t < |s.threads| && s.threads[t].PopFront? && s.printQueue != [] && s.printQueue[0] == t
    requires s'.threads == s.threads[t := Notify] && s'.printQueue == s.printQueue[1..]
    ensures Queued(s')
  {
    assert s.printQueue == [t] + s'.printQueue;
    assert t !in s'.printQueue;
    assert forall u :: u in s.printQueue <==> u in s'.printQueue || u == t;
  }

  lemma MoveKeepsQueued(s: State, s': State)
    requires Queued(s) && |s'.threads| == |s.threads| && s'.printQueue == s.printQueue
    requires forall u :: 0 <= u < |s.threads| ==> (Registered(s'.threads[u]) <==> Registered(s.threads[u]))
    ensures Queued(s')
  {
  }

  /** Only registering and popping change the print queue or who is in it. */
  lemma OthersLeaveQueue(s: State, t: nat)
    requires CanAct(s, t) && !s.threads[t].Register? && !s.threads[t].PopFront?
    ensures var s' := Next(s, t);
            && |s'.threads| == |s.threads| && s'.printQueue == s.printQueue
            && forall u :: 0 <= u < |s.threads| ==> (Registered(s'.threads[u]) <==> Registered(s.threads[u]))
  {
  }

  lemma ActKeepsQueued(s: State, t: nat)
    requires Queued(s) && CanAct(s, t) && (s.threads[t].PopFront? ==> s.printQueue[0] == t)
    ensures Queued(Next(s, t))
  {
    hide Queued;
    var s' := Next(s, t);
    if s.threads[t].Register? {
      RegisterKeepsQueued(s, s', t);
    } else if s.threads[t].PopFront? {
      PopKeepsQueued(s, s', t);
    } else {
      OthersLeaveQueue(s, t);
      hide Next;
      MoveKeepsQueued(s, s');
    }
  }

  /** The position of a registered thread in the print queue. */
  lemma PositionOf(s: State, t: nat) returns (k: nat)
    requires Queued(s) && t < |s.threads| && Registered(s.threads[t])
    ensures k < |s.printQueue| && s.printQueue[k] == t
    ensures forall j :: 0 <= j < |s.printQueue| && j != k ==> s.printQueue[j] != t
  {
    k :| k < |s.printQueue| && s.printQueue[k] == t;
  }

  lemma RegisterKeepsAligned(s: State, data: seq<SomeData>, t: nat)
    requires Inv(s, data) && CanAct(s, t) && s.threads[t].Register?
    ensures Aligned(Next(s, t), data)
  {
    var s' := Next(s, t);
    assert s.dataMutex == Some(t);
    assert t !in s.printQueue;
    forall k | 0 <= k < |s'.printQueue| ensures WorksOn(s', data, k) {
      if k < |s.printQueue| {
        assert WorksOn(s, data, k);
      }
    }
  }

  lemma TakeKeepsAligned(s: State, data: seq<SomeData>, t: nat)
    requires Inv(s, data) && CanAct(s, t) && s.threads[t].TakeData?
    ensures Aligned(Next(s, t), data)
  {
    var s' := Next(s, t);
    assert s.dataMutex == Some(t);
    var p := PositionOf(s, t);
    assert WorksOn(s, data, p);
    assert s.dataQueue[0] == data[|data| - |s.dataQueue|];
    forall k | 0 <= k < |s'.printQueue| ensures WorksOn(s', data, k) {
      assert WorksOn(s, data, k);
    }
  }

  lemma PrintKeepsAligned(s: State, data: seq<SomeData>, t: nat)
    requires Inv(s, data) && CanAct(s, t) && s.threads[t].Print?
    ensures Aligned(Next(s, t), data)
  {
    var s' := Next(s, t);
    var p := PositionOf(s, t);
    assert WorksOn(s, data, p);
    forall k | 0 <= k < |s'.printQueue| ensures WorksOn(s', data, k) {
      assert WorksOn(s, data, k);
    }
    assert s'.output == Results(data)[..s.popped + 1];
  }

  lemma PopKeepsAligned(s: State, data: seq<SomeData>, t: nat)
    requires Inv(s, data) && CanAct(s, t) && s.threads[t].PopFront?
    ensures Aligned(Next(s, t), data) && s.printQueue[0] == t
  {
    var s' := Next(s, t);
    var p := PositionOf(s, t);
    assert WorksOn(s, data, p);
    forall k | 0 <= k < |s'.printQueue| ensures WorksOn(s', data, k) && !s'.threads[s'.printQueue[k]].PopFront? {
      assert WorksOn(s, data, k + 1);
      assert s.printQueue[k + 1] != t;
    }
  }

  /** The remaining actions leave the queues, the output and the item each
      registered thread works on as they are. */
  lemma MoveKeepsAligned(s: State, s': State, data: seq<SomeData>)
    requires Inv(s, data) && |s'.threads| == |s.threads|
    requires s'.dataQueue == s.dataQueue && s'.printQueue == s.printQueue && s'.output == s.output && s'.popped == s.popped
    requires Taking(s') == Taking(s)
    requires forall k: nat :: k < |s.printQueue| ==> WorksOn(s', data, k)
    requires forall u :: 0 <= u < |s.threads| ==> (s'.threads[u].PopFront? <==> s.threads[u].PopFront?)
    ensures Aligned(s', data)
  {
  }

  /** The actions that touch neither queue nor the output. */
  predicate Quiet(pc: Pc) { !pc.Register? && !pc.TakeData? && !pc.Print? && !pc.PopFront? }

  lemma QuietLeaves(s: State, t: nat)
    requires CanAct(s, t) && Quiet(s.threads[t])
    ensures var s' := Next(s, t);
            && s'.dataQueue == s.dataQueue && s'.printQueue == s.printQueue && s'.output == s.output && s'.popped == s.popped
            && |s'.threads| == |s.threads| && !s'.threads[t].PopFront? && !s'.threads[t].TakeData?
            && forall u :: 0 <= u < |s.threads| && u != t ==> s'.threads[u] == s.threads[u] || s'.threads[u] == Wake(s.threads[u])
  {
  }

  /** The acting thread goes on working on its item. */
  lemma QuietWorksOnOwn(s: State, data: seq<SomeData>, t: nat, k: nat)
    requires CanAct(s, t) && Quiet(s.threads[t]) && WorksOn(s, data, k) && s.printQueue[k] == t
    requires s.printQueue[0] == t ==> k == 0
    ensures WorksOn(Next(s, t), data, k)
  {
  }

  lemma ActKeepsWorksOn(s: State, data: seq<SomeData>, t: nat, k: nat)
    requires Inv(s, data) && CanAct(s, t) && k < |s.printQueue| && Quiet(s.threads[t])
    ensures WorksOn(Next(s, t), data, k)
  {
    assert WorksOn(s, data, k);
    if s.printQueue[k] == t {
      QuietWorksOnOwn(s, data, t, k);
    } else {
      QuietLeaves(s, t);
      hide Next, Inv;
    }
  }

  lemma OtherKeepsAligned(s: State, data: seq<SomeData>, t: nat)
    requires Inv(s, data) && CanAct(s, t) && Quiet(s.threads[t])
    ensures Aligned(Next(s, t), data)
  {
    hide Next, Aligned, WorksOn, NoLostWakeup;
    var s' := Next(s, t);
    QuietLeaves(s, t);
    forall k: nat | k < |s.printQueue| ensures WorksOn(s', data, k) {
      ActKeepsWorksOn(s, data, t, k);
    }
    QuietKeepsTaking(s, t);
    MoveKeepsAligned(s, s', data);
  }

  lemma QuietKeepsTaking(s: State, t: nat)
    requires Locks(s) && CanAct(s, t) && Quiet(s.threads[t])
    ensures Taking(Next(s, t)) == Taking(s)
  {
    assert HoldsData(s.threads[t]) <==> s.dataMutex == Some(t);
  }

  lemma ActKeepsNoLostWakeup(s: State, data: seq<SomeData>, t: nat)
    requires Inv(s, data) && CanAct(s, t)
    ensures NoLostWakeup(Next(s, t))
  {
    var s' := Next(s, t);
    assert HoldsPrint(s.threads[t]) <==> s.printMutex == Some(t);
    if s.threads[t].Register? {
      assert s'.printQueue[0] == if s.printQueue == [] then t else s.printQueue[0];
    } else if s.threads[t].PopFront? {
      assert s'.printMutex == Some(t) && s'.threads[t] == Notify;
    } else {
      assert s'.printQueue == s.printQueue;
    }
  }

  lemma ActKeepsInv(s: State, data: seq<SomeData>, t: nat)
    requires Inv(s, data) && CanAct(s, t)
    ensures Inv(Next(s, t), data)
  {
    ActKeepsLocks(s, t);
    match s.threads[t] {
      case Register => RegisterKeepsAligned(s, data, t);
      case TakeData => TakeKeepsAligned(s, data, t);
      case Print(_) => PrintKeepsAligned(s, data, t);
      case PopFront => PopKeepsAligned(s, data, t);
      case _ => OtherKeepsAligned(s, data, t);
    }
    ActKeepsQueued(s, t);
    ActKeepsNoLostWakeup(s, data, t);
  }

  lemma WakeKeepsInv(s: State, data: seq<SomeData>, t: nat)
    requires Inv(s, data) && t < |s.threads| && s.threads[t].Waiting?
    ensures Inv(Apply(s, SpuriousWake(t)), data)
  {
    hide Locks, Queued;
    var s' := Apply(s, SpuriousWake(t));
    MoveKeepsLocks(s, s', t, s'.threads[t]);
    forall k: nat | k < |s.printQueue| ensures WorksOn(s', data, k) {
      assert WorksOn(s, data, k);
    }
    MoveKeepsAligned(s, s', data);
    MoveKeepsQueued(s, s');
  }

  lemma {:induction false} ExecuteKeepsInv(s: State, data: seq<SomeData>, schedule: seq<Step>)
    requires Inv(s, data)
    ensures Inv(Execute(s, schedule), data)
    decreases |schedule|
  {
    if schedule != [] {
      if Enabled(s, schedule[0]) {
        match schedule[0]
        case Act(t) => ActKeepsInv(s, data, t);
        case SpuriousWake(t) => WakeKeepsInv(s, data, t);
      }
      ExecuteKeepsInv(if Enabled(s, schedule[0]) then Apply(s, schedule[0]) else s, data, schedule[1..]);
    }
  }

  // ----- what every reachable state satisfies

  ghost predicate Reachable(s: State, data: seq<SomeData>)
  {
    exists n: nat, schedule: seq<Step> :: s == Execute(Init(data, n), schedule)
  }

  lemma ReachableInv(s: State, data: seq<SomeData>)
    requires Reachable(s, data)
    ensures Inv(s, data)
  {
    var n: nat, schedule: seq<Step> :| s == Execute(Init(data, n), schedule);
    InitEstablishesInv(data, n);
    ExecuteKeepsInv(Init(data, n), data, schedule);
  }

  /** However the threads are scheduled and woken, what has been printed is
      `calculate` mapped over a prefix of the data, in its order. */
  lemma OutputIsOrderedPrefix(s: State, data: seq<SomeData>)
    requires Reachable(s, data)
    ensures |s.output| <= |data|
    ensures forall i :: 0 <= i < |s.output| ==> s.output[i] == data[i].data
  {
    ReachableInv(s, data);
    var n := s.popped + (if Printed(s) then 1 else 0);
    forall i | 0 <= i < n ensures s.output[i] == Calculate(data[i]) {
      assert s.output[i] == Results(data)[..n][i] == Results(data)[i];
    }
  }

  /** Each thread is queued for printing at most once, the k-th pending entry is
      the thread holding the k-th item taken and not yet popped, and nothing is
      lost between the queues. */
  lemma PendingEntriesLineUp(s: State, data: seq<SomeData>)
    requires Reachable(s, data)
    ensures forall j, k :: 0 <= j < k < |s.printQueue| ==> s.printQueue[j] != s.printQueue[k]
    ensures forall k :: 0 <= k < |s.printQueue| ==> WorksOn(s, data, k)
    ensures forall t: nat :: t < |s.threads| ==> (Registered(s.threads[t]) <==> t in s.printQueue)
    ensures s.popped + |s.printQueue| + |s.dataQueue| == |data| + (if Taking(s) then 1 else 0)
  {
    ReachableInv(s, data);
  }

  /** `front` is only ever called on a non-empty queue. */
  lemma FrontNeverOnEmpty(s: State, data: seq<SomeData>, t: nat)
    requires Reachable(s, data) && t < |s.threads|
    ensures s.threads[t].TakeData? ==> s.dataQueue != []
    ensures s.threads[t].TestFront? || s.threads[t].TestPred? ==> s.printQueue != []
    ensures s.threads[t].PopFront? ==> s.printQueue != [] && s.printQueue[0] == t
  {
    ReachableInv(s, data);
    assert Registered(s.threads[t]) <==> t in s.printQueue;
    if s.threads[t].PopFront? {
      var k := PositionOf(s, t);
      assert WorksOn(s, data, k);
    }
  }

  // ----- no deadlock

  predicate AllReturned(s: State)
  {
    forall t :: 0 <= t < |s.threads| ==> s.threads[t].Returned?
  }

  /** The thread in charge of the printing mutex, or of the data mutex when the
      former is free, can act. */
  lemma HolderCanAct(s: State, data: seq<SomeData>)
    requires Inv(s, data)
    ensures s.printMutex.Some? ==> CanAct(s, s.printMutex.value)
    ensures s.printMutex == None && s.dataMutex.Some? ==> CanAct(s, s.dataMutex.value)
  {
    if s.printMutex.Some? {
      var t := s.printMutex.value;
      assert HoldsPrint(s.threads[t]);
      assert Registered(s.threads[t]) <==> t in s.printQueue;
    } else if s.dataMutex.Some? {
      assert HoldsData(s.threads[s.dataMutex.value]);
    }
  }

  /** Some thread can act, without spurious wakeups, until all have returned. */
  lemma Progress(s: State, data: seq<SomeData>) returns (t: nat)
    requires Inv(s, data) && !AllReturned(s)
    ensures CanAct(s, t)
  {
    HolderCanAct(s, data);
    if s.printMutex.Some? {
      t := s.printMutex.value;
    } else if s.dataMutex.Some? {
      t := s.dataMutex.value;
    } else {
      t :| t < |s.threads| && !s.threads[t].Returned?;
      if s.threads[t].Waiting? {
        assert t in s.printQueue;
        var f := s.printQueue[0];
        assert WorksOn(s, data, 0);
        assert !HoldsData(s.threads[f]) && !HoldsPrint(s.threads[f]);
        t := f;
      } else {
        assert !HoldsData(s.threads[t]) && !HoldsPrint(s.threads[t]);
      }
    }
  }

  /** When all threads have returned, all data has been printed. */
  lemma AllPrinted(s: State, data: seq<SomeData>)
    requires Inv(s, data) && AllReturned(s) && |s.threads| > 0
    ensures s.dataQueue == [] && s.printQueue == [] && s.output == Results(data)
  {
    assert s.threads[0].Returned?;
    assert forall t: nat :: t < |s.threads| ==> t !in s.printQueue;
    assert forall t :: t in s.printQueue ==> t < |s.threads|;
    assert s.printQueue == [];
    assert Results(data)[..|data|] == Results(data);
  }

  // ----- termination

  /** How many of its own actions a thread can still take in its current pass,
      with n threads that one notification may wake; a queued item is worth a
      whole pass. */
  function Rank(pc: Pc, n: nat): nat
  {
    match pc
    case Returned => 0
    case TakeData => 1
    case Register => 2
    case LockPrint => 3
    case TestEmpty => 4
    case LockData => 5
    case Unlock => 6
    case Notify => 7 + 2 * n
    case PopFront => 8 + 2 * n
    case Print(_) => 9 + 2 * n
    case Waiting(_) => 10 + 2 * n
    case TestPred(_) => 11 + 2 * n
    case Woken(_) => 12 + 2 * n
    case TestFront(_) => 12 + 2 * n
    case LockForPrint(_) => 13 + 2 * n
    case Calculating(_) => 14 + 2 * n
  }

  function RankAmong(n: nat): Pc -> nat { pc => Rank(pc, n) }

  function Work(s: State): nat
  {
    var n := |s.threads|;
    Sum(s.threads, RankAmong(n)) + (14 + 2 * n) * |s.dataQueue|
  }

  lemma {:induction false} SumWake(threads: seq<Pc>, n: nat)
    ensures Sum(WakeAll(threads), RankAmong(n)) <= Sum(threads, RankAmong(n)) + 2 * |threads|
  {
    if threads != [] {
      var last := |threads| - 1;
      SumWake(threads[..last], n);
      assert WakeAll(threads)[..last] == WakeAll(threads[..last]);
    }
  }

  /** The rank of the acting thread falls by more than the rest of the state pays for. */
  lemma ActLowersRank(s: State, t: nat)
    requires CanAct(s, t)
    ensures var s' := Next(s, t); var n := |s.threads|; var L := 14 + 2 * n;
            && |s'.threads| == n
            && Rank(s'.threads[t], n) + L * |s'.dataQueue| + (if s.threads[t].Notify? then 2 * n else 0)
               < Rank(s.threads[t], n) + L * |s.dataQueue|
            && (!s.threads[t].Notify? ==> s'.threads == s.threads[t := s'.threads[t]])
  {
    if s.threads[t].TakeData? {
      var L := 14 + 2 * |s.threads|;
      assert L * (|s.dataQueue| - 1) == L * |s.dataQueue| - L;
    }
  }

  /** Every action of a thread uses up some of the bounded work. */
  lemma ActLowersWork(s: State, t: nat)
    requires CanAct(s, t)
    ensures Work(Next(s, t)) < Work(s)
  {
    var n := |s.threads|;
    ActLowersRank(s, t);
    if s.threads[t].Notify? {
      SumWake(s.threads, n);
      SumUpdate(WakeAll(s.threads), t, Unlock, RankAmong(n));
    } else {
      SumUpdate(s.threads, t, Next(s, t).threads[t], RankAmong(n));
    }
  }

  /** A spurious wakeup adds at most two. */
  lemma WakeAddsWork(s: State, t: nat)
    requires t < |s.threads| && s.threads[t].Waiting?
    ensures Work(Apply(s, SpuriousWake(t))) <= Work(s) + 2
  {
    SumUpdate(s.threads, t, Wake(s.threads[t]), RankAmong(|s.threads|));
  }

  /** The actions of threads that take effect when a schedule is run. */
  function Actions(s: State, schedule: seq<Step>): nat
    decreases |schedule|
  {
    if schedule == [] then 0
    else if Enabled(s, schedule[0]) then (if schedule[0].Act? then 1 else 0) + Actions(Apply(s, schedule[0]), schedule[1..])
    else Actions(s, schedule[1..])
  }

  /** And the spurious wakeups that do. */
  function Wakeups(s: State, schedule: seq<Step>): nat
    decreases |schedule|
  {
    if schedule == [] then 0
    else if Enabled(s, schedule[0]) then (if schedule[0].Act? then 0 else 1) + Wakeups(Apply(s, schedule[0]), schedule[1..])
    else Wakeups(s, schedule[1..])
  }

  /** Every run is over after a number of actions fixed by the data, the number
      of threads, and how many wakeups were spurious. */
  lemma {:induction false} RunsAreBounded(s: State, schedule: seq<Step>)
    ensures Actions(s, schedule) <= Work(s) + 2 * Wakeups(s, schedule)
    decreases |schedule|
  {
    if schedule != [] {
      if Enabled(s, schedule[0]) {
        match schedule[0]
        case Act(t) => ActLowersWork(s, t);
        case SpuriousWake(t) => WakeAddsWork(s, t);
      }
      RunsAreBounded(if Enabled(s, schedule[0]) then Apply(s, schedule[0]) else s, schedule[1..]);
    }
  }

  // ----- the shared variables, updated in place

  class Printer {
    var dataQueue: seq<SomeData>
    var printQueue: seq<nat>
    var dataQueueMutex: Option<nat>
    var printQueueMutex: Option<nat>
    var threads: seq<Pc>
    var output: seq<int>
    var popped: nat

    function View(): State
      reads this
    {
      State(dataQueue, printQueue, dataQueueMutex, printQueueMutex, threads, output, popped)
    }

    constructor (data: seq<SomeData>, numThreads: nat)
      ensures View() == Init(data, numThreads)
    {
      dataQueue, printQueue := data, [];
      dataQueueMutex, printQueueMutex := None, None;
      threads, output, popped := seq(numThreads, _ => LockData), [], 0;
    }

    /** The next action of thread t of `parallelCalculate`. */
    method Step(t: nat)
      requires CanAct(View(), t)
      modifies this
      ensures View() == Next(old(View()), t)
    {
      var pc := threads[t];
      match pc {
        case LockData =>
          dataQueueMutex := Some(t);
          pc := TestEmpty;
        case TestEmpty =>
          if dataQueue == [] {
            dataQueueMutex := None;
            pc := Returned;
          } else {
            pc := LockPrint;
          }
        case LockPrint =>
          printQueueMutex := Some(t);
          pc := Register;
        case Register =>
          printQueue := printQueue + [t];
          printQueueMutex := None;
          pc := TakeData;
        case TakeData =>
          pc := Calculating(dataQueue[0]);
          dataQueue := dataQueue[1..];
          dataQueueMutex := None;
        case Calculating(data) =>
          pc := LockForPrint(Calculate(data));
        case LockForPrint(result) =>
          printQueueMutex := Some(t);
          pc := TestFront(result);
        case TestFront(result) =>
          pc := if printQueue[0] == t then Print(result) else TestPred(result);
        case TestPred(result) =>
          if printQueue[0] == t {
            pc := Print(result);
          } else {
            printQueueMutex := None;
            pc := Waiting(result);
          }
        case Woken(result) =>
          printQueueMutex := Some(t);
          pc := TestPred(result);
        case Print(result) =>
          output := output + [result];
          pc := PopFront;
        case PopFront =>
          printQueue := printQueue[1..];
          popped := popped + 1;
          pc := Notify;
        case Notify =>
          threads := WakeAll(threads);
          pc := Unlock;
        case Unlock =>
          printQueueMutex := None;
          pc := LockData;
      }
      threads := threads[t := pc];
    }

    /** Lets an adversary pick which thread acts next, and wake waiting threads for
        no reason up to the given number of times, until all have returned; by
        then everything has been printed, in the order of the data. */
    method RunToCompletion(wakeups: nat, ghost data: seq<SomeData>)
      requires View() == Init(data, |threads|) && |threads| > 0
      modifies this
      ensures AllReturned(View())
      ensures dataQueue == [] && |output| == |data| && forall i :: 0 <= i < |data| ==> output[i] == data[i].data
    {
      hide Inv, Next, Work;
      InitEstablishesInv(data, |threads|);
      var left := wakeups;
      while !AllReturned(View())
        invariant Inv(View(), data) && |threads| > 0
        decreases Work(View()) + 3 * left
      {
        ghost var possible := Progress(View(), data);
        var wake: bool, t: nat :| t < |threads| && if wake then left > 0 && threads[t].Waiting? else CanAct(View(), t);
        if wake {
          WakeKeepsInv(View(), data, t);
          WakeAddsWork(View(), t);
          threads := threads[t := Wake(threads[t])];
          left := left - 1;
        } else {
          ActKeepsInv(View(), data, t);
          ActLowersWork(View(), t);
          ActLowersRank(View(), t);
          Step(t);
        }
      }
      AllPrinted(View(), data);
    }
  }
}
