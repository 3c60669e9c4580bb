/** The invariant of the thread pool and its preservation by every step. */
module ThreadPoolInvariant {
  import opened Wrappers
  import opened Sums
  import opened ThreadPoolMachine

  // ----- what is counted

  function FlagOf(w: Worker): nat { if w.available then 1 else 0 }

  function UncountedOf(w: Worker): nat { if w.pc == Increment then 1 else 0 }

  function UnsignalledOf(w: Worker): nat { if w.pc == Increment || w.pc == SignalFree then 1 else 0 }

  function PushedOf(c: ClientPc): nat { if c == Pushed then 1 else 0 }

  ghost function HeldOf(w: Worker): multiset<Thunk>
  {
    if w.live && w.work.Some? then multiset{w.work.value} else multiset{}
  }

  function Flags(s: Pool): nat { Sum(s.workers, FlagOf) }

  /** Workers that have set their flag but not yet incremented the counter. */
  function Uncounted(s: Pool): nat { Sum(s.workers, UncountedOf) }

  /** Workers that have set their flag but not yet signalled availableWorker. */
  function Unsignalled(s: Pool): nat { Sum(s.workers, UnsignalledOf) }

  /** Clients between the push and the signal of `schedule`. */
  function HalfScheduled(s: Pool): nat { Sum(s.clients, PushedOf) }

  ghost function Hand(d: DispatcherPc): multiset<Thunk>
  {
    if d.AssignWork? then multiset{d.thunk} else multiset{}
  }

  /** Thunks in the dispatcher's hand or in a worker's slot, not yet run to the end. */
  ghost function Held(s: Pool): multiset<Thunk>
  {
    Bag(s.workers, HeldOf) + Hand(s.dispatcher)
  }

  /** The dispatcher has passed the stop test with the pool stopping. */
  predicate PastLoop(d: DispatcherPc)
  {
    d.SetStop? || d.SignalStop? || d.Join? || d.DispatcherDone?
  }

  predicate HoldsWorkToken(d: DispatcherPc)
  {
    d.AwaitWorker? || d.TestPoolStop? || d.Scan? || d.ClearFlag? || d.Decrement? || d.PopWork? || PastLoop(d)
  }

  predicate HoldsWorkerToken(d: DispatcherPc)
  {
    d.TestPoolStop? || d.Scan? || d.ClearFlag? || PastLoop(d)
  }

  predicate Claims(d: DispatcherPc, i: nat)
  {
    match d
    case Decrement(t) => t == i
    case PopWork(t) => t == i
    case AssignWork(t, _) => t == i
    case SignalRequest(t) => t == i
    case _ => false
  }

  // ----- the invariant

  predicate Parking(pc: WorkerPc)
  {
    pc == Increment || pc == SignalFree || pc == NotifyAll || pc == AwaitRequest
  }

  /** The five situations of a worker, told apart by its flag, its slot and the
      dispatcher. */
  predicate WorkerOk(w: Worker, i: nat, d: DispatcherPc)
  {
    && (w.pc == NotStarted <==> d.Spawn? && d.next <= i)
    && (w.live ==> w.work.Some?)
    && w.stopsTaken == (if w.pc == Exited then 1 else 0)
    && (w.stopWorking <==> match d
                           case SetStop(k) => i < k
                           case SignalStop(k) => i <= k
                           case Join(_) => true
                           case DispatcherDone => true
                           case _ => false)
    && if w.available then
         && !w.live && !Claims(d, i)
         && if !w.stopWorking || d == SignalStop(i) then Parking(w.pc) && w.requested == 0
            else if Parking(w.pc) then w.requested == 1
            else (w.pc == TestStop || w.pc == Exited) && w.requested == 0
       else
         && !w.stopWorking
         && if Claims(d, i) then
              Parking(w.pc) && w.requested == 0 && (w.live <==> d.SignalRequest?)
            else if !w.live then (w.pc == SetFlag || w.pc == NotStarted) && w.requested == 0
            else if Parking(w.pc) then w.requested == 1
            else (w.pc == TestStop || w.pc == RunThunk) && w.requested == 0
  }

  ghost predicate WorkersOk(s: Pool)
  {
    forall i :: 0 <= i < |s.workers| ==> WorkerOk(s.workers[i], i, s.dispatcher)
  }

  /** The lagging counter, and the two semaphores against what they stand for. */
  predicate CountedAs(s: Pool, flags: nat, uncounted: nat, unsignalled: nat, halfScheduled: nat)
  {
    && s.numAvailable + uncounted == flags + (if s.dispatcher.Decrement? then 1 else 0)
    && s.availableWorker + (if HoldsWorkerToken(s.dispatcher) then 1 else 0) + unsignalled
       == flags + (if s.phase == JoinNext || s.phase == Gone then 1 else 0)
    && s.availableWork + (if HoldsWorkToken(s.dispatcher) then 1 else 0) + halfScheduled
       == |s.queue| + (if s.phase == WorkerSignalNext || s.phase == JoinNext || s.phase == Gone then 1 else 0)
  }

  predicate Counted(s: Pool)
  {
    CountedAs(s, Flags(s), Uncounted(s), Unsignalled(s), HalfScheduled(s))
  }

  predicate HoldsQueue(pc: ClientPc) { pc.Locked? || pc.SawEmpty? || pc.AboutToSleep? }

  ghost predicate Mutexes(s: Pool)
  {
    && (s.counterMutex.Some? ==> s.counterMutex.value < |s.workers|)
    && (forall i :: 0 <= i < |s.workers| ==>
          ((s.workers[i].pc == SignalFree || s.workers[i].pc == NotifyAll) <==> s.counterMutex == Some(i)))
    && (s.queueMutex.Some? ==> s.queueMutex.value < |s.clients|)
    && (forall c :: 0 <= c < |s.clients| ==>
          (HoldsQueue(s.clients[c]) <==> s.queueMutex == Some(c)))
    && (forall c :: 0 <= c < |s.clients| && s.clients[c].SawEmpty? ==> s.queue == [])
  }

  ghost predicate ConservedAs(s: Pool, slots: multiset<Thunk>)
  {
    && s.popped + s.queue == s.pushed
    && multiset(s.popped) == s.finished + (slots + Hand(s.dispatcher))
  }

  ghost predicate Conserved(s: Pool)
  {
    ConservedAs(s, Bag(s.workers, HeldOf))
  }

  ghost predicate DispatcherOk(s: Pool)
  {
    var n := |s.workers|;
    match s.dispatcher
    case Spawn(i) => i <= n
    case Scan(i) => exists k :: i <= k < n && s.workers[k].available
    case ClearFlag(i) => i < n && s.workers[i].available
    case Decrement(i) => i < n
    case PopWork(i) => i < n
    case AssignWork(i, _) => i < n
    case SignalRequest(i) => i < n
    case SetStop(i) => i <= n
    case SignalStop(i) => i < n
    case Join(i) => i <= n && forall k :: 0 <= k < i ==> s.workers[k].pc == Exited
    case DispatcherDone => forall k :: 0 <= k < n ==> s.workers[k].pc == Exited
    case DispatcherFailed => false
    case _ => true
  }

  /** What holds from the moment the destructor's wait returns. */
  ghost predicate Closed(s: Pool)
  {
    && s.queue == []
    && (forall c :: 0 <= c < |s.clients| ==> s.clients[c] != Pushed)
    && s.numAvailable == |s.workers|
    && (forall i :: 0 <= i < |s.workers| ==>
          && s.workers[i].available
          && (s.workers[i].pc == AwaitRequest || s.workers[i].pc == TestStop || s.workers[i].pc == Exited))
    && (s.dispatcher == Spawn(|s.workers|) || s.dispatcher.AwaitWork? || s.dispatcher.AwaitWorker?
        || s.dispatcher.TestPoolStop? || PastLoop(s.dispatcher))
  }

  ghost predicate PhaseOk(s: Pool)
  {
    && (s.stopWorking <==> s.phase != Open && s.phase != StopNext)
    && (s.phase != Open ==> Closed(s))
    && (s.phase == Open ==> !PastLoop(s.dispatcher))
    && (s.phase == Gone ==> s.dispatcher == DispatcherDone)
    && (forall c :: 0 <= c < |s.clients| ==> s.clients[c] != ClientFailed)
  }

  ghost predicate Inv(s: Pool)
  {
    WorkersOk(s) && Counted(s) && Mutexes(s) && Conserved(s) && DispatcherOk(s) && PhaseOk(s)
  }

  // ----- initially

  lemma InitEstablishesInv(numThreads: nat, numClients: nat)
    ensures Inv(Init(numThreads, numClients))
  {
    var s := Init(numThreads, numClients);
    SumZero(s.workers, FlagOf);
    SumZero(s.workers, UncountedOf);
    SumZero(s.workers, UnsignalledOf);
    SumZero(s.clients, PushedOf);
    BagEmpty(s.workers, HeldOf);
    InitWorkersOk(numThreads, numClients);
    hide WorkersOk, WorkerOk;
  }

  lemma InitWorkersOk(numThreads: nat, numClients: nat)
    ensures WorkersOk(Init(numThreads, numClients))
  {
  }

  // ----- one worker changes

  /** How the counts of two pools differ when only worker i may differ. */
  lemma Recount(s: Pool, t: Pool, i: nat)
    requires i < |s.workers| && |t.workers| == |s.workers|
    requires t.workers == s.workers[i := t.workers[i]]
    ensures Flags(t) + FlagOf(s.workers[i]) == Flags(s) + FlagOf(t.workers[i])
    ensures Uncounted(t) + UncountedOf(s.workers[i]) == Uncounted(s) + UncountedOf(t.workers[i])
    ensures Unsignalled(t) + UnsignalledOf(s.workers[i]) == Unsignalled(s) + UnsignalledOf(t.workers[i])
    ensures Bag(t.workers, HeldOf) + HeldOf(s.workers[i]) == Bag(s.workers, HeldOf) + HeldOf(t.workers[i])
  {
    BagUpdate(s.workers, i, t.workers[i], HeldOf);
    SumUpdate(s.workers, i, t.workers[i], FlagOf);
    SumUpdate(s.workers, i, t.workers[i], UncountedOf);
    SumUpdate(s.workers, i, t.workers[i], UnsignalledOf);
  }

  /** What a worker's step leaves alone, and what it does to the shared counts. */
  lemma WorkerLeaves(s: Pool, i: nat)
    requires WorkerCan(s, i)
    ensures var t := WorkerNext(s, i); var w := s.workers[i];
            && t.workers == s.workers[i := t.workers[i]]
            && t.dispatcher == s.dispatcher && t.clients == s.clients && t.phase == s.phase && t.queue == s.queue
            && t.availableWork == s.availableWork && t.stopWorking == s.stopWorking && t.queueMutex == s.queueMutex
            && t.numAvailable == s.numAvailable + (if w.pc == Increment then 1 else 0)
            && t.availableWorker == s.availableWorker + (if w.pc == SignalFree then 1 else 0)
            && t.counterMutex == (if w.pc == Increment then Some(i) else if w.pc == NotifyAll then None else s.counterMutex)
            && (w.pc == Increment ==> s.counterMutex == None)
  {
  }

  /** Where a worker's step takes it, as far as flag, counter and mutex go. */
  lemma WorkerAdvances(s: Pool, i: nat)
    requires WorkerCan(s, i)
    ensures var w, w' := s.workers[i], WorkerNext(s, i).workers[i];
            && w.pc != Exited
            && (w'.available <==> w.available || w.pc == SetFlag)
            && (w'.pc == Increment <==> w.pc == SetFlag && !w.available)
            && (w'.pc == SignalFree <==> w.pc == Increment)
            && (w'.pc == NotifyAll <==> w.pc == SignalFree)
            && (w'.pc == AwaitRequest <==> w.pc == NotifyAll)
            && (w'.pc == TestStop <==> w.pc == AwaitRequest)
            && (w'.pc == Exited <==> w.pc == TestStop && w.stopWorking)
  {
  }

  lemma WorkerKeepsWorkersOk(s: Pool, i: nat)
    requires WorkersOk(s) && WorkerCan(s, i)
    ensures WorkersOk(WorkerNext(s, i))
  {
    assert WorkerOk(s.workers[i], i, s.dispatcher);
  }

  lemma WorkerCounts(s: Pool, i: nat, f: nat, u: nat, g: nat, h: nat, f': nat, u': nat, g': nat)
    requires WorkerCan(s, i) && WorkerOk(s.workers[i], i, s.dispatcher) && CountedAs(s, f, u, g, h)
    requires var w := s.workers[i]; var w' := WorkerNext(s, i).workers[i];
             && f' + FlagOf(w) == f + FlagOf(w')
             && u' + UncountedOf(w) == u + UncountedOf(w')
             && g' + UnsignalledOf(w) == g + UnsignalledOf(w')
    ensures CountedAs(WorkerNext(s, i), f', u', g', h)
  {
    hide WorkerNext, WorkerOk;
    WorkerLeaves(s, i);
    WorkerAdvances(s, i);
  }

  /** A worker's step moves a thunk from its slot to the finished ones, or moves none. */
  lemma WorkerMoves(s: Pool, i: nat)
    requires WorkerCan(s, i) && WorkerOk(s.workers[i], i, s.dispatcher)
    ensures var t := WorkerNext(s, i);
            && (t.finished + Hand(t.dispatcher)) + HeldOf(t.workers[i]) == (s.finished + Hand(s.dispatcher)) + HeldOf(s.workers[i])
            && t.popped == s.popped && t.queue == s.queue && t.pushed == s.pushed
            && t.workers == s.workers[i := t.workers[i]]
  {
    var t := WorkerNext(s, i);
    if s.workers[i].pc == RunThunk {
      RunMoves(s, i);
    } else {
      assert t.finished == s.finished && HeldOf(t.workers[i]) == HeldOf(s.workers[i]);
    }
  }

  lemma RunMoves(s: Pool, i: nat)
    requires WorkerCan(s, i) && s.workers[i].pc == RunThunk && s.workers[i].live && s.workers[i].work.Some?
    ensures var t := WorkerNext(s, i);
            (t.finished + Hand(t.dispatcher)) + HeldOf(t.workers[i]) == (s.finished + Hand(s.dispatcher)) + HeldOf(s.workers[i])
  {
    var t, x := WorkerNext(s, i), multiset{s.workers[i].work.value};
    assert HeldOf(t.workers[i]) == multiset{} && HeldOf(s.workers[i]) == x && t.finished == s.finished + x;
    assert (s.finished + x) + Hand(s.dispatcher) == (s.finished + Hand(s.dispatcher)) + x;
  }

  lemma WorkerKeepsCounted(s: Pool, i: nat)
    requires WorkerCan(s, i) && WorkerOk(s.workers[i], i, s.dispatcher) && Counted(s)
    ensures Counted(WorkerNext(s, i))
  {
    var t := WorkerNext(s, i);
    Recount(s, t, i);
    WorkerCounts(s, i, Flags(s), Uncounted(s), Unsignalled(s), HalfScheduled(s), Flags(t), Uncounted(t), Unsignalled(t));
  }

  lemma WorkerKeepsConserved(s: Pool, i: nat)
    requires WorkerCan(s, i) && WorkerOk(s.workers[i], i, s.dispatcher) && Conserved(s)
    ensures Conserved(WorkerNext(s, i))
  {
    var t := WorkerNext(s, i);
    WorkerMoves(s, i);
    MovedAs(s, t, Bag(s.workers, HeldOf), Bag(t.workers, HeldOf), HeldOf(s.workers[i]), HeldOf(t.workers[i])) by {
      BagUpdate(s.workers, i, t.workers[i], HeldOf);
    }
  }

  lemma MovedAs(s: Pool, t: Pool, b: multiset<Thunk>, b': multiset<Thunk>, h: multiset<Thunk>, h': multiset<Thunk>)
    requires ConservedAs(s, b) && t.popped == s.popped && t.queue == s.queue && t.pushed == s.pushed
    requires (t.finished + Hand(t.dispatcher)) + h' == (s.finished + Hand(s.dispatcher)) + h
    requires b' + h == b + h'
    ensures ConservedAs(t, b')
  {
    var x, x' := s.finished + Hand(s.dispatcher), t.finished + Hand(t.dispatcher);
    Rebalance(x, x', b, b', h, h');
    assert t.finished + (b' + Hand(t.dispatcher)) == x' + b' == x + b == s.finished + (b + Hand(s.dispatcher));
  }

  lemma WorkerKeepsMutexes(s: Pool, i: nat)
    requires WorkerCan(s, i) && WorkerOk(s.workers[i], i, s.dispatcher) && Mutexes(s)
    ensures Mutexes(WorkerNext(s, i))
  {
    hide WorkerNext, WorkerOk;
    WorkerLeaves(s, i);
    WorkerAdvances(s, i);
  }

  lemma WorkerKeepsDispatcherOk(s: Pool, i: nat)
    requires WorkerCan(s, i) && WorkerOk(s.workers[i], i, s.dispatcher) && DispatcherOk(s)
    ensures DispatcherOk(WorkerNext(s, i))
  {
    hide WorkerNext, WorkerOk;
    WorkerLeaves(s, i);
    WorkerAdvances(s, i);
    var t := WorkerNext(s, i);
    match s.dispatcher
    case Scan(at) =>
      var k :| at <= k < |s.workers| && s.workers[k].available;
      assert t.workers[k].available;
    case _ =>
  }

  lemma WorkerKeepsPhaseOk(s: Pool, i: nat)
    requires WorkerCan(s, i) && WorkerOk(s.workers[i], i, s.dispatcher) && PhaseOk(s)
    ensures PhaseOk(WorkerNext(s, i))
  {
    hide WorkerNext;
    WorkerLeaves(s, i);
    WorkerAdvances(s, i);
  }

  lemma WorkerKeepsInv(s: Pool, i: nat)
    requires Inv(s) && WorkerCan(s, i)
    ensures Inv(WorkerNext(s, i))
  {
    assert WorkerOk(s.workers[i], i, s.dispatcher);
    WorkerKeepsWorkersOk(s, i);
    WorkerKeepsCounted(s, i);
    WorkerKeepsConserved(s, i);
    WorkerKeepsMutexes(s, i);
    WorkerKeepsDispatcherOk(s, i);
    WorkerKeepsPhaseOk(s, i);
  }

  // ----- the dispatcher moves

  /** What the counts say where the dispatcher relies on them. */
  ghost predicate Supplied(s: Pool)
  {
    && (s.dispatcher.ClearFlag? ==> s.numAvailable > 0)
    && (s.dispatcher.PopWork? ==> s.queue != [])
    && (s.dispatcher.TestPoolStop? && !s.stopWorking ==> exists k :: 0 <= k < |s.workers| && s.workers[k].available)
    && (HoldsWorkToken(s.dispatcher) && s.phase != Open ==> s.stopWorking)
    && (PastLoop(s.dispatcher) || s.dispatcher.TestPoolStop? ==> s.stopWorking || s.phase == Open)
  }

  lemma CountsSupply(s: Pool)
    requires Inv(s)
    ensures Supplied(s)
  {
    SumLe(s.workers, UncountedOf, UnsignalledOf);
    if s.dispatcher.TestPoolStop? && !s.stopWorking {
      var k := SumPositive(s.workers, FlagOf);
    }
  }

  /** The dispatcher is about to assign, or is assigning, work. */
  predicate Assigning(d: DispatcherPc)
  {
    d.Scan? || d.ClearFlag? || d.Decrement? || d.PopWork? || d.AssignWork? || d.SignalRequest? || d.DispatcherFailed?
  }

  lemma AssigningKeepsWorkerOk(s: Pool, i: nat)
    requires DispatcherCan(s) && DispatcherOk(s) && Supplied(s) && Assigning(s.dispatcher)
    requires i < |s.workers| && WorkerOk(s.workers[i], i, s.dispatcher)
    ensures WorkerOk(DispatcherNext(s).workers[i], i, DispatcherNext(s).dispatcher)
  {
  }

  lemma OthersKeepWorkerOk(s: Pool, i: nat)
    requires DispatcherCan(s) && !Assigning(s.dispatcher) && (s.dispatcher.SignalStop? ==> s.dispatcher.at < |s.workers|)
    requires i < |s.workers| && (PastLoop(s.dispatcher) ==> s.workers[i].available) && WorkerOk(s.workers[i], i, s.dispatcher)
    ensures WorkerOk(DispatcherNext(s).workers[i], i, DispatcherNext(s).dispatcher)
  {
  }

  lemma DispatcherKeepsWorkerOk(s: Pool, i: nat)
    requires DispatcherCan(s) && DispatcherOk(s) && Supplied(s) && PhaseOk(s)
    requires i < |s.workers| && WorkerOk(s.workers[i], i, s.dispatcher)
    ensures WorkerOk(DispatcherNext(s).workers[i], i, DispatcherNext(s).dispatcher)
  {
    hide DispatcherNext, WorkerOk, Supplied, DispatcherCan;
    if Assigning(s.dispatcher) {
      AssigningKeepsWorkerOk(s, i);
    } else {
      OthersKeepWorkerOk(s, i);
    }
  }

  lemma DispatcherKeepsWorkersOk(s: Pool)
    requires DispatcherCan(s) && WorkersOk(s) && DispatcherOk(s) && Supplied(s) && PhaseOk(s)
    ensures WorkersOk(DispatcherNext(s))
  {
    hide DispatcherNext, WorkerOk, DispatcherOk, Supplied, DispatcherCan, PhaseOk;
    DispatcherLeavesPcs(s);
    forall i | 0 <= i < |s.workers|
      ensures WorkerOk(DispatcherNext(s).workers[i], i, DispatcherNext(s).dispatcher)
    {
      DispatcherKeepsWorkerOk(s, i);
    }
  }

  lemma DispatcherLeavesPcs(s: Pool)
    requires DispatcherCan(s)
    ensures var t := DispatcherNext(s);
            && |t.workers| == |s.workers| && t.clients == s.clients
            && t.counterMutex == s.counterMutex && t.queueMutex == s.queueMutex
            && (s.queue == [] ==> t.queue == [])
            && forall i :: 0 <= i < |s.workers| ==>
                 t.workers[i].pc == s.workers[i].pc || (s.dispatcher == Spawn(i) && t.workers[i].pc == SetFlag)
  {
  }

  lemma DispatcherKeepsMutexes(s: Pool)
    requires DispatcherCan(s) && WorkersOk(s) && Mutexes(s)
    ensures Mutexes(DispatcherNext(s))
  {
    DispatcherLeavesPcs(s);
    var t := DispatcherNext(s);
    forall i | 0 <= i < |s.workers|
      ensures (t.workers[i].pc == SignalFree || t.workers[i].pc == NotifyAll) <==> t.counterMutex == Some(i)
    {
      assert WorkerOk(s.workers[i], i, s.dispatcher);
    }
  }

  lemma AssigningKeepsDispatcherOk(s: Pool)
    requires DispatcherCan(s) && DispatcherOk(s) && Supplied(s) && Assigning(s.dispatcher)
    ensures DispatcherOk(DispatcherNext(s))
  {
  }

  lemma OthersKeepDispatcherOk(s: Pool)
    requires DispatcherCan(s) && DispatcherOk(s) && Supplied(s) && !Assigning(s.dispatcher)
    ensures DispatcherOk(DispatcherNext(s))
  {
  }

  lemma DispatcherKeepsDispatcherOk(s: Pool)
    requires DispatcherCan(s) && DispatcherOk(s) && Supplied(s)
    ensures DispatcherOk(DispatcherNext(s))
  {
    hide DispatcherNext, DispatcherOk, Supplied, DispatcherCan;
    if Assigning(s.dispatcher) {
      AssigningKeepsDispatcherOk(s);
    } else {
      OthersKeepDispatcherOk(s);
    }
  }

  /** What a dispatcher step leaves alone, and the order of its stages. */
  lemma DispatcherStages(s: Pool)
    requires DispatcherCan(s)
    ensures var t, d, d' := DispatcherNext(s), s.dispatcher, DispatcherNext(s).dispatcher;
            && t.phase == s.phase && t.stopWorking == s.stopWorking
            && (!d.Decrement? ==> t.numAvailable == s.numAvailable)
            && (!d.ClearFlag? ==> forall i :: 0 <= i < |s.workers| ==> t.workers[i].available == s.workers[i].available)
            && (d == Spawn(|s.workers|) ==> d'.AwaitWork?)
            && (d.AwaitWork? ==> d'.AwaitWorker?)
            && (d.AwaitWorker? ==> d'.TestPoolStop?)
            && (d.TestPoolStop? && s.stopWorking ==> PastLoop(d'))
            && (PastLoop(d) ==> PastLoop(d'))
            && (PastLoop(d') ==> PastLoop(d) || (d.TestPoolStop? && s.stopWorking))
  {
  }

  lemma DispatcherKeepsPhaseOk(s: Pool)
    requires DispatcherCan(s) && Supplied(s) && PhaseOk(s)
    ensures PhaseOk(DispatcherNext(s))
  {
    hide DispatcherNext;
    DispatcherLeavesPcs(s);
    DispatcherStages(s);
  }

  /** The worker the dispatcher's next step writes to, if any. */
  function Written(s: Pool): Option<nat>
  {
    match s.dispatcher
    case Spawn(i) => if i < |s.workers| then Some(i) else None
    case ClearFlag(i) => Some(i)
    case AssignWork(i, _) => Some(i)
    case SignalRequest(i) => Some(i)
    case SetStop(i) => if i < |s.workers| then Some(i) else None
    case SignalStop(i) => Some(i)
    case _ => None
  }

  lemma DispatcherCounts(s: Pool, i: nat, f: nat, u: nat, g: nat, h: nat, f': nat, u': nat, g': nat)
    requires DispatcherCan(s) && DispatcherOk(s) && Supplied(s)
    requires i < |s.workers| && Written(s) == Some(i)
    requires WorkerOk(s.workers[i], i, s.dispatcher) && CountedAs(s, f, u, g, h)
    requires var w := s.workers[i]; var w' := DispatcherNext(s).workers[i];
             && f' + FlagOf(w) == f + FlagOf(w')
             && u' + UncountedOf(w) == u + UncountedOf(w')
             && g' + UnsignalledOf(w) == g + UnsignalledOf(w')
    ensures CountedAs(DispatcherNext(s), f', u', g', h)
  {
  }

  lemma DispatcherCountsIdle(s: Pool, f: nat, u: nat, g: nat, h: nat)
    requires DispatcherCan(s) && DispatcherOk(s) && Supplied(s)
    requires Written(s) == None && CountedAs(s, f, u, g, h)
    ensures CountedAs(DispatcherNext(s), f, u, g, h)
  {
  }

  /** A dispatcher step that writes to a worker moves a thunk from the
      dispatcher's hand into that worker's slot, or moves none. */
  lemma DispatcherMoves(s: Pool, i: nat)
    requires DispatcherCan(s) && DispatcherOk(s) && Supplied(s)
    requires i < |s.workers| && Written(s) == Some(i) && WorkerOk(s.workers[i], i, s.dispatcher)
    ensures var t := DispatcherNext(s);
            && (t.finished + Hand(t.dispatcher)) + HeldOf(t.workers[i]) == (s.finished + Hand(s.dispatcher)) + HeldOf(s.workers[i])
            && t.popped == s.popped && t.queue == s.queue && t.pushed == s.pushed
  {
  }

  lemma PopConserves(s: Pool, i: nat, b: multiset<Thunk>)
    requires DispatcherCan(s) && s.dispatcher == PopWork(i) && s.queue != [] && ConservedAs(s, b)
    ensures ConservedAs(DispatcherNext(s), b)
  {
    var t := DispatcherNext(s);
    var x := s.queue[0];
    assert s.queue == [x] + t.queue;
    assert t.popped + t.queue == s.popped + ([x] + t.queue);
    assert multiset(t.popped) == multiset(s.popped) + multiset{x};
    assert s.finished + (b + multiset{x}) == (s.finished + (b + multiset{})) + multiset{x};
  }

  lemma DispatcherIdles(s: Pool)
    requires DispatcherCan(s) && DispatcherOk(s) && Supplied(s) && Written(s) == None && !s.dispatcher.PopWork?
    ensures var t := DispatcherNext(s);
            && Hand(t.dispatcher) == Hand(s.dispatcher) && t.finished == s.finished
            && t.popped == s.popped && t.queue == s.queue && t.pushed == s.pushed
  {
  }

  lemma DispatcherConservesIdle(s: Pool, b: multiset<Thunk>)
    requires DispatcherCan(s) && DispatcherOk(s) && Supplied(s)
    requires Written(s) == None && ConservedAs(s, b)
    ensures ConservedAs(DispatcherNext(s), b)
  {
    if s.dispatcher.PopWork? {
      PopConserves(s, s.dispatcher.target, b);
    } else {
      DispatcherIdles(s);
    }
  }

  lemma DispatcherWrites(s: Pool)
    requires DispatcherCan(s) && DispatcherOk(s) && Supplied(s)
    ensures var t := DispatcherNext(s);
            && t.clients == s.clients
            && |t.workers| == |s.workers|
            && (Written(s) == None ==> t.workers == s.workers)
            && (Written(s).Some? ==> Written(s).value < |s.workers|
                                     && t.workers == s.workers[Written(s).value := t.workers[Written(s).value]])
  {
  }

  lemma DispatcherKeepsCounted(s: Pool)
    requires DispatcherCan(s) && WorkersOk(s) && DispatcherOk(s) && Supplied(s) && Counted(s)
    ensures Counted(DispatcherNext(s))
  {
    var t := DispatcherNext(s);
    DispatcherWrites(s);
    if Written(s) == None {
      DispatcherCountsIdle(s, Flags(s), Uncounted(s), Unsignalled(s), HalfScheduled(s));
    } else {
      var i := Written(s).value;
      Recount(s, t, i);
      DispatcherCounts(s, i, Flags(s), Uncounted(s), Unsignalled(s), HalfScheduled(s), Flags(t), Uncounted(t), Unsignalled(t));
    }
  }

  lemma DispatcherKeepsConserved(s: Pool)
    requires DispatcherCan(s) && WorkersOk(s) && DispatcherOk(s) && Supplied(s) && Conserved(s)
    ensures Conserved(DispatcherNext(s))
  {
    var t := DispatcherNext(s);
    var b, b' := Bag(s.workers, HeldOf), Bag(t.workers, HeldOf);
    DispatcherWrites(s);
    if Written(s) == None {
      DispatcherConservesIdle(s, b);
    } else {
      var i := Written(s).value;
      DispatcherMoves(s, i);
      MovedAs(s, t, b, b', HeldOf(s.workers[i]), HeldOf(t.workers[i])) by {
        BagUpdate(s.workers, i, t.workers[i], HeldOf);
      }
    }
  }

  lemma DispatcherKeepsInv(s: Pool)
    requires Inv(s) && DispatcherCan(s)
    ensures Inv(DispatcherNext(s))
  {
    CountsSupply(s);
    DispatcherKeepsMutexes(s);
    DispatcherKeepsWorkersOk(s);
    DispatcherKeepsDispatcherOk(s);
    DispatcherKeepsPhaseOk(s);
    DispatcherKeepsCounted(s);
    DispatcherKeepsConserved(s);
  }

  // ----- the destructor and the clients move

  lemma DestructorLeaves(s: Pool)
    requires DestructorCan(s)
    ensures var t := DestructorNext(s);
            && t.workers == s.workers && t.dispatcher == s.dispatcher && t.clients == s.clients && t.queue == s.queue
            && t.popped == s.popped && t.finished == s.finished && t.pushed == s.pushed
            && t.counterMutex == s.counterMutex && t.queueMutex == s.queueMutex
  {
  }

  lemma DestructorKeepsPhaseOk(s: Pool)
    requires DestructorCan(s) && PhaseOk(s)
    ensures PhaseOk(DestructorNext(s))
  {
  }

  lemma SameMutexes(s: Pool, t: Pool)
    requires Mutexes(s) && t.workers == s.workers && t.clients == s.clients && t.queue == s.queue
    requires t.counterMutex == s.counterMutex && t.queueMutex == s.queueMutex
    ensures Mutexes(t)
  {
  }

  lemma DestructorKeepsInv(s: Pool)
    requires Inv(s) && DestructorCan(s)
    ensures Inv(DestructorNext(s))
  {
    hide WorkersOk, DispatcherOk, CountedAs, WorkerOk, PhaseOk, Mutexes, Supplied;
    CountsSupply(s);
    DestructorLeaves(s);
    FrameInv(s, DestructorNext(s));
    DestructorKeepsPhaseOk(s);
    assert Mutexes(DestructorNext(s)) by { SameMutexes(s, DestructorNext(s)); }
    DestructorCounts(s, Flags(s), Uncounted(s), Unsignalled(s), HalfScheduled(s));
  }

  lemma DestructorCounts(s: Pool, f: nat, u: nat, g: nat, h: nat)
    requires DestructorCan(s) && CountedAs(s, f, u, g, h)
    ensures CountedAs(DestructorNext(s), f, u, g, h)
  {
  }

  lemma TestArithmetic(s: Pool, f: nat, u: nat, g: nat, h: nat)
    requires CountedAs(s, f, u, g, h) && PhaseOk(s)
    requires s.queue == [] && s.numAvailable == |s.workers| && f <= |s.workers|
    ensures f == |s.workers| && u == 0
    ensures s.phase == Open ==> h == 0 && !HoldsWorkToken(s.dispatcher)
  {
  }

  lemma AllIdle(s: Pool)
    requires Inv(s) && Flags(s) == |s.workers| && Uncounted(s) == 0 && s.counterMutex == None
    ensures forall i :: 0 <= i < |s.workers| ==> s.workers[i].available && s.workers[i].pc !in {Increment, SignalFree, NotifyAll}
    ensures Bag(s.workers, HeldOf) == multiset{}
  {
    SumFull(s.workers, FlagOf);
    forall i | 0 <= i < |s.workers|
      ensures s.workers[i].available && !s.workers[i].live && s.workers[i].pc !in {Increment, SignalFree, NotifyAll}
    {
      assert FlagOf(s.workers[i]) == 1 && WorkerOk(s.workers[i], i, s.dispatcher);
      SumTerm(s.workers, i, UncountedOf);
    }
    BagEmpty(s.workers, HeldOf);
  }

  /** The heart of `wait`: its test can only succeed when every worker is idle,
      every pushed thunk has been popped, and none is held anywhere. */
  lemma TestSucceedsOnlyWhenIdle(s: Pool)
    requires Inv(s) && s.queue == [] && s.counterMutex == None && s.numAvailable == |s.workers|
    ensures forall i :: 0 <= i < |s.workers| ==> s.workers[i].available && s.workers[i].pc !in {Increment, SignalFree, NotifyAll}
    ensures forall c :: 0 <= c < |s.clients| ==> s.clients[c] != Pushed
    ensures Held(s) == multiset{}
    ensures s.phase == Open ==> s.dispatcher == Spawn(|s.workers|) || s.dispatcher.AwaitWork?
  {
    SumFull(s.workers, FlagOf);
    TestArithmetic(s, Flags(s), Uncounted(s), Unsignalled(s), HalfScheduled(s));
    AllIdle(s);
    forall c | 0 <= c < |s.clients| ensures s.clients[c] != Pushed {
      SumTerm(s.clients, c, PushedOf);
    }
    IdleDispatcher(s);
  }

  lemma IdleDispatcher(s: Pool)
    requires WorkersOk(s) && DispatcherOk(s) && PhaseOk(s)
    requires forall i :: 0 <= i < |s.workers| ==> s.workers[i].available
    requires s.phase == Open ==> !HoldsWorkToken(s.dispatcher)
    ensures !s.dispatcher.AssignWork?
    ensures s.phase == Open ==> s.dispatcher == Spawn(|s.workers|) || s.dispatcher.AwaitWork?
  {
    var k := match s.dispatcher
      case Spawn(k) => k
      case AssignWork(k, _) => k
      case SignalRequest(k) => k
      case _ => |s.workers|;
    assert k < |s.workers| ==> WorkerOk(s.workers[k], k, s.dispatcher);
  }

  lemma ClientCounts(s: Pool, c: nat, f: nat, u: nat, g: nat, h: nat, h': nat)
    requires ClientCan(s, c) && CountedAs(s, f, u, g, h) && PhaseOk(s)
    requires h' + PushedOf(s.clients[c]) == h + PushedOf(ClientNext(s, c).clients[c])
    ensures CountedAs(ClientNext(s, c), f, u, g, h')
  {
  }

  /** The client's own part in the queue's mutex. */
  lemma ClientTakesMutex(s: Pool, c: nat)
    requires ClientCan(s, c) && (HoldsQueue(s.clients[c]) <==> s.queueMutex == Some(c))
    requires s.clients[c].SawEmpty? ==> s.queue == []
    ensures var t := ClientNext(s, c);
            && t.workers == s.workers && t.counterMutex == s.counterMutex && t.queue == s.queue
            && t.clients == s.clients[c := t.clients[c]]
            && (HoldsQueue(t.clients[c]) <==> t.queueMutex == Some(c))
            && (t.clients[c].SawEmpty? ==> t.queue == [])
            && (t.queueMutex != s.queueMutex ==> s.queueMutex == None || s.queueMutex == Some(c))
            && (t.queueMutex != s.queueMutex ==> t.queueMutex == None || t.queueMutex == Some(c))
  {
  }

  lemma ClientKeepsMutexes(s: Pool, c: nat)
    requires ClientCan(s, c) && Mutexes(s)
    ensures Mutexes(ClientNext(s, c))
  {
    hide ClientNext;
    ClientTakesMutex(s, c);
  }

  /** What `wait` leaves alone, and when it opens the destructor's next phase. */
  lemma ClientLeaves(s: Pool, c: nat)
    requires ClientCan(s, c)
    ensures var t := ClientNext(s, c);
            && t.workers == s.workers && t.dispatcher == s.dispatcher && t.queue == s.queue
            && t.pushed == s.pushed && t.popped == s.popped && t.finished == s.finished
            && t.stopWorking == s.stopWorking && t.numAvailable == s.numAvailable
            && t.clients == s.clients[c := t.clients[c]] && t.clients[c] != Pushed && t.clients[c] != ClientFailed
            && (t.phase != s.phase ==> t.phase == StopNext && s.phase == Open && s.clients[c].SawEmpty?
                                       && s.counterMutex == None && s.numAvailable == |s.workers|)
  {
  }

  lemma ClientKeepsPhaseOk(s: Pool, c: nat)
    requires ClientCan(s, c) && Inv(s)
    ensures PhaseOk(ClientNext(s, c))
  {
    var t := ClientNext(s, c);
    ClientLeaves(s, c);
    if t.phase != s.phase {
      TestSucceedsOnlyWhenIdle(s);
      IdleIsClosed(s);
    }
  }

  lemma IdleIsClosed(s: Pool)
    requires WorkersOk(s) && s.queue == [] && s.numAvailable == |s.workers| && s.phase == Open && PhaseOk(s)
    requires forall i :: 0 <= i < |s.workers| ==> s.workers[i].available && s.workers[i].pc !in {Increment, SignalFree, NotifyAll}
    requires forall c :: 0 <= c < |s.clients| ==> s.clients[c] != Pushed
    requires s.dispatcher == Spawn(|s.workers|) || s.dispatcher.AwaitWork?
    ensures Closed(s)
  {
    forall i | 0 <= i < |s.workers| ensures s.workers[i].pc == AwaitRequest {
      assert WorkerOk(s.workers[i], i, s.dispatcher);
    }
  }

  /** Steps that touch neither a worker nor the dispatcher keep what is said of them. */
  lemma FrameInv(s: Pool, t: Pool)
    requires t.workers == s.workers && t.dispatcher == s.dispatcher && t.finished == s.finished
    requires t.popped == s.popped && t.popped + t.queue == t.pushed
    ensures WorkersOk(s) ==> WorkersOk(t)
    ensures DispatcherOk(s) ==> DispatcherOk(t)
    ensures Conserved(s) ==> Conserved(t)
    ensures Flags(t) == Flags(s) && Uncounted(t) == Uncounted(s) && Unsignalled(t) == Unsignalled(s)
  {
  }

  lemma ClientKeepsInv(s: Pool, c: nat)
    requires Inv(s) && ClientCan(s, c)
    ensures Inv(ClientNext(s, c))
  {
    ClientLeaves(s, c);
    FrameInv(s, ClientNext(s, c));
    ClientKeepsMutexes(s, c);
    ClientKeepsPhaseOk(s, c);
    ClientKeepsCounted(s, c);
  }

  lemma ClientKeepsCounted(s: Pool, c: nat)
    requires Counted(s) && PhaseOk(s) && ClientCan(s, c)
    ensures Counted(ClientNext(s, c))
  {
    var t := ClientNext(s, c);
    SumUpdate(s.clients, c, t.clients[c], PushedOf);
    ClientCounts(s, c, Flags(s), Uncounted(s), Unsignalled(s), HalfScheduled(s), HalfScheduled(t));
  }

  lemma CallLeaves(s: Pool, step: Step)
    requires Enabled(s, step) && (step.CallSchedule? || step.CallWait? || step.CallDestructor?)
    requires PhaseOk(s) && s.popped + s.queue == s.pushed
    ensures var t := Apply(s, step);
            && t.workers == s.workers && t.dispatcher == s.dispatcher && t.finished == s.finished && t.popped == s.popped
            && t.phase == Open && t.stopWorking == s.stopWorking && t.popped + t.queue == t.pushed
            && t.counterMutex == s.counterMutex && t.queueMutex == s.queueMutex
            && (t.queue == s.queue || s.queueMutex == None)
            && t.clients == s.clients[step.client := if step.CallSchedule? then Pushed else WantLock]
  {
    if step.CallSchedule? {
      assert s.popped + (s.queue + [step.thunk]) == (s.popped + s.queue) + [step.thunk];
    }
  }

  lemma CallKeepsInv(s: Pool, step: Step)
    requires Inv(s) && Enabled(s, step) && (step.CallSchedule? || step.CallWait? || step.CallDestructor?)
    ensures Inv(Apply(s, step))
  {
    CallLeaves(s, step);
    FrameInv(s, Apply(s, step));
    CallKeepsMutexes(s, Apply(s, step), step.client);
    CallKeepsCounted(s, step);
  }

  lemma CallKeepsMutexes(s: Pool, t: Pool, c: nat)
    requires Mutexes(s) && t.workers == s.workers && t.counterMutex == s.counterMutex && t.queueMutex == s.queueMutex
    requires c < |s.clients| && s.clients[c] == Idle && (t.clients == s.clients[c := Pushed] || t.clients == s.clients[c := WantLock])
    requires t.queue == s.queue || s.queueMutex == None
    ensures Mutexes(t)
  {
  }

  lemma CallKeepsCounted(s: Pool, step: Step)
    requires Counted(s) && PhaseOk(s) && Enabled(s, step) && (step.CallSchedule? || step.CallWait? || step.CallDestructor?)
    ensures Counted(Apply(s, step))
  {
    var t := Apply(s, step);
    var c := step.client;
    SumUpdate(s.clients, c, t.clients[c], PushedOf);
    CallCounts(s, step, Flags(s), Uncounted(s), Unsignalled(s), HalfScheduled(s), HalfScheduled(t));
  }

  lemma CallCounts(s: Pool, step: Step, f: nat, u: nat, g: nat, h: nat, h': nat)
    requires Enabled(s, step) && (step.CallSchedule? || step.CallWait? || step.CallDestructor?)
    requires CountedAs(s, f, u, g, h) && PhaseOk(s)
    requires h' + PushedOf(s.clients[step.client]) == h + PushedOf(Apply(s, step).clients[step.client])
    ensures CountedAs(Apply(s, step), f, u, g, h')
  {
  }

  lemma StepKeepsInv(s: Pool, step: Step)
    requires Inv(s) && Enabled(s, step)
    ensures Inv(Apply(s, step))
  {
    match step
    case WorkerStep(i) => WorkerKeepsInv(s, i);
    case DispatcherStep => DispatcherKeepsInv(s);
    case DestructorStep => DestructorKeepsInv(s);
    case ClientStep(c) => ClientKeepsInv(s, c);
    case _ => CallKeepsInv(s, step);
  }
}
