/** assign3/farm.cc after `spawnAllWorkers`: the main loop, the asynchronous
    SIGCHLD handler that interrupts it, and the self-stopping workers of
    assign3/factor.py.

    Signals follow section 2.4 of POSIX.1-2017 (System Interfaces): SIGCHLD is a
    single pending bit, it is delivered only while unblocked, its handler runs
    with it blocked and interrupts main, and `sigsuspend` unblocks it until a
    handler has returned.  A failing `assert` leads to a `Failed` program point. */
module Farm {
  import opened Wrappers
  import opened Sums

  /** A line of standard input: a number and nothing else, or anything else. */
  datatype Input = Number(num: int) | Malformed

  datatype ProcessPc =
    | ToStop            // about to raise SIGSTOP
    | Stopped
    | Reading           // input()
    | Working(num: int) // factorization, then print

  /** `stopReported` is the kernel's not yet reaped status change. */
  datatype Worker = Worker(available: bool, process: ProcessPc, supply: seq<int>, stopReported: bool)

  datatype MainPc =
    | ReadLine
    // getAvailableWorker
    | BlockForWait(line: int)
    | TestNone(line: int)
    | Suspended(line: int)
    | UnblockForScan(line: int)
    | Scan(line: int, at: nat)
    // assignWorkerToTask
    | BlockForAssign(line: int, target: nat)
    | ClearFlag(line: int, target: nat)
    | Decrement(line: int, target: nat)
    | UnblockAfterAssign(line: int, target: nat)
    | WriteLine(line: int, target: nat)
    | Continue(target: nat)
    // waitForAllWorkers
    | BlockForEnd
    | TestAll
    | SuspendedAtEnd
    | UnblockAtEnd
    | Done
    | MainFailed

  datatype HandlerPc =
    | Inactive
    | Polling               // waitpid
    | SetFlag(target: nat)  // two asserts and the flag write
    | Increment(target: nat)
    | HandlerFailed

  /** `pids` are the process ids recorded by `spawnAllWorkers`. */
  datatype State = State(
    input: seq<Input>,
    pids: seq<nat>,
    workers: seq<Worker>,
    numAvailable: int,
    main: MainPc,
    handler: HandlerPc,
    blocked: bool,
    pending: bool,
    // history
    accepted: seq<int>,
    answered: seq<int>)

  /** `SpuriousSignal` is a SIGCHLD without a stop, as when a child continues. */
  datatype Step =
    | MainStep
    | HandlerEnter
    | HandlerStep(reaped: nat)
    | ProcessStep(worker: nat)
    | SpuriousSignal

  const FRESH := Worker(false, ToStop, [], false)

  function Init(input: seq<Input>, pids: seq<nat>): State
  {
    State(input, pids, seq(|pids|, _ => FRESH), 0, ReadLine, Inactive, false, false, [], [])
  }

  predicate Suspending(pc: MainPc) { pc.Suspended? || pc.SuspendedAtEnd? }

  predicate AnyReported(s: State)
  {
    exists i :: 0 <= i < |s.workers| && s.workers[i].stopReported
  }

  /** The search for the reaped process: the first worker with its pid, or the
      number of workers when there is none. */
  function FindWorker(pids: seq<nat>, pid: nat): (k: nat)
    ensures k <= |pids| && pid !in pids[..k] && (k < |pids| ==> pids[k] == pid)
  {
    if pids == [] || pids[0] == pid then 0
    else
      var k := FindWorker(pids[1..], pid);
      assert pids[..k + 1] == [pids[0]] + pids[1..][..k];
      k + 1
  }

  predicate Enabled(s: State, step: Step)
  {
    match step
    case MainStep => s.handler == Inactive && !Suspending(s.main) && s.main != Done && s.main != MainFailed
    case HandlerEnter => s.pending && s.handler == Inactive && (!s.blocked || Suspending(s.main))
    case HandlerStep(i) =>
      (match s.handler
       case Inactive => false
       case Polling => AnyReported(s) ==> i < |s.workers| && i < |s.pids| && s.workers[i].stopReported
       case HandlerFailed => false
       case _ => true)
    case ProcessStep(i) =>
      && i < |s.workers|
      && s.workers[i].process != Stopped
      && (s.workers[i].process == Reading ==> s.workers[i].supply != [])
    case SpuriousSignal => true
  }

  function MainNext(s: State): State
    requires Enabled(s, MainStep)
  {
    match s.main
    case ReadLine =>
      if s.input == [] then s.(main := BlockForEnd)
      else if s.input[0].Malformed? then s.(input := s.input[1..], main := BlockForEnd)
      else s.(input := s.input[1..], accepted := s.accepted + [s.input[0].num], main := BlockForWait(s.input[0].num))
    case BlockForWait(n) => s.(blocked := true, main := TestNone(n))
    case TestNone(n) => s.(main := if s.numAvailable == 0 then Suspended(n) else UnblockForScan(n))
    case UnblockForScan(n) => s.(blocked := false, main := Scan(n, 0))
    case Scan(n, i) =>
      s.(main := if i >= |s.workers| then MainFailed              // assert(false)
                 else if s.workers[i].available then BlockForAssign(n, i)
                 else Scan(n, i + 1))
    case BlockForAssign(n, i) => s.(blocked := true, main := ClearFlag(n, i))
    case ClearFlag(n, i) =>
      if i < |s.workers| && s.workers[i].available && s.numAvailable > 0 then
        s.(workers := s.workers[i := s.workers[i].(available := false)], main := Decrement(n, i))
      else s.(main := MainFailed)
    case Decrement(n, i) => s.(numAvailable := s.numAvailable - 1, main := UnblockAfterAssign(n, i))
    case UnblockAfterAssign(n, i) => s.(blocked := false, main := WriteLine(n, i))
    case WriteLine(n, i) =>
      if i < |s.workers| then
        s.(workers := s.workers[i := s.workers[i].(supply := s.workers[i].supply + [n])], main := Continue(i))
      else s.(main := MainFailed)
    case Continue(i) =>
      if i < |s.workers| && s.workers[i].process == Stopped then
        s.(workers := s.workers[i := s.workers[i].(process := Reading, stopReported := false)], main := ReadLine)
      else s.(main := ReadLine)                                   // SIGCONT without effect
    case BlockForEnd => s.(blocked := true, main := TestAll)
    case TestAll => s.(main := if s.numAvailable < |s.workers| then SuspendedAtEnd else UnblockAtEnd)
    case UnblockAtEnd => s.(blocked := false, main := Done)
  }

  /** The handler returns; if it interrupted a suspension, that returns as well. */
  function HandlerReturns(s: State): State
  {
    s.(handler := Inactive,
       main := match s.main
               case Suspended(n) => TestNone(n)
               case SuspendedAtEnd => TestAll
               case pc => pc)
  }

  function HandlerNext(s: State, i: nat): State
    requires Enabled(s, HandlerStep(i))
  {
    match s.handler
    case Polling =>
      if AnyReported(s) then
        var k := FindWorker(s.pids, s.pids[i]);                     // then assert(workerFound)
        s.(workers := s.workers[i := s.workers[i].(stopReported := false)],
           handler := if k < |s.workers| then SetFlag(k) else HandlerFailed)
      else HandlerReturns(s)
    case SetFlag(k) =>
      if k < |s.workers| && !s.workers[k].available && s.numAvailable < |s.workers| then
        s.(workers := s.workers[k := s.workers[k].(available := true)], handler := Increment(k))
      else s.(handler := HandlerFailed)
    case Increment(k) => s.(numAvailable := s.numAvailable + 1, handler := Polling)
  }

  function ProcessNext(s: State, i: nat): State
    requires Enabled(s, ProcessStep(i))
  {
    var w := s.workers[i];
    match w.process
    case ToStop =>
      s.(workers := s.workers[i := w.(process := Stopped, stopReported := true)], pending := true)
    case Reading =>
      s.(workers := s.workers[i := w.(process := Working(w.supply[0]), supply := w.supply[1..])])
    case Working(n) =>
      s.(workers := s.workers[i := w.(process := ToStop)], answered := s.answered + [n])
  }

  function Apply(s: State, step: Step): State
    requires Enabled(s, step)
  {
    match step
    case MainStep => MainNext(s)
    case HandlerEnter => s.(pending := false, handler := Polling)
    case HandlerStep(i) => HandlerNext(s, i)
    case ProcessStep(i) => ProcessNext(s, i)
    case SpuriousSignal => s.(pending := true)
  }

  function Execute(s: State, schedule: seq<Step>): State
    decreases |schedule|
  {
    if schedule == [] then s
    else Execute(if Enabled(s, schedule[0]) then Apply(s, schedule[0]) else s, schedule[1..])
  }

  // ----- the invariant

  function FlagOf(w: Worker): nat { if w.available then 1 else 0 }

  function Flags(s: State): nat { Sum(s.workers, FlagOf) }

  ghost function CarriedBy(w: Worker): multiset<int>
  {
    multiset(w.supply) + (if w.process.Working? then multiset{w.process.num} else multiset{})
  }

  predicate HoldsLine(pc: MainPc)
  {
    || pc.BlockForWait? || pc.TestNone? || pc.Suspended? || pc.UnblockForScan? || pc.Scan? || pc.BlockForAssign?
    || pc.ClearFlag? || pc.Decrement? || pc.UnblockAfterAssign? || pc.WriteLine?
  }

  /** The accepted line main has not yet written to a worker. */
  ghost function CarriedByMain(pc: MainPc): multiset<int>
  {
    if HoldsLine(pc) then multiset{pc.line} else multiset{}
  }

  /** The worker main has taken off the available ones and not yet continued. */
  predicate Assigned(pc: MainPc, i: nat)
  {
    match pc
    case Decrement(_, k) => k == i
    case UnblockAfterAssign(_, k) => k == i
    case WriteLine(_, k) => k == i
    case Continue(k) => k == i
    case _ => false
  }

  predicate Blocking(pc: MainPc)
  {
    || pc.TestNone? || pc.Suspended? || pc.UnblockForScan? || pc.ClearFlag? || pc.Decrement?
    || pc.UnblockAfterAssign? || pc.TestAll? || pc.SuspendedAtEnd? || pc.UnblockAtEnd?
  }

  predicate Ending(pc: MainPc)
  {
    pc.BlockForEnd? || pc.TestAll? || pc.SuspendedAtEnd? || pc.UnblockAtEnd? || pc.Done?
  }

  /** The life cycle of a worker, told by its flag, its process, and what main
      and the handler are doing with it. */
  predicate WorkerOk(w: Worker, i: nat, main: MainPc, handler: HandlerPc)
  {
    && (w.available ==> w.process == Stopped && !w.stopReported && w.supply == [] && !Assigned(main, i) && handler != SetFlag(i))
    && (w.stopReported ==> w.process == Stopped && !w.available && w.supply == [] && !Assigned(main, i) && handler != SetFlag(i))
    && (handler == SetFlag(i) ==> w.process == Stopped && w.supply == [] && !Assigned(main, i))
    && (handler == Increment(i) ==> w.available)
    && (Assigned(main, i) ==> w.process == Stopped && (main.Continue? <==> w.supply != []) && |w.supply| <= 1)
    && (w.process == Stopped ==> w.available || w.stopReported || handler == SetFlag(i) || Assigned(main, i))
    && (w.process == Reading ==> |w.supply| == 1)
    && (w.process == ToStop || w.process.Working? ==> w.supply == [])
  }

  ghost predicate WorkersOk(s: State)
  {
    forall i :: 0 <= i < |s.workers| ==> WorkerOk(s.workers[i], i, s.main, s.handler)
  }

  /** The counter against the flags, around the two updates under way. */
  predicate CountedAs(s: State, flags: nat)
  {
    s.numAvailable + (if s.handler.Increment? then 1 else 0) == flags + (if s.main.Decrement? then 1 else 0)
  }

  ghost predicate ConservedAs(s: State, inWorkers: multiset<int>)
  {
    multiset(s.accepted) == multiset(s.answered) + (inWorkers + CarriedByMain(s.main))
  }

  ghost predicate MainPlaceOk(s: State)
  {
    var n := |s.workers|;
    && (match s.main
        case Scan(_, i) => exists k :: i <= k < n && s.workers[k].available
        case BlockForAssign(_, i) => i < n && s.workers[i].available
        case ClearFlag(_, i) => i < n && s.workers[i].available
        case Decrement(_, i) => i < n
        case UnblockAfterAssign(_, i) => i < n
        case WriteLine(_, i) => i < n
        case Continue(i) => i < n
        case UnblockForScan(_) => s.numAvailable > 0
        case Suspended(_) => s.handler == Inactive ==> s.numAvailable == 0
        case SuspendedAtEnd => s.handler == Inactive ==> s.numAvailable < n
        case UnblockAtEnd => forall k :: 0 <= k < n ==> s.workers[k].available
        case Done => forall k :: 0 <= k < n ==> s.workers[k].available
        case MainFailed => false
        case _ => true)
  }

  ghost predicate HandlerPlaceOk(s: State)
  {
    var n := |s.workers|;
    && (match s.handler
        case SetFlag(i) => i < n && !s.workers[i].available
        case Increment(i) => i < n
        case HandlerFailed => false
        case _ => true)
  }

  ghost predicate PlacesOk(s: State) { MainPlaceOk(s) && HandlerPlaceOk(s) }

  /** SIGCHLD's mask follows main, the handler runs only where it is unblocked,
      and an unreaped stop has the signal pending or the handler still looping. */
  ghost predicate SignalsOk(s: State)
  {
    && (s.blocked <==> Blocking(s.main))
    && (s.handler != Inactive ==> !Blocking(s.main) || Suspending(s.main))
    && (AnyReported(s) ==> s.pending || s.handler != Inactive)
  }

  /** One recorded pid for each worker, all distinct. */
  ghost predicate PidsOk(s: State)
  {
    |s.pids| == |s.workers| && DistinctPids(s.pids)
  }

  ghost predicate DistinctPids(pids: seq<nat>)
  {
    forall i, j :: 0 <= i < j < |pids| ==> pids[i] != pids[j]
  }

  lemma FindsItself(s: State, i: nat)
    requires PidsOk(s) && i < |s.workers|
    ensures FindWorker(s.pids, s.pids[i]) == i
  {
    var k := FindWorker(s.pids, s.pids[i]);
    assert forall j :: 0 <= j < k ==> s.pids[..k][j] == s.pids[j];
  }

  ghost predicate Inv(s: State)
  {
    && PidsOk(s) && WorkersOk(s) && PlacesOk(s) && SignalsOk(s)
    && CountedAs(s, Flags(s)) && ConservedAs(s, Bag(s.workers, CarriedBy))
  }

  lemma InitEstablishesInv(input: seq<Input>, pids: seq<nat>)
    requires DistinctPids(pids)
    ensures Inv(Init(input, pids))
  {
    var s := Init(input, pids);
    SumZero(s.workers, FlagOf);
    BagEmpty(s.workers, CarriedBy);
  }

  // ----- processes keep it

  lemma ProcessKeepsWorkersOk(s: State, i: nat)
    requires Enabled(s, ProcessStep(i)) && WorkersOk(s)
    ensures WorkersOk(ProcessNext(s, i))
  {
    assert WorkerOk(s.workers[i], i, s.main, s.handler);
  }

  lemma ProcessLeaves(s: State, i: nat)
    requires Enabled(s, ProcessStep(i))
    ensures var t := ProcessNext(s, i);
            && |t.workers| == |s.workers| && t.main == s.main && t.handler == s.handler
            && t.numAvailable == s.numAvailable && t.blocked == s.blocked
            && (s.pending ==> t.pending)
            && (t.workers[i].stopReported ==> t.pending || s.workers[i].stopReported)
            && (forall k :: 0 <= k < |s.workers| ==> t.workers[k].available == s.workers[k].available)
            && (forall k :: 0 <= k < |s.workers| && k != i ==> t.workers[k] == s.workers[k])
  {
  }

  lemma ProcessKeepsPlaces(s: State, i: nat)
    requires Enabled(s, ProcessStep(i)) && PlacesOk(s) && SignalsOk(s)
    ensures PlacesOk(ProcessNext(s, i)) && SignalsOk(ProcessNext(s, i))
  {
    ProcessLeaves(s, i);
    var t := ProcessNext(s, i);
    if AnyReported(t) {
      var k :| 0 <= k < |t.workers| && t.workers[k].stopReported;
      assert s.workers[k].stopReported || t.pending;
    }
    if s.main.Scan? {
      var k :| s.main.at <= k < |s.workers| && s.workers[k].available;
      assert t.workers[k].available;
    }
  }

  lemma ProcessMoves(s: State, i: nat)
    requires Enabled(s, ProcessStep(i)) && WorkerOk(s.workers[i], i, s.main, s.handler)
    ensures var t := ProcessNext(s, i);
            multiset(t.answered) + CarriedBy(t.workers[i]) == multiset(s.answered) + CarriedBy(s.workers[i])
  {
    if s.workers[i].process == Reading {
      assert s.workers[i].supply == [s.workers[i].supply[0]];
    }
  }

  lemma ProcessKeepsSums(s: State, i: nat)
    requires Inv(s) && Enabled(s, ProcessStep(i))
    ensures var t := ProcessNext(s, i); CountedAs(t, Flags(t)) && ConservedAs(t, Bag(t.workers, CarriedBy))
  {
    var t := ProcessNext(s, i);
    assert WorkerOk(s.workers[i], i, s.main, s.handler);
    SumUpdate(s.workers, i, t.workers[i], FlagOf);
    BagUpdate(s.workers, i, t.workers[i], CarriedBy);
    ProcessMoves(s, i);
    Rebalance(multiset(s.answered), multiset(t.answered), Bag(s.workers, CarriedBy), Bag(t.workers, CarriedBy),
              CarriedBy(s.workers[i]), CarriedBy(t.workers[i]));
    KeepsConserved(s, t, Bag(s.workers, CarriedBy), Bag(t.workers, CarriedBy));
  }

  lemma KeepsConserved(s: State, t: State, b: multiset<int>, b': multiset<int>)
    requires ConservedAs(s, b) && multiset(t.answered) + b' == multiset(s.answered) + b
    requires t.accepted == s.accepted && CarriedByMain(t.main) == CarriedByMain(s.main)
    ensures ConservedAs(t, b')
  {
    assert multiset(t.answered) + (b' + CarriedByMain(t.main)) == (multiset(t.answered) + b') + CarriedByMain(t.main);
  }

  // ----- what the counts say where main and the handler rely on them

  ghost predicate Supplied(s: State)
  {
    && (s.handler.SetFlag? ==> s.numAvailable < |s.workers|)
    && (s.main.ClearFlag? ==> s.numAvailable > 0)
    && (s.main.UnblockForScan? ==> exists k :: 0 <= k < |s.workers| && s.workers[k].available)
    && (s.main.TestAll? && s.numAvailable >= |s.workers| ==> forall k :: 0 <= k < |s.workers| ==> s.workers[k].available)
    && (s.main.TestNone? ==> s.numAvailable >= 0)
  }

  lemma NotAllFlags(workers: seq<Worker>, i: nat)
    requires i < |workers| && !workers[i].available
    ensures Sum(workers, FlagOf) < |workers|
  {
    SumFull(workers, FlagOf);
    assert FlagOf(workers[i]) == 0;
  }

  lemma EveryFlag(workers: seq<Worker>)
    requires Sum(workers, FlagOf) >= |workers|
    ensures forall k :: 0 <= k < |workers| ==> workers[k].available
  {
    SumFull(workers, FlagOf);
    forall k | 0 <= k < |workers| ensures workers[k].available {
      assert FlagOf(workers[k]) == 1;
    }
  }

  lemma CountsSupply(s: State)
    requires PlacesOk(s) && SignalsOk(s) && CountedAs(s, Flags(s))
    ensures Supplied(s)
  {
    if s.handler.SetFlag? {
      NotAllFlags(s.workers, s.handler.target);
    } else if s.main.ClearFlag? {
      SumTerm(s.workers, s.main.target, FlagOf);
    } else if s.main.UnblockForScan? {
      var k := SumPositive(s.workers, FlagOf);
    } else if s.main.TestAll? && s.numAvailable >= |s.workers| {
      EveryFlag(s.workers);
    }
  }

  // ----- the handler keeps it

  lemma HandlerKeepsWorkersOk(s: State, i: nat)
    requires Enabled(s, HandlerStep(i)) && PidsOk(s) && WorkersOk(s) && PlacesOk(s) && SignalsOk(s) && Supplied(s)
    ensures WorkersOk(HandlerNext(s, i))
  {
    if s.handler == Polling && AnyReported(s) {
      FindsItself(s, i);
    }
    hide FindWorker, PidsOk;
    var t := HandlerNext(s, i);
    forall k | 0 <= k < |s.workers| ensures WorkerOk(t.workers[k], k, t.main, t.handler) {
      assert WorkerOk(s.workers[k], k, s.main, s.handler);
    }
  }

  lemma HandlerKeepsMainPlace(s: State, i: nat)
    requires Enabled(s, HandlerStep(i)) && PidsOk(s) && MainPlaceOk(s) && SignalsOk(s)
    ensures MainPlaceOk(HandlerNext(s, i))
  {
    if s.handler == Polling && AnyReported(s) {
      FindsItself(s, i);
    }
    hide FindWorker, PidsOk;
    var t := HandlerNext(s, i);
    assert forall k :: 0 <= k < |s.workers| && s.workers[k].available ==> t.workers[k].available;
    hide AnyReported;
  }

  lemma HandlerKeepsOwnPlace(s: State, i: nat)
    requires Enabled(s, HandlerStep(i)) && PidsOk(s) && HandlerPlaceOk(s) && Supplied(s)
    requires i < |s.workers| ==> WorkerOk(s.workers[i], i, s.main, s.handler)
    ensures HandlerPlaceOk(HandlerNext(s, i))
  {
    if s.handler == Polling && AnyReported(s) {
      FindsItself(s, i);
    }
    hide FindWorker, PidsOk;
    hide AnyReported;
  }

  lemma HandlerKeepsSignals(s: State, i: nat)
    requires Enabled(s, HandlerStep(i)) && PidsOk(s) && HandlerPlaceOk(s) && SignalsOk(s) && Supplied(s)
    ensures SignalsOk(HandlerNext(s, i))
  {
    if s.handler == Polling && AnyReported(s) {
      FindsItself(s, i);
    }
    hide FindWorker, PidsOk;
  }

  lemma HandlerKeepsPlaces(s: State, i: nat)
    requires Enabled(s, HandlerStep(i)) && PidsOk(s) && WorkersOk(s) && PlacesOk(s) && SignalsOk(s) && Supplied(s)
    ensures PlacesOk(HandlerNext(s, i)) && SignalsOk(HandlerNext(s, i))
  {
    hide HandlerNext, MainPlaceOk, HandlerPlaceOk, SignalsOk, Supplied, WorkerOk, Enabled;
    HandlerKeepsMainPlace(s, i);
    HandlerKeepsOwnPlace(s, i);
    HandlerKeepsSignals(s, i);
  }

  /** The worker the handler's next step writes to, if any. */
  function WrittenByHandler(s: State, i: nat): Option<nat>
  {
    match s.handler
    case Polling => if AnyReported(s) then Some(i) else None
    case SetFlag(k) => Some(k)
    case _ => None
  }

  lemma HandlerWrites(s: State, i: nat)
    requires Enabled(s, HandlerStep(i)) && PidsOk(s) && PlacesOk(s) && Supplied(s)
    ensures var t := HandlerNext(s, i);
            && t.answered == s.answered && t.accepted == s.accepted && SameLine(s.main, t.main)
            && (WrittenByHandler(s, i) == None ==> t.workers == s.workers)
            && (WrittenByHandler(s, i).Some? ==>
                  var k := WrittenByHandler(s, i).value;
                  && k < |s.workers| && |t.workers| == |s.workers| && t.workers == s.workers[k := t.workers[k]]
                  && t.workers[k].supply == s.workers[k].supply && t.workers[k].process == s.workers[k].process)
  {
    if s.handler == Polling && AnyReported(s) {
      FindsItself(s, i);
    }
    hide FindWorker, PidsOk;
  }

  lemma HandlerCounts(s: State, i: nat, f: nat, f': nat)
    requires Enabled(s, HandlerStep(i)) && PidsOk(s) && PlacesOk(s) && SignalsOk(s) && Supplied(s) && CountedAs(s, f)
    requires WrittenByHandler(s, i) == None ==> f' == f
    requires WrittenByHandler(s, i).Some? ==>
               var k := WrittenByHandler(s, i).value;
               k < |s.workers| && f' + FlagOf(s.workers[k]) == f + FlagOf(HandlerNext(s, i).workers[k])
    ensures CountedAs(HandlerNext(s, i), f')
  {
    if s.handler == Polling && AnyReported(s) {
      FindsItself(s, i);
    }
    hide FindWorker, PidsOk;
  }

  lemma HandlerKeepsSums(s: State, i: nat)
    requires Enabled(s, HandlerStep(i)) && PidsOk(s) && PlacesOk(s) && SignalsOk(s) && Supplied(s)
    requires CountedAs(s, Flags(s)) && ConservedAs(s, Bag(s.workers, CarriedBy))
    ensures var t := HandlerNext(s, i); CountedAs(t, Flags(t)) && ConservedAs(t, Bag(t.workers, CarriedBy))
  {
    var t := HandlerNext(s, i);
    HandlerWrites(s, i);
    var b, b' := Bag(s.workers, CarriedBy), Bag(t.workers, CarriedBy);
    if WrittenByHandler(s, i).Some? {
      var k := WrittenByHandler(s, i).value;
      SumUpdate(s.workers, k, t.workers[k], FlagOf);
      BagUpdate(s.workers, k, t.workers[k], CarriedBy);
      var h := CarriedBy(s.workers[k]);
      assert CarriedBy(t.workers[k]) == h;
      Rebalance(multiset(s.answered), multiset(t.answered), b, b', h, h);
    }
    KeepsConserved(s, t, b, b');
    HandlerCounts(s, i, Flags(s), Flags(t));
  }

  // ----- main keeps it

  /** Main has no worker of its own: it reads, waits for an available one, or ends. */
  predicate Seeking(pc: MainPc)
  {
    pc.ReadLine? || pc.BlockForWait? || pc.TestNone? || pc.UnblockForScan? || pc.Scan? || Ending(pc)
  }

  lemma SeekingKeepsWorkerOk(s: State, k: nat)
    requires Enabled(s, MainStep) && PlacesOk(s) && Seeking(s.main)
    requires k < |s.workers| && WorkerOk(s.workers[k], k, s.main, s.handler)
    ensures MainNext(s).workers == s.workers && WorkerOk(s.workers[k], k, MainNext(s).main, MainNext(s).handler)
  {
  }

  lemma HandingKeepsWorkerOk(s: State, k: nat)
    requires Enabled(s, MainStep) && PlacesOk(s) && Supplied(s) && !Seeking(s.main)
    requires k < |s.workers| && WorkerOk(s.workers[k], k, s.main, s.handler)
    ensures |MainNext(s).workers| == |s.workers| && WorkerOk(MainNext(s).workers[k], k, MainNext(s).main, MainNext(s).handler)
  {
  }

  lemma MainKeepsWorkersOk(s: State)
    requires Enabled(s, MainStep) && WorkersOk(s) && PlacesOk(s) && Supplied(s)
    ensures WorkersOk(MainNext(s))
  {
    hide MainNext, PlacesOk, Supplied, WorkerOk, Enabled;
    MainKeepsSize(s);
    forall k | 0 <= k < |s.workers|
      ensures WorkerOk(MainNext(s).workers[k], k, MainNext(s).main, MainNext(s).handler)
    {
      if Seeking(s.main) {
        SeekingKeepsWorkerOk(s, k);
      } else {
        HandingKeepsWorkerOk(s, k);
      }
    }
  }

  lemma MainKeepsSize(s: State)
    requires Enabled(s, MainStep)
    ensures |MainNext(s).workers| == |s.workers| && MainNext(s).pids == s.pids && (AnyReported(MainNext(s)) ==> AnyReported(s))
  {
  }

  lemma ScanKeepsPlace(s: State)
    requires Enabled(s, MainStep) && MainPlaceOk(s) && s.main.Scan?
    ensures MainPlaceOk(MainNext(s))
  {
  }

  lemma AllIdleAtEnd(s: State)
    requires MainPlaceOk(s) && s.main.UnblockAtEnd?
    ensures forall k :: 0 <= k < |s.workers| ==> s.workers[k].available
  {
  }

  lemma EndingKeepsPlace(s: State)
    requires Enabled(s, MainStep) && Supplied(s) && Ending(s.main)
    requires s.main.UnblockAtEnd? ==> forall k :: 0 <= k < |s.workers| ==> s.workers[k].available
    ensures MainPlaceOk(MainNext(s))
  {
  }

  lemma SeekingKeepsPlace(s: State)
    requires Enabled(s, MainStep) && Supplied(s) && Seeking(s.main) && !s.main.Scan? && !Ending(s.main)
    ensures MainPlaceOk(MainNext(s))
  {
  }

  lemma HandingKeepsPlace(s: State)
    requires Enabled(s, MainStep) && MainPlaceOk(s) && Supplied(s) && !Seeking(s.main)
    ensures MainPlaceOk(MainNext(s))
  {
  }

  lemma MainKeepsHandler(s: State)
    requires Enabled(s, MainStep)
    ensures MainNext(s).handler == Inactive
  {
  }

  lemma MainKeepsSignals(s: State)
    requires Enabled(s, MainStep) && PlacesOk(s) && Supplied(s) && SignalsOk(s)
    ensures SignalsOk(MainNext(s))
  {
    MainKeepsSize(s);
    hide AnyReported;
  }

  lemma MainKeepsPlaces(s: State)
    requires Enabled(s, MainStep) && PlacesOk(s) && SignalsOk(s) && Supplied(s)
    ensures PlacesOk(MainNext(s)) && SignalsOk(MainNext(s))
  {
    hide MainNext, MainPlaceOk, SignalsOk, Supplied, Enabled;
    if s.main.Scan? {
      ScanKeepsPlace(s);
    } else if Ending(s.main) {
      if s.main.UnblockAtEnd? {
        AllIdleAtEnd(s);
      }
      EndingKeepsPlace(s);
    } else if Seeking(s.main) {
      SeekingKeepsPlace(s);
    } else {
      HandingKeepsPlace(s);
    }
    MainKeepsHandler(s);
    MainKeepsSignals(s);
  }

  /** The worker main's next step writes to, if any. */
  function WrittenByMain(pc: MainPc): Option<nat>
  {
    match pc
    case ClearFlag(_, i) => Some(i)
    case WriteLine(_, i) => Some(i)
    case Continue(i) => Some(i)
    case _ => None
  }

  lemma WriteMovesLine(s: State, n: int, i: nat)
    requires Enabled(s, MainStep) && i < |s.workers| && s.main == WriteLine(n, i)
    ensures CarriedByMain(MainNext(s).main) + CarriedBy(MainNext(s).workers[i]) == CarriedByMain(s.main) + CarriedBy(s.workers[i])
  {
    var w := s.workers[i];
    assert MainNext(s).workers[i] == w.(supply := w.supply + [n]);
    assert multiset(w.supply + [n]) == multiset(w.supply) + multiset{n};
  }

  lemma OthersMoveNoLine(s: State, i: nat)
    requires Enabled(s, MainStep) && i < |s.workers| && WrittenByMain(s.main) == Some(i) && !s.main.WriteLine?
    requires s.main.ClearFlag? ==> s.workers[i].available && s.numAvailable > 0
    ensures SameLine(s.main, MainNext(s).main)
    ensures var w, w' := s.workers[i], MainNext(s).workers[i];
            w'.supply == w.supply && (w'.process.Working? <==> w.process.Working?) && (w.process.Working? ==> w'.process == w.process)
  {
  }

  /** Main's step moves a line from its hand to a worker's pipe, or moves none. */
  lemma MainMoves(s: State, i: nat)
    requires Enabled(s, MainStep) && i < |s.workers| && WrittenByMain(s.main) == Some(i)
    requires s.main.ClearFlag? ==> s.workers[i].available && s.numAvailable > 0
    ensures |MainNext(s).workers| == |s.workers|
    ensures CarriedByMain(MainNext(s).main) + CarriedBy(MainNext(s).workers[i])
            == CarriedByMain(s.main) + CarriedBy(s.workers[i])
  {
    if s.main.WriteLine? {
      WriteMovesLine(s, s.main.line, i);
    } else {
      OthersMoveNoLine(s, i);
    }
  }

  lemma MainWrites(s: State)
    requires Enabled(s, MainStep) && PlacesOk(s) && Supplied(s)
    ensures var t := MainNext(s);
            && (WrittenByMain(s.main) == None ==> t.workers == s.workers)
            && (WrittenByMain(s.main).Some? ==>
                  var i := WrittenByMain(s.main).value;
                  && i < |s.workers| && |t.workers| == |s.workers| && t.workers == s.workers[i := t.workers[i]]
                  && t.answered == s.answered && t.accepted == s.accepted)
  {
  }

  lemma MainCounts(s: State, f: nat, f': nat)
    requires Enabled(s, MainStep) && PlacesOk(s) && SignalsOk(s) && Supplied(s) && CountedAs(s, f)
    requires WrittenByMain(s.main) == None ==> f' == f
    requires WrittenByMain(s.main).Some? ==>
               var i := WrittenByMain(s.main).value;
               i < |s.workers| && f' + FlagOf(s.workers[i]) == f + FlagOf(MainNext(s).workers[i])
    ensures CountedAs(MainNext(s), f')
  {
  }

  lemma AcceptConserves(s: State, b: multiset<int>)
    requires Enabled(s, MainStep) && s.main == ReadLine && s.input != [] && s.input[0].Number? && ConservedAs(s, b)
    ensures ConservedAs(MainNext(s), b)
  {
    var t := MainNext(s);
    var n := s.input[0].num;
    assert multiset(t.accepted) == multiset(s.accepted) + multiset{n};
    assert CarriedByMain(t.main) == multiset{n};
    assert multiset(t.answered) + (b + multiset{n}) == (multiset(s.answered) + (b + multiset{})) + multiset{n};
  }

  /** The line in main's hand is the same in both states. */
  predicate SameLine(pc: MainPc, pc': MainPc)
  {
    (HoldsLine(pc) <==> HoldsLine(pc')) && (HoldsLine(pc) ==> pc'.line == pc.line)
  }

  lemma SeekingHoldsLine(s: State)
    requires Enabled(s, MainStep) && Seeking(s.main) && (s.main.Scan? ==> s.main.at < |s.workers|)
    requires s.main == ReadLine ==> s.input == [] || s.input[0].Malformed?
    ensures var t := MainNext(s); t.accepted == s.accepted && t.answered == s.answered && SameLine(s.main, t.main)
  {
  }

  lemma HandingHoldsLine(s: State)
    requires Enabled(s, MainStep) && WrittenByMain(s.main) == None && !Seeking(s.main)
    ensures var t := MainNext(s); t.accepted == s.accepted && t.answered == s.answered && SameLine(s.main, t.main)
  {
  }

  lemma MainHoldsLine(s: State)
    requires Enabled(s, MainStep) && PlacesOk(s) && WrittenByMain(s.main) == None
    requires s.main == ReadLine ==> s.input == [] || s.input[0].Malformed?
    ensures var t := MainNext(s);
            t.accepted == s.accepted && t.answered == s.answered && CarriedByMain(t.main) == CarriedByMain(s.main)
  {
    hide MainNext, Enabled, HoldsLine;
    if Seeking(s.main) {
      SeekingHoldsLine(s);
    } else {
      HandingHoldsLine(s);
    }
  }

  lemma MainKeepsConserved(s: State)
    requires Enabled(s, MainStep) && PlacesOk(s) && Supplied(s) && ConservedAs(s, Bag(s.workers, CarriedBy))
    ensures ConservedAs(MainNext(s), Bag(MainNext(s).workers, CarriedBy))
  {
    MainWrites(s);
    if WrittenByMain(s.main).Some? {
      MainKeepsConservedWriting(s, WrittenByMain(s.main).value);
    } else if s.main == ReadLine && s.input != [] && s.input[0].Number? {
      AcceptConserves(s, Bag(s.workers, CarriedBy));
    } else {
      MainHoldsLine(s);
    }
  }

  lemma MainKeepsConservedWriting(s: State, i: nat)
    requires Enabled(s, MainStep) && PlacesOk(s) && Supplied(s) && ConservedAs(s, Bag(s.workers, CarriedBy))
    requires WrittenByMain(s.main) == Some(i)
    ensures ConservedAs(MainNext(s), Bag(MainNext(s).workers, CarriedBy))
  {
    var t := MainNext(s);
    MainWrites(s);
    MainMoves(s, i);
    MovedAs(s, t, i, Bag(s.workers, CarriedBy), Bag(t.workers, CarriedBy)) by {
      BagUpdate(s.workers, i, t.workers[i], CarriedBy);
    }
  }

  lemma MovedAs(s: State, t: State, i: nat, b: multiset<int>, b': multiset<int>)
    requires ConservedAs(s, b) && t.answered == s.answered && t.accepted == s.accepted
    requires i < |s.workers| == |t.workers|
    requires CarriedByMain(t.main) + CarriedBy(t.workers[i]) == CarriedByMain(s.main) + CarriedBy(s.workers[i])
    requires b' + CarriedBy(s.workers[i]) == b + CarriedBy(t.workers[i])
    ensures ConservedAs(t, b')
  {
    Rebalance(CarriedByMain(s.main), CarriedByMain(t.main), b, b', CarriedBy(s.workers[i]), CarriedBy(t.workers[i]));
    var m, m' := CarriedByMain(s.main), CarriedByMain(t.main);
    assert b' + m' == m' + b' == m + b == b + m;
  }

  lemma MainKeepsCounted(s: State)
    requires Enabled(s, MainStep) && PlacesOk(s) && SignalsOk(s) && Supplied(s) && CountedAs(s, Flags(s))
    ensures CountedAs(MainNext(s), Flags(MainNext(s)))
  {
    var t := MainNext(s);
    MainWrites(s);
    if WrittenByMain(s.main).Some? {
      var i := WrittenByMain(s.main).value;
      SumUpdate(s.workers, i, t.workers[i], FlagOf);
    }
    MainCounts(s, Flags(s), Flags(t));
  }

  lemma SignalKeepsWorkersOk(s: State, step: Step)
    requires WorkersOk(s) && Enabled(s, step) && (step == HandlerEnter || step == SpuriousSignal)
    ensures WorkersOk(Apply(s, step))
  {
    var t := Apply(s, step);
    forall k | 0 <= k < |s.workers| ensures WorkerOk(t.workers[k], k, t.main, t.handler) {
      assert WorkerOk(s.workers[k], k, s.main, s.handler);
    }
  }

  lemma SignalKeepsPlaces(s: State, step: Step)
    requires PlacesOk(s) && SignalsOk(s) && Enabled(s, step) && (step == HandlerEnter || step == SpuriousSignal)
    ensures PlacesOk(Apply(s, step)) && SignalsOk(Apply(s, step))
  {
  }

  lemma SignalKeepsCounts(s: State, step: Step, f: nat, b: multiset<int>)
    requires CountedAs(s, f) && ConservedAs(s, b) && Enabled(s, step) && (step == HandlerEnter || step == SpuriousSignal)
    ensures CountedAs(Apply(s, step), f) && ConservedAs(Apply(s, step), b) && Apply(s, step).workers == s.workers
  {
  }

  lemma SignalKeepsInv(s: State, step: Step)
    requires Inv(s) && Enabled(s, step) && (step == HandlerEnter || step == SpuriousSignal)
    ensures Inv(Apply(s, step))
  {
    hide WorkersOk, PlacesOk, SignalsOk, CountedAs, ConservedAs, DistinctPids, Sum, Bag;
    SignalKeepsWorkersOk(s, step);
    SignalKeepsPlaces(s, step);
    SignalKeepsCounts(s, step, Flags(s), Bag(s.workers, CarriedBy));
    StepKeepsSize(s, step);
  }

  lemma StepKeepsInv(s: State, step: Step)
    requires Inv(s) && Enabled(s, step)
    ensures Inv(Apply(s, step))
  {
    hide MainNext, HandlerNext, ProcessNext, WorkersOk, MainPlaceOk, HandlerPlaceOk, SignalsOk, CountedAs, ConservedAs, Supplied, Enabled;
    CountsSupply(s);
    StepKeepsSize(s, step);
    match step
    case MainStep =>
      MainKeepsWorkersOk(s);
      MainKeepsPlaces(s);
      MainKeepsConserved(s);
      MainKeepsCounted(s);
    case HandlerStep(i) =>
      HandlerKeepsWorkersOk(s, i);
      HandlerKeepsPlaces(s, i);
      HandlerKeepsSums(s, i);
    case ProcessStep(i) =>
      ProcessKeepsWorkersOk(s, i);
      ProcessKeepsPlaces(s, i);
      ProcessKeepsSums(s, i);
    case _ => SignalKeepsInv(s, step);
  }

  // ----- every reachable state

  lemma {:induction false} ExecuteKeepsInv(s: State, schedule: seq<Step>)
    requires Inv(s)
    ensures Inv(Execute(s, schedule))
    decreases |schedule|
  {
    if schedule != [] {
      if Enabled(s, schedule[0]) {
        StepKeepsInv(s, schedule[0]);
        ExecuteKeepsInv(Apply(s, schedule[0]), schedule[1..]);
      } else {
        ExecuteKeepsInv(s, schedule[1..]);
      }
    }
  }

  ghost predicate Reachable(s: State)
  {
    exists input: seq<Input>, pids: seq<nat>, schedule: seq<Step> ::
      DistinctPids(pids) && s == Execute(Init(input, pids), schedule)
  }

  lemma ReachableInv(s: State)
    requires Reachable(s)
    ensures Inv(s)
  {
    var input: seq<Input>, pids: seq<nat>, schedule: seq<Step> :| DistinctPids(pids) && s == Execute(Init(input, pids), schedule);
    InitEstablishesInv(input, pids);
    ExecuteKeepsInv(Init(input, pids), schedule);
  }

  /** The counter equals the number of available flags whenever neither main nor
      the handler is between its flag write and its counter change. */
  lemma CounterIsFlagCount(s: State)
    requires Reachable(s) && !s.handler.Increment? && !s.main.Decrement?
    ensures s.numAvailable == Flags(s)
  {
    ReachableInv(s);
  }

  /** An unreaped stop has SIGCHLD pending or a handler still looping, and a
      suspended main can then always be interrupted. */
  lemma NoLostWakeup(s: State)
    requires Reachable(s) && AnyReported(s)
    ensures s.pending || s.handler != Inactive
    ensures Suspending(s.main) ==>
              Enabled(s, HandlerEnter) || exists i: nat :: Enabled(s, HandlerStep(i))
  {
    ReachableInv(s);
    if Suspending(s.main) && s.handler != Inactive {
      var i :| 0 <= i < |s.workers| && s.workers[i].stopReported;
      assert Enabled(s, HandlerStep(i));
    }
  }

  /** No assert fails, in main or in the handler. */
  lemma AssertsNeverFail(s: State)
    requires Reachable(s)
    ensures s.main != MainFailed && s.handler != HandlerFailed
  {
    ReachableInv(s);
  }

  /** What the asserts test, wherever the code is about to test it. */
  lemma AssertedFacts(s: State)
    requires Reachable(s)
    ensures s.main.Scan? && s.handler == Inactive ==> exists k :: s.main.at <= k < |s.workers| && s.workers[k].available
    ensures s.main.ClearFlag? ==> s.main.target < |s.workers| && s.workers[s.main.target].available && s.numAvailable > 0
    ensures s.main.WriteLine? ==> s.main.target < |s.workers|
    ensures s.handler.SetFlag? ==>
              s.handler.target < |s.workers| && !s.workers[s.handler.target].available && s.numAvailable < |s.workers|
    ensures |s.pids| == |s.workers| && forall i :: 0 <= i < |s.workers| ==> FindWorker(s.pids, s.pids[i]) == i
  {
    ReachableInv(s);
    CountsSupply(s);
    forall i | 0 <= i < |s.workers| ensures FindWorker(s.pids, s.pids[i]) == i {
      var k := FindWorker(s.pids, s.pids[i]);
      assert forall j :: 0 <= j < k ==> s.pids[..k][j] == s.pids[j];
    }
  }

  /** Every accepted line is answered once, or is in exactly one place: main's
      hand, one worker's pipe, or one worker at work on it. */
  lemma LinesConserved(s: State)
    requires Reachable(s)
    ensures multiset(s.accepted) == multiset(s.answered) + (Bag(s.workers, CarriedBy) + CarriedByMain(s.main))
  {
    ReachableInv(s);
  }

  /** A continued worker has exactly one line to read, and a parked one none. */
  lemma OneLinePerWorker(s: State, i: nat)
    requires Reachable(s) && i < |s.workers|
    ensures s.workers[i].process == Reading ==> |s.workers[i].supply| == 1
    ensures |s.workers[i].supply| <= 1
    ensures s.workers[i].available ==> s.workers[i].process == Stopped && s.workers[i].supply == []
  {
    ReachableInv(s);
    assert WorkerOk(s.workers[i], i, s.main, s.handler);
  }

  lemma NothingCarried(s: State)
    requires Inv(s) && forall k :: 0 <= k < |s.workers| ==> s.workers[k].available
    ensures Bag(s.workers, CarriedBy) == multiset{}
  {
    forall k | 0 <= k < |s.workers| ensures CarriedBy(s.workers[k]) == multiset{} {
      assert WorkerOk(s.workers[k], k, s.main, s.handler);
    }
    BagEmpty(s.workers, CarriedBy);
  }

  /** When `waitForAllWorkers` returns, every accepted line has been answered,
      exactly as often as it was read. */
  lemma AllAnsweredAtReturn(s: State)
    requires Reachable(s) && s.main == Done
    ensures multiset(s.answered) == multiset(s.accepted)
  {
    ReachableInv(s);
    NothingCarried(s);
  }

  // ----- which lines are accepted

  /** The numbers before the first malformed line. */
  function Accepting(input: seq<Input>): seq<int>
  {
    if input == [] || input[0].Malformed? then [] else [input[0].num] + Accepting(input[1..])
  }

  function Lines(numbers: seq<int>): seq<Input>
  {
    seq(|numbers|, i requires 0 <= i < |numbers| => Number(numbers[i]))
  }

  lemma {:induction false} AcceptingIsPrefix(numbers: seq<int>, rest: seq<Input>)
    requires rest == [] || rest[0].Malformed?
    ensures Accepting(Lines(numbers) + rest) == numbers
  {
    if numbers == [] {
      assert Lines(numbers) + rest == rest;
    } else {
      assert (Lines(numbers) + rest)[1..] == Lines(numbers[1..]) + rest;
      AcceptingIsPrefix(numbers[1..], rest);
    }
  }

  ghost predicate AcceptedOf(s: State, input: seq<Input>)
  {
    s.accepted + (if Ending(s.main) then [] else Accepting(s.input)) == Accepting(input)
  }

  lemma ReadKeepsAccepted(s: State, input: seq<Input>)
    requires Enabled(s, MainStep) && s.main == ReadLine && AcceptedOf(s, input)
    ensures AcceptedOf(MainNext(s), input)
  {
    if s.input != [] && s.input[0].Number? {
      var n := s.input[0].num;
      assert s.accepted + ([n] + Accepting(s.input[1..])) == (s.accepted + [n]) + Accepting(s.input[1..]);
    }
  }

  lemma MainOnlyReads(s: State)
    requires Enabled(s, MainStep) && s.main != ReadLine
    ensures var t := MainNext(s);
            t.accepted == s.accepted && t.input == s.input && (Ending(t.main) <==> Ending(s.main))
  {
  }

  lemma HandlerNeverReads(s: State, i: nat)
    requires Enabled(s, HandlerStep(i))
    ensures var t := HandlerNext(s, i);
            t.accepted == s.accepted && t.input == s.input && (Ending(t.main) <==> Ending(s.main))
  {
    hide AnyReported;
  }

  /** Lines are accepted, and the reading loop is left, only by reading. */
  lemma OnlyReadingAccepts(s: State, step: Step)
    requires Enabled(s, step) && (step == MainStep ==> s.main != ReadLine)
    ensures var t := Apply(s, step);
            t.accepted == s.accepted && t.input == s.input && (Ending(t.main) <==> Ending(s.main))
  {
    hide MainNext, HandlerNext;
    match step
    case MainStep => MainOnlyReads(s);
    case HandlerStep(i) => HandlerNeverReads(s, i);
    case _ =>
  }

  lemma StepKeepsAccepted(s: State, input: seq<Input>, step: Step)
    requires Enabled(s, step) && AcceptedOf(s, input)
    ensures AcceptedOf(Apply(s, step), input)
  {
    if step == MainStep && s.main == ReadLine {
      ReadKeepsAccepted(s, input);
    } else {
      OnlyReadingAccepts(s, step);
    }
  }

  lemma {:induction false} ExecuteKeepsAccepted(s: State, input: seq<Input>, schedule: seq<Step>)
    requires AcceptedOf(s, input)
    ensures AcceptedOf(Execute(s, schedule), input)
    decreases |schedule|
  {
    if schedule != [] {
      if Enabled(s, schedule[0]) {
        StepKeepsAccepted(s, input, schedule[0]);
        ExecuteKeepsAccepted(Apply(s, schedule[0]), input, schedule[1..]);
      } else {
        ExecuteKeepsAccepted(s, input, schedule[1..]);
      }
    }
  }

  /** At the return the answers are those to the numbers before the first
      malformed line. */
  lemma DoneIsAnswered(s: State, input: seq<Input>)
    requires Inv(s) && AcceptedOf(s, input) && s.main == Done
    ensures multiset(s.answered) == multiset(Accepting(input))
  {
    NothingCarried(s);
    assert s.accepted + [] == s.accepted == Accepting(input);
    hide Accepting, WorkersOk, Bag, SignalsOk, HandlerPlaceOk;
  }

  // ----- no deadlock, and termination without spurious signals

  lemma HandlerCanStep(s: State) returns (i: nat)
    requires Inv(s) && s.handler != Inactive
    ensures Enabled(s, HandlerStep(i)) && (|s.workers| > 0 ==> i < |s.workers|)
  {
    i := 0;
    if AnyReported(s) {
      i :| i < |s.workers| && s.workers[i].stopReported;
    }
  }

  /** Main sleeping with no signal pending leaves some worker running. */
  lemma SleepingLeavesWorkerRunning(s: State) returns (i: nat)
    requires Inv(s) && Suspending(s.main) && s.handler == Inactive && !s.pending && |s.workers| > 0
    ensures Enabled(s, ProcessStep(i))
  {
    SumFull(s.workers, FlagOf);
    if forall k :: 0 <= k < |s.workers| ==> s.workers[k].available {
      AllFlags(s.workers);
      assert false;
    }
    i :| i < |s.workers| && !s.workers[i].available;
    assert WorkerOk(s.workers[i], i, s.main, s.handler);
    assert s.workers[i].stopReported ==> AnyReported(s);
  }

  lemma {:induction false} AllFlags(workers: seq<Worker>)
    requires forall k :: 0 <= k < |workers| ==> workers[k].available
    ensures Sum(workers, FlagOf) == |workers|
  {
    if workers != [] {
      AllFlags(workers[..|workers| - 1]);
    }
  }

  /** Until main is done, something other than a spurious signal can happen. */
  lemma Progress(s: State) returns (step: Step)
    requires Inv(s) && s.main != Done && |s.workers| > 0
    ensures step != SpuriousSignal && Enabled(s, step) && (step.HandlerStep? ==> step.reaped < |s.workers|)
  {
    if s.handler != Inactive {
      var i := HandlerCanStep(s);
      step := HandlerStep(i);
    } else if !Suspending(s.main) {
      step := MainStep;
    } else if s.pending {
      step := HandlerEnter;
    } else {
      var i := SleepingLeavesWorkerRunning(s);
      step := ProcessStep(i);
    }
  }

  function MainRank(pc: MainPc, n: nat): nat
  {
    match pc
    case Done => 0
    case MainFailed => 0
    case UnblockAtEnd => 1
    case SuspendedAtEnd => 2
    case TestAll => 3
    case BlockForEnd => 4
    case ReadLine => 5
    case Continue(_) => 15
    case WriteLine(_, _) => 16
    case UnblockAfterAssign(_, _) => 17
    case Decrement(_, _) => 18
    case ClearFlag(_, _) => 19
    case BlockForAssign(_, _) => 20
    case Scan(_, i) => 21 + (if i <= n then n - i else 0)
    case UnblockForScan(_) => 22 + n
    case Suspended(_) => 23 + n
    case TestNone(_) => 24 + n
    case BlockForWait(_) => 25 + n
  }

  function HandlerRank(pc: HandlerPc): nat
  {
    match pc
    case Inactive => 0
    case HandlerFailed => 0
    case Polling => 2
    case Increment(_) => 3
    case SetFlag(_) => 4
  }

  function WorkerRank(w: Worker): nat
  {
    (match w.process
     case Stopped => 0
     case ToStop => 7
     case Working(_) => 8
     case Reading => 9) + (if w.stopReported then 3 else 0)
  }

  function WorkAs(s: State, workers: nat): nat
  {
    MainRank(s.main, |s.workers|) + (21 + |s.workers|) * |s.input| + HandlerRank(s.handler)
    + (if s.pending then 3 else 0) + workers
  }

  /** A bound on the steps left, spurious signals apart. */
  function Work(s: State): nat { WorkAs(s, Sum(s.workers, WorkerRank)) }

  lemma ReadLowersWork(s: State, r: nat)
    requires Enabled(s, MainStep) && s.main == ReadLine && s.input != []
    ensures |MainNext(s).workers| == |s.workers| && WorkAs(MainNext(s), r) < WorkAs(s, r)
  {
    var W := 21 + |s.workers|;
    assert W * (|s.input| - 1) == W * |s.input| - W;
  }

  lemma SeekingLowersWork(s: State, r: nat)
    requires Enabled(s, MainStep) && Seeking(s.main) && (s.main.Scan? ==> s.main.at < |s.workers|)
    requires s.main == ReadLine ==> s.input == []
    ensures |MainNext(s).workers| == |s.workers| && WorkAs(MainNext(s), r) < WorkAs(s, r)
  {
    assert MainNext(s).input == s.input && |MainNext(s).workers| == |s.workers|;
  }

  lemma HandingLowersWork(s: State, r: nat, r': nat)
    requires Enabled(s, MainStep) && PlacesOk(s) && Supplied(s) && !Seeking(s.main)
    requires WrittenByMain(s.main) == None ==> r' == r
    requires WrittenByMain(s.main).Some? ==>
               var i := WrittenByMain(s.main).value;
               i < |s.workers| && r' + WorkerRank(s.workers[i]) == r + WorkerRank(MainNext(s).workers[i])
    ensures |MainNext(s).workers| == |s.workers| && WorkAs(MainNext(s), r') < WorkAs(s, r)
  {
    assert MainNext(s).input == s.input && |MainNext(s).workers| == |s.workers|;
  }

  lemma MainLowersWork(s: State, r: nat, r': nat)
    requires Enabled(s, MainStep) && PlacesOk(s) && Supplied(s)
    requires WrittenByMain(s.main) == None ==> r' == r
    requires WrittenByMain(s.main).Some? ==>
               var i := WrittenByMain(s.main).value;
               i < |s.workers| && r' + WorkerRank(s.workers[i]) == r + WorkerRank(MainNext(s).workers[i])
    ensures |MainNext(s).workers| == |s.workers| && WorkAs(MainNext(s), r') < WorkAs(s, r)
  {
    hide MainNext, Enabled, Supplied, WorkAs, WorkerRank;
    if s.main == ReadLine && s.input != [] {
      ReadLowersWork(s, r);
    } else if Seeking(s.main) {
      SeekingLowersWork(s, r);
    } else {
      HandingLowersWork(s, r, r');
    }
  }

  lemma HandlerLowersWork(s: State, i: nat, r: nat, r': nat)
    requires Enabled(s, HandlerStep(i)) && PidsOk(s) && PlacesOk(s) && SignalsOk(s) && Supplied(s)
    requires WrittenByHandler(s, i) == None ==> r' == r
    requires WrittenByHandler(s, i).Some? ==>
               var k := WrittenByHandler(s, i).value;
               k < |s.workers| && r' + WorkerRank(s.workers[k]) == r + WorkerRank(HandlerNext(s, i).workers[k])
    ensures |HandlerNext(s, i).workers| == |s.workers| && WorkAs(HandlerNext(s, i), r') < WorkAs(s, r)
  {
    if s.handler == Polling && AnyReported(s) {
      FindsItself(s, i);
    }
    hide FindWorker, PidsOk;
  }

  lemma ProcessLowersWork(s: State, i: nat, r: nat, r': nat)
    requires Enabled(s, ProcessStep(i)) && WorkerOk(s.workers[i], i, s.main, s.handler)
    requires r' + WorkerRank(s.workers[i]) == r + WorkerRank(ProcessNext(s, i).workers[i])
    ensures |ProcessNext(s, i).workers| == |s.workers| && WorkAs(ProcessNext(s, i), r') < WorkAs(s, r)
  {
  }

  lemma MainStepLowersWork(s: State)
    requires Enabled(s, MainStep) && PlacesOk(s) && Supplied(s)
    ensures Work(MainNext(s)) < Work(s)
  {
    var t := MainNext(s);
    MainWrites(s);
    if WrittenByMain(s.main).Some? {
      var i := WrittenByMain(s.main).value;
      SumUpdate(s.workers, i, t.workers[i], WorkerRank);
    }
    MainLowersWork(s, Sum(s.workers, WorkerRank), Sum(t.workers, WorkerRank));
  }

  lemma HandlerStepLowersWork(s: State, i: nat)
    requires Enabled(s, HandlerStep(i)) && PidsOk(s) && PlacesOk(s) && SignalsOk(s) && Supplied(s)
    ensures Work(HandlerNext(s, i)) < Work(s)
  {
    var t := HandlerNext(s, i);
    HandlerWrites(s, i);
    if WrittenByHandler(s, i).Some? {
      var k := WrittenByHandler(s, i).value;
      SumUpdate(s.workers, k, t.workers[k], WorkerRank);
    }
    HandlerLowersWork(s, i, Sum(s.workers, WorkerRank), Sum(t.workers, WorkerRank));
  }

  lemma ProcessStepLowersWork(s: State, i: nat)
    requires Enabled(s, ProcessStep(i)) && WorkerOk(s.workers[i], i, s.main, s.handler)
    ensures Work(ProcessNext(s, i)) < Work(s)
  {
    var t := ProcessNext(s, i);
    SumUpdate(s.workers, i, t.workers[i], WorkerRank);
    ProcessLowersWork(s, i, Sum(s.workers, WorkerRank), Sum(t.workers, WorkerRank));
  }

  /** Every step but a spurious signal uses up some of the bounded work. */
  lemma StepLowersWork(s: State, step: Step)
    requires Inv(s) && Enabled(s, step) && step != SpuriousSignal
    ensures Work(Apply(s, step)) < Work(s)
  {
    CountsSupply(s);
    match step
    case MainStep => MainStepLowersWork(s);
    case HandlerStep(i) => HandlerStepLowersWork(s, i);
    case ProcessStep(i) =>
      assert WorkerOk(s.workers[i], i, s.main, s.handler);
      ProcessStepLowersWork(s, i);
    case HandlerEnter =>
  }

  /** A stray SIGCHLD can make the handler run once more. */
  lemma StrayAddsWork(s: State)
    ensures Work(Apply(s, SpuriousSignal)) <= Work(s) + 3
  {
  }

  /** The steps other than stray signals that take effect when a schedule is run. */
  function Effective(s: State, schedule: seq<Step>): nat
    decreases |schedule|
  {
    if schedule == [] then 0
    else if Enabled(s, schedule[0]) then
      (if schedule[0] == SpuriousSignal then 0 else 1) + Effective(Apply(s, schedule[0]), schedule[1..])
    else Effective(s, schedule[1..])
  }

  function Strays(schedule: seq<Step>): nat
  {
    if schedule == [] then 0 else (if schedule[0] == SpuriousSignal then 1 else 0) + Strays(schedule[1..])
  }

  /** Every run is over after a number of steps fixed by the input, the number of
      workers, and how many stray signals arrive. */
  lemma {:induction false} RunsAreBounded(s: State, schedule: seq<Step>)
    requires Inv(s)
    ensures Effective(s, schedule) <= Work(s) + 3 * Strays(schedule)
    decreases |schedule|
  {
    if schedule != [] {
      if Enabled(s, schedule[0]) {
        StepKeepsInv(s, schedule[0]);
        if schedule[0] == SpuriousSignal {
          StrayAddsWork(s);
        } else {
          StepLowersWork(s, schedule[0]);
        }
        RunsAreBounded(Apply(s, schedule[0]), schedule[1..]);
      } else {
        RunsAreBounded(s, schedule[1..]);
      }
    }
  }

  /** A run that has nothing left to do is one in which main is past
      `waitForAllWorkers` and precisely the numbers before the first malformed
      line have been answered. */
  lemma QuietRunIsComplete(input: seq<Input>, pids: seq<nat>, schedule: seq<Step>)
    requires pids != [] && DistinctPids(pids)
    requires var s := Execute(Init(input, pids), schedule);
             forall step :: step != SpuriousSignal ==> !Enabled(s, step)
    ensures var s := Execute(Init(input, pids), schedule);
            s.main == Done && multiset(s.answered) == multiset(Accepting(input))
  {
    var s := Execute(Init(input, pids), schedule);
    InitEstablishesInv(input, pids);
    ExecuteKeepsInv(Init(input, pids), schedule);
    ExecuteKeepsAccepted(Init(input, pids), input, schedule);
    ExecuteKeepsSize(Init(input, pids), schedule);
    if s.main != Done {
      var step := Progress(s);
    }
    DoneIsAnswered(s, input);
  }

  lemma StepKeepsSize(s: State, step: Step)
    requires Enabled(s, step)
    ensures |Apply(s, step).workers| == |s.workers| && Apply(s, step).pids == s.pids
  {
    hide MainNext, HandlerNext, AnyReported;
    match step
    case MainStep => MainKeepsSize(s);
    case HandlerStep(i) => HandlerKeepsSize(s, i);
    case _ =>
  }

  lemma HandlerKeepsSize(s: State, i: nat)
    requires Enabled(s, HandlerStep(i))
    ensures |HandlerNext(s, i).workers| == |s.workers| && HandlerNext(s, i).pids == s.pids
  {
  }

  lemma {:induction false} ExecuteKeepsSize(s: State, schedule: seq<Step>)
    ensures |Execute(s, schedule).workers| == |s.workers|
    decreases |schedule|
  {
    if schedule != [] {
      if Enabled(s, schedule[0]) {
        StepKeepsSize(s, schedule[0]);
      }
      ExecuteKeepsSize(if Enabled(s, schedule[0]) then Apply(s, schedule[0]) else s, schedule[1..]);
    }
  }
}
