/** The farm's globals updated in place: main, the handler and each worker
    process as methods that perform their next atomic action. */
module FarmObject {
  import opened Wrappers
  import opened Sums
  import opened Farm

  class FactorFarm {
    ghost const lines: seq<Input>
    const pids: seq<nat>
    var input: seq<Input>
    var workers: seq<Worker>
    var numWorkersAvailable: int
    var main: MainPc
    var handler: HandlerPc
    var blocked: bool
    var pending: bool
    // history
    var accepted: seq<int>
    var answered: seq<int>

    function View(): State
      reads this
    {
      State(input, pids, workers, numWorkersAvailable, main, handler, blocked, pending, accepted, answered)
    }

    /** The farm's invariant, and what was accepted so far is what `lines` calls for. */
    ghost predicate Valid()
      reads this
    {
      Inv(View()) && AcceptedOf(View(), lines)
    }

    constructor (lines: seq<Input>, pids: seq<nat>)
      requires DistinctPids(pids)
      ensures Valid() && View() == Init(lines, pids) && this.lines == lines
    {
      this.lines, this.pids := lines, pids;
      input, workers, numWorkersAvailable := lines, seq(|pids|, _ => FRESH), 0;
      main, handler, blocked, pending := ReadLine, Inactive, false, false;
      accepted, answered := [], [];
      new;
      InitEstablishesInv(lines, pids);
    }

    /** Main's next action outside `assignWorkerToTask` and what follows it. */
    method MainWaits()
      requires Enabled(View(), MainStep)
      requires WrittenByMain(main) == None && !main.Decrement? && !main.UnblockAfterAssign? && !main.BlockForAssign?
      modifies this
      ensures View() == MainNext(old(View()))
    {
      match main {
        case ReadLine =>
          if input == [] {
            main := BlockForEnd;
          } else {
            var line := input[0];
            input := input[1..];
            if line.Malformed? {
              main := BlockForEnd;
            } else {
              accepted := accepted + [line.num];
              main := BlockForWait(line.num);
            }
          }
        case BlockForWait(n) => blocked := true; main := TestNone(n);
        case TestNone(n) => main := if numWorkersAvailable == 0 then Suspended(n) else UnblockForScan(n);
        case UnblockForScan(n) => blocked := false; main := Scan(n, 0);
        case Scan(n, i) =>
          main := if i >= |workers| then MainFailed
                  else if workers[i].available then BlockForAssign(n, i)
                  else Scan(n, i + 1);
        case BlockForEnd => blocked := true; main := TestAll;
        case TestAll => main := if numWorkersAvailable < |workers| then SuspendedAtEnd else UnblockAtEnd;
        case UnblockAtEnd => blocked := false; main := Done;
      }
    }

    method MainAssigns()
      requires Enabled(View(), MainStep)
      requires WrittenByMain(main).Some? || main.Decrement? || main.UnblockAfterAssign? || main.BlockForAssign?
      modifies this
      ensures View() == MainNext(old(View()))
    {
      match main {
        case BlockForAssign(n, i) => blocked := true; main := ClearFlag(n, i);
        case ClearFlag(n, i) =>
          if i < |workers| && workers[i].available && numWorkersAvailable > 0 {
            workers := workers[i := workers[i].(available := false)];
            main := Decrement(n, i);
          } else {
            main := MainFailed;
          }
        case Decrement(n, i) => numWorkersAvailable := numWorkersAvailable - 1; main := UnblockAfterAssign(n, i);
        case UnblockAfterAssign(n, i) => blocked := false; main := WriteLine(n, i);
        case WriteLine(n, i) =>
          if i < |workers| {
            workers := workers[i := workers[i].(supply := workers[i].supply + [n])];
            main := Continue(i);
          } else {
            main := MainFailed;
          }
        case Continue(i) =>
          if i < |workers| && workers[i].process == Stopped {
            workers := workers[i := workers[i].(process := Reading, stopReported := false)];
          }
          main := ReadLine;
      }
    }

    /** Main's next action: its asserts hold, and when it is done every number
        before the first malformed line has been answered. */
    method MainAction()
      requires Valid() && Enabled(View(), MainStep)
      modifies this
      ensures Valid() && View() == MainNext(old(View()))
      ensures main != MainFailed
      ensures main == Done ==> multiset(answered) == multiset(Accepting(lines))
    {
      hide Inv, AcceptedOf, MainNext;
      ghost var before := View();
      StepKeepsInv(before, MainStep);
      StepKeepsAccepted(before, lines, MainStep);
      if WrittenByMain(main).Some? || main.Decrement? || main.UnblockAfterAssign? || main.BlockForAssign? {
        MainAssigns();
      } else {
        MainWaits();
      }
      NeverFailed(View());
      if main == Done {
        DoneIsAnswered(View(), lines);
      }
    }

    /** The loop of the handler that looks for the worker with the reaped pid. */
    method SearchWorker(pid: nat) returns (k: nat)
      ensures k == FindWorker(pids, pid)
    {
      k := 0;
      while k < |pids| && pids[k] != pid
        invariant k <= |pids| && k + FindWorker(pids[k..], pid) == FindWorker(pids, pid)
      {
        assert pids[k..][1..] == pids[k + 1..];
        k := k + 1;
      }
    }

    method HandlerActs(reaped: nat)
      requires Enabled(View(), HandlerStep(reaped))
      modifies this
      ensures View() == HandlerNext(old(View()), reaped)
    {
      match handler {
        case Polling =>
          if AnyReported(View()) {
            var k := SearchWorker(pids[reaped]);
            workers := workers[reaped := workers[reaped].(stopReported := false)];
            handler := if k < |workers| then SetFlag(k) else HandlerFailed;
          } else {
            handler := Inactive;
            main := match main
              case Suspended(n) => TestNone(n)
              case SuspendedAtEnd => TestAll
              case pc => pc;
          }
        case SetFlag(k) =>
          if k < |workers| && !workers[k].available && numWorkersAvailable < |workers| {
            workers := workers[k := workers[k].(available := true)];
            handler := Increment(k);
          } else {
            handler := HandlerFailed;
          }
        case Increment(_) =>
          numWorkersAvailable := numWorkersAvailable + 1;
          handler := Polling;
      }
    }

    /** The handler's next action, on the child that `waitpid` returns: its asserts
        hold, the counter is right outside an update, and it only returns when no
        stop is left unreaped. */
    method HandlerAction(reaped: nat)
      requires Valid() && Enabled(View(), HandlerStep(reaped))
      modifies this
      ensures Valid() && View() == HandlerNext(old(View()), reaped)
      ensures handler != HandlerFailed
      ensures !handler.Increment? && !main.Decrement? ==> numWorkersAvailable == Flags(View())
      ensures handler == Inactive ==> !AnyReported(View())
    {
      StepKeepsInv(View(), HandlerStep(reaped));
      StepKeepsAccepted(View(), lines, HandlerStep(reaped));
      ReturnsWhenNoneReported(View(), reaped);
      hide Inv, AcceptedOf, HandlerNext, Flags, AnyReported;
      HandlerActs(reaped);
      NeverFailed(View());
    }

    /** `markWorkersAsAvailable`, once entered, with no process stopping meanwhile:
        every reported stop is reaped and makes its worker available, nothing else
        about the workers changes, and the counter agrees. */
    method MarkWorkersAsAvailable()
      requires Valid() && handler == Polling
      modifies this
      ensures Valid() && handler == Inactive && !AnyReported(View()) && numWorkersAvailable == Flags(View())
      ensures |workers| == |old(workers)|
      ensures forall i :: 0 <= i < |workers| ==>
                var w := old(workers)[i]; workers[i] == w.(available := w.available || w.stopReported, stopReported := false)
    {
      HandlerFindsMainIdle(View());
      AllStillHandled(View());
      hide Inv, AcceptedOf, Work, AllHandled, HandlerNext, Flags, AnyReported;
      while handler != Inactive
        invariant Valid() && handler != HandlerFailed && AllHandled(old(workers), View())
        invariant handler == Inactive ==> !AnyReported(View())
        invariant !main.Decrement? && (!handler.Increment? ==> numWorkersAvailable == Flags(View()))
        decreases Work(View())
      {
        HandlerTurn(old(workers));
      }
      AllAvailable(old(workers), View());
    }

    /** An action of the handler, on any child that `waitpid` may return. */
    method HandlerTurn(ghost before: seq<Worker>)
      requires Valid() && handler != Inactive && !main.Decrement? && AllHandled(before, View())
      modifies this
      ensures Valid() && handler != HandlerFailed && !main.Decrement? && AllHandled(before, View())
      ensures !handler.Increment? ==> numWorkersAvailable == Flags(View())
      ensures handler == Inactive ==> !AnyReported(View())
      ensures Work(View()) < old(Work(View()))
    {
      hide Inv, AcceptedOf, Work, AllHandled, HandlerNext, Flags;
      ghost var possible := HandlerCanStep(View());
      var reaped: nat :| Enabled(View(), HandlerStep(reaped)) && reaped <= |workers|;
      StepLowersWork(View(), HandlerStep(reaped));
      HandledKept(before, View(), reaped);
      HandlerAction(reaped);
    }

    method ProcessActs(i: nat)
      requires Enabled(View(), ProcessStep(i))
      modifies this
      ensures View() == ProcessNext(old(View()), i)
    {
      var w := workers[i];
      match w.process {
        case ToStop =>
          workers := workers[i := w.(process := Stopped, stopReported := true)];
          pending := true;
        case Reading =>
          workers := workers[i := w.(process := Working(w.supply[0]), supply := w.supply[1..])];
        case Working(n) =>
          answered := answered + [n];
          workers := workers[i := w.(process := ToStop)];
      }
    }

    /** The self-halting loop of factor.py in process i: the line it reads is the
        only one in its pipe, and no line is lost or answered twice. */
    method ProcessAction(i: nat)
      requires Valid() && Enabled(View(), ProcessStep(i))
      modifies this
      ensures Valid() && View() == ProcessNext(old(View()), i)
      ensures i < |workers| && workers[i].supply == []
      ensures ConservedAs(View(), Bag(workers, CarriedBy))
    {
      PipeEmptied(View(), i);
      StepKeepsInv(View(), ProcessStep(i));
      StepKeepsAccepted(View(), lines, ProcessStep(i));
      hide Inv, AcceptedOf, ProcessNext, ConservedAs;
      ProcessActs(i);
      LinesKept(View());
    }

    method Perform(step: Step)
      requires Valid() && Enabled(View(), step)
      modifies this
      ensures Valid() && View() == Apply(old(View()), step)
    {
      hide Inv, AcceptedOf;
      StepKeepsInv(View(), step);
      StepKeepsAccepted(View(), lines, step);
      match step {
        case MainStep => MainAction();
        case HandlerEnter => pending, handler := false, Polling;
        case HandlerStep(i) => HandlerAction(i);
        case ProcessStep(i) => ProcessAction(i);
        case SpuriousSignal => pending := true;
      }
    }

    /** Follows a schedule; a step that cannot be taken when its turn comes is
        passed over. */
    method Run(schedule: seq<Step>)
      requires Valid()
      modifies this
      ensures Valid() && View() == Execute(old(View()), schedule)
      ensures main != MainFailed && handler != HandlerFailed
      ensures main == Done ==> multiset(answered) == multiset(Accepting(lines))
    {
      hide Inv, AcceptedOf, Apply, Enabled;
      var k := 0;
      while k < |schedule|
        invariant k <= |schedule| && Valid()
        invariant Execute(View(), schedule[k..]) == Execute(old(View()), schedule)
      {
        if Enabled(View(), schedule[k]) {
          Perform(schedule[k]);
        }
        assert schedule[k + 1..] == schedule[k..][1..];
        k := k + 1;
      }
      NeverFailed(View());
      if main == Done {
        DoneIsAnswered(View(), lines);
      }
    }

    /** Any step that can be taken, a stray signal only while some are left. */
    method AnyStep(left: nat) returns (next: nat)
      requires Valid() && |workers| > 0 && main != Done
      modifies this
      ensures Valid() && |workers| == |old(workers)|
      ensures Work(View()) + 4 * next < old(Work(View())) + 4 * left
    {
      hide Inv, AcceptedOf, Work, Apply;
      ghost var possible := Progress(View());
      ghost var index := IndexOf(possible, |workers|);
      var k: nat :| k < 3 + 2 * |workers| && Enabled(View(), StepAt(k, |workers|)) && (k == 2 ==> left > 0);
      var step := StepAt(k, |workers|);
      StepKeepsSize(View(), step);
      next := left;
      if k == 2 {
        StrayAddsWork(View());
        next := left - 1;
      } else {
        StepLowersWork(View(), step);
      }
      Perform(step);
    }

    /** Lets an adversary pick the next step of main, handler or a process, and
        send stray signals up to the given number of times: main gets past
        `waitForAllWorkers`, with every number before the first malformed line
        answered. */
    method RunToCompletion(strays: nat)
      requires Valid() && |workers| > 0
      modifies this
      ensures Valid() && main == Done && multiset(answered) == multiset(Accepting(lines))
    {
      hide Inv, AcceptedOf, Work;
      var left := strays;
      while main != Done
        invariant Valid() && |workers| > 0
        decreases Work(View()) + 4 * left
      {
        left := AnyStep(left);
      }
      DoneIsAnswered(View(), lines);
    }
  }

  // ----- what the object's contracts read off the invariant

  lemma NeverFailed(s: State)
    requires Inv(s)
    ensures s.main != MainFailed && s.handler != HandlerFailed
    ensures !s.handler.Increment? && !s.main.Decrement? ==> s.numAvailable == Flags(s)
  {
  }

  lemma HandlerFindsMainIdle(s: State)
    requires Inv(s) && s.handler == Polling
    ensures !s.main.Decrement? && s.numAvailable == Flags(s)
  {
  }

  lemma ReturnsWhenNoneReported(s: State, i: nat)
    requires Enabled(s, HandlerStep(i))
    ensures HandlerNext(s, i).handler == Inactive ==> !AnyReported(HandlerNext(s, i))
  {
  }

  lemma AllStillHandled(s: State)
    requires s.handler == Polling
    ensures AllHandled(s.workers, s)
  {
  }

  lemma PipeEmptied(s: State, i: nat)
    requires Enabled(s, ProcessStep(i)) && Inv(s)
    ensures |ProcessNext(s, i).workers| == |s.workers| && ProcessNext(s, i).workers[i].supply == []
  {
    assert WorkerOk(s.workers[i], i, s.main, s.handler);
  }

  lemma LinesKept(s: State)
    requires Inv(s)
    ensures ConservedAs(s, Bag(s.workers, CarriedBy))
  {
  }

  /** The worker as the handler leaves it, up to a flag still to be set. */
  predicate Handled(before: Worker, after: Worker, toBeSet: bool)
  {
    && after.process == before.process && after.supply == before.supply
    && (before.available ==> after.available) && (after.stopReported ==> before.stopReported)
    && (before.available || before.stopReported <==> after.available || after.stopReported || toBeSet)
  }

  ghost predicate AllHandled(before: seq<Worker>, s: State)
  {
    |s.workers| == |before| && forall i :: 0 <= i < |before| ==> Handled(before[i], s.workers[i], s.handler == SetFlag(i))
  }

  lemma HandledKept(before: seq<Worker>, s: State, i: nat)
    requires Inv(s) && AllHandled(before, s) && Enabled(s, HandlerStep(i))
    ensures AllHandled(before, HandlerNext(s, i)) && (!s.main.Decrement? ==> !HandlerNext(s, i).main.Decrement?)
  {
    if s.handler == Polling && AnyReported(s) {
      FindsItself(s, i);
    }
    CountsSupply(s);
    hide DistinctPids, WorkersOk, MainPlaceOk, SignalsOk, CountedAs, ConservedAs, FindWorker, Sum, Bag;
  }

  lemma AllAvailable(before: seq<Worker>, s: State)
    requires AllHandled(before, s) && s.handler == Inactive && !AnyReported(s)
    ensures forall i :: 0 <= i < |before| ==>
              var w := before[i]; s.workers[i] == w.(available := w.available || w.stopReported, stopReported := false)
  {
  }

  /** The steps numbered: main, the handler's entry, a stray signal, then the
      handler's and the processes' steps. */
  function StepAt(k: nat, n: nat): Step
  {
    if k == 0 then MainStep
    else if k == 1 then HandlerEnter
    else if k == 2 then SpuriousSignal
    else if k < 3 + n then HandlerStep(k - 3)
    else ProcessStep(k - 3 - n)
  }

  function IndexOf(step: Step, n: nat): (k: nat)
    requires step.HandlerStep? ==> step.reaped < n
    ensures StepAt(k, n) == step
  {
    match step
    case MainStep => 0
    case HandlerEnter => 1
    case SpuriousSignal => 2
    case HandlerStep(i) => 3 + i
    case ProcessStep(i) => 3 + n + i
  }
}
