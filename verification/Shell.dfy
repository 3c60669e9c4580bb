/** The shell of assign4/stsh.cc as far as the job list goes: commands, the wait
    for the foreground job, and status reports whenever SIGCHLD is not blocked. */
module Shell {
  import opened JobList

  /** Where the shell is. SIGCHLD is blocked while it starts processes, tests for
      a foreground job, or is about to unblock; `Suspended` is inside `sigsuspend`,
      which lifts the block. */
  datatype Pc =
    | Prompt
    | Added(num: nat, left: nat, foreground: bool)
    | Starting(num: nat, left: nat, foreground: bool)
    | Testing(num: nat)
    | Suspended(num: nat)
    | Unblocking

  /** `live` maps each child not yet reaped to the number of its job. */
  datatype State = State(next: nat, jobs: Jobs, pc: Pc, live: map<nat, nat>)

  datatype Action =
    | AddJob(commands: nat, background: bool)
    | Block
    | StartProcess(pid: nat)
    | AllStarted
    | Test
    | Wake
    | Unblock
    | Resume(num: nat, inForeground: bool)
    | Report(pid: nat, state: ProcessState)

  const INITIAL := State(1, map[], Prompt, map[])

  predicate Deliverable(pc: Pc) { pc.Prompt? || pc.Added? || pc.Suspended? }

  /** The kernel gives a new child a pid that no unreaped child has; it is taken to
      be one that no listed job still shows either. */
  ghost predicate Fresh(s: State, pid: nat)
  {
    pid !in s.live && forall n: nat, i: nat :: !At(s.jobs, n, i, pid)
  }

  ghost predicate Enabled(s: State, a: Action)
  {
    match a
    case AddJob(commands, _) => s.pc.Prompt? && commands >= 1
    case Block => s.pc.Added?
    case StartProcess(pid) => s.pc.Starting? && s.pc.left > 0 && Fresh(s, pid)
    case AllStarted => s.pc.Starting? && s.pc.left == 0
    case Test => s.pc.Testing?
    case Wake => s.pc.Suspended?
    case Unblock => s.pc.Unblocking?
    case Resume(num, _) => s.pc.Prompt? && num in s.jobs
    case Report(pid, state) => Deliverable(s.pc) && pid in s.live && state != Waiting
  }

  predicate HasForegroundJob(jobs: Jobs) { exists n :: n in jobs && jobs[n].state == Foreground }

  function WithProcess(jobs: Jobs, n: nat, p: Process): Jobs
  {
    if n in jobs then jobs[n := jobs[n].(processes := jobs[n].processes + [p])] else jobs
  }

  ghost function Next(s: State, a: Action): State
    requires Enabled(s, a)
  {
    match a
    case AddJob(commands, background) =>
      s.(next := s.next + 1,
         jobs := s.jobs[s.next := Job(s.next, [], if background then Background else Foreground)],
         pc := Added(s.next, commands, !background))
    case Block => s.(pc := Starting(s.pc.num, s.pc.left, s.pc.foreground))
    case StartProcess(pid) =>
      s.(jobs := WithProcess(s.jobs, s.pc.num, Process(pid, Running)),
         live := s.live[pid := s.pc.num],
         pc := Starting(s.pc.num, s.pc.left - 1, s.pc.foreground))
    case AllStarted => s.(pc := if s.pc.foreground then Testing(s.pc.num) else Unblocking)
    case Test => s.(pc := if HasForegroundJob(s.jobs) then Suspended(s.pc.num) else Unblocking)
    case Wake => s.(pc := Testing(s.pc.num))
    case Unblock => s.(pc := Prompt)
    case Resume(num, inForeground) =>
      s.(jobs := s.jobs[num := s.jobs[num].(state := if inForeground then Foreground else Background)],
         pc := if inForeground then Testing(num) else Unblocking)
    case Report(pid, state) =>
      s.(jobs := Reported(s.jobs, pid, state),
         live := if state == Terminated then s.live - {pid} else s.live)
  }

  // ----- the invariant

  /** The job is being made, and need not have a process yet. */
  predicate Making(pc: Pc, n: nat) { (pc.Added? || pc.Starting?) && pc.num == n }

  predicate MayBeForeground(pc: Pc, n: nat)
  {
    && (pc.Added? || pc.Starting? || pc.Testing? || pc.Suspended?)
    && pc.num == n
    && (pc.Added? || pc.Starting? ==> pc.foreground)
  }

  ghost predicate Numbered(s: State)
  {
    s.next >= 1 && forall n :: n in s.jobs ==> 1 <= n < s.next && s.jobs[n].num == n
  }

  /** A listed process is shown as terminated exactly once it has been reaped. */
  ghost predicate Tracked(jobs: Jobs, live: map<nat, nat>)
  {
    forall n: nat, i: nat, pid: nat :: At(jobs, n, i, pid) ==> (jobs[n].processes[i].state == Terminated <==> !(pid in live && live[pid] == n))
  }

  ghost predicate Owns(jobs: Jobs, n: nat, pid: nat) { exists i: nat :: At(jobs, n, i, pid) }

  ghost predicate Owned(jobs: Jobs, live: map<nat, nat>)
  {
    forall pid :: pid in live ==> Owns(jobs, live[pid], pid)
  }

  ghost predicate Kept(s: State)
  {
    forall n :: n in s.jobs ==> !AllTerminated(s.jobs[n].processes) || Making(s.pc, n)
  }

  ghost predicate InFront(s: State)
  {
    forall n :: n in s.jobs && s.jobs[n].state == Foreground ==> MayBeForeground(s.pc, n)
  }

  ghost predicate MakingOk(s: State)
  {
    && (s.pc.Added? || s.pc.Starting? ==> s.pc.num in s.jobs && s.pc.left + |s.jobs[s.pc.num].processes| >= 1)
    && (s.pc.Added? || s.pc.Starting? ==> s.jobs[s.pc.num].state == (if s.pc.foreground then Foreground else Background))
    && (s.pc.Added? ==> s.jobs[s.pc.num].processes == [])
    && (s.pc.Starting? ==> forall i :: 0 <= i < |s.jobs[s.pc.num].processes| ==> s.jobs[s.pc.num].processes[i].state != Terminated)
  }

  ghost predicate Inv(s: State)
  {
    Numbered(s) && Distinct(s.jobs) && Tracked(s.jobs, s.live) && Owned(s.jobs, s.live) && Kept(s) && InFront(s) && MakingOk(s)
  }

  // ----- steps that start a process

  lemma AtAfterStart(jobs: Jobs, n: nat, pid: nat, m: nat, i: nat, other: nat)
    requires n in jobs
    ensures At(WithProcess(jobs, n, Process(pid, Running)), m, i, other) <==>
            At(jobs, m, i, other) || (m == n && i == |jobs[n].processes| && other == pid)
  {
  }

  lemma StartKeepsTracking(s: State, pid: nat)
    requires Distinct(s.jobs) && Tracked(s.jobs, s.live) && Owned(s.jobs, s.live)
    requires Enabled(s, StartProcess(pid)) && s.pc.num in s.jobs
    ensures var t := Next(s, StartProcess(pid)); Distinct(t.jobs) && Tracked(t.jobs, t.live) && Owned(t.jobs, t.live)
  {
    var t, num := Next(s, StartProcess(pid)), s.pc.num;
    forall m: nat, i: nat, other: nat
      ensures At(t.jobs, m, i, other) <==> At(s.jobs, m, i, other) || (m == num && i == |s.jobs[num].processes| && other == pid)
    {
      AtAfterStart(s.jobs, num, pid, m, i, other);
    }
    forall other | other in t.live
      ensures Owns(t.jobs, t.live[other], other)
    {
      if other == pid {
        assert At(t.jobs, num, |s.jobs[num].processes|, pid);
      } else {
        assert Owns(s.jobs, s.live[other], other);
      }
    }
  }

  lemma StartKeepsInv(s: State, pid: nat)
    requires Inv(s) && Enabled(s, StartProcess(pid))
    ensures Inv(Next(s, StartProcess(pid)))
  {
    StartKeepsTracking(s, pid);
    hide Distinct, Tracked, Owned, Fresh;
  }

  // ----- reports

  /** What a report does, job by job. */
  lemma ReportEffect(s: State, pid: nat, state: ProcessState) returns (n: nat, i: nat)
    requires Inv(s) && Enabled(s, Report(pid, state))
    ensures n == s.live[pid] && At(s.jobs, n, i, pid) && s.jobs[n].processes[i].state != Terminated && !Making(s.pc, n)
    ensures Next(s, Report(pid, state)).jobs == Synchronized(Marked(s.jobs, n, i, state), n)
  {
    n := s.live[pid];
    assert Owns(s.jobs, n, pid);
    i :| At(s.jobs, n, i, pid);
    ReportedAt(s.jobs, pid, state, n, i);
  }

  lemma AtAfterReport(jobs: Jobs, n: nat, i: nat, state: ProcessState, m: nat, j: nat, pid: nat)
    requires n in jobs && i < |jobs[n].processes|
    ensures var after := Synchronized(Marked(jobs, n, i, state), n);
            && (At(after, m, j, pid) ==> At(jobs, m, j, pid))
            && (At(jobs, m, j, pid) && m in after ==> At(after, m, j, pid))
            && (At(after, m, j, pid) ==> after[m].processes[j].state == if m == n && j == i then state else jobs[m].processes[j].state)
  {
  }

  lemma ReportKeepsTracking(s: State, n: nat, i: nat, pid: nat, state: ProcessState, after: Jobs, live: map<nat, nat>)
    requires Distinct(s.jobs) && Tracked(s.jobs, s.live) && Owned(s.jobs, s.live)
    requires At(s.jobs, n, i, pid) && pid in s.live && s.live[pid] == n
    requires after == Synchronized(Marked(s.jobs, n, i, state), n) && live == if state == Terminated then s.live - {pid} else s.live
    ensures Distinct(after) && Tracked(after, live)
  {
    forall m: nat, j: nat, other: nat
      ensures At(after, m, j, other) ==> At(s.jobs, m, j, other)
      ensures At(after, m, j, other) ==> after[m].processes[j].state == if m == n && j == i then state else s.jobs[m].processes[j].state
    {
      AtAfterReport(s.jobs, n, i, state, m, j, other);
    }
  }

  lemma ReportKeepsOwned(s: State, n: nat, i: nat, pid: nat, state: ProcessState, after: Jobs, live: map<nat, nat>, other: nat)
    requires Distinct(s.jobs) && Tracked(s.jobs, s.live) && Owned(s.jobs, s.live)
    requires At(s.jobs, n, i, pid) && pid in s.live && s.live[pid] == n
    requires after == Synchronized(Marked(s.jobs, n, i, state), n) && live == if state == Terminated then s.live - {pid} else s.live
    requires other in live
    ensures Owns(after, live[other], other)
  {
    var m := live[other];
    assert Owns(s.jobs, m, other);
    var j: nat :| At(s.jobs, m, j, other);
    AtAfterReport(s.jobs, n, i, state, m, j, other);
    assert s.jobs[m].processes[j].state != Terminated;
    if m == n {
      var ps := Marked(s.jobs, n, i, state)[n].processes;
      assert ps[j].state != Terminated;
      assert !AllTerminated(ps);
    }
    assert At(after, m, j, other);
  }

  lemma ReportKeepsAllOwned(s: State, n: nat, i: nat, pid: nat, state: ProcessState, after: Jobs, live: map<nat, nat>)
    requires Distinct(s.jobs) && Tracked(s.jobs, s.live) && Owned(s.jobs, s.live)
    requires At(s.jobs, n, i, pid) && pid in s.live && s.live[pid] == n
    requires after == Synchronized(Marked(s.jobs, n, i, state), n) && live == if state == Terminated then s.live - {pid} else s.live
    ensures Owned(after, live)
  {
    forall other | other in live
      ensures Owns(after, live[other], other)
    {
      ReportKeepsOwned(s, n, i, pid, state, after, live, other);
    }
  }

  lemma ReportKeepsRest(s: State, t: State, n: nat)
    requires Numbered(s) && Kept(s) && InFront(s) && MakingOk(s) && n in s.jobs && !Making(s.pc, n)
    requires t.pc == s.pc && t.next == s.next && t.jobs.Keys <= s.jobs.Keys && s.jobs.Keys <= t.jobs.Keys + {n}
    requires forall m :: m in t.jobs && m != n ==> t.jobs[m] == s.jobs[m]
    requires n in t.jobs ==> !AllTerminated(t.jobs[n].processes) && t.jobs[n].num == s.jobs[n].num
    requires n in t.jobs && t.jobs[n].state == Foreground ==> s.jobs[n].state == Foreground
    ensures Numbered(t) && Kept(t) && InFront(t) && MakingOk(t)
  {
  }

  lemma ReportKeepsInv(s: State, pid: nat, state: ProcessState)
    requires Inv(s) && Enabled(s, Report(pid, state))
    ensures Inv(Next(s, Report(pid, state)))
  {
    hide Distinct, Tracked, Owned, Kept, InFront, MakingOk, Numbered, Reported, Owns;
    var t := Next(s, Report(pid, state));
    var n, i := ReportEffect(s, pid, state);
    ReportKeepsTracking(s, n, i, pid, state, t.jobs, t.live);
    assert Owned(t.jobs, t.live) by { ReportKeepsAllOwned(s, n, i, pid, state, t.jobs, t.live); }
    ReportKeepsRest(s, t, n);
  }

  // ----- the other steps

  /** Jobs may change their state, and empty jobs may come, without disturbing the
      tracking of processes. */
  lemma SameProcessesKeepTracking(s: State, t: State)
    requires Distinct(s.jobs) && Tracked(s.jobs, s.live) && Owned(s.jobs, s.live) && t.live == s.live
    requires forall n :: n in s.jobs ==> n in t.jobs && t.jobs[n].processes == s.jobs[n].processes
    requires forall n :: n in t.jobs && n !in s.jobs ==> t.jobs[n].processes == []
    ensures Distinct(t.jobs) && Tracked(t.jobs, t.live) && Owned(t.jobs, t.live)
  {
    assert forall n: nat, i: nat, pid: nat :: At(t.jobs, n, i, pid) <==> At(s.jobs, n, i, pid);
    forall pid | pid in t.live
      ensures Owns(t.jobs, t.live[pid], pid)
    {
      assert Owns(s.jobs, s.live[pid], pid);
    }
  }

  lemma AddJobKeepsInv(s: State, commands: nat, background: bool)
    requires Inv(s) && Enabled(s, AddJob(commands, background))
    ensures Inv(Next(s, AddJob(commands, background)))
  {
    SameProcessesKeepTracking(s, Next(s, AddJob(commands, background)));
    hide Distinct, Tracked, Owned;
  }

  lemma ResumeKeepsInv(s: State, num: nat, inForeground: bool)
    requires Inv(s) && Enabled(s, Resume(num, inForeground))
    ensures Inv(Next(s, Resume(num, inForeground)))
  {
    SameProcessesKeepTracking(s, Next(s, Resume(num, inForeground)));
    hide Distinct, Tracked, Owned;
  }

  lemma PcStepKeepsInv(s: State, a: Action)
    requires Inv(s) && Enabled(s, a) && (a.Block? || a.AllStarted? || a.Test? || a.Wake? || a.Unblock?)
    ensures Inv(Next(s, a))
  {
    var t := Next(s, a);
    assert t.jobs == s.jobs && t.live == s.live && t.next == s.next;
    if a.AllStarted? {
      var ps := s.jobs[s.pc.num].processes;
      assert ps[0].state != Terminated;
    }
  }

  lemma NextKeepsInv(s: State, a: Action)
    requires Inv(s) && Enabled(s, a)
    ensures Inv(Next(s, a))
  {
    match a
    case AddJob(commands, background) => AddJobKeepsInv(s, commands, background);
    case StartProcess(pid) => StartKeepsInv(s, pid);
    case Resume(num, inForeground) => ResumeKeepsInv(s, num, inForeground);
    case Report(pid, state) => ReportKeepsInv(s, pid, state);
    case _ => PcStepKeepsInv(s, a);
  }

  // ----- runs

  ghost predicate Allowed(s: State, actions: seq<Action>)
    decreases actions
  {
    actions == [] || (Enabled(s, actions[0]) && Allowed(Next(s, actions[0]), actions[1..]))
  }

  ghost function After(s: State, actions: seq<Action>): State
    requires Allowed(s, actions)
    decreases actions
  {
    if actions == [] then s else After(Next(s, actions[0]), actions[1..])
  }

  lemma {:induction false} RunKeepsInv(s: State, actions: seq<Action>)
    requires Inv(s) && Allowed(s, actions)
    ensures Inv(After(s, actions))
    decreases actions
  {
    if actions != [] {
      NextKeepsInv(s, actions[0]);
      RunKeepsInv(Next(s, actions[0]), actions[1..]);
    }
  }

  ghost predicate Reachable(s: State)
  {
    exists actions :: Allowed(INITIAL, actions) && After(INITIAL, actions) == s
  }

  lemma ReachableInv(s: State)
    requires Reachable(s)
    ensures Inv(s)
  {
    var actions :| Allowed(INITIAL, actions) && After(INITIAL, actions) == s;
    RunKeepsInv(INITIAL, actions);
  }

  // ----- results

  lemma NumbersAreKeys(s: State, n: nat)
    requires Reachable(s) && n in s.jobs
    ensures s.jobs[n].num == n && 1 <= n < s.next
  {
    ReachableInv(s);
  }

  ghost predicate HasLiveProcess(s: State, n: nat) { exists pid :: pid in s.live && s.live[pid] == n }

  /** A job is listed exactly while one of its processes is unreaped or it is
      still being made. */
  lemma ListedExactlyWhileLive(s: State, n: nat)
    requires Reachable(s)
    ensures n in s.jobs <==> HasLiveProcess(s, n) || Making(s.pc, n)
  {
    ReachableInv(s);
    if n in s.jobs && !Making(s.pc, n) {
      var i :| 0 <= i < |s.jobs[n].processes| && s.jobs[n].processes[i].state != Terminated;
      assert At(s.jobs, n, i, s.jobs[n].processes[i].pid);
    }
    if HasLiveProcess(s, n) {
      var pid :| pid in s.live && s.live[pid] == n;
      assert Owns(s.jobs, n, pid);
    }
  }

  /** A step takes a job off the list exactly when it reports the end of the job's
      last process. */
  lemma LeavesWithLastProcess(s: State, a: Action, n: nat)
    requires Reachable(s) && Enabled(s, a) && n in s.jobs
    ensures n !in Next(s, a).jobs <==>
            && a.Report? && a.state == Terminated && s.live[a.pid] == n
            && forall pid :: pid in s.live && s.live[pid] == n ==> pid == a.pid
  {
    ReachableInv(s);
    if a.Report? {
      var m, i := ReportEffect(s, a.pid, a.state);
      var ps := s.jobs[n].processes;
      if m == n {
        var marked := Marked(s.jobs, n, i, a.state)[n].processes;
        assert n !in Next(s, a).jobs <==> AllTerminated(marked);
        if AllTerminated(marked) {
          assert marked[i].state == Terminated;
          forall pid | pid in s.live && s.live[pid] == n
            ensures pid == a.pid
          {
            assert Owns(s.jobs, n, pid);
            var j: nat :| At(s.jobs, n, j, pid);
            assert marked[j].state == Terminated;
          }
        } else {
          var j :| 0 <= j < |marked| && marked[j].state != Terminated;
          assert At(s.jobs, n, j, ps[j].pid);
          assert At(s.jobs, n, i, a.pid);
        }
      }
    }
  }

  lemma AtMostOneForeground(s: State, m: nat, n: nat)
    requires Reachable(s) && m in s.jobs && n in s.jobs
    ensures s.jobs[m].state == Foreground && s.jobs[n].state == Foreground ==> m == n
    ensures s.pc.Prompt? ==> s.jobs[n].state == Background
  {
    ReachableInv(s);
  }

  /** A listed job leaves the foreground only on a report after which none of its
      processes runs. */
  lemma ForegroundGivenUpOnlyWhenIdle(s: State, a: Action, n: nat)
    requires Reachable(s) && Enabled(s, a) && n in s.jobs && s.jobs[n].state == Foreground
    ensures n in Next(s, a).jobs && Next(s, a).jobs[n].state == Background ==>
              a.Report? && !AnyRunning(Next(s, a).jobs[n].processes)
  {
    ReachableInv(s);
    if a.Report? {
      var m, i := ReportEffect(s, a.pid, a.state);
    }
  }

  /** A report shows in the one process it is about; its job leaves the list if that
      was the last, and the foreground if nothing of it runs any more. */
  lemma ReportIsShown(s: State, pid: nat, state: ProcessState) returns (i: nat)
    requires Reachable(s) && Enabled(s, Report(pid, state))
    ensures var t, n := Next(s, Report(pid, state)), s.live[pid];
            && At(s.jobs, n, i, pid)
            && (n in t.jobs ==> t.jobs[n].processes == s.jobs[n].processes[i := Process(pid, state)])
            && (n in t.jobs ==> t.jobs[n].state == if AnyRunning(t.jobs[n].processes) then s.jobs[n].state else Background)
            && (n !in t.jobs <==> AllTerminated(s.jobs[n].processes[i := Process(pid, state)]))
            && (forall m :: m != n ==> (m in t.jobs <==> m in s.jobs) && (m in s.jobs ==> t.jobs[m] == s.jobs[m]))
  {
    ReachableInv(s);
    var n;
    n, i := ReportEffect(s, pid, state);
    hide Inv, Reachable, Reported;
  }

  /** The shell is making or waiting for job n, which is in the foreground. */
  ghost predicate Attending(s: State, n: nat)
  {
    && n in s.jobs && s.jobs[n].state == Foreground
    && (s.pc == Testing(n) || s.pc == Suspended(n) || (Making(s.pc, n) && s.pc.foreground))
  }

  /** The last action reports on a process of job n, while the shell sleeps for n,
      and leaves the job gone or with nothing running. */
  ghost predicate LeavesIdle(s: State, a: Action, n: nat)
  {
    && Enabled(s, a) && a.Report? && s.pc == Suspended(n) && s.live[a.pid] == n
    && (n !in Next(s, a).jobs || !AnyRunning(Next(s, a).jobs[n].processes))
  }

  /** The shell stops attending to a foreground job only on such a report,
      whatever steps and reports come before it. */
  lemma {:induction false} AttendsUntilIdle(s: State, actions: seq<Action>, n: nat) returns (k: nat)
    requires Inv(s) && Attending(s, n) && Allowed(s, actions) && !Attending(After(s, actions), n)
    ensures k < |actions| && Allowed(s, actions[..k]) && LeavesIdle(After(s, actions[..k]), actions[k], n)
    decreases actions
  {
    var a, t := actions[0], Next(s, actions[0]);
    NextKeepsInv(s, a);
    AttendStep(s, a, n);
    if Attending(t, n) {
      var j := AttendsUntilIdle(t, actions[1..], n);
      k := j + 1;
      assert actions[..k][1..] == actions[1..][..j];
    } else {
      k := 0;
    }
  }

  lemma AttendStep(s: State, a: Action, n: nat)
    requires Inv(s) && Enabled(s, a) && Attending(s, n)
    ensures Attending(Next(s, a), n) || LeavesIdle(s, a, n)
  {
    if a.Report? {
      var m, i := ReportEffect(s, a.pid, a.state);
    } else {
      assert HasForegroundJob(s.jobs);
    }
  }

  /** The action with which `createJob` or `resume` puts job n in the foreground. */
  ghost predicate BringsForward(s: State, a: Action, n: nat)
  {
    Enabled(s, a) && (a == Resume(n, true) || (a.AddJob? && !a.background && n == s.next))
  }

  /** A foreground command and `fg` return to the prompt only after a report that
      leaves their job gone or with nothing running. */
  lemma ForegroundHoldsThePrompt(s: State, actions: seq<Action>, n: nat) returns (k: nat)
    requires Reachable(s) && actions != [] && BringsForward(s, actions[0], n)
    requires Allowed(s, actions) && After(s, actions).pc.Prompt?
    ensures 1 <= k < |actions| && Allowed(s, actions[..k]) && LeavesIdle(After(s, actions[..k]), actions[k], n)
  {
    ReachableInv(s);
    var t := Next(s, actions[0]);
    NextKeepsInv(s, actions[0]);
    var j := AttendsUntilIdle(t, actions[1..], n);
    k := j + 1;
    assert actions[..k][1..] == actions[1..][..j];
  }

  // ----- the whole of createJob

  function Started(pids: seq<nat>): seq<Process> { seq(|pids|, i requires 0 <= i < |pids| => Process(pids[i], Running)) }

  function Starts(pids: seq<nat>): seq<Action> { seq(|pids|, i requires 0 <= i < |pids| => StartProcess(pids[i])) }

  function Children(pids: seq<nat>, n: nat): map<nat, nat> { map pid | pid in pids :: n }

  ghost predicate AllFresh(s: State, pids: seq<nat>)
  {
    && (forall i :: 0 <= i < |pids| ==> Fresh(s, pids[i]))
    && forall i, j :: 0 <= i < j < |pids| ==> pids[i] != pids[j]
  }

  lemma StartOne(s: State, pids: seq<nat>)
    requires s.pc.Starting? && s.pc.num in s.jobs && s.pc.left == |pids| > 0 && AllFresh(s, pids)
    ensures AllFresh(Next(s, StartProcess(pids[0])), pids[1..])
  {
    var t := Next(s, StartProcess(pids[0]));
    forall i | 0 <= i < |pids[1..]|
      ensures Fresh(t, pids[1..][i])
    {
      var pid := pids[i + 1];
      assert pid != pids[0] && Fresh(s, pid);
      forall m: nat, j: nat
        ensures !At(t.jobs, m, j, pid)
      {
        AtAfterStart(s.jobs, s.pc.num, pids[0], m, j, pid);
      }
    }
  }

  /** The state with these processes added to the job being made. */
  function AllAdded(s: State, pids: seq<nat>): State
    requires s.pc.Starting? && s.pc.num in s.jobs
  {
    var job := s.jobs[s.pc.num];
    s.(jobs := s.jobs[s.pc.num := job.(processes := job.processes + Started(pids))],
       live := s.live + Children(pids, s.pc.num), pc := Starting(s.pc.num, 0, s.pc.foreground))
  }

  lemma ChildrenFromFirst(live: map<nat, nat>, pids: seq<nat>, n: nat)
    requires pids != []
    ensures live[pids[0] := n] + Children(pids[1..], n) == live + Children(pids, n)
  {
    assert pids == [pids[0]] + pids[1..];
  }

  lemma StartedFromFirst(ps: seq<Process>, pids: seq<nat>)
    requires pids != []
    ensures (ps + [Process(pids[0], Running)]) + Started(pids[1..]) == ps + Started(pids)
  {
  }

  lemma AddFirst(s: State, pids: seq<nat>)
    requires s.pc.Starting? && s.pc.num in s.jobs && s.pc.left == |pids| > 0 && Fresh(s, pids[0])
    ensures AllAdded(Next(s, StartProcess(pids[0])), pids[1..]) == AllAdded(s, pids)
  {
    hide Started, Children;
    ChildrenFromFirst(s.live, pids, s.pc.num);
    StartedFromFirst(s.jobs[s.pc.num].processes, pids);
  }

  lemma AddNone(s: State)
    requires s.pc.Starting? && s.pc.num in s.jobs && s.pc.left == 0
    ensures AllAdded(s, []) == s
  {
    var job := s.jobs[s.pc.num];
    assert job.processes + Started([]) == job.processes;
    assert s.jobs[s.pc.num := job] == s.jobs && s.live + Children([], s.pc.num) == s.live;
  }

  /** Starting the processes adds them to the job in order, all running. */
  lemma {:induction false} StartAll(s: State, pids: seq<nat>)
    requires s.pc.Starting? && s.pc.num in s.jobs && s.pc.left == |pids| && AllFresh(s, pids)
    ensures Allowed(s, Starts(pids)) && After(s, Starts(pids)) == AllAdded(s, pids)
    decreases pids
  {
    if pids == [] {
      AddNone(s);
    } else {
      var t, rest := Next(s, StartProcess(pids[0])), pids[1..];
      assert Fresh(s, pids[0]);
      AddFirst(s, pids);
      StartOne(s, pids);
      hide AllAdded, AllFresh, Fresh;
      StartAll(t, rest);
      assert Starts(pids)[1..] == Starts(rest);
    }
  }

  /** What `createJob` does once SIGCHLD is blocked, up to the test for background. */
  function Launch(pids: seq<nat>): seq<Action> { [Block] + (Starts(pids) + [AllStarted]) }

  lemma LaunchEffect(s: State, pids: seq<nat>)
    requires Inv(s) && s.pc.Added? && s.pc.left == |pids| && AllFresh(s, pids)
    ensures Allowed(s, Launch(pids))
    ensures var t, n := After(s, Launch(pids)), s.pc.num;
            && t.jobs == s.jobs[n := Job(n, Started(pids), if s.pc.foreground then Foreground else Background)]
            && t.live == s.live + Children(pids, n)
            && t.pc == (if s.pc.foreground then Testing(n) else Unblocking)
  {
    hide Distinct, Tracked, Owned, Kept, InFront, Children;
    var b := Next(s, Block);
    StartAll(b, pids);
    var e := After(b, Starts(pids));
    AppendRun(b, Starts(pids), [AllStarted]);
    var actions := Launch(pids);
    assert actions[1..] == Starts(pids) + [AllStarted];
    assert [] + Started(pids) == Started(pids);
    assert [AllStarted][1..] == [];
  }

  predicate OnlyReports(actions: seq<Action>) { forall i :: 0 <= i < |actions| ==> actions[i].Report? }

  lemma {:induction false} ReportsLeavePc(s: State, reports: seq<Action>)
    requires OnlyReports(reports) && Allowed(s, reports)
    ensures After(s, reports).pc == s.pc
    decreases reports
  {
    if reports != [] {
      ReportsLeavePc(Next(s, reports[0]), reports[1..]);
    }
  }

  lemma BeginEffect(s: State, commands: nat, background: bool, reports: seq<Action>)
    requires Reachable(s) && OnlyReports(reports) && Allowed(s, [AddJob(commands, background)] + reports)
    ensures var m := After(s, [AddJob(commands, background)] + reports); Inv(m) && m.pc == Added(s.next, commands, !background)
  {
    var begun := [AddJob(commands, background)] + reports;
    ReachableInv(s);
    RunKeepsInv(s, begun);
    hide Inv, Reachable;
    assert begun[1..] == reports;
    ReportsLeavePc(Next(s, begun[0]), reports);
  }

  /** `createJob` as a whole, for any reports that arrive before SIGCHLD is blocked:
      the new job holds its processes in the order of the pipeline, all running; a
      background command leaves it in the background and is at the prompt again
      without any report; a foreground command leaves it in the foreground and
      goes on to wait. No other job changes. */
  lemma CreateJobEffect(s: State, pids: seq<nat>, background: bool, reports: seq<Action>)
    requires Reachable(s) && s.pc.Prompt? && |pids| >= 1 && OnlyReports(reports)
    requires Allowed(s, [AddJob(|pids|, background)] + reports)
    requires AllFresh(After(s, [AddJob(|pids|, background)] + reports), pids)
    ensures var begun := [AddJob(|pids|, background)] + reports; Allowed(s, begun + Launch(pids))
    ensures var begun := [AddJob(|pids|, background)] + reports;
            var m, t, n := After(s, begun), After(s, begun + Launch(pids)), s.next;
            && t.jobs == m.jobs[n := Job(n, Started(pids), if background then Background else Foreground)]
            && t.live == m.live + Children(pids, n)
            && if background then t.pc == Unblocking && Next(t, Unblock).pc == Prompt else t.pc == Testing(n)
  {
    hide Started, Children, Launch, Inv, AllFresh, Reachable;
    var begun := [AddJob(|pids|, background)] + reports;
    BeginEffect(s, |pids|, background, reports);
    LaunchEffect(After(s, begun), pids);
    AppendRun(s, begun, Launch(pids));
  }

  /** `bg` leaves the job in the background and is at the prompt again; `fg` leaves
      it in the foreground and goes on to wait for it. Nothing else changes. */
  lemma ResumeEffect(s: State, num: nat, inForeground: bool)
    requires s.pc.Prompt? && num in s.jobs
    ensures var t := Next(s, Resume(num, inForeground));
            && t.live == s.live && t.jobs.Keys == s.jobs.Keys && (forall m :: m in s.jobs && m != num ==> t.jobs[m] == s.jobs[m])
            && t.jobs[num].processes == s.jobs[num].processes && (t.jobs[num].state == Foreground <==> inForeground)
            && if inForeground then t.pc == Testing(num) else Enabled(t, Unblock) && Next(t, Unblock).pc == Prompt
  {
  }

  /** Once its job is out of the foreground, a waiting shell's own steps bring back
      the prompt and change nothing. */
  lemma PromptComesBack(s: State) returns (actions: seq<Action>)
    requires (s.pc.Testing? || s.pc.Suspended?) && !HasForegroundJob(s.jobs)
    ensures |actions| <= 3 && Allowed(s, actions) && After(s, actions) == s.(pc := Prompt)
  {
    var test := [Test, Unblock];
    var t := s.(pc := Testing(s.pc.num));
    assert test[1..] == [Unblock] && [Unblock][1..] == [];
    assert Allowed(Next(t, Test), [Unblock]);
    if s.pc.Testing? {
      actions := test;
    } else {
      actions := [Wake] + test;
      assert actions[1..] == test && Next(s, Wake) == t;
    }
  }

  lemma {:induction false} AppendRun(s: State, first: seq<Action>, second: seq<Action>)
    requires Allowed(s, first) && Allowed(After(s, first), second)
    ensures Allowed(s, first + second) && After(s, first + second) == After(After(s, first), second)
    decreases first
  {
    if first == [] {
      assert first + second == second;
    } else {
      assert (first + second)[1..] == first[1..] + second;
      AppendRun(Next(s, first[0]), first[1..], second);
    }
  }

  /** The shell never sleeps for a job from which no report can come. */
  lemma WaitsOnlyForLiveJobs(s: State)
    requires Reachable(s) && s.pc.Suspended? && HasForegroundJob(s.jobs)
    ensures s.jobs.Keys >= {s.pc.num} && HasLiveProcess(s, s.pc.num)
  {
    ReachableInv(s);
    var n :| n in s.jobs && s.jobs[n].state == Foreground;
    assert n == s.pc.num;
    ListedExactlyWhileLive(s, n);
  }

  /** A number given to a new job is larger than every number given before, and a
      number that has left the list never comes back. */
  lemma {:induction false} NumbersNeverReused(s: State, actions: seq<Action>, n: nat)
    requires Inv(s) && Allowed(s, actions)
    ensures After(s, actions).next >= s.next
    ensures n in After(s, actions).jobs && n !in s.jobs ==> s.next <= n < After(s, actions).next
    decreases actions
  {
    if actions == [] {
      assert Numbered(s);
    } else {
      var t := Next(s, actions[0]);
      NextKeepsInv(s, actions[0]);
      NumbersNeverReused(t, actions[1..], n);
      RunKeepsInv(t, actions[1..]);
      StepAddsOnlyNext(s, actions[0], n);
    }
  }

  lemma StepAddsOnlyNext(s: State, a: Action, n: nat)
    requires Inv(s) && Enabled(s, a)
    ensures Next(s, a).next >= s.next
    ensures n in Next(s, a).jobs && n !in s.jobs ==> a.AddJob? && n == s.next && Next(s, a).next == n + 1
  {
    if a.Report? {
      var m, i := ReportEffect(s, a.pid, a.state);
    }
  }
}
