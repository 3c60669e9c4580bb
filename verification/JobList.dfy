/** The job list of assign4: stsh-job.h, stsh-job-list.cc, and the update that
    the SIGCHLD handler of stsh.cc makes for one status report. */
module JobList {
  datatype ProcessState = Waiting | Running | Stopped | Terminated

  datatype Process = Process(pid: nat, state: ProcessState)

  datatype JobState = Foreground | Background

  datatype Job = Job(num: nat, processes: seq<Process>, state: JobState)

  type Jobs = map<nat, Job>

  predicate AnyRunning(ps: seq<Process>) { exists i :: 0 <= i < |ps| && ps[i].state == Running }

  predicate AllTerminated(ps: seq<Process>) { forall i :: 0 <= i < |ps| ==> ps[i].state == Terminated }

  /** A job with nothing running leaves the foreground; one with everything
      terminated leaves the list. */
  function Synchronized(jobs: Jobs, n: nat): Jobs
    requires n in jobs
  {
    if AllTerminated(jobs[n].processes) then jobs - {n}
    else jobs[n := jobs[n].(state := if AnyRunning(jobs[n].processes) then jobs[n].state else Background)]
  }

  predicate At(jobs: Jobs, n: nat, i: nat, pid: nat)
  {
    n in jobs && i < |jobs[n].processes| && jobs[n].processes[i].pid == pid
  }

  /** No two listed processes have the same pid. */
  ghost predicate Distinct(jobs: Jobs)
  {
    forall n: nat, i: nat, m: nat, j: nat, pid: nat :: At(jobs, n, i, pid) && At(jobs, m, j, pid) ==> n == m && i == j
  }

  function Marked(jobs: Jobs, n: nat, i: nat, state: ProcessState): Jobs
    requires n in jobs && i < |jobs[n].processes|
  {
    jobs[n := jobs[n].(processes := jobs[n].processes[i := jobs[n].processes[i].(state := state)])]
  }

  /** A report on a process that no job holds changes nothing. */
  ghost function Reported(jobs: Jobs, pid: nat, state: ProcessState): Jobs
  {
    if n: nat, i: nat :| At(jobs, n, i, pid) then Synchronized(Marked(jobs, n, i, state), n) else jobs
  }

  lemma ReportedAt(jobs: Jobs, pid: nat, state: ProcessState, n: nat, i: nat)
    requires Distinct(jobs) && At(jobs, n, i, pid)
    ensures Reported(jobs, pid, state) == Synchronized(Marked(jobs, n, i, state), n)
  {
  }

  // ----- the objects

  class STSHJob {
    var num: nat
    var processes: seq<Process>
    var state: JobState

    ghost function Value(): Job
      reads this
    {
      Job(num, processes, state)
    }

    constructor (num: nat, state: JobState)
      ensures Value() == Job(num, [], state)
    {
      this.num, this.processes, this.state := num, [], state;
    }

    method AddProcess(p: Process)
      modifies this`processes
      ensures processes == old(processes) + [p]
    {
      processes := processes + [p];
    }

    method SetState(s: JobState)
      modifies this`state
      ensures state == s
    {
      state := s;
    }

    /** The index of the process, or the number of processes for `nprocess`. */
    method GetProcess(pid: nat) returns (i: nat)
      ensures i <= |processes| && forall j :: 0 <= j < i ==> processes[j].pid != pid
      ensures i < |processes| ==> processes[i].pid == pid
    {
      i := 0;
      while i < |processes| && processes[i].pid != pid
        invariant i <= |processes| && forall j :: 0 <= j < i ==> processes[j].pid != pid
      {
        i := i + 1;
      }
    }

    method SetProcessState(i: nat, s: ProcessState)
      requires i < |processes|
      modifies this`processes
      ensures processes == old(processes)[i := old(processes)[i].(state := s)]
    {
      processes := processes[i := processes[i].(state := s)];
    }

    method SomethingIsRunning() returns (b: bool)
      ensures b == AnyRunning(processes)
    {
      for i := 0 to |processes|
        invariant forall j :: 0 <= j < i ==> processes[j].state != Running
      {
        if processes[i].state == Running {
          return true;
        }
      }
      return false;
    }

    method EverythingTerminated() returns (b: bool)
      ensures b == AllTerminated(processes)
    {
      for i := 0 to |processes|
        invariant forall j :: 0 <= j < i ==> processes[j].state == Terminated
      {
        if processes[i].state != Terminated {
          return false;
        }
      }
      return true;
    }
  }

  class STSHJobList {
    var next: nat
    var jobs: map<nat, STSHJob>

    ghost predicate Valid()
      reads this, jobs.Values
    {
      && (forall n :: n in jobs ==> 1 <= n < next && jobs[n].num == n)
      && next >= 1
    }

    ghost function Contents(): Jobs
      reads this, jobs.Values
    {
      map n | n in jobs :: jobs[n].Value()
    }

    constructor ()
      ensures Valid() && next == 1 && Contents() == map[] && jobs == map[]
    {
      next, jobs := 1, map[];
    }

    method AddJob(state: JobState) returns (job: STSHJob)
      requires Valid()
      modifies this
      ensures Valid() && fresh(job) && old(next) !in old(jobs) && jobs == old(jobs)[old(next) := job] && next == old(next) + 1
      ensures Contents() == old(Contents())[old(next) := Job(old(next), [], state)]
    {
      job := new STSHJob(next, state);
      jobs := jobs[next := job];
      next := next + 1;
    }

    /** The map is traversed in the order of its keys. */
    method GetForegroundJob() returns (job: STSHJob?)
      requires Valid()
      ensures job == null ==> forall n :: n in jobs ==> jobs[n].state == Background
      ensures job != null ==> job.num in jobs && jobs[job.num] == job && job.state == Foreground
    {
      for n := 0 to next
        invariant forall m :: 0 <= m < n && m in jobs ==> jobs[m].state == Background
      {
        if n in jobs && jobs[n].state == Foreground {
          return jobs[n];
        }
      }
      return null;
    }

    method GetJobWithProcess(pid: nat) returns (job: STSHJob?)
      requires Valid()
      ensures job == null ==> forall n, i :: !At(Contents(), n, i, pid)
      ensures job != null ==> job.num in jobs && jobs[job.num] == job && exists i :: At(Contents(), job.num, i, pid)
    {
      for n := 0 to next
        invariant forall m, i :: 0 <= m < n ==> !At(Contents(), m, i, pid)
      {
        if n in jobs {
          var i := jobs[n].GetProcess(pid);
          if i < |jobs[n].processes| {
            assert At(Contents(), n, i, pid);
            return jobs[n];
          }
        }
      }
      return null;
    }

    method Synchronize(job: STSHJob)
      requires Valid() && job.num in jobs && jobs[job.num] == job
      modifies this`jobs, job`state
      ensures Valid() && jobs.Keys <= old(jobs.Keys) && forall n :: n in jobs ==> jobs[n] == old(jobs)[n]
      ensures Contents() == Synchronized(old(Contents()), job.num)
    {
      hide AnyRunning, AllTerminated;
      ghost var before := Contents();
      var somethingIsRunning := job.SomethingIsRunning();
      if !somethingIsRunning {
        job.SetState(Background);
      }
      ghost var settled := before[job.num].(state := if somethingIsRunning then before[job.num].state else Background);
      assert job.Value() == settled;
      assert Contents() == before[job.num := settled];
      var allTerminated := job.EverythingTerminated();
      if !allTerminated {
        return;
      }
      jobs := jobs - {job.num};
      assert Contents() == before - {job.num};
    }
  }

  method UpdateJobListHelper(list: STSHJobList, pid: nat, state: ProcessState)
    requires list.Valid() && Distinct(list.Contents())
    modifies list`jobs, list.jobs.Values
    ensures list.Valid() && list.jobs.Keys <= old(list.jobs.Keys) && forall n :: n in list.jobs ==> list.jobs[n] == old(list.jobs)[n]
    ensures list.Contents() == Reported(old(list.Contents()), pid, state)
  {
    hide Distinct, Synchronized;
    ghost var before := list.Contents();
    var job := list.GetJobWithProcess(pid);
    if job == null {
      return;
    }
    var i := job.GetProcess(pid);
    assert At(before, job.num, i, pid);
    ReportedAt(before, pid, state, job.num, i);
    hide Reported;
    job.SetProcessState(i, state);
    assert list.Contents() == Marked(before, job.num, i, state);
    list.Synchronize(job);
  }
}
