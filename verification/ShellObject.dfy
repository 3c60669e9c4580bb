/** The shell's state as the program holds it: the global job list, with the jobs
    updated in place by commands and by the SIGCHLD handler. */
module ShellObject {
  import opened JobList
  import opened Shell

  class Stsh {
    const list: STSHJobList
    var pc: Pc
    ghost var live: map<nat, nat>

    ghost function Model(): State
      reads this, list, list.jobs.Values
    {
      State(list.next, list.Contents(), pc, live)
    }

    ghost predicate Valid()
      reads this, list, list.jobs.Values
    {
      list.Valid() && Inv(Model())
    }

    constructor ()
      ensures Valid() && Model() == INITIAL && fresh(list)
    {
      list := new STSHJobList();
      pc, live := Prompt, map[];
    }

    /** The start of `createJob`, before SIGCHLD is blocked. */
    method CreateJob(commands: nat, background: bool)
      requires Valid() && Enabled(Model(), AddJob(commands, background))
      modifies this, list
      ensures list.Valid() && Model() == Next(old(Model()), AddJob(commands, background))
      ensures fresh(list.jobs.Values - old(list.jobs.Values))
      ensures var n := old(list.next);
              n in list.jobs && list.jobs[n].Value() == Job(n, [], if background then Background else Foreground)
    {
      hide Inv;
      var job := list.AddJob(if background then Background else Foreground);
      assert list.jobs[old(list.next)] == job && job.num == old(list.next);
      pc := Added(job.num, commands, !background);
      assert job.num in list.Contents() && list.Contents()[job.num] == list.jobs[job.num].Value();
    }

    /** `startProcess` in the parent, after the fork. */
    method AddChild(child: nat)
      requires Valid() && Enabled(Model(), StartProcess(child))
      modifies this, list.jobs.Values
      ensures list.Valid() && Model() == Next(old(Model()), StartProcess(child))
    {
      hide Distinct, Tracked, Owned, Kept, InFront, Numbered;
      var job := list.jobs[pc.num];
      job.AddProcess(Process(child, Running));
      live := live[child := pc.num];
      pc := Starting(pc.num, pc.left - 1, pc.foreground);
    }

    method ResumeJob(num: nat, inForeground: bool)
      requires Valid() && Enabled(Model(), Resume(num, inForeground))
      modifies this, list.jobs.Values
      ensures list.Valid() && Model() == Next(old(Model()), Resume(num, inForeground))
    {
      hide Inv;
      var job := list.jobs[num];
      job.SetState(if inForeground then Foreground else Background);
      pc := if inForeground then Testing(num) else Unblocking;
    }

    /** The test of the loop in `waitForForeground`. */
    method TestForeground()
      requires Valid() && pc.Testing?
      modifies this`pc
      ensures list.Valid() && Model() == Next(old(Model()), Test)
    {
      hide Inv;
      var job := list.GetForegroundJob();
      if job != null {
        assert job.num in list.Contents() && list.Contents()[job.num].state == Foreground;
      } else {
        assert forall n :: n in list.Contents() ==> list.Contents()[n].state == Background;
      }
      pc := if job != null then Suspended(pc.num) else Unblocking;
    }

    /** One turn of the loop in `updateJobList`. */
    method UpdateJobList(pid: nat, state: ProcessState)
      requires Valid() && Enabled(Model(), Report(pid, state))
      modifies this`live, list`jobs, list.jobs.Values
      ensures list.Valid() && Model() == Next(old(Model()), Report(pid, state))
      ensures list.jobs.Values <= old(list.jobs.Values)
    {
      hide Distinct, Tracked, Owned, Kept, InFront, MakingOk, Numbered, Reported;
      UpdateJobListHelper(list, pid, state);
      live := if state == Terminated then live - {pid} else live;
    }

    method MovePc(a: Action)
      requires Valid() && Enabled(Model(), a) && (a.Block? || a.AllStarted? || a.Wake? || a.Unblock?)
      modifies this`pc
      ensures list.Valid() && Model() == Next(old(Model()), a)
    {
      pc := match a
        case Block => Starting(pc.num, pc.left, pc.foreground)
        case AllStarted => if pc.foreground then Testing(pc.num) else Unblocking
        case Wake => Testing(pc.num)
        case _ => Prompt;
    }

    method Perform(a: Action)
      requires Valid() && Enabled(Model(), a)
      modifies this, list, list.jobs.Values
      ensures Valid() && Model() == Next(old(Model()), a)
      ensures fresh(list.jobs.Values - old(list.jobs.Values))
    {
      hide Inv, Next;
      NextKeepsInv(Model(), a);
      match a {
        case AddJob(commands, background) => CreateJob(commands, background);
        case StartProcess(pid) => AddChild(pid);
        case Resume(num, inForeground) => ResumeJob(num, inForeground);
        case Report(pid, state) => UpdateJobList(pid, state);
        case Test => TestForeground();
        case _ => MovePc(a);
      }
    }

    method Run(actions: seq<Action>)
      requires Valid() && Allowed(Model(), actions)
      modifies this, list, list.jobs.Values
      ensures Valid() && Model() == After(old(Model()), actions)
    {
      hide Inv, Enabled, Next;
      for k := 0 to |actions|
        invariant Valid() && fresh(list.jobs.Values - old(list.jobs.Values))
        invariant Allowed(Model(), actions[k..]) && After(Model(), actions[k..]) == After(old(Model()), actions)
      {
        assert actions[k + 1..] == actions[k..][1..];
        Perform(actions[k]);
      }
    }
  }
}
