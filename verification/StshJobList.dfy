/**
  The shell's job table as the program keeps it: a mutable list, the handler's loops and the
  built-ins, each doing to the fields what the step machine says.
 */
module StshJobList {
  import opened StshJobs

  method AllTerminated(job: Job) returns (all: bool)
    ensures all == job.AllTerminated()
  {
    for i := 0 to |job.processes|
      invariant forall k :: 0 <= k < i ==> job.processes[k].state == Terminated
    {
      if job.processes[i].state != Terminated {
        return false;
      }
    }
    all := true;
  }

  method AnyRunning(job: Job) returns (any: bool)
    ensures any == job.AnyRunning()
  {
    for i := 0 to |job.processes|
      invariant forall k :: 0 <= k < i ==> job.processes[k].state != Running
    {
      if job.processes[i].state == Running {
        return true;
      }
    }
    any := false;
  }

  method AllStopped(job: Job) returns (all: bool)
    ensures all == job.AllStopped()
  {
    var running := AnyRunning(job);
    if running {
      return false;
    }
    var terminated := AllTerminated(job);
    all := !terminated;
  }

  method HasProcess(job: Job, pid: nat) returns (found: bool)
    ensures found == job.Has(pid)
  {
    for i := 0 to |job.processes|
      invariant forall k :: 0 <= k < i ==> job.processes[k].pid != pid
    {
      if job.processes[i].pid == pid {
        return true;
      }
    }
    found := false;
  }

  lemma {:induction false} FirstJobSkips(jobs: Jobs, f: Job -> bool, k: nat, n: nat, limit: nat)
    requires 0 < k <= n <= limit + 1 && forall m :: k <= m < n && m in jobs ==> !f(jobs[m])
    ensures FirstJob(jobs, f, k, limit) == FirstJob(jobs, f, n, limit)
    decreases n - k
  {
    if k < n {
      FirstJobSkips(jobs, f, k + 1, n, limit);
    }
  }

  class JobList {
    var jobs: Jobs
    var counter: nat
    var fgPgid: nat

    constructor ()
      ensures jobs == map[] && counter == 0 && fgPgid == 0
    {
      jobs, counter, fgPgid := map[], 0, 0;
    }

    // The fields are those of machine state s.
    ghost predicate Shows(s: Shell)
      reads this
    {
      jobs == s.jobs && counter == s.counter && fgPgid == s.fgPgid
    }

    method GetJobByPgid(pgid: nat) returns (n: nat)
      ensures n == JobByPgid(jobs, counter, pgid)
    {
      hide FirstJob;
      n := 1;
      while n <= counter
        invariant 0 < n <= counter + 1
        invariant forall m :: 0 < m < n && m in jobs ==> jobs[m].pgid != pgid
      {
        if n in jobs && jobs[n].pgid == pgid {
          FirstJobSkips(jobs, (j: Job) => j.pgid == pgid, 1, n, counter);
          FirstJobHere(jobs, (j: Job) => j.pgid == pgid, n, counter);
          return;
        }
        n := n + 1;
      }
      FirstJobSkips(jobs, (j: Job) => j.pgid == pgid, 1, counter + 1, counter);
      FirstJobEnds(jobs, (j: Job) => j.pgid == pgid, counter);
      n := 0;
    }

    method GetJobWithProcess(pid: nat) returns (n: nat)
      ensures n == JobWithProcess(jobs, counter, pid)
    {
      hide FirstJob, Job.Has;
      n := 1;
      while n <= counter
        invariant 0 < n <= counter + 1
        invariant forall m :: 0 < m < n && m in jobs ==> !jobs[m].Has(pid)
      {
        if n in jobs {
          var found := HasProcess(jobs[n], pid);
          if found {
            FirstJobSkips(jobs, (j: Job) => j.Has(pid), 1, n, counter);
            FirstJobHere(jobs, (j: Job) => j.Has(pid), n, counter);
            return;
          }
        }
        n := n + 1;
      }
      FirstJobSkips(jobs, (j: Job) => j.Has(pid), 1, counter + 1, counter);
      FirstJobEnds(jobs, (j: Job) => j.Has(pid), counter);
      n := 0;
    }

    // The end of runPipeline, while SIGCHLD is still blocked.
    method AddJob(pids: seq<nat>, background: bool, ghost s: Shell) returns (num: nat)
      requires Shows(s) && Enabled(s, FinishPipeline) && s.pc == Building(pids, |pids|, background)
      modifies this
      ensures Shows(Apply(s, FinishPipeline)) && num == counter
    {
      counter := counter + 1;
      num := counter;
      var processes: seq<Process> := [];
      for i := 0 to |pids|
        invariant processes == Started(pids[..i])
      {
        processes := processes + [Process(pids[i], Running)];
      }
      assert pids[..|pids|] == pids;
      jobs := jobs[num := Job(num, pids[0], !background, processes)];
      if !background {
        fgPgid := pids[0];
      }
    }

    // One round of the handler's loop: what waitpid returned for pid.
    method HandleReport(pid: nat, ghost s: Shell, state: ProcState)
      requires Shows(s) && Enabled(s, Reap(pid)) && state == s.kernel[pid]
      modifies this
      ensures Shows(Apply(s, Reap(pid)))
    {
      hide JobWithProcess, Job.AllTerminated;
      var n := GetJobWithProcess(pid);
      if n !in jobs {
        return;
      }
      var job := jobs[n];
      var processes := job.processes;
      for i := 0 to |processes|
        invariant |processes| == |job.processes|
        invariant forall k :: 0 <= k < |processes| ==>
          processes[k] ==
            (if k < i && job.processes[k].pid == pid then job.processes[k].(state := state) else job.processes[k])
      {
        if processes[i].pid == pid {
          processes := processes[i := processes[i].(state := state)];
        }
      }
      assert job.(processes := processes) == SetState(job, pid, state);
      jobs := jobs[n := job.(processes := processes)];
      var gone := AllTerminated(jobs[n]);
      if gone {
        jobs := jobs - {n};
      }
    }

    // fg and bg up to the kill.
    method MarkGroupRunning(num: nat, background: bool, ghost s: Shell) returns (found: bool)
      requires Shows(s) && Enabled(s, Resume(num, background))
      modifies this
      ensures Shows(Apply(s, Resume(num, background))) && found == (num in s.jobs)
    {
      if num !in jobs {
        return false;
      }
      var job := jobs[num];
      var processes := job.processes;
      for i := 0 to |processes|
        invariant |processes| == |job.processes|
        invariant forall k :: 0 <= k < |processes| ==>
          processes[k] == job.processes[k].(state :=
            if k < i && job.processes[k].state == Stopped then Running else job.processes[k].state)
      {
        if processes[i].state == Stopped {
          processes := processes[i := processes[i].(state := Running)];
        }
      }
      assert job.(processes := processes) == MarkRunning(job);
      jobs := jobs[num := job.(processes := processes)];
      found := true;
    }

    // fg and bg once SIGCONT is sent.
    method MoveJob(num: nat, background: bool, ghost s: Shell)
      requires Shows(s) && Enabled(s, SendCont) && s.pc == Continuing(num, background)
      modifies this
      ensures Shows(Apply(s, SendCont))
    {
      jobs := jobs[num := jobs[num].(foreground := !background)];
      if !background {
        fgPgid := jobs[num].pgid;
      }
    }

    // One test of waitForForegroundJob's loop, and what follows when it ends.
    method WaitCheck(pgid: nat, ghost s: Shell) returns (suspend: bool)
      requires Shows(s) && Enabled(s, CheckForeground) && pgid == s.pc.pgid
      modifies this
      ensures Shows(Apply(s, CheckForeground)) && suspend == Apply(s, CheckForeground).pc.Suspended?
    {
      hide JobByPgid, Job.AnyRunning, Job.AllTerminated, Job.AllStopped;
      var n := GetJobByPgid(pgid);
      if n in jobs {
        var running := AnyRunning(jobs[n]);
        if running {
          return true;
        }
        var stopped := AllStopped(jobs[n]);
        if stopped {
          jobs := jobs[n := jobs[n].(foreground := false)];
        }
      }
      fgPgid := 0;
      suspend := false;
    }

    method MaybeResetCounter(ghost s: Shell)
      requires Shows(s) && Enabled(s, ResetCounter)
      modifies this
      ensures Shows(Apply(s, ResetCounter))
    {
      if jobs == map[] {
        counter := 0;
      }
    }
  }

  lemma FirstJobHere(jobs: Jobs, f: Job -> bool, n: nat, limit: nat)
    requires 0 < n <= limit && n in jobs && f(jobs[n])
    ensures FirstJob(jobs, f, n, limit) == n
  {
  }

  lemma FirstJobEnds(jobs: Jobs, f: Job -> bool, limit: nat)
    ensures FirstJob(jobs, f, limit + 1, limit) == 0
  {
  }
}
