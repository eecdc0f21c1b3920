/**
  Every step of the shell, its handler and its children keeps the job-control invariant.
 */
module StshJobsInvariant {
  import opened StshJobs

  // ------------------------------------------------------------ job tables

  // The same processes in the same job, perhaps in other states.
  predicate SamePids(a: Job, b: Job) {
    && a.num == b.num && a.pgid == b.pgid && |a.processes| == |b.processes|
    && forall i :: 0 <= i < |a.processes| ==> a.processes[i].pid == b.processes[i].pid
  }

  lemma SameHas(a: Job, b: Job)
    requires SamePids(a, b)
    ensures forall pid :: a.Has(pid) <==> b.Has(pid)
    ensures Distinct(a.processes) <==> Distinct(b.processes)
  {
  }

  ghost predicate TableOk(jobs: Jobs, counter: nat) {
    Numbered(jobs, counter) && OneOwner(jobs)
  }

  lemma ReplaceKeeps(jobs: Jobs, counter: nat, n: nat, job: Job)
    requires TableOk(jobs, counter) && n in jobs && SamePids(jobs[n], job)
    ensures TableOk(jobs[n := job], counter)
    ensures forall m, pid :: m in jobs ==> (jobs[n := job][m].Has(pid) <==> jobs[m].Has(pid))
    ensures forall pid :: InTable(jobs[n := job], pid) <==> InTable(jobs, pid)
  {
    SameHas(jobs[n], job);
    var next := jobs[n := job];
    assert forall m, pid :: m in jobs ==> (next[m].Has(pid) <==> jobs[m].Has(pid));
    hide Job.Has;
    forall pid ensures InTable(next, pid) <==> InTable(jobs, pid) {
      SameTable(jobs, next, pid);
    }
  }

  lemma SameTable(a: Jobs, b: Jobs, pid: nat)
    requires a.Keys == b.Keys && forall m :: m in a ==> a[m].pgid == b[m].pgid && (a[m].Has(pid) <==> b[m].Has(pid))
    ensures InTable(a, pid) <==> InTable(b, pid)
  {
  }

  lemma RemoveKeeps(jobs: Jobs, counter: nat, n: nat)
    requires TableOk(jobs, counter)
    ensures TableOk(jobs - {n}, counter)
  {
    hide Distinct, Job.Has;
  }

  lemma FindsOwner(jobs: Jobs, counter: nat, pid: nat, n: nat)
    requires TableOk(jobs, counter) && n in jobs && jobs[n].Has(pid)
    ensures JobWithProcess(jobs, counter, pid) == n
  {
    hide Distinct, Job.Has, FirstJob;
    OwnerFound(jobs, counter, pid, n);
  }

  lemma OwnerFound(jobs: Jobs, counter: nat, pid: nat, n: nat)
    requires Numbered(jobs, counter) && n in jobs && jobs[n].Has(pid)
    ensures var r := JobWithProcess(jobs, counter, pid); r in jobs && jobs[r].Has(pid)
  {
    hide Job.Has;
    var r := FirstJob(jobs, (j: Job) => j.Has(pid), 1, counter);
    assert 1 <= n <= counter;
  }

  lemma LeaderIsMember(jobs: Jobs, counter: nat, n: nat)
    requires Numbered(jobs, counter) && n in jobs
    ensures jobs[n].Has(jobs[n].pgid)
  {
    assert jobs[n].processes[0].pid == jobs[n].pgid;
  }

  // Process groups name jobs.
  lemma GroupIsUnique(jobs: Jobs, counter: nat, n: nat, m: nat)
    requires TableOk(jobs, counter) && n in jobs && m in jobs && jobs[n].pgid == jobs[m].pgid
    ensures n == m
  {
    hide Distinct, Job.Has;
    LeaderIsMember(jobs, counter, n);
    LeaderIsMember(jobs, counter, m);
  }

  lemma FindsGroup(jobs: Jobs, counter: nat, pgid: nat)
    requires TableOk(jobs, counter)
    ensures var r := JobByPgid(jobs, counter, pgid);
      (r in jobs ==> jobs[r].pgid == pgid) && forall n :: n in jobs && jobs[n].pgid == pgid ==> r == n
  {
    hide Distinct, Job.Has, OneOwner;
    var r := FirstJob(jobs, (j: Job) => j.pgid == pgid, 1, counter);
    assert r == JobByPgid(jobs, counter, pgid);
    forall n | n in jobs && jobs[n].pgid == pgid ensures r == n {
      assert 1 <= n <= counter;
      GroupIsUnique(jobs, counter, n, r);
    }
  }

  lemma ListedIsInTable(jobs: Jobs, n: nat, i: nat)
    requires n in jobs && i < |jobs[n].processes|
    ensures jobs[n].Has(jobs[n].processes[i].pid) && InTable(jobs, jobs[n].processes[i].pid)
  {
  }

  // ------------------------------------------------------------ building a pipeline

  lemma StartKept(s: Shell, e: Event)
    requires e.StartPipeline? && Inv(s) && Enabled(s, e)
    ensures Inv(Apply(s, e))
  {
    hide Numbered, Alive, OneOwner, KernelOk, Job.Has, Job.AnyRunning;
    SameKernel(s, Apply(s, e));
  }

  lemma ForkAgrees(s: Shell, pid: nat)
    requires Inv(s) && Enabled(s, ForkOne(pid))
    ensures Agreement(Apply(s, ForkOne(pid)))
  {
    hide Numbered, Alive, OneOwner, KernelOk, Job.Has, InTable, OneForeground, AllListed, BuildingOk, PcOk;
    var t := Apply(s, ForkOne(pid));
    forall n, i | n in t.jobs && 0 <= i < |t.jobs[n].processes| ensures Agrees(t, n, t.jobs[n].processes[i]) {
      ListedIsInTable(s.jobs, n, i);
      assert Agrees(s, n, s.jobs[n].processes[i]);
    }
  }

  lemma ForkKept(s: Shell, pid: nat)
    requires Inv(s) && Enabled(s, ForkOne(pid))
    ensures Inv(Apply(s, ForkOne(pid)))
  {
    hide Numbered, Alive, OneOwner, Job.Has, Job.AnyRunning, InTable, Agreement;
    ForkAgrees(s, pid);
  }

  // The table with the new job.
  lemma NewJobTable(jobs: Jobs, counter: nat, job: Job, pids: seq<nat>)
    requires TableOk(jobs, counter) && job.num == counter + 1 && job.processes == Started(pids)
    requires pids != [] && job.pgid == pids[0]
    requires forall i, j :: 0 <= i < j < |pids| ==> pids[i] != pids[j]
    requires forall i :: 0 <= i < |pids| ==> !InTable(jobs, pids[i])
    ensures job.num !in jobs && TableOk(jobs[job.num := job], counter + 1)
    ensures forall pid :: job.Has(pid) <==> pid in pids
    ensures forall n :: n in jobs ==> jobs[n].pgid != job.pgid
    ensures !job.AllTerminated()
  {
    var next := jobs[job.num := job];
    assert job.processes[0].state == Running;
    assert forall i :: 0 <= i < |pids| ==> job.processes[i].pid == pids[i];
    forall n, pid | n in jobs && jobs[n].Has(pid) ensures !job.Has(pid) {
      assert InTable(jobs, pid);
    }
    forall n | n in jobs ensures jobs[n].pgid != job.pgid {
      assert InTable(jobs, jobs[n].pgid);
    }
  }

  function NewJob(s: Shell): Job
    requires s.pc.Building? && s.pc.pids != []
  {
    Job(s.counter + 1, s.pc.pids[0], !s.pc.background, Started(s.pc.pids))
  }

  lemma FinishAgrees(s: Shell)
    requires Inv(s) && Enabled(s, FinishPipeline)
    ensures Agreement(Apply(s, FinishPipeline))
  {
    hide Alive, OneOwner, KernelOk, Job.Has, Job.AnyRunning, OneForeground, AllListed, PcOk, InTable, Numbered;
    var t := Apply(s, FinishPipeline);
    var num := s.counter + 1;
    forall n, i | n in t.jobs && 0 <= i < |t.jobs[n].processes| ensures Agrees(t, n, t.jobs[n].processes[i]) {
      if n == num {
        assert t.jobs[n].processes[i] == Process(s.pc.pids[i], Running);
        assert s.pc.pids[i] in s.pc.pids;
      } else {
        assert Agrees(s, n, s.jobs[n].processes[i]);
      }
    }
  }

  lemma FinishKept(s: Shell)
    requires Inv(s) && Enabled(s, FinishPipeline)
    ensures Inv(Apply(s, FinishPipeline))
  {
    hide Numbered, OneOwner, Job.Has, Job.AnyRunning, Job.AllTerminated, InTable, Agreement, Started, KernelOk;
    FinishAgrees(s);
    NewJobTable(s.jobs, s.counter, NewJob(s), s.pc.pids);
    var t := Apply(s, FinishPipeline);
    assert t.jobs == s.jobs[s.counter + 1 := NewJob(s)];
    SameKernel(s, t);
    var num := s.counter + 1;
    forall pid | pid in t.kernel ensures exists n :: n in t.jobs && t.jobs[n].Has(pid) {
      if pid in s.pc.pids {
        assert t.jobs[num].Has(pid);
      } else {
        var n :| n in s.jobs && s.jobs[n].Has(pid);
        assert t.jobs[n].Has(pid);
      }
    }
  }

  lemma SameKernel(s: Shell, t: Shell)
    requires KernelOk(s) && s.kernel == t.kernel && s.dirty == t.dirty && s.pending == t.pending
    requires s.inHandler == t.inHandler
    ensures KernelOk(t)
  {
  }

  // ------------------------------------------------------------ fg and bg

  lemma MarkKeeps(job: Job)
    ensures SamePids(job, MarkRunning(job)) && (MarkRunning(job).AllTerminated() <==> job.AllTerminated())
    ensures MarkRunning(job).foreground == job.foreground
  {
    assert forall i :: 0 <= i < |job.processes| ==>
      (MarkRunning(job).processes[i].state == Terminated <==> job.processes[i].state == Terminated);
  }

  lemma ResumeAgrees(s: Shell, num: nat, background: bool)
    requires Inv(s) && Enabled(s, Resume(num, background))
    ensures Agreement(Apply(s, Resume(num, background)))
  {
    hide Numbered, Alive, OneOwner, OneForeground, AllListed, BuildingOk, PcOk, KernelOk;
    var t := Apply(s, Resume(num, background));
    forall n, i | n in t.jobs && 0 <= i < |t.jobs[n].processes| ensures Agrees(t, n, t.jobs[n].processes[i]) {
      assert Agrees(s, n, s.jobs[n].processes[i]);
    }
  }

  lemma ResumeKept(s: Shell, num: nat, background: bool)
    requires Inv(s) && Enabled(s, Resume(num, background))
    ensures Inv(Apply(s, Resume(num, background)))
  {
    hide Numbered, OneOwner, Job.Has, Job.AnyRunning, Job.AllTerminated, InTable, Agreement, MarkRunning, SamePids;
    hide KernelOk;
    ResumeAgrees(s, num, background);
    var t := Apply(s, Resume(num, background));
    if num in s.jobs {
      MarkKeeps(s.jobs[num]);
      ReplaceKeeps(s.jobs, s.counter, num, MarkRunning(s.jobs[num]));
      SamePgid(s.jobs[num], MarkRunning(s.jobs[num]));
    }
    SameKernel(s, t);
  }

  lemma SamePgid(a: Job, b: Job)
    requires SamePids(a, b)
    ensures a.pgid == b.pgid
  {
  }

  lemma ContAgrees(s: Shell)
    requires Inv(s) && Enabled(s, SendCont)
    ensures Agreement(Apply(s, SendCont))
  {
    hide Numbered, Alive, OneOwner, OneForeground, AllListed, BuildingOk, PcOk, KernelOk, Job.Has;
    var t := Apply(s, SendCont);
    forall n, i | n in t.jobs && 0 <= i < |t.jobs[n].processes| ensures Agrees(t, n, t.jobs[n].processes[i]) {
      var p := s.jobs[n].processes[i];
      assert Agrees(s, n, p);
      ListedIsInTable(s.jobs, n, i);
      if n == s.pc.num {
        assert p.pid in s.kernel && s.kernel[p.pid] == Stopped ==> p.pid in Woken(s, s.jobs[n]);
      }
    }
  }

  lemma ContKernel(s: Shell)
    requires KernelOk(s) && Enabled(s, SendCont) && !s.inHandler
    ensures KernelOk(Apply(s, SendCont))
  {
    hide Job.Has;
    var t := Apply(s, SendCont);
    var woken := Woken(s, s.jobs[s.pc.num]);
    assert forall pid :: pid in woken ==> pid in s.kernel;
    assert woken != {} ==> t.pending;
  }

  lemma ContKept(s: Shell)
    requires Inv(s) && Enabled(s, SendCont)
    ensures Inv(Apply(s, SendCont))
  {
    hide Numbered, OneOwner, Job.Has, Job.AnyRunning, Job.AllTerminated, InTable, Agreement, KernelOk, Woken;
    ContAgrees(s);
    ContKernel(s);
    var t := Apply(s, SendCont);
    var num := s.pc.num;
    var job := s.jobs[num];
    var next := job.(foreground := !s.pc.background);
    ReplaceKeeps(s.jobs, s.counter, num, next);
    ForegroundOnly(job, next);
    forall n | n in s.jobs && s.jobs[n].pgid == job.pgid ensures n == num {
      GroupIsUnique(s.jobs, s.counter, n, num);
    }
  }

  lemma ForegroundOnly(a: Job, b: Job)
    requires a.processes == b.processes
    ensures (a.AllTerminated() <==> b.AllTerminated()) && (a.AnyRunning() <==> b.AnyRunning())
  {
  }

  // ------------------------------------------------------------ waiting

  lemma BlockKept(s: Shell)
    requires Inv(s) && Enabled(s, BlockForWait)
    ensures Inv(Apply(s, BlockForWait))
  {
    hide Numbered, OneOwner, Alive, Job.Has, Job.AnyRunning, InTable, KernelOk;
    SameKernel(s, Apply(s, BlockForWait));
  }

  lemma InterruptKept(s: Shell)
    requires Inv(s) && Enabled(s, Interrupted)
    ensures Inv(Apply(s, Interrupted))
  {
    hide Numbered, OneOwner, Alive, Job.Has, Job.AnyRunning, InTable, KernelOk;
    SameKernel(s, Apply(s, Interrupted));
  }

  lemma ResetKept(s: Shell)
    requires Inv(s) && Enabled(s, ResetCounter)
    ensures Inv(Apply(s, ResetCounter))
  {
    hide OneOwner, Alive, Job.Has, Job.AnyRunning, InTable, KernelOk;
    SameKernel(s, Apply(s, ResetCounter));
  }

  // Leaving the wait loop: a listed job that is not running has stopped.
  lemma CheckDemotes(s: Shell)
    requires Inv(s) && Enabled(s, CheckForeground)
    ensures var n := JobByPgid(s.jobs, s.counter, s.pc.pgid);
      n in s.jobs && !s.jobs[n].AnyRunning() ==> s.jobs[n].AllStopped()
  {
  }

  lemma CheckKept(s: Shell)
    requires Inv(s) && Enabled(s, CheckForeground)
    ensures Inv(Apply(s, CheckForeground))
  {
    hide Numbered, OneOwner, Job.Has, Job.AnyRunning, Job.AllTerminated, InTable, KernelOk, JobByPgid, SamePids;
    var t := Apply(s, CheckForeground);
    var n := JobByPgid(s.jobs, s.counter, s.pc.pgid);
    FindsGroup(s.jobs, s.counter, s.pc.pgid);
    CheckDemotes(s);
    SameKernel(s, t);
    if n in s.jobs {
      var next := s.jobs[n].(foreground := false);
      ForegroundOnly(s.jobs[n], next);
      JustForeground(s.jobs[n]);
      ReplaceKeeps(s.jobs, s.counter, n, next);
      if s.jobs[n].AnyRunning() {
        assert t.jobs == s.jobs;
      } else {
        assert t.jobs == s.jobs[n := next];
      }
    }
    assert AllListed(t);
    assert OneForeground(t);
    assert TableOk(t.jobs, t.counter);
    assert Alive(t.jobs);
    assert PcOk(t);
  }

  lemma JustForeground(job: Job)
    ensures SamePids(job, job.(foreground := false))
  {
  }

  // ------------------------------------------------------------ children and the handler

  lemma ChangeKept(s: Shell, pid: nat, state: ProcState)
    requires Inv(s) && Enabled(s, Change(pid, state))
    ensures Inv(Apply(s, Change(pid, state)))
  {
    hide Numbered, OneOwner, Alive, Job.Has, Job.AnyRunning, InTable;
  }

  lemma EnterKept(s: Shell)
    requires Inv(s) && Enabled(s, EnterHandler)
    ensures Inv(Apply(s, EnterHandler))
  {
    hide Numbered, OneOwner, Alive, Job.Has, Job.AnyRunning, InTable;
  }

  lemma LeaveKept(s: Shell)
    requires Inv(s) && Enabled(s, LeaveHandler)
    ensures Inv(Apply(s, LeaveHandler))
  {
    hide Numbered, OneOwner, Alive, Job.Has, Job.AnyRunning, InTable;
  }

  lemma SetStateIs(job: Job, pid: nat, state: ProcState)
    ensures SamePids(job, SetState(job, pid, state)) && SetState(job, pid, state).foreground == job.foreground
  {
  }

  // The handler always finds the process: no child is reported before it is listed.
  lemma ReapFinds(s: Shell, pid: nat) returns (n: nat)
    requires Inv(s) && Enabled(s, Reap(pid))
    ensures n in s.jobs && s.jobs[n].Has(pid) && JobWithProcess(s.jobs, s.counter, pid) == n
  {
    hide Job.Has, Numbered, OneOwner, Agreement, Alive, KernelOk, JobWithProcess;
    n :| n in s.jobs && s.jobs[n].Has(pid);
    FindsOwner(s.jobs, s.counter, pid, n);
  }

  lemma ReapAgrees(s: Shell, pid: nat, n: nat)
    requires Inv(s) && Enabled(s, Reap(pid)) && n in s.jobs && s.jobs[n].Has(pid)
    requires JobWithProcess(s.jobs, s.counter, pid) == n
    ensures Agreement(Apply(s, Reap(pid)))
  {
    hide Numbered, Alive, OneForeground, AllListed, BuildingOk, KernelOk, JobWithProcess, Job.AllTerminated;
    hide Job.AnyRunning;
    var t := Apply(s, Reap(pid));
    forall m, i | m in t.jobs && 0 <= i < |t.jobs[m].processes| ensures Agrees(t, m, t.jobs[m].processes[i]) {
      assert Agrees(s, m, s.jobs[m].processes[i]);
      if m != n {
        ListedIsInTable(s.jobs, m, i);
        assert s.jobs[m].processes[i].pid != pid;
      }
    }
  }

  // A job with a child that the kernel still knows afterwards stays listed.
  lemma Survivor(s: Shell, pid: nat, n: nat, q: nat)
    requires Agreement(s) && n in s.jobs && s.jobs[n].Has(q) && q in s.kernel && pid in s.kernel
    requires q == pid ==> s.kernel[pid] != Terminated
    ensures var job := SetState(s.jobs[n], pid, s.kernel[pid]); !job.AllTerminated() && job.Has(q)
  {
    var job := SetState(s.jobs[n], pid, s.kernel[pid]);
    var i :| 0 <= i < |s.jobs[n].processes| && s.jobs[n].processes[i].pid == q;
    assert Agrees(s, n, s.jobs[n].processes[i]);
    assert job.processes[i].pid == q && job.processes[i].state != Terminated;
  }

  lemma ReapLists(s: Shell, pid: nat, n: nat)
    requires Inv(s) && Enabled(s, Reap(pid)) && n in s.jobs && s.jobs[n].Has(pid)
    requires JobWithProcess(s.jobs, s.counter, pid) == n
    ensures AllListed(Apply(s, Reap(pid)))
  {
    hide Numbered, Alive, OneForeground, BuildingOk, JobWithProcess, OneOwner, SetState, Agreement,
      Job.Has, Job.AllTerminated, Job.AnyRunning, KernelOk;
    var t := Apply(s, Reap(pid));
    forall q | q in t.kernel ensures exists m :: m in t.jobs && t.jobs[m].Has(q) {
      var m :| m in s.jobs && s.jobs[m].Has(q);
      if m == n {
        Survivor(s, pid, n, q);
      }
      assert t.jobs[m].Has(q);
    }
  }

  lemma ReapKept(s: Shell, pid: nat)
    requires Inv(s) && Enabled(s, Reap(pid))
    ensures Inv(Apply(s, Reap(pid)))
  {
    hide Numbered, OneOwner, Agreement, AllListed, Job.Has, Job.AnyRunning, Job.AllTerminated, InTable;
    hide JobWithProcess, SamePids, SetState;
    var n := ReapFinds(s, pid);
    ReapAgrees(s, pid, n);
    ReapLists(s, pid, n);
    var job := SetState(s.jobs[n], pid, s.kernel[pid]);
    SetStateIs(s.jobs[n], pid, s.kernel[pid]);
    SamePgid(s.jobs[n], job);
    ReplaceKeeps(s.jobs, s.counter, n, job);
    RemoveKeeps(s.jobs, s.counter, n);
  }

  /** Every step keeps the invariant. */
  lemma StepKept(s: Shell, e: Event)
    requires Inv(s) && Enabled(s, e)
    ensures Inv(Apply(s, e))
  {
    match e
    case StartPipeline(_, _) => StartKept(s, e);
    case ForkOne(pid) => ForkKept(s, pid);
    case FinishPipeline => FinishKept(s);
    case Resume(num, background) => ResumeKept(s, num, background);
    case SendCont => ContKept(s);
    case BlockForWait => BlockKept(s);
    case CheckForeground => CheckKept(s);
    case ResetCounter => ResetKept(s);
    case Change(pid, state) => ChangeKept(s, pid, state);
    case EnterHandler => EnterKept(s);
    case Reap(pid) => ReapKept(s, pid);
    case LeaveHandler => LeaveKept(s);
    case Interrupted => InterruptKept(s);
  }

  lemma InitKept()
    ensures Inv(Init())
  {
  }
}
