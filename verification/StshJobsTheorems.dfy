/**
  What the job-control invariant gives: over every run of commands, signals and child events.
 */
module StshJobsTheorems {
  import opened StshJobs
  import opened StshJobsInvariant

  predicate Run(s: Shell, events: seq<Event>)
    decreases |events|
  {
    events == [] || (Enabled(s, events[0]) && Run(Apply(s, events[0]), events[1..]))
  }

  function After(s: Shell, events: seq<Event>): Shell
    requires Run(s, events)
    decreases |events|
  {
    if events == [] then s else After(Apply(s, events[0]), events[1..])
  }

  lemma {:induction false} RunKeeps(s: Shell, events: seq<Event>)
    requires Inv(s) && Run(s, events)
    ensures Inv(After(s, events))
    decreases |events|
  {
    hide Inv, Apply, Enabled;
    if events != [] {
      StepKept(s, events[0]);
      RunKeeps(Apply(s, events[0]), events[1..]);
    }
  }

  /** In every run: live jobs, unique numbers within the counter, at most one foreground job, none at the prompt. */
  lemma JobTableOfRuns(events: seq<Event>)
    requires Run(Init(), events)
    ensures var s := After(Init(), events);
      && (forall n :: n in s.jobs ==> !s.jobs[n].AllTerminated() && s.jobs[n].num == n && 0 < n <= s.counter)
      && (forall n, m :: n in s.jobs && m in s.jobs && s.jobs[n].foreground && s.jobs[m].foreground ==> n == m)
      && (s.pc.Prompt? ==> s.fgPgid == 0 && forall n :: n in s.jobs ==> !s.jobs[n].foreground)
  {
    hide Enabled, Apply, Run, After;
    InitKept();
    RunKeeps(Init(), events);
    OneForegroundJob(After(Init(), events));
  }

  lemma OneForegroundJob(s: Shell)
    requires Inv(s)
    ensures forall n, m :: n in s.jobs && m in s.jobs && s.jobs[n].foreground && s.jobs[m].foreground ==> n == m
  {
    hide Numbered, OneOwner, Alive, Agreement, AllListed, BuildingOk, PcOk, KernelOk;
    forall n, m | n in s.jobs && m in s.jobs && s.jobs[n].foreground && s.jobs[m].foreground ensures n == m {
      GroupIsUnique(s.jobs, s.counter, n, m);
    }
  }

  /**
    A listed process without an unreported change is recorded as what it is. The only exception is
    the moment between markGroupRunning and the SIGCONT that makes it true.
   */
  lemma RecordsAreTrue(events: seq<Event>, n: nat, i: nat)
    requires Run(Init(), events)
    requires var s := After(Init(), events);
      n in s.jobs && i < |s.jobs[n].processes| && s.jobs[n].processes[i].pid !in s.dirty && !s.pc.Continuing?
    ensures var s := After(Init(), events);
      var p := s.jobs[n].processes[i];
      if p.pid in s.kernel then p.state == s.kernel[p.pid] else p.state == Terminated
  {
    hide Enabled, Apply, Run, After;
    InitKept();
    RunKeeps(Init(), events);
    var s := After(Init(), events);
    assert Agrees(s, n, s.jobs[n].processes[i]);
  }

  /** Once the handler has drained the queue no zombie is left, and every child is listed in its true state. */
  lemma DrainedTableIsTrue(s: Shell, pid: nat)
    requires Inv(s) && s.dirty == {} && !s.pc.Continuing? && !s.pc.Building? && pid in s.kernel
    ensures s.kernel[pid] != Terminated
    ensures exists n :: n in s.jobs && Process(pid, s.kernel[pid]) in s.jobs[n].processes
  {
    hide Numbered, OneOwner, Alive;
    var n :| n in s.jobs && s.jobs[n].Has(pid);
    var i :| 0 <= i < |s.jobs[n].processes| && s.jobs[n].processes[i].pid == pid;
    assert Agrees(s, n, s.jobs[n].processes[i]);
    assert s.jobs[n].processes[i] == Process(pid, s.kernel[pid]);
  }

  // ------------------------------------------------------------ the foreground wait

  predicate Waits(s: Shell) {
    s.pc.BeforeWait? || s.pc.Waiting? || s.pc.Suspended?
  }

  // No child of the awaited job is running.
  predicate Quiet(s: Shell) {
    Waits(s) ==>
    forall n, pid :: n in s.jobs && s.jobs[n].pgid == s.pc.pgid && pid in s.kernel && s.jobs[n].Has(pid) ==>
      s.kernel[pid] != Running
  }

  /** The suspended shell is always woken: when its job has stopped or died, SIGCHLD is pending. */
  lemma NoLostWakeUp(s: Shell)
    requires Inv(s) && s.pc.Suspended? && !s.inHandler && Quiet(s)
    ensures Enabled(s, EnterHandler)
  {
    hide Numbered, OneOwner, Alive, AllListed, OneForeground;
    var n :| n in s.jobs && s.jobs[n].pgid == s.pc.pgid && s.jobs[n].AnyRunning();
    var i :| 0 <= i < |s.jobs[n].processes| && s.jobs[n].processes[i].state == Running;
    assert Agrees(s, n, s.jobs[n].processes[i]);
    ListedIsInTable(s.jobs, n, i);
  }

  predicate ShellStep(e: Event) {
    e.BlockForWait? || e.CheckForeground? || e.ResetCounter? || e.EnterHandler? || e.Reap? || e.LeaveHandler?
  }

  function Rank(pc: Pc): nat {
    match pc
    case BeforeWait(_) => 3
    case Waiting(_) => 2
    case Suspended(_) => 1
    case Resetting => 1
    case _ => 0
  }

  function Work(s: Shell): nat {
    8 * |s.dirty| + (if s.pending then 8 else 0) + (if s.inHandler then 4 else 0) + Rank(s.pc)
  }

  lemma ReapWork(dirty: set<nat>, pid: nat)
    requires pid in dirty
    ensures |dirty - {pid}| == |dirty| - 1
  {
  }

  /** Every step of the shell or its handler leaves less to do. */
  lemma WorkFalls(s: Shell, e: Event)
    requires Enabled(s, e) && ShellStep(e)
    ensures Work(Apply(s, e)) < Work(s)
  {
    if e.Reap? {
      ReapWork(s.dirty, e.pid);
      ReapFalls(s, e.pid);
    } else {
      OtherFalls(s, e);
    }
  }

  lemma ReapFalls(s: Shell, pid: nat)
    requires Enabled(s, Reap(pid)) && |s.dirty - {pid}| == |s.dirty| - 1
    ensures Work(Apply(s, Reap(pid))) < Work(s)
  {
    hide Reported;
  }

  lemma OtherFalls(s: Shell, e: Event)
    requires Enabled(s, e) && ShellStep(e) && !e.Reap?
    ensures Work(Apply(s, e)) < Work(s)
  {
    hide Reported, JobByPgid, Job.AnyRunning, Job.AllTerminated, Job.AllStopped, InTable, Started, MarkRunning, Woken;
    match e
    case BlockForWait =>
    case CheckForeground =>
    case ResetCounter =>
    case EnterHandler =>
    case LeaveHandler =>
  }

  // The step the shell can take while it waits.
  lemma CanStep(s: Shell) returns (e: Event)
    requires Inv(s) && Quiet(s) && (Waits(s) || s.pc.Resetting? || s.inHandler)
    ensures ShellStep(e) && Enabled(s, e)
  {
    hide Numbered, OneOwner, Alive, AllListed, OneForeground, Agreement, Quiet;
    if s.inHandler {
      if s.dirty == {} {
        e := LeaveHandler;
      } else {
        var pid :| pid in s.dirty;
        e := Reap(pid);
      }
    } else {
      match s.pc
      case BeforeWait(_) => e := BlockForWait;
      case Waiting(_) => e := CheckForeground;
      case Suspended(_) =>
        NoLostWakeUp(s);
        e := EnterHandler;
      case Resetting => e := ResetCounter;
    }
  }

  lemma ReportKeepsHas(jobs: Jobs, counter: nat, pid: nat, state: ProcState, n: nat, q: nat)
    requires n in Reported(jobs, counter, pid, state)
    ensures n in jobs && Reported(jobs, counter, pid, state)[n].pgid == jobs[n].pgid
    ensures Reported(jobs, counter, pid, state)[n].Has(q) ==> jobs[n].Has(q)
  {
    hide JobWithProcess, Job.AllTerminated, SetState, Job.Has, SamePids;
    var m := JobWithProcess(jobs, counter, pid);
    if m == n && m in jobs {
      SetStateIs(jobs[m], pid, state);
      SamePgid(jobs[m], SetState(jobs[m], pid, state));
      SameHas(jobs[m], SetState(jobs[m], pid, state));
    }
  }

  // No step of the shell makes a child of the awaited job run.
  lemma QuietKept(s: Shell, e: Event)
    requires Inv(s) && Quiet(s) && Enabled(s, e) && ShellStep(e)
    ensures Quiet(Apply(s, e))
  {
    hide Inv, Reported, JobByPgid, Job.Has, Job.AnyRunning, Job.AllTerminated;
    var t := Apply(s, e);
    if Waits(t) {
      forall n, pid | n in t.jobs && t.jobs[n].pgid == t.pc.pgid && pid in t.kernel && t.jobs[n].Has(pid)
        ensures t.kernel[pid] != Running
      {
        if e.Reap? {
          ReportKeepsHas(s.jobs, s.counter, e.pid, s.kernel[e.pid], n, pid);
        }
        assert n in s.jobs && s.jobs[n].pgid == s.pc.pgid && s.jobs[n].Has(pid);
      }
    }
  }

  predicate ShellSteps(events: seq<Event>) {
    forall i :: 0 <= i < |events| ==> ShellStep(events[i])
  }

  predicate InWait(s: Shell) {
    Waits(s) || s.pc.Resetting? || s.pc.Prompt?
  }

  /**
    A foreground wait ends: once no child of the job runs, the shell's own steps and its handler's
    lead to the prompt.
   */
  lemma {:induction false} ForegroundReturns(s: Shell) returns (events: seq<Event>)
    requires Inv(s) && Quiet(s) && InWait(s)
    ensures ShellSteps(events) && Run(s, events)
    ensures After(s, events).pc.Prompt? && !After(s, events).inHandler
    decreases Work(s)
  {
    hide Inv, Quiet, Enabled, Apply, Work;
    if s.pc.Prompt? && !s.inHandler {
      events := [];
    } else {
      var e := CanStep(s);
      StepKept(s, e);
      QuietKept(s, e);
      WorkFalls(s, e);
      StaysInWait(s, e);
      var rest := ForegroundReturns(Apply(s, e));
      events := [e] + rest;
    }
  }

  lemma StaysInWait(s: Shell, e: Event)
    requires InWait(s) && Enabled(s, e) && ShellStep(e)
    ensures InWait(Apply(s, e))
  {
  }

  /** And no run of such steps is longer than the work there was. */
  lemma {:induction false} WaitIsBounded(s: Shell, events: seq<Event>)
    requires Inv(s) && Run(s, events) && ShellSteps(events)
    ensures |events| <= Work(s)
    decreases |events|
  {
    hide Inv, Enabled, Apply, Work;
    if events != [] {
      StepKept(s, events[0]);
      WorkFalls(s, events[0]);
      assert forall i :: 0 <= i < |events| - 1 ==> events[1..][i] == events[i + 1];
      WaitIsBounded(Apply(s, events[0]), events[1..]);
    }
  }

  // ------------------------------------------------------------ what the commands do

  // Only the states of the processes may differ.
  predicate SameJobBut(a: Job, b: Job) {
    b.num == a.num && b.pgid == a.pgid && b.foreground == a.foreground && |b.processes| == |a.processes|
  }

  /** fg and bg record every stopped process of the job as running, and nothing else changes. */
  lemma ResumeRecords(s: Shell, n: nat, background: bool)
    requires Inv(s) && Enabled(s, Resume(n, background)) && n in s.jobs
    ensures var t := Apply(s, Resume(n, background));
      && t.jobs.Keys == s.jobs.Keys && (forall m :: m in s.jobs && m != n ==> t.jobs[m] == s.jobs[m])
      && SameJobBut(s.jobs[n], t.jobs[n])
      && (forall i :: 0 <= i < |s.jobs[n].processes| ==>
        var p, q := s.jobs[n].processes[i], t.jobs[n].processes[i];
        q.pid == p.pid && q.state != Stopped && (if p.state == Stopped then q.state == Running else q.state == p.state))
      && t == s.(jobs := t.jobs, pc := Continuing(n, background))
  {
    hide Inv;
  }

  // A job that has not ended has a process recorded as running once none is recorded as stopped.
  lemma NoneStopped(job: Job)
    requires !job.AllTerminated() && forall i :: 0 <= i < |job.processes| ==> job.processes[i].state != Stopped
    ensures job.AnyRunning()
  {
  }

  lemma MarkedRuns(s: Shell, n: nat, background: bool)
    requires Inv(s) && Enabled(s, Resume(n, background)) && n in s.jobs
    ensures var t := Apply(s, Resume(n, background)); n in t.jobs && t.jobs[n].AnyRunning()
  {
    ResumeRecords(s, n, background);
    ResumeKept(s, n, background);
    hide Numbered, OneOwner, OneForeground, Agreement, AllListed, BuildingOk, PcOk, KernelOk, Apply;
    NoneStopped(Apply(s, Resume(n, background)).jobs[n]);
  }

  /** SIGCONT leaves no process of the job stopped, and the job is in the foreground for fg only. */
  lemma ContinuedJob(s: Shell)
    requires Inv(s) && Enabled(s, SendCont)
    ensures var n, t := s.pc.num, Apply(s, SendCont);
      && t.jobs.Keys == s.jobs.Keys && (forall m :: m in s.jobs && m != n ==> t.jobs[m] == s.jobs[m])
      && t.jobs[n].processes == s.jobs[n].processes && t.jobs[n].pgid == s.jobs[n].pgid
      && (t.jobs[n].foreground <==> !s.pc.background)
      && t.pc == (if s.pc.background then Prompt else BeforeWait(s.jobs[n].pgid))
      && (forall i :: 0 <= i < |s.jobs[n].processes| ==>
        var pid := s.jobs[n].processes[i].pid;
        (pid in t.kernel <==> pid in s.kernel) && (pid in t.kernel ==> t.kernel[pid] != Stopped))
      && (forall pid :: pid in s.kernel && s.kernel[pid] != Stopped ==>
        pid in t.kernel && t.kernel[pid] == s.kernel[pid])
  {
    hide Inv;
    var n, t := s.pc.num, Apply(s, SendCont);
    forall i | 0 <= i < |s.jobs[n].processes|
      ensures var pid := s.jobs[n].processes[i].pid; pid in t.kernel ==> t.kernel[pid] != Stopped
    {
      ListedIsInTable(s.jobs, n, i);
    }
  }

  predicate RecordedRunning(s: Shell, pgid: nat) {
    exists n, i :: n in s.jobs && s.jobs[n].pgid == pgid && 0 <= i < |s.jobs[n].processes| &&
      s.jobs[n].processes[i].state == Running
  }

  /**
    The test of the wait loop: the shell suspends if and only if some process of the awaited job is
    recorded as running; otherwise the job, if it is still listed, goes to the background.
   */
  lemma WaitTest(s: Shell)
    requires Inv(s) && Enabled(s, CheckForeground)
    ensures var t := Apply(s, CheckForeground);
      if RecordedRunning(s, s.pc.pgid) then t == s.(pc := Suspended(s.pc.pgid))
      else
        && t.pc == Resetting && t.fgPgid == 0 && t.jobs.Keys == s.jobs.Keys
        && forall n :: n in s.jobs ==> t.jobs[n] == s.jobs[n].(foreground := false)
  {
    hide RecordedRunning, Job.AnyRunning, Job.AllTerminated, Inv, JobByPgid;
    Awaited(s);
    CheckDemotes(s);
    OthersBehind(s);
    var n, t := JobByPgid(s.jobs, s.counter, s.pc.pgid), Apply(s, CheckForeground);
    if n in s.jobs && s.jobs[n].AnyRunning() {
      assert t == s.(pc := Suspended(s.pc.pgid));
    } else if n in s.jobs {
      assert t.jobs == s.jobs[n := s.jobs[n].(foreground := false)];
    } else {
      assert t.jobs == s.jobs;
    }
  }

  // The awaited job is the one the wait loop looks up.
  lemma Awaited(s: Shell)
    requires Inv(s) && s.pc.Waiting?
    ensures var n := JobByPgid(s.jobs, s.counter, s.pc.pgid);
      && (RecordedRunning(s, s.pc.pgid) <==> n in s.jobs && s.jobs[n].AnyRunning())
      && (forall m :: m in s.jobs && s.jobs[m].pgid == s.pc.pgid ==> m == n)
  {
    FindsGroup(s.jobs, s.counter, s.pc.pgid);
    hide Numbered, Alive, OneOwner, OneForeground, Agreement, AllListed, BuildingOk, PcOk, KernelOk, JobByPgid;
  }

  lemma OthersBehind(s: Shell)
    requires Inv(s) && s.pc.Waiting?
    ensures forall m :: m in s.jobs && s.jobs[m].pgid != s.pc.pgid ==> s.jobs[m] == s.jobs[m].(foreground := false)
  {
    hide Numbered, Alive, OneOwner, Agreement, AllListed, BuildingOk, PcOk, KernelOk;
  }

  lemma RunOfOne(s: Shell, e: Event, rest: seq<Event>)
    requires Enabled(s, e) && Run(Apply(s, e), rest)
    ensures Run(s, [e] + rest) && After(s, [e] + rest) == After(Apply(s, e), rest)
  {
    hide Enabled, Apply;
    assert ([e] + rest)[1..] == rest;
  }

  lemma ForegroundIsAwaited(s: Shell, n: nat)
    requires Inv(s) && s.pc.BeforeWait? && n in s.jobs && s.jobs[n].pgid == s.pc.pgid
    ensures s.jobs[n].foreground && s.fgPgid == s.pc.pgid
  {
    hide Numbered, Alive, OneOwner, Agreement, AllListed, BuildingOk, PcOk, KernelOk;
  }

  lemma RunsInGroup(s: Shell, n: nat)
    requires n in s.jobs && s.jobs[n].AnyRunning()
    ensures RecordedRunning(s, s.jobs[n].pgid)
  {
  }

  // From the return of the kill to the suspended wait.
  lemma FromBeforeWait(s: Shell, n: nat)
    requires Inv(s) && s.pc.BeforeWait? && !s.inHandler && n in s.jobs && s.jobs[n].pgid == s.pc.pgid
    requires s.jobs[n].AnyRunning()
    ensures Run(s, [BlockForWait, CheckForeground])
    ensures After(s, [BlockForWait, CheckForeground]) == s.(pc := Suspended(s.pc.pgid))
    ensures s.jobs[n].foreground && s.fgPgid == s.pc.pgid
  {
    hide Inv, Job.AnyRunning, RecordedRunning, JobByPgid, Job.AllTerminated;
    ForegroundIsAwaited(s, n);
    BlockKept(s);
    var s1 := s.(pc := Waiting(s.pc.pgid));
    assert Enabled(s, BlockForWait) && Apply(s, BlockForWait) == s1;
    RunsInGroup(s1, n);
    WaitTest(s1);
    assert Enabled(s1, CheckForeground);
    hide Apply, Enabled;
    TwoSteps(s, BlockForWait, CheckForeground);
  }

  lemma TwoSteps(s: Shell, e: Event, f: Event)
    requires Enabled(s, e) && Enabled(Apply(s, e), f)
    ensures Run(s, [e, f]) && After(s, [e, f]) == Apply(Apply(s, e), f)
  {
    hide Apply, Enabled;
    var s1 := Apply(s, e);
    assert Run(Apply(s1, f), []);
    RunOfOne(s1, f, []);
    assert [f] + [] == [f] && [e] + [f] == [e, f];
    RunOfOne(s, e, [f]);
  }

  /** fg on a listed job: unless a report comes first, the shell suspends until the job stops or ends. */
  lemma ForegroundSuspends(s: Shell, n: nat)
    requires Inv(s) && Enabled(s, Resume(n, false)) && n in s.jobs
    ensures var events := [Resume(n, false), SendCont, BlockForWait, CheckForeground];
      Run(s, events) && var t := After(s, events);
      t.pc == Suspended(s.jobs[n].pgid) && t.fgPgid == s.jobs[n].pgid && n in t.jobs && t.jobs[n].foreground
  {
    hide Inv, Run, After, Enabled, Apply, Job.AnyRunning;
    var s1 := Resumed(s, n, false);
    var s2 := Apply(s1, SendCont);
    FromBeforeWait(s2, n);
    RunOfOne(s1, SendCont, [BlockForWait, CheckForeground]);
    RunOfOne(s, Resume(n, false), [SendCont] + [BlockForWait, CheckForeground]);
    assert [Resume(n, false)] + ([SendCont] + [BlockForWait, CheckForeground]) ==
      [Resume(n, false), SendCont, BlockForWait, CheckForeground];
  }

  // The state between marking and SIGCONT, and what SIGCONT makes of it.
  lemma Resumed(s: Shell, n: nat, background: bool) returns (s1: Shell)
    requires Inv(s) && Enabled(s, Resume(n, background)) && n in s.jobs
    ensures s1 == Apply(s, Resume(n, background)) && Enabled(s1, SendCont)
    ensures var t := Apply(s1, SendCont);
      && Inv(t) && n in t.jobs && t.jobs[n].pgid == s.jobs[n].pgid && t.jobs[n].AnyRunning()
      && (t.jobs[n].foreground <==> !background)
      && t.pc == (if background then Prompt else BeforeWait(s.jobs[n].pgid)) && !t.inHandler
  {
    s1 := Apply(s, Resume(n, background));
    ResumeRecords(s, n, background);
    ResumeKept(s, n, background);
    MarkedRuns(s, n, background);
    hide Inv, Job.AnyRunning, Job.AllTerminated;
    assert Enabled(s1, SendCont);
    NotInHandler(s1);
    hide Apply, Enabled;
    ContinuedJob(s1);
    ContKept(s1);
    ForegroundOnly(s1.jobs[n], Apply(s1, SendCont).jobs[n]);
  }

  lemma NotInHandler(s: Shell)
    requires Enabled(s, SendCont)
    ensures !Apply(s, SendCont).inHandler
  {
  }

  /** bg on a listed job: the shell is back at its prompt and the job in the background. */
  lemma BackgroundReturns(s: Shell, n: nat)
    requires Inv(s) && Enabled(s, Resume(n, true)) && n in s.jobs
    ensures var events := [Resume(n, true), SendCont];
      Run(s, events) && var t := After(s, events);
      t.pc == Prompt && t.fgPgid == 0 && n in t.jobs && !t.jobs[n].foreground && t.jobs[n].AnyRunning()
  {
    hide Run, After, Enabled, Apply, Job.AnyRunning, Inv;
    var s1 := Resumed(s, n, true);
    NothingAwaited(Apply(s1, SendCont));
    TwoSteps(s, Resume(n, true), SendCont);
  }

  lemma NothingAwaited(s: Shell)
    requires Inv(s) && (s.pc.Prompt? || s.pc.Building?)
    ensures s.fgPgid == 0
  {
    hide Numbered, Alive, OneOwner, Agreement, AllListed, BuildingOk, PcOk, KernelOk;
  }

  /**
    A pipeline gets the next number, its first process leads the group, all its processes run; with &
    the shell is back at the prompt.
   */
  lemma LaunchedJob(s: Shell)
    requires Inv(s) && Enabled(s, FinishPipeline)
    ensures var t, n, pids := Apply(s, FinishPipeline), s.counter + 1, s.pc.pids;
      && t.counter == n && n !in s.jobs && n in t.jobs && t.jobs == s.jobs[n := t.jobs[n]]
      && t.jobs[n].num == n && t.jobs[n].pgid == pids[0] && |t.jobs[n].processes| == |pids|
      && (forall i :: 0 <= i < |pids| ==> t.jobs[n].processes[i] == Process(pids[i], Running))
      && (t.jobs[n].foreground <==> !s.pc.background)
      && t.pc == (if s.pc.background then Prompt else BeforeWait(pids[0]))
      && t.fgPgid == (if s.pc.background then 0 else pids[0])
  {
    NothingAwaited(s);
    NewNumber(s);
    hide Inv;
  }

  lemma FirstRuns(job: Job)
    requires job.processes != [] && job.processes[0].state == Running
    ensures job.AnyRunning()
  {
  }

  /** A pipeline without &: unless a report comes first, the shell suspends until it stops or ends. */
  lemma PipelineSuspends(s: Shell)
    requires Inv(s) && Enabled(s, FinishPipeline) && !s.pc.background
    ensures var events := [FinishPipeline, BlockForWait, CheckForeground];
      Run(s, events) && After(s, events).pc == Suspended(s.pc.pids[0])
  {
    hide Inv, Run, After;
    var t := Apply(s, FinishPipeline);
    assert !t.inHandler && s.pc.pids != [];
    LaunchedJob(s);
    FinishKept(s);
    hide Enabled, Apply;
    FirstRuns(t.jobs[s.counter + 1]);
    FromBeforeWait(t, s.counter + 1);
    RunOfOne(s, FinishPipeline, [BlockForWait, CheckForeground]);
    assert [FinishPipeline] + [BlockForWait, CheckForeground] == [FinishPipeline, BlockForWait, CheckForeground];
  }

  lemma NewNumber(s: Shell)
    requires Inv(s)
    ensures s.counter + 1 !in s.jobs
  {
    hide Alive, OneOwner, OneForeground, Agreement, AllListed, BuildingOk, PcOk, KernelOk;
  }

  /** Once no job is listed at the end of a wait, numbering starts over at 1. */
  lemma NumbersStartOver(s: Shell)
    requires Inv(s) && Enabled(s, ResetCounter)
    ensures Apply(s, ResetCounter) == s.(pc := Prompt, counter := if s.jobs.Keys == {} then 0 else s.counter)
  {
    hide Inv;
  }
}
