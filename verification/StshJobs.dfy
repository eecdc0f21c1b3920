/**
  The shell's job control as a step machine: the REPL, the SIGCHLD handler that may run wherever
  the signal is not blocked, and children that stop, continue and die at any moment.
 */
module StshJobs {

  datatype ProcState = Running | Stopped | Terminated

  datatype Process = Process(pid: nat, state: ProcState)

  datatype Job = Job(num: nat, pgid: nat, foreground: bool, processes: seq<Process>) {
    predicate AllTerminated() {
      forall i :: 0 <= i < |processes| ==> processes[i].state == Terminated
    }

    predicate AnyRunning() {
      exists i :: 0 <= i < |processes| && processes[i].state == Running
    }

    predicate AllStopped() {
      !AnyRunning() && !AllTerminated()
    }

    predicate Has(pid: nat) {
      exists i :: 0 <= i < |processes| && processes[i].pid == pid
    }
  }

  type Jobs = map<nat, Job>

  // The first job in number order that satisfies f, or 0.
  function FirstJob(jobs: Jobs, f: Job -> bool, k: nat, limit: nat): (r: nat)
    requires k > 0
    ensures r == 0 || (k <= r <= limit && r in jobs && f(jobs[r]))
    ensures forall m :: k <= m <= limit && m in jobs && (r == 0 || m < r) ==> !f(jobs[m])
    decreases limit + 1 - k
  {
    if k > limit then 0 else if k in jobs && f(jobs[k]) then k else FirstJob(jobs, f, k + 1, limit)
  }

  function JobByPgid(jobs: Jobs, counter: nat, pgid: nat): nat {
    FirstJob(jobs, (j: Job) => j.pgid == pgid, 1, counter)
  }

  function JobWithProcess(jobs: Jobs, counter: nat, pid: nat): nat {
    FirstJob(jobs, (j: Job) => j.Has(pid), 1, counter)
  }

  function MapStates(ps: seq<Process>, f: Process -> ProcState): (r: seq<Process>)
    ensures |r| == |ps|
    ensures forall i :: 0 <= i < |ps| ==> r[i] == ps[i].(state := f(ps[i]))
  {
    seq(|ps|, i requires 0 <= i < |ps| => ps[i].(state := f(ps[i])))
  }

  // The handler's loop over the job's processes.
  function SetState(job: Job, pid: nat, state: ProcState): Job {
    job.(processes := MapStates(job.processes, (p: Process) => if p.pid == pid then state else p.state))
  }

  function MarkRunning(job: Job): Job {
    job.(processes := MapStates(job.processes, (p: Process) => if p.state == Stopped then Running else p.state))
  }

  // What the handler does with one report from waitpid.
  function Reported(jobs: Jobs, counter: nat, pid: nat, state: ProcState): Jobs {
    var n := JobWithProcess(jobs, counter, pid);
    if n !in jobs then jobs
    else
      var job := SetState(jobs[n], pid, state);
      if job.AllTerminated() then jobs - {n} else jobs[n := job]
  }

  // Where the shell is; SIGCHLD is blocked while building, continuing and waiting.
  datatype Pc =
    | Prompt
    | Building(pids: seq<nat>, n: nat, background: bool)
    | Continuing(num: nat, background: bool)
    | BeforeWait(pgid: nat)
    | Waiting(pgid: nat)
    | Suspended(pgid: nat)
    | Resetting

  datatype Shell = Shell(
    jobs: Jobs, counter: nat, fgPgid: nat, pc: Pc,
    inHandler: bool, pending: bool,              // in the handler; SIGCHLD pending
    kernel: map<nat, ProcState>, dirty: set<nat> // unreaped children; those with an unreported change
  )

  datatype Event =
    | StartPipeline(n: nat, background: bool)
    | ForkOne(pid: nat)
    | FinishPipeline
    | Resume(num: nat, background: bool)   // the bg and fg built-ins
    | SendCont
    | BlockForWait
    | CheckForeground
    | ResetCounter
    | Change(pid: nat, state: ProcState)   // a child stops, continues or dies
    | EnterHandler
    | Reap(pid: nat)
    | LeaveHandler
    | Interrupted                          // another signal wakes sigsuspend

  predicate Unblocked(pc: Pc) {
    pc.Prompt? || pc.BeforeWait? || pc.Suspended? || pc.Resetting?
  }

  predicate InTable(jobs: Jobs, pid: nat) {
    exists n :: n in jobs && (jobs[n].pgid == pid || jobs[n].Has(pid))
  }

  predicate Enabled(s: Shell, e: Event) {
    match e
    case StartPipeline(n, _) => !s.inHandler && s.pc.Prompt? && n > 0
    case ForkOne(pid) =>
      && !s.inHandler && s.pc.Building? && |s.pc.pids| < s.pc.n
      && pid > 0 && pid !in s.kernel && pid !in s.pc.pids && !InTable(s.jobs, pid)
    case FinishPipeline => !s.inHandler && s.pc.Building? && |s.pc.pids| == s.pc.n > 0
    case Resume(_, _) => !s.inHandler && s.pc.Prompt?
    case SendCont => !s.inHandler && s.pc.Continuing? && s.pc.num in s.jobs
    case BlockForWait => !s.inHandler && s.pc.BeforeWait?
    case CheckForeground => !s.inHandler && s.pc.Waiting?
    case ResetCounter => !s.inHandler && s.pc.Resetting?
    case Change(pid, state) =>
      && pid in s.kernel && s.kernel[pid] != Terminated && s.kernel[pid] != state
      && (state == Running ==> s.kernel[pid] == Stopped)
    case EnterHandler => !s.inHandler && Unblocked(s.pc) && s.pending
    case Reap(pid) => s.inHandler && pid in s.dirty && pid in s.kernel
    case LeaveHandler => s.inHandler && s.dirty == {}
    case Interrupted => !s.inHandler && s.pc.Suspended?
  }

  // Children of the job that SIGCONT wakes.
  function Woken(s: Shell, job: Job): set<nat> {
    set pid | pid in s.kernel && s.kernel[pid] == Stopped && job.Has(pid)
  }

  function Started(pids: seq<nat>): seq<Process> {
    seq(|pids|, i requires 0 <= i < |pids| => Process(pids[i], Running))
  }

  function Apply(s: Shell, e: Event): Shell
    requires Enabled(s, e)
  {
    match e
    case StartPipeline(n, background) => s.(pc := Building([], n, background))
    case ForkOne(pid) =>
      s.(pc := s.pc.(pids := s.pc.pids + [pid]), kernel := s.kernel[pid := Running])
    case FinishPipeline =>
      var num := s.counter + 1;
      var job := Job(num, s.pc.pids[0], !s.pc.background, Started(s.pc.pids));
      s.(jobs := s.jobs[num := job], counter := num,
        fgPgid := if s.pc.background then s.fgPgid else job.pgid,
        pc := if s.pc.background then Prompt else BeforeWait(job.pgid))
    case Resume(num, background) =>
      if num !in s.jobs then s
      else s.(jobs := s.jobs[num := MarkRunning(s.jobs[num])], pc := Continuing(num, background))
    case SendCont =>
      var job := s.jobs[s.pc.num];
      var woken := Woken(s, job);
      s.(jobs := s.jobs[s.pc.num := job.(foreground := !s.pc.background)],
        fgPgid := if s.pc.background then s.fgPgid else job.pgid,
        pc := if s.pc.background then Prompt else BeforeWait(job.pgid),
        kernel := map pid | pid in s.kernel :: if pid in woken then Running else s.kernel[pid],
        dirty := s.dirty + woken, pending := s.pending || woken != {})
    case BlockForWait => s.(pc := Waiting(s.pc.pgid))
    case CheckForeground =>
      var n := JobByPgid(s.jobs, s.counter, s.pc.pgid);
      if n in s.jobs && s.jobs[n].AnyRunning() then s.(pc := Suspended(s.pc.pgid))
      else
        s.(jobs :=
            if n in s.jobs && s.jobs[n].AllStopped() then s.jobs[n := s.jobs[n].(foreground := false)] else s.jobs,
          fgPgid := 0, pc := Resetting)
    case ResetCounter => s.(counter := if s.jobs == map[] then 0 else s.counter, pc := Prompt)
    case Change(pid, state) => s.(kernel := s.kernel[pid := state], dirty := s.dirty + {pid}, pending := true)
    case EnterHandler => s.(inHandler := true, pending := false)
    case Reap(pid) =>
      s.(jobs := Reported(s.jobs, s.counter, pid, s.kernel[pid]),
        kernel := if s.kernel[pid] == Terminated then s.kernel - {pid} else s.kernel,
        dirty := s.dirty - {pid})
    case LeaveHandler => s.(inHandler := false, pc := if s.pc.Suspended? then Waiting(s.pc.pgid) else s.pc)
    case Interrupted => s.(pc := Waiting(s.pc.pgid))
  }

  function Init(): Shell {
    Shell(map[], 0, 0, Prompt, false, false, map[], {})
  }

  // ------------------------------------------------------------ the invariant

  // Jobs are numbered by their keys, never above the counter, and led by their first process.
  predicate Numbered(jobs: Jobs, counter: nat) {
    forall n :: n in jobs ==>
      jobs[n].num == n && 0 < n <= counter && |jobs[n].processes| > 0 && jobs[n].pgid == jobs[n].processes[0].pid
  }

  predicate Alive(jobs: Jobs) {
    forall n :: n in jobs ==> !jobs[n].AllTerminated()
  }

  // No process is listed twice.
  ghost predicate OneOwner(jobs: Jobs) {
    && (forall n :: n in jobs ==> Distinct(jobs[n].processes))
    && (forall n, m, pid :: n in jobs && m in jobs && jobs[n].Has(pid) && jobs[m].Has(pid) ==> n == m)
  }

  predicate Distinct(ps: seq<Process>) {
    forall i, j :: 0 <= i < j < |ps| ==> ps[i].pid != ps[j].pid
  }

  predicate WaitsFor(pc: Pc, pgid: nat) {
    (pc.BeforeWait? || pc.Waiting? || pc.Suspended?) && pc.pgid == pgid
  }

  // A job is in the foreground exactly while the shell waits for it.
  predicate OneForeground(s: Shell) {
    && (forall n :: n in s.jobs ==> (s.jobs[n].foreground <==> WaitsFor(s.pc, s.jobs[n].pgid)))
    && s.fgPgid == (if s.pc.BeforeWait? || s.pc.Waiting? || s.pc.Suspended? then s.pc.pgid else 0)
  }

  // What the table says of a process is what the kernel would say, but for unreported changes.
  predicate Agrees(s: Shell, n: nat, p: Process) {
    if p.pid in s.kernel then
      && p.state != Terminated
      && (p.pid in s.dirty || p.state == s.kernel[p.pid] ||
          (s.pc.Continuing? && s.pc.num == n && p.state == Running && s.kernel[p.pid] == Stopped))
    else p.state == Terminated
  }

  predicate Agreement(s: Shell) {
    forall n, i :: n in s.jobs && 0 <= i < |s.jobs[n].processes| ==> Agrees(s, n, s.jobs[n].processes[i])
  }

  // Every child the kernel knows is listed, or about to be.
  predicate AllListed(s: Shell) {
    forall pid :: pid in s.kernel ==>
      (s.pc.Building? && pid in s.pc.pids) || exists n :: n in s.jobs && s.jobs[n].Has(pid)
  }

  predicate BuildingOk(s: Shell) {
    s.pc.Building? ==>
      && |s.pc.pids| <= s.pc.n
      && (forall i :: 0 <= i < |s.pc.pids| ==>
        s.pc.pids[i] > 0 && !InTable(s.jobs, s.pc.pids[i]) && s.pc.pids[i] in s.kernel)
      && (forall i, j :: 0 <= i < j < |s.pc.pids| ==> s.pc.pids[i] != s.pc.pids[j])
      && (forall pid :: pid in s.pc.pids ==> pid in s.dirty || s.kernel[pid] == Running)
  }

  predicate PcOk(s: Shell) {
    && (s.inHandler ==> Unblocked(s.pc))
    && (s.pc.Continuing? ==> s.pc.num in s.jobs)
    && (s.pc.Suspended? && !s.inHandler ==>
      exists n :: n in s.jobs && s.jobs[n].pgid == s.pc.pgid && s.jobs[n].AnyRunning())
  }

  predicate KernelOk(s: Shell) {
    && s.dirty <= s.kernel.Keys
    && (forall pid :: pid in s.kernel && s.kernel[pid] == Terminated ==> pid in s.dirty)
    && (s.dirty != {} ==> s.inHandler || s.pending)
  }

  ghost predicate Inv(s: Shell) {
    && Numbered(s.jobs, s.counter) && Alive(s.jobs) && OneOwner(s.jobs)
    && OneForeground(s) && Agreement(s) && AllListed(s) && BuildingOk(s) && PcOk(s) && KernelOk(s)
  }
}
