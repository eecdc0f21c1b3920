/**
  The thread pool as a step machine: one program counter per thread, one event
  per lock scope, semaphore operation or atomic access of `done`.
 */
module ThreadPoolMachine {
  import opened Totals

  // The n-th call of schedule() to pass its increment carries ticket n.
  type Ticket = nat

  datatype Option<T> = None | Some(value: T)

  datatype DispatcherPc =
    | DUnborn
    | WaitQueued
    | CheckDoneFirst
    | WaitAvailable
    | CheckDoneSecond
    | Scan
    | Pop(id: nat)
    | Assign(id: nat, thunk: Ticket)
    | Wake(id: nat, thunk: Ticket)
    | DExited

  datatype WorkerPc =
    | Unborn
    | WaitReady
    | CheckDone
    | Invoke
    | Running(thunk: Ticket)
    | MarkIdle
    | SignalIdle
    | Retire
    | Exited

  datatype Worker = Worker(pc: WorkerPc, ready: nat, slot: Option<Ticket>, available: bool)

  // Progress of one schedule() call: the increment, the push, the signal.
  datatype CallPc = Idle | Incremented(ticket: Ticket) | Pushed(ticket: Ticket)

  // Progress of one wait() call around the condition variable.
  datatype WaiterPc = Entering | Asleep | Woken | Returned

  // The thread that constructs and later destroys the pool.
  datatype OwnerPc =
    | Constructing(k: nat, started: bool)
    | Open
    | AwaitZero(waiter: nat)
    | SetDone
    | SignalQueued
    | SignalAvailable
    | JoinDispatcher
    | SignalWorker(i: nat)
    | JoinWorker(i: nat)
    | Destroyed

  // What has happened so far; no step depends on it.
  datatype Log = Log(tickets: nat, pushed: seq<Ticket>, dispatched: seq<Ticket>,
                     started: seq<Ticket>, finished: seq<Ticket>)

  /**
    calls[i] for i < |workers| is the schedule() call made by the thunk running on
    worker i; the rest belong to threads outside the pool. `fault` records front()
    on an empty queue, a call of an empty std::function or an underflow of outstanding.
   */
  datatype Pool = Pool(
    tasks: seq<Ticket>,
    outstanding: nat,
    queued: nat,
    availableWorkers: nat,
    done: bool,
    workers: seq<Worker>,
    dispatcher: DispatcherPc,
    calls: seq<CallPc>,
    waiters: seq<WaiterPc>,
    owner: OwnerPc,
    fault: bool,
    log: Log)

  datatype Event =
    | Begin(c: nat)
    | Push(c: nat)
    | Signal(c: nat)
    | Spawn
    | Dispatch
    | Work(i: nat)
    | EnterWait
    | CheckWait(k: nat)
    | Own

  function Init(n: nat): Pool {
    Pool([], 0, 0, 0, false, seq(n, _ => Worker(Unborn, 0, None, true)), DUnborn,
         seq(n, _ => Idle), [], Constructing(0, false), false, Log(0, [], [], [], []))
  }

  // ------------------------------------------------------------ steps

  predicate Quiet(calls: seq<CallPc>, from: nat) {
    forall c :: from <= c < |calls| ==> calls[c] == Idle
  }

  predicate Enabled(s: Pool, e: Event) {
    match e
    case Begin(c) =>
      c < |s.calls| && s.calls[c] == Idle &&
      (if c < |s.workers| then s.workers[c].pc.Running? else s.owner == Open)
    case Push(c) => c < |s.calls| && s.calls[c].Incremented?
    case Signal(c) => c < |s.calls| && s.calls[c].Pushed?
    case Spawn => s.owner == Open
    case Dispatch =>
      !s.dispatcher.DUnborn? && !s.dispatcher.DExited? &&
      (s.dispatcher.WaitQueued? ==> s.queued > 0) &&
      (s.dispatcher.WaitAvailable? ==> s.availableWorkers > 0)
    case Work(i) =>
      i < |s.workers| && !s.workers[i].pc.Unborn? && !s.workers[i].pc.Exited? &&
      (s.workers[i].pc.WaitReady? ==> s.workers[i].ready > 0) &&
      (s.workers[i].pc.Running? ==> i < |s.calls| && s.calls[i] == Idle)
    case EnterWait => s.owner == Open
    case CheckWait(k) => k < |s.waiters| && (s.waiters[k].Entering? || s.waiters[k].Woken?)
    case Own =>
      match s.owner
      case Constructing(k, started) => k <= |s.workers| && (started ==> k < |s.workers|)
      case Open => Quiet(s.calls, |s.workers|)
      case AwaitZero(k) => k < |s.waiters| && s.waiters[k] == Returned
      case JoinDispatcher => s.dispatcher.DExited?
      case SignalWorker(i) => i < |s.workers|
      case JoinWorker(i) => i < |s.workers| && s.workers[i].pc.Exited?
      case Destroyed => false
      case _ => true
  }

  // The scan of the dispatcher: the first idle worker, or the default 0.
  function FirstIdle(ws: seq<Worker>, i: nat): nat
    requires i <= |ws|
    decreases |ws| - i
  {
    if i == |ws| then 0 else if ws[i].available then i else FirstIdle(ws, i + 1)
  }

  function Claimed(ws: seq<Worker>): seq<Worker> {
    var id := FirstIdle(ws, 0);
    if id < |ws| then ws[id := ws[id].(available := false)] else ws
  }

  function Stored(ws: seq<Worker>, id: nat, t: Ticket): seq<Worker> {
    if id < |ws| then ws[id := ws[id].(slot := Some(t))] else ws
  }

  function Readied(ws: seq<Worker>, id: nat): seq<Worker> {
    if id < |ws| then ws[id := ws[id].(ready := ws[id].ready + 1)] else ws
  }

  function DispatcherStep(s: Pool): Pool
    requires Enabled(s, Dispatch)
  {
    match s.dispatcher
    case WaitQueued => s.(queued := s.queued - 1, dispatcher := CheckDoneFirst)
    case CheckDoneFirst => s.(dispatcher := if s.done then DExited else WaitAvailable)
    case WaitAvailable => s.(availableWorkers := s.availableWorkers - 1, dispatcher := CheckDoneSecond)
    case CheckDoneSecond => s.(dispatcher := if s.done then DExited else Scan)
    case Scan => s.(workers := Claimed(s.workers), dispatcher := Pop(FirstIdle(s.workers, 0)))
    case Pop(id) =>
      if s.tasks == [] then s.(fault := true)
      else s.(tasks := s.tasks[1..], dispatcher := Assign(id, s.tasks[0]),
              log := s.log.(dispatched := s.log.dispatched + [s.tasks[0]]))
    case Assign(id, t) => s.(workers := Stored(s.workers, id, t), dispatcher := Wake(id, t))
    case Wake(id, _) => s.(workers := Readied(s.workers, id), dispatcher := WaitQueued)
  }

  function WorkerNext(w: Worker, done: bool): Worker {
    match w.pc
    case WaitReady => if w.ready > 0 then w.(pc := CheckDone, ready := w.ready - 1) else w
    case CheckDone => w.(pc := if done then Exited else Invoke)
    case Invoke => if w.slot.Some? then w.(pc := Running(w.slot.value)) else w
    case Running(_) => w.(pc := MarkIdle)
    case MarkIdle => w.(pc := SignalIdle, available := true)
    case SignalIdle => w.(pc := Retire)
    case Retire => w.(pc := WaitReady)
    case _ => w
  }

  // notify_all: every sleeper becomes runnable.
  function WakeAll(ws: seq<WaiterPc>): seq<WaiterPc> {
    seq(|ws|, i requires 0 <= i < |ws| => if ws[i] == Asleep then Woken else ws[i])
  }

  function WorkerStep(s: Pool, i: nat): Pool
    requires Enabled(s, Work(i))
  {
    var w := s.workers[i];
    var t := s.(workers := s.workers[i := WorkerNext(w, s.done)]);
    match w.pc
    case Invoke =>
      if w.slot.Some? then t.(log := s.log.(started := s.log.started + [w.slot.value]))
      else t.(fault := true)
    case Running(k) => t.(log := s.log.(finished := s.log.finished + [k]))
    case SignalIdle => t.(availableWorkers := s.availableWorkers + 1)
    case Retire =>
      if s.outstanding == 0 then t.(fault := true)
      else t.(outstanding := s.outstanding - 1,
              waiters := if s.outstanding == 1 then WakeAll(s.waiters) else s.waiters)
    case _ => t
  }

  function OwnerStep(s: Pool): Pool
    requires Enabled(s, Own)
  {
    match s.owner
    case Constructing(k, started) =>
      if started then s.(availableWorkers := s.availableWorkers + 1, owner := Constructing(k + 1, false))
      else if k < |s.workers|
        then s.(workers := s.workers[k := s.workers[k].(pc := WaitReady)], owner := Constructing(k, true))
      else s.(dispatcher := WaitQueued, owner := Open)
    case Open => s.(waiters := s.waiters + [Entering], owner := AwaitZero(|s.waiters|))
    case AwaitZero(_) => s.(owner := SetDone)
    case SetDone => s.(done := true, owner := SignalQueued)
    case SignalQueued => s.(queued := s.queued + 1, owner := SignalAvailable)
    case SignalAvailable => s.(availableWorkers := s.availableWorkers + 1, owner := JoinDispatcher)
    case JoinDispatcher => s.(owner := ReapFrom(s, 0))
    case SignalWorker(i) => s.(workers := Readied(s.workers, i), owner := JoinWorker(i))
    case JoinWorker(i) => s.(owner := ReapFrom(s, i + 1))
  }

  function ReapFrom(s: Pool, i: nat): OwnerPc {
    if i < |s.workers| then SignalWorker(i) else Destroyed
  }

  function Apply(s: Pool, e: Event): Pool
    requires Enabled(s, e)
  {
    match e
    case Begin(c) =>
      s.(outstanding := s.outstanding + 1, calls := s.calls[c := Incremented(s.log.tickets)],
         log := s.log.(tickets := s.log.tickets + 1))
    case Push(c) =>
      s.(tasks := s.tasks + [s.calls[c].ticket], calls := s.calls[c := Pushed(s.calls[c].ticket)],
         log := s.log.(pushed := s.log.pushed + [s.calls[c].ticket]))
    case Signal(c) => s.(queued := s.queued + 1, calls := s.calls[c := Idle])
    case Spawn => s.(calls := s.calls + [Idle])
    case Dispatch => DispatcherStep(s)
    case Work(i) => WorkerStep(s, i)
    case EnterWait => s.(waiters := s.waiters + [Entering])
    case CheckWait(k) => s.(waiters := s.waiters[k := if s.outstanding == 0 then Returned else Asleep])
    case Own => OwnerStep(s)
  }

  // ------------------------------------------------------------ the invariant

  predicate Holds(d: DispatcherPc, i: nat) {
    (d.Pop? || d.Assign? || d.Wake?) && d.id == i
  }

  predicate Busy(pc: WorkerPc) {
    pc.CheckDone? || pc.Invoke? || pc.Running? || pc.MarkIdle?
  }

  function One(b: bool): int {
    if b then 1 else 0
  }

  // Who owns worker i: its idle flag, the dispatcher, its ready semaphore or itself.
  function Owners(s: Pool, i: nat): int
    requires i < |s.workers|
  {
    One(s.workers[i].available) + One(Holds(s.dispatcher, i)) + s.workers[i].ready + One(Busy(s.workers[i].pc))
  }

  predicate Loaded(w: Worker) {
    w.ready > 0 || w.pc.CheckDone? || w.pc.Invoke?
  }

  predicate WorkerOk(s: Pool, i: nat)
    requires i < |s.workers|
  {
    var w := s.workers[i];
    && Owners(s, i) == 1
    && !w.pc.Exited?
    && (w.pc.Unborn? <==> s.owner.Constructing? && i >= s.owner.k + One(s.owner.started))
    && (Loaded(w) ==> w.slot.Some?)
    && (w.pc.Running? ==> w.slot == Some(w.pc.thunk))
    && (s.dispatcher.Wake? && s.dispatcher.id == i ==> w.slot == Some(s.dispatcher.thunk))
  }

  predicate WorkersOk(s: Pool) {
    && (forall i :: 0 <= i < |s.workers| ==> WorkerOk(s, i))
    && (s.dispatcher.Pop? || s.dispatcher.Assign? || s.dispatcher.Wake? ==> s.dispatcher.id < |s.workers|)
  }

  function Flag(w: Worker): int { One(w.available) }
  function AboutToSignal(w: Worker): int { One(w.pc.SignalIdle?) }
  function Load(w: Worker): int { w.ready + One(Busy(w.pc) || w.pc.SignalIdle? || w.pc.Retire?) }
  function Uncounted(c: CallPc): int { One(c.Incremented?) }
  function Unsignalled(c: CallPc): int { One(c.Pushed?) }

  function Unannounced(s: Pool): int {
    if s.owner.Constructing? then |s.workers| - s.owner.k else 0
  }

  // Idle flags = worker tokens + the token in the dispatcher's hand + signals under way.
  predicate FlagsOk(s: Pool) {
    Total(s.workers, Flag) ==
    s.availableWorkers + One(s.dispatcher.CheckDoneSecond? || s.dispatcher.Scan?)
    + Total(s.workers, AboutToSignal) + Unannounced(s)
  }

  predicate HoldsTask(d: DispatcherPc) {
    d.CheckDoneFirst? || d.WaitAvailable? || d.CheckDoneSecond? || d.Scan? || d.Pop?
  }

  predicate QueueOk(s: Pool) {
    |s.tasks| == s.queued + One(HoldsTask(s.dispatcher)) + Total(s.calls, Unsignalled)
  }

  predicate OutstandingOk(s: Pool) {
    s.outstanding ==
    Total(s.calls, Uncounted) + |s.tasks| + One(s.dispatcher.Assign? || s.dispatcher.Wake?)
    + Total(s.workers, Load)
  }

  predicate ThreadsOk(s: Pool) {
    && |s.workers| <= |s.calls|
    && (forall i :: 0 <= i < |s.workers| && s.calls[i] != Idle ==> s.workers[i].pc.Running?)
    && !s.dispatcher.DExited?
    && (s.dispatcher.DUnborn? <==> s.owner.Constructing?)
    && (s.owner.Constructing? ==>
          s.owner.k <= |s.workers| && (s.owner.started ==> s.owner.k < |s.workers|) &&
          Quiet(s.calls, 0) && s.tasks == [] &&
          forall i :: 0 <= i < |s.workers| ==>
            s.workers[i].available && (s.workers[i].pc.Unborn? || s.workers[i].pc.WaitReady?))
  }

  // Sleepers are never forgotten, and the destructor starts from an empty pool.
  predicate WaitersOk(s: Pool) {
    && (forall k :: 0 <= k < |s.waiters| && s.waiters[k] == Asleep ==> s.outstanding > 0)
    && (s.owner.Constructing? || s.owner.Open? || s.owner.AwaitZero? || s.owner.SetDone?)
    && (s.owner.AwaitZero? ==>
      s.owner.waiter < |s.waiters| && (s.waiters[s.owner.waiter] == Returned ==> s.outstanding == 0))
    && (s.owner.AwaitZero? || s.owner.SetDone? ==> Quiet(s.calls, |s.workers|))
    && (s.owner.SetDone? ==> s.outstanding == 0)
  }

  function InCall(t: Ticket): CallPc -> int {
    (c: CallPc) => One(c == Incremented(t))
  }

  function InSlot(t: Ticket): Worker -> int {
    (w: Worker) => One(Loaded(w) && w.slot == Some(t))
  }

  function InRun(t: Ticket): Worker -> int {
    (w: Worker) => One(w.pc == Running(t))
  }

  function InHand(d: DispatcherPc, t: Ticket): int {
    One((d.Assign? || d.Wake?) && d.thunk == t)
  }

  // Places that hold ticket t before its thunk starts.
  function Waiting(s: Pool, t: Ticket): int {
    Total(s.calls, InCall(t)) + multiset(s.tasks)[t] + InHand(s.dispatcher, t) + Total(s.workers, InSlot(t))
  }

  // A ticket issued is in exactly one place, another in none; a thunk started is running or finished.
  predicate TicketOk(s: Pool, t: Ticket) {
    && Waiting(s, t) + multiset(s.log.started)[t] == One(t < s.log.tickets)
    && multiset(s.log.started)[t] == Total(s.workers, InRun(t)) + multiset(s.log.finished)[t]
  }

  ghost predicate TicketsOk(s: Pool) {
    && (forall t: Ticket :: TicketOk(s, t))
    && s.log.pushed == s.log.dispatched + s.tasks
  }

  ghost predicate Live(s: Pool) {
    && !s.done && !s.fault
    && ThreadsOk(s) && WorkersOk(s) && FlagsOk(s) && QueueOk(s) && OutstandingOk(s) && WaitersOk(s) && TicketsOk(s)
  }
}
