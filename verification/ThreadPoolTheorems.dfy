/**
  What the pool promises, for every run: order, exactly-once execution, wait(),
  progress with an exact step count, and a destructor that drains and ends.
 */
module ThreadPoolTheorems {
  import opened Totals
  import opened ThreadPoolMachine
  import opened ThreadPoolInvariant

  // ------------------------------------------------------------ a pool with nothing outstanding

  predicate Parked(w: Worker) {
    w.ready == 0 && (w.pc.WaitReady? || w.pc.Unborn?)
  }

  predicate Idling(s: Pool) {
    && s.tasks == [] && s.queued == 0
    && (s.dispatcher.WaitQueued? || s.dispatcher.DUnborn?)
    && Quiet(s.calls, 0)
    && forall i :: 0 <= i < |s.workers| ==> Parked(s.workers[i])
  }

  lemma NothingOutstanding(s: Pool)
    requires Live(s) && s.outstanding == 0
    ensures Idling(s)
  {
    hide Total;
    TotalBounds(s.workers, Load);
    TotalBounds(s.calls, Uncounted);
    TotalBounds(s.calls, Unsignalled);
    forall c | 0 <= c < |s.calls| ensures s.calls[c] == Idle {
      assert Uncounted(s.calls[c]) <= 0 && Unsignalled(s.calls[c]) <= 0;
    }
    forall i | 0 <= i < |s.workers| ensures Parked(s.workers[i]) {
      assert Load(s.workers[i]) <= 0 && WorkerOk(s, i);
    }
  }

  // Every ticket issued has started once and finished once, and no other ever did.
  ghost predicate AllFinishedOnce(l: Log) {
    && (forall t: Ticket ::
      multiset(l.started)[t] == One(t < l.tickets) && multiset(l.finished)[t] == One(t < l.tickets))
    && l.dispatched == l.pushed
  }

  /** outstanding == 0 means that every scheduled thunk has run exactly once. */
  lemma ZeroMeansAllFinished(s: Pool)
    requires Live(s) && s.outstanding == 0
    ensures AllFinishedOnce(s.log)
  {
    hide Total;
    NothingOutstanding(s);
    forall t: Ticket
      ensures multiset(s.log.started)[t] == One(t < s.log.tickets) &&
        multiset(s.log.finished)[t] == One(t < s.log.tickets)
    {
      assert TicketOk(s, t);
      TotalConstant(s.calls, InCall(t), 0);
      TotalConstant(s.workers, InSlot(t), 0);
      TotalConstant(s.workers, InRun(t), 0);
    }
  }

  /** At any moment: dispatched in push order, started at most once, finished only if started. */
  lemma OrderAndAtMostOnce(s: Pool, t: Ticket)
    requires Live(s)
    ensures s.log.pushed == s.log.dispatched + s.tasks
    ensures multiset(s.log.finished)[t] <= multiset(s.log.started)[t] <= One(t < s.log.tickets)
  {
    hide Total;
    assert TicketOk(s, t);
    TotalBounds(s.calls, InCall(t));
    TotalBounds(s.workers, InSlot(t));
    TotalBounds(s.workers, InRun(t));
  }

  /** A wait() that returns has seen every thunk scheduled so far finish. */
  lemma WaitReturnsAfterAll(s: Pool, k: nat)
    requires Live(s) && Enabled(s, CheckWait(k)) && Apply(s, CheckWait(k)).waiters[k] == Returned
    ensures AllFinishedOnce(s.log) && Idling(s)
  {
    hide Total;
    ZeroMeansAllFinished(s);
    NothingOutstanding(s);
  }

  /** No lost wake-up: with nothing outstanding every wait() still pending can return at once. */
  lemma NoWaiterForgotten(s: Pool, k: nat)
    requires Live(s) && s.outstanding == 0 && k < |s.waiters| && s.waiters[k] != Returned
    ensures Enabled(s, CheckWait(k)) && Apply(s, CheckWait(k)).waiters[k] == Returned
  {
  }

  /** A thunk slot is not overwritten while its thunk is pending or running. */
  lemma SlotUntouched(s: Pool, e: Event, i: nat)
    requires Live(s) && Enabled(s, e) && i < |s.workers|
    requires Loaded(s.workers[i]) || s.workers[i].pc.Running?
    ensures |Apply(s, e).workers| == |s.workers| && Apply(s, e).workers[i].slot == s.workers[i].slot
  {
    assert WorkerOk(s, i);
  }

  // ------------------------------------------------------------ progress

  function CallWork(c: CallPc): int {
    if c.Incremented? then 17 else if c.Pushed? then 1 else 0
  }

  function DispatcherWork(d: DispatcherPc): int {
    match d
    case CheckDoneFirst => -1
    case WaitAvailable => -2
    case CheckDoneSecond => -3
    case Scan => -4
    case Pop(_) => -5
    case Assign(_, _) => 9
    case Wake(_, _) => 8
    case _ => 0
  }

  function WorkerWork(w: Worker): int {
    7 * w.ready +
    match w.pc
    case CheckDone => 6
    case Invoke => 5
    case Running(_) => 4
    case MarkIdle => 3
    case SignalIdle => 2
    case Retire => 1
    case _ => 0
  }

  // The number of pool steps still owed to the thunks already scheduled.
  function Owed(s: Pool): int {
    Total(s.calls, CallWork) + 15 * |s.tasks| + DispatcherWork(s.dispatcher) + Total(s.workers, WorkerWork)
  }

  predicate PoolEvent(e: Event) {
    e.Begin? || e.Push? || e.Signal? || e.Dispatch? || e.Work?
  }

  lemma OwedIsNat(s: Pool)
    requires Live(s)
    ensures Owed(s) >= 0
    ensures Owed(s) == 0 <==> s.outstanding == 0
  {
    hide Total;
    TotalBounds(s.calls, CallWork);
    TotalBounds(s.workers, WorkerWork);
    TotalBounds(s.calls, Unsignalled);
    TotalBounds(s.calls, Uncounted);
    TotalBounds(s.workers, Load);
    if s.outstanding == 0 {
      NothingOutstanding(s);
      TotalConstant(s.calls, CallWork, 0);
      TotalConstant(s.workers, WorkerWork, 0);
    } else if Total(s.calls, Uncounted) > 0 {
      var c := TotalWitness(s.calls, Uncounted);
      assert CallWork(s.calls[c]) == 17;
    } else if Total(s.workers, Load) > 0 {
      var i := TotalWitness(s.workers, Load);
      assert WorkerWork(s.workers[i]) >= 1;
    }
  }

  /** schedule() adds 17 steps to its own; every other pool step pays off exactly one. */
  lemma OwedStep(s: Pool, e: Event)
    requires Live(s) && Enabled(s, e)
    ensures Owed(Apply(s, e)) == Owed(s) + (if e.Begin? then 17 else if PoolEvent(e) then -1 else 0)
  {
    hide Total;
    var t := Apply(s, e);
    match e
    case Begin(c) => TotalUpdate(s.calls, c, t.calls[c], CallWork);
    case Push(c) => TotalUpdate(s.calls, c, t.calls[c], CallWork);
    case Signal(c) => TotalUpdate(s.calls, c, t.calls[c], CallWork);
    case Spawn => TotalAppend(s.calls, Idle, CallWork);
    case Work(i) => OwedWorkStep(s, i);
    case Dispatch => OwedDispatchStep(s);
    case Own => OwedOwnerStep(s);
    case _ =>
  }

  lemma OwedWorkStep(s: Pool, i: nat)
    requires Live(s) && Enabled(s, Work(i))
    ensures Owed(WorkerStep(s, i)) == Owed(s) - 1
  {
    hide Total;
    assert WorkerOk(s, i);
    var v := WorkerNext(s.workers[i], false);
    TotalUpdate(s.workers, i, v, WorkerWork);
    assert WorkerWork(v) == WorkerWork(s.workers[i]) - 1;
    assert WorkerStep(s, i).workers == s.workers[i := v];
  }

  lemma OwedDispatchStep(s: Pool)
    requires Live(s) && Enabled(s, Dispatch)
    ensures Owed(DispatcherStep(s)) == Owed(s) - 1
  {
    hide Total;
    OneWorkerChanges(s, Dispatch);
    var i, t := WorkerOf(s, Dispatch), DispatcherStep(s);
    if i < |s.workers| {
      TotalUpdate(s.workers, i, t.workers[i], WorkerWork);
    }
    match s.dispatcher
    case Scan => ScanFindsIdleWorker(s);
    case Pop(_) => PopFindsTask(s);
    case _ =>
  }

  lemma OwedOwnerStep(s: Pool)
    requires Live(s) && Enabled(s, Own)
    ensures Owed(OwnerStep(s)) == Owed(s)
  {
    hide Total;
    var i, t := WorkerOf(s, Own), OwnerStep(s);
    if i < |s.workers| {
      assert WorkerOk(s, i);
      TotalUpdate(s.workers, i, t.workers[i], WorkerWork);
    }
  }

  /** With at least one worker, outstanding work always has a step to take. */
  lemma ProgressWhileOutstanding(s: Pool) returns (e: Event)
    requires Live(s) && |s.workers| >= 1 && s.outstanding > 0
    ensures PoolEvent(e) && !e.Begin? && Enabled(s, e)
  {
    hide Total;
    TotalBounds(s.calls, Unsignalled);
    TotalBounds(s.calls, Uncounted);
    TotalBounds(s.workers, AboutToSignal);
    if c :| 0 <= c < |s.calls| && s.calls[c] != Idle {
      e := if s.calls[c].Incremented? then Push(c) else Signal(c);
    } else if i :| 0 <= i < |s.workers| && !Parked(s.workers[i]) {
      assert WorkerOk(s, i);
      e := Work(i);
    } else {
      TotalConstant(s.calls, Unsignalled, 0);
      TotalConstant(s.calls, Uncounted, 0);
      TotalConstant(s.workers, Load, 0);
      TotalConstant(s.workers, AboutToSignal, 0);
      if s.dispatcher.WaitAvailable? {
        assert WorkerOk(s, 0);
        TotalBounds(s.workers, Flag);
        assert Flag(s.workers[0]) == 1;
      }
      e := Dispatch;
    }
  }

  /** Without a worker no step lowers outstanding: a pool of size 0 never finishes a thunk. */
  lemma EmptyPoolNeverRetires(s: Pool, e: Event)
    requires Live(s) && |s.workers| == 0 && Enabled(s, e)
    ensures |Apply(s, e).workers| == 0 && Apply(s, e).outstanding >= s.outstanding
  {
    if e.Dispatch? && s.dispatcher.Scan? {
      ScanFindsIdleWorker(s);
    }
  }

  // ------------------------------------------------------------ shutdown

  ghost predicate Down(s: Pool) {
    && s.done && !s.fault && s.tasks == [] && s.outstanding == 0
    && Quiet(s.calls, 0) && |s.workers| <= |s.calls|
    && (forall k :: 0 <= k < |s.waiters| ==> s.waiters[k] != Asleep)
    && AllFinishedOnce(s.log)
    && DownDispatcher(s) && DownWorkers(s)
  }

  predicate DownDispatcher(s: Pool) {
    match s.owner
    case SignalQueued => s.queued == 0 && s.dispatcher.WaitQueued?
    case SignalAvailable => Leaving(s)
    case JoinDispatcher => Leaving(s)
    case _ => s.dispatcher.DExited?
  }

  predicate Leaving(s: Pool) {
    if s.queued == 0 then s.dispatcher.CheckDoneFirst? || s.dispatcher.DExited?
    else s.queued == 1 && s.dispatcher.WaitQueued?
  }

  // Workers below the owner's index are reaped, the one at it is being joined.
  predicate DownWorkers(s: Pool) {
    match s.owner
    case SignalQueued => AllParkedFrom(s.workers, 0)
    case SignalAvailable => AllParkedFrom(s.workers, 0)
    case JoinDispatcher => AllParkedFrom(s.workers, 0)
    case SignalWorker(i) => i < |s.workers| && AllExitedBelow(s.workers, i) && AllParkedFrom(s.workers, i)
    case JoinWorker(i) =>
      i < |s.workers| && AllExitedBelow(s.workers, i) && AllParkedFrom(s.workers, i + 1) &&
      (if s.workers[i].ready == 0 then s.workers[i].pc.CheckDone? || s.workers[i].pc.Exited?
       else s.workers[i].ready == 1 && s.workers[i].pc.WaitReady?)
    case Destroyed => AllExitedBelow(s.workers, |s.workers|)
    case _ => false
  }

  predicate AllParkedFrom(ws: seq<Worker>, i: nat) {
    forall j :: i <= j < |ws| ==> ws[j].pc.WaitReady? && ws[j].ready == 0
  }

  predicate AllExitedBelow(ws: seq<Worker>, i: nat) {
    forall j :: 0 <= j < i && j < |ws| ==> ws[j].pc.Exited? && ws[j].ready == 0
  }

  /** The destructor sets `done` only on a drained pool. */
  lemma SetDoneGoesDown(s: Pool)
    requires Live(s) && s.owner.SetDone?
    ensures Enabled(s, Own) && Down(Apply(s, Own))
  {
    NothingOutstanding(s);
    ZeroMeansAllFinished(s);
    forall i | 0 <= i < |s.workers| ensures s.workers[i].pc.WaitReady? {
      assert WorkerOk(s, i);
    }
  }

  lemma DownKept(s: Pool, e: Event)
    requires Down(s) && Enabled(s, e)
    ensures Down(Apply(s, e)) && Apply(s, e).log == s.log
  {
  }

  function DispatcherLeft(d: DispatcherPc): int {
    match d
    case WaitQueued => 2
    case CheckDoneFirst => 1
    case _ => 0
  }

  function WorkerLeft(w: Worker): int {
    match w.pc
    case WaitReady => 2
    case CheckDone => 1
    case _ => 0
  }

  function OwnerLeft(o: OwnerPc, n: nat): int {
    match o
    case SignalQueued => 3 + 2 * n
    case SignalAvailable => 2 + 2 * n
    case JoinDispatcher => 1 + 2 * n
    case SignalWorker(i) => 2 * (n - i)
    case JoinWorker(i) => 2 * (n - i) - 1
    case _ => 0
  }

  function ShutdownLeft(s: Pool): int {
    OwnerLeft(s.owner, |s.workers|) + DispatcherLeft(s.dispatcher) + Total(s.workers, WorkerLeft)
  }

  /** Each step of owner, dispatcher or worker brings the end of the shutdown one step nearer. */
  lemma ShutdownAdvances(s: Pool, e: Event)
    requires Down(s) && Enabled(s, e)
    ensures e.Own? || e.Dispatch? || e.Work? || e.CheckWait?
    ensures ShutdownLeft(Apply(s, e)) == ShutdownLeft(s) - (if e.CheckWait? then 0 else 1)
  {
    hide Total;
    var t := Apply(s, e);
    match e
    case Work(i) => TotalUpdate(s.workers, i, t.workers[i], WorkerLeft);
    case Own =>
      if s.owner.SignalWorker? {
        TotalUpdate(s.workers, s.owner.i, t.workers[s.owner.i], WorkerLeft);
      }
    case _ =>
  }

  /** The shutdown never blocks: until every join has returned some thread can move. */
  lemma ShutdownNeverStuck(s: Pool) returns (e: Event)
    requires Down(s) && !s.owner.Destroyed?
    ensures !e.CheckWait? && Enabled(s, e)
    ensures ShutdownLeft(s) > 0
  {
    hide Total;
    TotalBounds(s.workers, WorkerLeft);
    match s.owner
    case JoinDispatcher => e := if s.dispatcher.DExited? then Own else Dispatch;
    case JoinWorker(i) => e := if s.workers[i].pc.Exited? then Own else Work(i);
    case _ => e := Own;
  }

  // ------------------------------------------------------------ whole runs

  lemma SafeStateFacts(s: Pool)
    requires Live(s) || Down(s)
    ensures !s.fault
    ensures s.owner.Destroyed? ==> AllFinishedOnce(s.log)
  {
  }

  ghost predicate IsRun(s: Pool, es: seq<Event>)
    decreases |es|
  {
    es == [] || (Enabled(s, es[0]) && IsRun(Apply(s, es[0]), es[1..]))
  }

  ghost function After(s: Pool, es: seq<Event>): Pool
    requires IsRun(s, es)
    decreases |es|
  {
    if es == [] then s else After(Apply(s, es[0]), es[1..])
  }

  ghost function Begins(es: seq<Event>): nat {
    if es == [] then 0 else (if es[0].Begin? then 1 else 0) + Begins(es[1..])
  }

  ghost function PoolEvents(es: seq<Event>): nat {
    if es == [] then 0 else (if PoolEvent(es[0]) then 1 else 0) + PoolEvents(es[1..])
  }

  lemma SafeStep(s: Pool, e: Event)
    requires (Live(s) || Down(s)) && Enabled(s, e)
    ensures Live(Apply(s, e)) || Down(Apply(s, e))
    ensures Down(s) ==> Down(Apply(s, e))
  {
    if Down(s) {
      DownKept(s, e);
    } else if e.Own? && s.owner.SetDone? {
      SetDoneGoesDown(s);
    } else {
      LiveKept(s, e);
    }
  }

  /** Safety over every run of a pool of any size, through construction, use and destruction. */
  lemma {:induction false} RunsAreSafe(s: Pool, es: seq<Event>)
    requires (Live(s) || Down(s)) && IsRun(s, es)
    ensures Live(After(s, es)) || Down(After(s, es))
    ensures !After(s, es).fault
    decreases |es|
  {
    if es != [] {
      SafeStep(s, es[0]);
      RunsAreSafe(Apply(s, es[0]), es[1..]);
    }
  }

  /** When a run of the whole life of a pool ends destroyed, no thunk was dropped or repeated. */
  lemma DestructorDropsNothing(n: nat, es: seq<Event>)
    requires IsRun(Init(n), es) && After(Init(n), es).owner.Destroyed?
    ensures AllFinishedOnce(After(Init(n), es).log)
  {
    InitLive(n);
    RunsAreSafe(Init(n), es);
  }

  /**
    Conservation over runs: b calls of schedule() cost exactly 18 b pool steps in all,
    paid in full precisely when nothing is outstanding.
   */
  lemma {:induction false} EighteenStepsPerThunk(s: Pool, es: seq<Event>)
    requires Live(s) && IsRun(s, es) && !After(s, es).done
    ensures Live(After(s, es))
    ensures Owed(s) + 18 * Begins(es) == Owed(After(s, es)) + PoolEvents(es)
    ensures PoolEvents(es) <= Owed(s) + 18 * Begins(es)
    ensures PoolEvents(es) == Owed(s) + 18 * Begins(es) <==> After(s, es).outstanding == 0
    decreases |es|
  {
    OwedIsNat(s);
    if es != [] {
      OwedStep(s, es[0]);
      if es[0].Own? && s.owner.SetDone? {
        SetDoneGoesDown(s);
        DoneStays(Apply(s, es[0]), es[1..]);
      } else {
        LiveKept(s, es[0]);
        EighteenStepsPerThunk(Apply(s, es[0]), es[1..]);
      }
    }
  }

  lemma {:induction false} DoneStays(s: Pool, es: seq<Event>)
    requires Down(s) && IsRun(s, es)
    ensures After(s, es).done
    decreases |es|
  {
    if es != [] {
      DownKept(s, es[0]);
      DoneStays(Apply(s, es[0]), es[1..]);
    }
  }
}
