/**
  The invariant of the running pool holds initially and survives every step.
 */
module ThreadPoolInvariant {
  import opened Totals
  import opened ThreadPoolMachine

  lemma InitLive(n: nat)
    ensures Live(Init(n))
  {
    var s := Init(n);
    TotalConstant(s.workers, Flag, 1);
    TotalConstant(s.workers, AboutToSignal, 0);
    TotalConstant(s.workers, Load, 0);
    TotalConstant(s.calls, Unsignalled, 0);
    TotalConstant(s.calls, Uncounted, 0);
    forall t: Ticket ensures TicketOk(s, t) {
      TotalConstant(s.calls, InCall(t), 0);
      TotalConstant(s.workers, InSlot(t), 0);
      TotalConstant(s.workers, InRun(t), 0);
    }
  }

  // ------------------------------------------------------------ the idle scan

  lemma {:induction false} FirstIdleFinds(ws: seq<Worker>, i: nat)
    requires i <= |ws|
    requires exists j :: i <= j < |ws| && ws[j].available
    ensures i <= FirstIdle(ws, i) < |ws| && ws[FirstIdle(ws, i)].available
    ensures forall j :: i <= j < FirstIdle(ws, i) ==> !ws[j].available
    decreases |ws| - i
  {
    if !ws[i].available {
      FirstIdleFinds(ws, i + 1);
    }
  }

  // The dispatcher never falls back on the default worker 0.
  lemma ScanFindsIdleWorker(s: Pool)
    requires Live(s) && s.dispatcher.Scan?
    ensures FirstIdle(s.workers, 0) < |s.workers| && s.workers[FirstIdle(s.workers, 0)].available
    ensures forall j :: 0 <= j < FirstIdle(s.workers, 0) ==> !s.workers[j].available
  {
    hide Total;
    TotalBounds(s.workers, AboutToSignal);
    var i := TotalWitness(s.workers, Flag);
    assert s.workers[i].available;
    FirstIdleFinds(s.workers, 0);
  }

  // front() is never called on an empty queue.
  lemma PopFindsTask(s: Pool)
    requires Live(s) && s.dispatcher.Pop?
    ensures s.tasks != []
  {
    hide Total;
    TotalBounds(s.calls, Unsignalled);
  }

  // ------------------------------------------------------------ preservation

  // The one worker and the one call an event may replace.
  function WorkerOf(s: Pool, e: Event): nat {
    match e
    case Work(i) => i
    case Dispatch =>
      (match s.dispatcher
       case Scan => FirstIdle(s.workers, 0)
       case Assign(id, _) => id
       case Wake(id, _) => id
       case _ => 0)
    case Own => if s.owner.Constructing? then s.owner.k else 0
    case _ => 0
  }

  ghost predicate Steps(s: Pool, e: Event) {
    Live(s) && Enabled(s, e) && !(e.Own? && s.owner.SetDone?)
  }

  lemma OneWorkerChanges(s: Pool, e: Event)
    requires Steps(s, e)
    ensures var t := Apply(s, e);
      t.workers == s.workers ||
      (WorkerOf(s, e) < |s.workers| && |t.workers| == |s.workers| &&
        t.workers == s.workers[WorkerOf(s, e) := t.workers[WorkerOf(s, e)]])
  {
    if e.Dispatch? && s.dispatcher.Scan? {
      ScanFindsIdleWorker(s);
    }
  }

  lemma ThreadsKeptByWork(s: Pool, i: nat)
    requires ThreadsOk(s) && WorkersOk(s) && Enabled(s, Work(i))
    ensures ThreadsOk(WorkerStep(s, i))
  {
    WorkerStepFrame(s, i);
    assert WorkerOk(s, i);
    hide WorkerStep;
  }

  lemma ThreadsKeptByDispatch(s: Pool)
    requires Steps(s, Dispatch)
    ensures ThreadsOk(DispatcherStep(s))
  {
    OneWorkerChanges(s, Dispatch);
    hide WorkersOk, FlagsOk, QueueOk, OutstandingOk, WaitersOk, TicketsOk;
  }

  lemma ThreadsKeptByOwner(s: Pool)
    requires ThreadsOk(s) && Enabled(s, Own) && !s.owner.JoinWorker? && !s.owner.SignalWorker?
    requires !s.owner.JoinDispatcher?
    ensures ThreadsOk(OwnerStep(s))
  {
  }

  lemma ThreadsKept(s: Pool, e: Event)
    requires Steps(s, e)
    ensures ThreadsOk(Apply(s, e))
  {
    hide FlagsOk, QueueOk, OutstandingOk, TicketsOk, WorkersOk, ThreadsOk, WorkerStep, DispatcherStep, OwnerStep;
    match e
    case Work(i) => ThreadsKeptByWork(s, i);
    case Dispatch => ThreadsKeptByDispatch(s);
    case Own => ThreadsKeptByOwner(s);
    case _ => ThreadsKeptByOthers(s, e);
  }

  lemma ThreadsKeptByOthers(s: Pool, e: Event)
    requires ThreadsOk(s) && Enabled(s, e) && !e.Work? && !e.Dispatch? && !e.Own?
    ensures ThreadsOk(Apply(s, e))
  {
  }

  lemma WorkerKeptByWork(s: Pool, j: nat, i: nat)
    requires WorkersOk(s) && ThreadsOk(s) && Enabled(s, Work(j)) && !s.done && i < |s.workers|
    ensures WorkerOk(WorkerStep(s, j), i)
  {
    assert WorkerOk(s, i);
    WorkerStepFrame(s, j);
    hide WorkerStep;
    if i == j {
      OwnStepKept(s, WorkerStep(s, j), i);
    }
  }

  // A worker's step replaces that worker and leaves dispatcher, calls, queue and owner alone.
  lemma WorkerStepFrame(s: Pool, j: nat)
    requires Enabled(s, Work(j))
    ensures var t := WorkerStep(s, j);
      && t.workers == s.workers[j := WorkerNext(s.workers[j], s.done)]
      && t.dispatcher == s.dispatcher && t.owner == s.owner && t.calls == s.calls && t.tasks == s.tasks
  {
    hide WorkerNext, WakeAll;
  }

  lemma OwnStepKept(s: Pool, t: Pool, i: nat)
    requires i < |s.workers| && WorkerOk(s, i) && Enabled(s, Work(i)) && !s.done
    requires t.workers == s.workers[i := WorkerNext(s.workers[i], false)] && t.dispatcher == s.dispatcher
    requires t.owner == s.owner
    ensures WorkerOk(t, i)
  {
  }

  lemma WorkerKeptByDispatch(s: Pool, i: nat)
    requires WorkersOk(s) && ThreadsOk(s) && Enabled(s, Dispatch) && !s.done && i < |s.workers|
    requires s.dispatcher.Scan? ==>
      FirstIdle(s.workers, 0) < |s.workers| && s.workers[FirstIdle(s.workers, 0)].available
    ensures |DispatcherStep(s).workers| == |s.workers| && WorkerOk(DispatcherStep(s), i)
  {
    assert WorkerOk(s, i);
  }

  lemma WorkerKeptByOwner(s: Pool, i: nat)
    requires WorkersOk(s) && ThreadsOk(s) && Enabled(s, Own) && !s.done && i < |s.workers|
    requires s.owner.Constructing? || s.owner.Open? || s.owner.AwaitZero?
    ensures |OwnerStep(s).workers| == |s.workers| && WorkerOk(OwnerStep(s), i)
  {
    assert WorkerOk(s, i);
  }

  lemma WorkersKept(s: Pool, e: Event)
    requires Steps(s, e)
    ensures WorkersOk(Apply(s, e))
  {
    hide FlagsOk, QueueOk, OutstandingOk, TicketsOk;
    var t := Apply(s, e);
    if e.Dispatch? && s.dispatcher.Scan? {
      ScanFindsIdleWorker(s);
    }
    assert |t.workers| == |s.workers|;
    forall i | 0 <= i < |t.workers| ensures WorkerOk(t, i) {
      match e
      case Work(j) => WorkerKeptByWork(s, j, i);
      case Dispatch => WorkerKeptByDispatch(s, i);
      case Own => WorkerKeptByOwner(s, i);
      case _ => assert WorkerOk(s, i);
    }
  }

  // The effect of replacing one worker or one call on every total.
  lemma WorkerReplaced(ws: seq<Worker>, i: nat, w: Worker)
    requires i < |ws|
    ensures Total(ws[i := w], Flag) == Total(ws, Flag) - Flag(ws[i]) + Flag(w)
    ensures Total(ws[i := w], AboutToSignal) == Total(ws, AboutToSignal) - AboutToSignal(ws[i]) + AboutToSignal(w)
    ensures Total(ws[i := w], Load) == Total(ws, Load) - Load(ws[i]) + Load(w)
  {
    hide Total;
    TotalUpdate(ws, i, w, Flag);
    TotalUpdate(ws, i, w, AboutToSignal);
    TotalUpdate(ws, i, w, Load);
  }

  lemma CallReplaced(cs: seq<CallPc>, c: nat, v: CallPc)
    requires c < |cs|
    ensures Total(cs[c := v], Unsignalled) == Total(cs, Unsignalled) - Unsignalled(cs[c]) + Unsignalled(v)
    ensures Total(cs[c := v], Uncounted) == Total(cs, Uncounted) - Uncounted(cs[c]) + Uncounted(v)
  {
    hide Total;
    TotalUpdate(cs, c, v, Unsignalled);
    TotalUpdate(cs, c, v, Uncounted);
  }

  lemma CountsKeptByCall(s: Pool, e: Event)
    requires Steps(s, e) && (e.Begin? || e.Push? || e.Signal? || e.Spawn?)
    ensures FlagsOk(Apply(s, e)) && QueueOk(Apply(s, e)) && OutstandingOk(Apply(s, e))
  {
    hide Total;
    if e.Spawn? {
      TotalAppend(s.calls, Idle, Unsignalled);
      TotalAppend(s.calls, Idle, Uncounted);
    } else {
      CallReplaced(s.calls, e.c, Apply(s, e).calls[e.c]);
    }
  }

  // What WorkerOk says about the worker alone.
  predicate Sound(w: Worker) {
    && One(w.available) + w.ready + One(Busy(w.pc)) <= 1
    && (Loaded(w) ==> w.slot.Some?)
    && (w.pc.Running? ==> w.slot == Some(w.pc.thunk))
  }

  lemma WorkDelta(w: Worker)
    requires Sound(w) && (w.pc.WaitReady? ==> w.ready > 0) && !w.pc.Unborn? && !w.pc.Exited?
    ensures var v := WorkerNext(w, false);
      && Flag(v) - Flag(w) == One(w.pc.MarkIdle?)
      && AboutToSignal(v) - AboutToSignal(w) == One(w.pc.MarkIdle?) - One(w.pc.SignalIdle?)
      && Load(v) - Load(w) == - One(w.pc.Retire?)
  {
  }

  lemma CountsKeptByWork(s: Pool, i: nat)
    requires Enabled(s, Work(i)) && Sound(s.workers[i]) && !s.done && !s.fault
    requires FlagsOk(s) && QueueOk(s) && OutstandingOk(s)
    ensures FlagsOk(WorkerStep(s, i)) && QueueOk(WorkerStep(s, i)) && OutstandingOk(WorkerStep(s, i))
    ensures !WorkerStep(s, i).fault
  {
    hide Total;
    var w, t := s.workers[i], WorkerStep(s, i);
    WorkDelta(w);
    WorkerReplaced(s.workers, i, WorkerNext(w, false));
    assert t.workers == s.workers[i := WorkerNext(w, false)];
    if w.pc.Retire? {
      TotalBounds(s.workers, Load);
      TotalBounds(s.calls, Uncounted);
      assert Load(w) >= 1;
    }
    assert t.outstanding == s.outstanding - One(w.pc.Retire?);
    assert t.availableWorkers == s.availableWorkers + One(w.pc.SignalIdle?);
  }

  lemma CountsKeptByDispatch(s: Pool)
    requires Steps(s, Dispatch)
    ensures FlagsOk(DispatcherStep(s)) && QueueOk(DispatcherStep(s)) && OutstandingOk(DispatcherStep(s))
    ensures !DispatcherStep(s).fault
  {
    hide Total;
    OneWorkerChanges(s, Dispatch);
    var i, t := WorkerOf(s, Dispatch), DispatcherStep(s);
    if i < |s.workers| {
      WorkerReplaced(s.workers, i, t.workers[i]);
    }
    match s.dispatcher
    case Scan => ScanFindsIdleWorker(s);
    case Pop(_) => PopFindsTask(s);
    case _ =>
  }

  lemma CountsKeptByOwner(s: Pool)
    requires Steps(s, Own)
    ensures FlagsOk(OwnerStep(s)) && QueueOk(OwnerStep(s)) && OutstandingOk(OwnerStep(s))
  {
    hide Total;
    var i, t := WorkerOf(s, Own), OwnerStep(s);
    if i < |s.workers| {
      assert WorkerOk(s, i);
      WorkerReplaced(s.workers, i, t.workers[i]);
    }
  }

  lemma WaitersKeptByWork(s: Pool, i: nat)
    requires WaitersOk(s) && Enabled(s, Work(i))
    ensures WaitersOk(WorkerStep(s, i))
  {
  }

  lemma WaitersKeptByBegin(s: Pool, c: nat)
    requires WaitersOk(s) && OutstandingOk(s) && Enabled(s, Begin(c))
    ensures WaitersOk(Apply(s, Begin(c)))
  {
    hide Total;
    TotalBounds(s.workers, Load);
    TotalBounds(s.calls, Uncounted);
    if c < |s.workers| {
      assert Load(s.workers[c]) >= 1;
    }
  }

  lemma WaitersKeptByCall(s: Pool, e: Event)
    requires WaitersOk(s) && Enabled(s, e) && (e.Push? || e.Signal? || e.Spawn?)
    ensures WaitersOk(Apply(s, e))
  {
  }

  lemma WaitersKeptByWait(s: Pool, e: Event)
    requires WaitersOk(s) && Enabled(s, e) && (e.EnterWait? || e.CheckWait?)
    ensures WaitersOk(Apply(s, e))
  {
  }

  lemma WaitersKeptByDispatch(s: Pool)
    requires WaitersOk(s) && Enabled(s, Dispatch)
    ensures WaitersOk(DispatcherStep(s))
  {
    hide Claimed, Stored, Readied;
    var t := DispatcherStep(s);
    assert |t.workers| == |s.workers| by {
      SameWorkerCount(s);
    }
  }

  lemma SameWorkerCount(s: Pool)
    requires Enabled(s, Dispatch)
    ensures |DispatcherStep(s).workers| == |s.workers|
  {
  }

  lemma WaitersKeptByOwner(s: Pool)
    requires WaitersOk(s) && Enabled(s, Own) && !s.owner.SetDone?
    ensures WaitersOk(OwnerStep(s))
  {
  }

  lemma WaitersKept(s: Pool, e: Event)
    requires WaitersOk(s) && OutstandingOk(s) && Enabled(s, e) && !(e.Own? && s.owner.SetDone?)
    ensures WaitersOk(Apply(s, e))
  {
    hide WaitersOk, OutstandingOk, DispatcherStep, WorkerStep, OwnerStep, Enabled;
    match e
    case Begin(c) => WaitersKeptByBegin(s, c);
    case Work(i) => WaitersKeptByWork(s, i);
    case Dispatch => WaitersKeptByDispatch(s);
    case Own => WaitersKeptByOwner(s);
    case EnterWait => WaitersKeptByWait(s, e);
    case CheckWait(_) => WaitersKeptByWait(s, e);
    case _ => WaitersKeptByCall(s, e);
  }

  // ------------------------------------------------------------ tickets

  lemma TicketKeptByCall(s: Pool, e: Event, k: Ticket)
    requires TicketOk(s, k) && Enabled(s, e) && (e.Begin? || e.Push? || e.Signal? || e.Spawn?)
    ensures TicketOk(Apply(s, e), k)
  {
    hide Total;
    if e.Spawn? {
      TotalAppend(s.calls, Idle, InCall(k));
    } else {
      TotalUpdate(s.calls, e.c, Apply(s, e).calls[e.c], InCall(k));
    }
  }

  lemma WorkTicketDelta(w: Worker, k: Ticket)
    requires Sound(w) && (w.pc.WaitReady? ==> w.ready > 0)
    ensures var v := WorkerNext(w, false);
      && InSlot(k)(v) - InSlot(k)(w) == - One(w.pc.Invoke? && w.slot == Some(k))
      && InRun(k)(v) - InRun(k)(w) == One(w.pc.Invoke? && w.slot == Some(k)) - One(w.pc == Running(k))
  {
  }

  // What a worker's step leaves alone, and what it logs.
  lemma WorkShape(s: Pool, i: nat, k: Ticket)
    requires Enabled(s, Work(i)) && Sound(s.workers[i]) && !s.done
    ensures var w, t := s.workers[i], WorkerStep(s, i);
      && t.workers == s.workers[i := WorkerNext(w, false)]
      && t.calls == s.calls && t.tasks == s.tasks && t.dispatcher == s.dispatcher
      && t.log.tickets == s.log.tickets && t.log.pushed == s.log.pushed && t.log.dispatched == s.log.dispatched
      && multiset(t.log.started)[k] == multiset(s.log.started)[k] + One(w.pc.Invoke? && w.slot == Some(k))
      && multiset(t.log.finished)[k] == multiset(s.log.finished)[k] + One(w.pc == Running(k))
  {
  }

  lemma TicketKeptByWork(s: Pool, i: nat, k: Ticket)
    requires Enabled(s, Work(i)) && Sound(s.workers[i]) && !s.done && TicketOk(s, k)
    ensures TicketOk(WorkerStep(s, i), k)
  {
    hide Total, WorkerStep, WorkerNext, InSlot, InRun, Sound;
    var w := s.workers[i];
    WorkShape(s, i, k);
    assert w.pc.WaitReady? ==> w.ready > 0;
    WorkTicketDelta(w, k);
    TotalUpdate(s.workers, i, WorkerNext(w, false), InSlot(k));
    TotalUpdate(s.workers, i, WorkerNext(w, false), InRun(k));
  }

  lemma TicketKeptByDispatch(s: Pool, k: Ticket)
    requires Steps(s, Dispatch) && TicketOk(s, k)
    ensures TicketOk(DispatcherStep(s), k)
  {
    hide Total;
    OneWorkerChanges(s, Dispatch);
    var i, t := WorkerOf(s, Dispatch), DispatcherStep(s);
    if i < |s.workers| {
      assert WorkerOk(s, i);
      TotalUpdate(s.workers, i, t.workers[i], InSlot(k));
      TotalUpdate(s.workers, i, t.workers[i], InRun(k));
    }
    match s.dispatcher
    case Scan => ScanFindsIdleWorker(s);
    case Pop(_) =>
      PopFindsTask(s);
      assert s.tasks == [s.tasks[0]] + s.tasks[1..];
    case _ =>
  }

  lemma TicketKeptByOwner(s: Pool, k: Ticket)
    requires Steps(s, Own) && TicketOk(s, k)
    ensures TicketOk(OwnerStep(s), k)
  {
    hide Total;
    var i, t := WorkerOf(s, Own), OwnerStep(s);
    if i < |s.workers| {
      assert WorkerOk(s, i);
      TotalUpdate(s.workers, i, t.workers[i], InSlot(k));
      TotalUpdate(s.workers, i, t.workers[i], InRun(k));
    }
  }

  lemma TicketKept(s: Pool, e: Event, k: Ticket)
    requires Steps(s, e) && TicketOk(s, k)
    ensures TicketOk(Apply(s, e), k)
  {
    match e
    case Work(i) => assert WorkerOk(s, i); TicketKeptByWork(s, i, k);
    case Dispatch => TicketKeptByDispatch(s, k);
    case Own => TicketKeptByOwner(s, k);
    case EnterWait =>
    case CheckWait(_) =>
    case _ => TicketKeptByCall(s, e, k);
  }

  lemma TicketsKept(s: Pool, e: Event)
    requires Steps(s, e)
    ensures TicketsOk(Apply(s, e))
  {
    var t := Apply(s, e);
    forall k: Ticket ensures TicketOk(t, k) {
      assert TicketOk(s, k);
      TicketKept(s, e, k);
    }
    if e.Dispatch? && s.dispatcher.Pop? {
      PopFindsTask(s);
      assert s.tasks == [s.tasks[0]] + s.tasks[1..];
    }
  }

  lemma CountsKept(s: Pool, e: Event)
    requires Steps(s, e)
    ensures FlagsOk(Apply(s, e)) && QueueOk(Apply(s, e)) && OutstandingOk(Apply(s, e))
    ensures !Apply(s, e).fault && !Apply(s, e).done
  {
    hide Total;
    match e
    case Work(i) => assert WorkerOk(s, i); CountsKeptByWork(s, i);
    case Dispatch => CountsKeptByDispatch(s);
    case Own => CountsKeptByOwner(s);
    case EnterWait =>
    case CheckWait(_) =>
    case _ => CountsKeptByCall(s, e);
  }

  /** Every step before `done` is set keeps the invariant. */
  lemma LiveKept(s: Pool, e: Event)
    requires Live(s) && Enabled(s, e) && !(e.Own? && s.owner.SetDone?)
    ensures Live(Apply(s, e))
  {
    hide ThreadsOk, WorkersOk, FlagsOk, QueueOk, OutstandingOk, WaitersOk, TicketsOk, Enabled, Apply;
    ThreadsKept(s, e);
    WorkersKept(s, e);
    WaitersKept(s, e);
    TicketsKept(s, e);
    CountsKept(s, e);
  }
}
