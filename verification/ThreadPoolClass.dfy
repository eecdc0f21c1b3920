/**
  The pool as an object whose fields the threads update, one method per critical
  section. Each method is proved against the step machine, so every theorem about
  runs of the machine is a theorem about calls of these methods.
 */
module ThreadPoolObject {
  import opened ThreadPoolMachine
  import opened ThreadPoolInvariant
  import opened ThreadPoolTheorems

  class ThreadPool {
    var tasks: seq<Ticket>
    var outstanding: nat
    var queued: nat
    var availableWorkers: nat
    var done: bool
    const wts: array<Worker>
    var dispatcher: DispatcherPc
    var calls: seq<CallPc>
    var waiters: seq<WaiterPc>
    var owner: OwnerPc
    var fault: bool
    var log: Log

    function View(): Pool
      reads this, wts
    {
      Pool(tasks, outstanding, queued, availableWorkers, done, wts[..], dispatcher, calls, waiters, owner, fault, log)
    }

    ghost predicate Valid()
      reads this, wts
    {
      Live(View()) || Down(View())
    }

    constructor (n: nat)
      ensures View() == Init(n) && Valid() && fresh(wts)
    {
      tasks, outstanding, queued, availableWorkers, done := [], 0, 0, 0, false;
      wts := new Worker[n](_ => Worker(Unborn, 0, None, true));
      dispatcher, calls, waiters := DUnborn, seq(n, _ => Idle), [];
      owner, fault, log := Constructing(0, false), false, Log(0, [], [], [], []);
      new;
      assert wts[..] == Init(n).workers;
      InitLive(n);
    }

    // ---------------------------------------------------------- schedule()

    method CountCall(c: nat)
      requires Enabled(View(), Begin(c))
      modifies this
      ensures View() == Apply(old(View()), Begin(c))
    {
      outstanding := outstanding + 1;
      calls := calls[c := Incremented(log.tickets)];
      log := log.(tickets := log.tickets + 1);
    }

    method PushTask(c: nat)
      requires Enabled(View(), Push(c))
      modifies this
      ensures View() == Apply(old(View()), Push(c))
    {
      var t := calls[c].ticket;
      tasks := tasks + [t];
      calls := calls[c := Pushed(t)];
      log := log.(pushed := log.pushed + [t]);
    }

    method AnnounceTask(c: nat)
      requires Enabled(View(), Signal(c))
      modifies this
      ensures View() == Apply(old(View()), Signal(c))
    {
      queued := queued + 1;
      calls := calls[c := Idle];
    }

    // ---------------------------------------------------------- dispatcher()

    // The scan under availLock: the first idle worker is claimed; 0 is the default.
    method ClaimIdleWorker() returns (id: nat)
      modifies wts
      ensures id == FirstIdle(old(wts[..]), 0) && wts[..] == Claimed(old(wts[..]))
      ensures if exists i :: 0 <= i < wts.Length && old(wts[i].available)
              then id < wts.Length && old(wts[id].available) && wts[id] == old(wts[id]).(available := false) &&
                   forall i :: 0 <= i < id ==> !old(wts[i].available)
              else id == 0 && wts[..] == old(wts[..])
      ensures forall i :: 0 <= i < wts.Length && i != id ==> wts[i] == old(wts[i])
    {
      id := 0;
      var i := 0;
      while i < wts.Length
        invariant i <= wts.Length && id == 0 && wts[..] == old(wts[..])
        invariant forall j :: 0 <= j < i ==> !wts[j].available
        invariant FirstIdle(wts[..], 0) == FirstIdle(wts[..], i)
      {
        if wts[i].available {
          id := i;
          assert old(wts[id].available);
          wts[i] := wts[i].(available := false);
          return;
        }
        i := i + 1;
      }
      assert id < wts.Length ==> wts[id] == wts[id].(available := false);
    }

    method DispatchStep()
      requires Enabled(View(), Dispatch)
      modifies this, wts
      ensures View() == Apply(old(View()), Dispatch)
    {
      match dispatcher
      case WaitQueued =>
        queued := queued - 1;
        dispatcher := CheckDoneFirst;
      case CheckDoneFirst =>
        dispatcher := if done then DExited else WaitAvailable;
      case WaitAvailable =>
        availableWorkers := availableWorkers - 1;
        dispatcher := CheckDoneSecond;
      case CheckDoneSecond =>
        dispatcher := if done then DExited else Scan;
      case Scan =>
        var id := ClaimIdleWorker();
        dispatcher := Pop(id);
      case Pop(id) =>
        if tasks == [] {
          fault := true;
        } else {
          var thunk := tasks[0];
          tasks := tasks[1..];
          dispatcher := Assign(id, thunk);
          log := log.(dispatched := log.dispatched + [thunk]);
        }
      case Assign(id, thunk) =>
        if id < wts.Length {
          wts[id] := wts[id].(slot := Some(thunk));
        }
        dispatcher := Wake(id, thunk);
      case Wake(id, _) =>
        if id < wts.Length {
          wts[id] := wts[id].(ready := wts[id].ready + 1);
        }
        dispatcher := WaitQueued;
    }

    // ---------------------------------------------------------- worker(i)

    method NotifyAll()
      modifies this`waiters
      ensures waiters == WakeAll(old(waiters))
    {
      var i := 0;
      while i < |waiters|
        invariant i <= |waiters| == |old(waiters)|
        invariant forall k :: 0 <= k < i ==> waiters[k] == WakeAll(old(waiters))[k]
        invariant forall k :: i <= k < |waiters| ==> waiters[k] == old(waiters)[k]
      {
        if waiters[i] == Asleep {
          waiters := waiters[i := Woken];
        }
        i := i + 1;
      }
    }

    method WorkStep(i: nat)
      requires Enabled(View(), Work(i))
      modifies this, wts
      ensures View() == Apply(old(View()), Work(i))
    {
      var w := wts[i];
      var next := w.pc;
      match w.pc {
        case WaitReady =>
          w := w.(ready := w.ready - 1);
          next := CheckDone;
        case CheckDone =>
          next := if done then Exited else Invoke;
        case Invoke =>
          if w.slot.Some? {
            next := Running(w.slot.value);
            log := log.(started := log.started + [w.slot.value]);
          } else {
            fault := true;
          }
        case Running(t) =>
          next := MarkIdle;
          log := log.(finished := log.finished + [t]);
        case MarkIdle =>
          w := w.(available := true);
          next := SignalIdle;
        case SignalIdle =>
          availableWorkers := availableWorkers + 1;
          next := Retire;
        case Retire =>
          next := WaitReady;
          RetireThunk();
      }
      wts[i] := w.(pc := next);
      assert wts[..] == old(wts[..])[i := w.(pc := next)];
    }

    method RetireThunk()
      modifies this`outstanding, this`waiters, this`fault
      ensures if old(outstanding) == 0 then fault && outstanding == 0 && waiters == old(waiters)
              else fault == old(fault) && outstanding == old(outstanding) - 1 &&
                   waiters == if outstanding == 0 then WakeAll(old(waiters)) else old(waiters)
    {
      if outstanding == 0 {
        fault := true;
      } else {
        outstanding := outstanding - 1;
        if outstanding == 0 {
          NotifyAll();
        }
      }
    }

    // ---------------------------------------------------------- wait()

    method WaitStep(k: nat)
      requires Enabled(View(), CheckWait(k))
      modifies this
      ensures View() == Apply(old(View()), CheckWait(k))
    {
      waiters := waiters[k := if outstanding == 0 then Returned else Asleep];
    }

    // ---------------------------------------------------------- constructor and destructor

    method ConstructStep()
      requires Enabled(View(), Own) && owner.Constructing?
      modifies this, wts
      ensures View() == Apply(old(View()), Own)
    {
      var k := owner.k;
      if owner.started {
        availableWorkers := availableWorkers + 1;
        owner := Constructing(k + 1, false);
      } else if k < wts.Length {
        wts[k] := wts[k].(pc := WaitReady);
        owner := Constructing(k, true);
      } else {
        dispatcher := WaitQueued;
        owner := Open;
      }
    }

    method DestroyStep()
      requires Enabled(View(), Own) && !owner.Constructing?
      modifies this, wts
      ensures View() == Apply(old(View()), Own)
    {
      match owner
      case Open =>
        owner := AwaitZero(|waiters|);
        waiters := waiters + [Entering];
      case AwaitZero(_) =>
        owner := SetDone;
      case SetDone =>
        done := true;
        owner := SignalQueued;
      case SignalQueued =>
        queued := queued + 1;
        owner := SignalAvailable;
      case SignalAvailable =>
        availableWorkers := availableWorkers + 1;
        owner := JoinDispatcher;
      case JoinDispatcher =>
        owner := if 0 < wts.Length then SignalWorker(0) else Destroyed;
      case SignalWorker(i) =>
        wts[i] := wts[i].(ready := wts[i].ready + 1);
        owner := JoinWorker(i);
      case JoinWorker(i) =>
        owner := if i + 1 < wts.Length then SignalWorker(i + 1) else Destroyed;
    }

    // ---------------------------------------------------------- any step

    method SpawnCaller()
      requires Enabled(View(), Spawn)
      modifies this
      ensures View() == Apply(old(View()), Spawn)
    {
      calls := calls + [Idle];
    }

    method StartWaiting()
      requires Enabled(View(), EnterWait)
      modifies this
      ensures View() == Apply(old(View()), EnterWait)
    {
      waiters := waiters + [Entering];
    }

    /** Whichever thread moves, the object stays within the invariant and follows the machine. */
    method Step(e: Event)
      requires Valid() && Enabled(View(), e)
      modifies this, wts
      ensures Valid() && !fault && View() == Apply(old(View()), e)
      ensures owner.Destroyed? ==> AllFinishedOnce(log)
    {
      hide Apply, Enabled, Live, Down, AllFinishedOnce;
      SafeStep(View(), e);
      SafeStateFacts(Apply(View(), e));
      match e
      case Begin(c) => CountCall(c);
      case Push(c) => PushTask(c);
      case Signal(c) => AnnounceTask(c);
      case Spawn => SpawnCaller();
      case Dispatch => DispatchStep();
      case Work(i) => WorkStep(i);
      case EnterWait => StartWaiting();
      case CheckWait(k) => WaitStep(k);
      case Own =>
        if owner.Constructing? {
          ConstructStep();
        } else {
          DestroyStep();
        }
    }

    /** The test under the lock lets a wait() return only when every scheduled thunk has finished. */
    method WaitReturns(k: nat) returns (returned: bool)
      requires Live(View()) && Enabled(View(), CheckWait(k))
      modifies this
      ensures View() == Apply(old(View()), CheckWait(k))
      ensures returned <==> waiters[k] == Returned
      ensures returned ==> AllFinishedOnce(log)
    {
      returned := outstanding == 0;
      if returned {
        ZeroMeansAllFinished(View());
      }
      WaitStep(k);
    }
  }
}
