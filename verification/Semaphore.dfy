/**
  The counting semaphore built from a mutex and a condition variable. One event is
  one critical section: a caller's test of the value, or a signal with its notify_one.
  Spurious wake-ups are allowed. The pool models use the semaphore as an atomic
  counter; this module shows that the construction behaves as one and loses no wake-up.
 */
module Semaphores {
  import opened Totals

  datatype CallerPc = Away | Arriving | Asleep | Woken

  // `passed` and `signals` count the completed wait() and signal() calls.
  datatype Semaphore = Semaphore(value: int, callers: seq<CallerPc>, passed: nat, signals: nat)

  datatype Event =
    | Call(t: nat)
    | Test(t: nat)
    | SignalNone
    | SignalOne(t: nat)
    | Spurious(t: nat)

  function New(value: int, threads: nat): Semaphore {
    Semaphore(value, seq(threads, _ => Away), 0, 0)
  }

  function Sleeping(c: CallerPc): int { if c.Asleep? then 1 else 0 }
  function Runnable(c: CallerPc): int { if c.Woken? then 1 else 0 }

  predicate Enabled(s: Semaphore, e: Event) {
    match e
    case Call(t) => t < |s.callers| && s.callers[t].Away?
    case Test(t) => t < |s.callers| && (s.callers[t].Arriving? || s.callers[t].Woken?)
    case SignalNone => Total(s.callers, Sleeping) == 0
    case SignalOne(t) => t < |s.callers| && s.callers[t].Asleep?
    case Spurious(t) => t < |s.callers| && s.callers[t].Asleep?
  }

  function Apply(s: Semaphore, e: Event): Semaphore
    requires Enabled(s, e)
  {
    match e
    case Call(t) => s.(callers := s.callers[t := Arriving])
    case Test(t) =>
      if s.value > 0 then s.(value := s.value - 1, callers := s.callers[t := Away], passed := s.passed + 1)
      else s.(callers := s.callers[t := Asleep])
    case SignalNone => s.(value := s.value + 1, signals := s.signals + 1)
    case SignalOne(t) => s.(value := s.value + 1, callers := s.callers[t := Woken], signals := s.signals + 1)
    case Spurious(t) => s.(callers := s.callers[t := Woken])
  }

  // While anyone sleeps, every available unit has a runnable caller coming for it.
  ghost predicate Valid(s: Semaphore, initial: int) {
    && s.value + s.passed == initial + s.signals
    && (Total(s.callers, Sleeping) > 0 ==> s.value <= Total(s.callers, Runnable))
  }

  lemma NewIsValid(value: int, threads: nat)
    ensures Valid(New(value, threads), value)
  {
    TotalConstant(New(value, threads).callers, Sleeping, 0);
  }

  lemma StepKeepsValid(s: Semaphore, e: Event, initial: int)
    requires Valid(s, initial) && Enabled(s, e)
    ensures Valid(Apply(s, e), initial)
  {
    TotalBounds(s.callers, Sleeping);
    TotalBounds(s.callers, Runnable);
    if !e.SignalNone? {
      TotalUpdate(s.callers, e.t, Apply(s, e).callers[e.t], Sleeping);
      TotalUpdate(s.callers, e.t, Apply(s, e).callers[e.t], Runnable);
    }
  }

  /** A wait() that has not returned while the value is positive never depends on another signal. */
  lemma NoLostWakeUp(s: Semaphore, initial: int, t: nat) returns (u: nat)
    requires Valid(s, initial) && s.value > 0
    requires t < |s.callers| && !s.callers[t].Away?
    ensures Enabled(s, Test(u)) && Apply(s, Test(u)).passed == s.passed + 1
  {
    if s.callers[t].Asleep? {
      TotalBounds(s.callers, Sleeping);
      u := TotalWitness(s.callers, Runnable);
    } else {
      u := t;
    }
  }

  /** Calls pass only against units: never more than were there initially or signalled since. */
  lemma PassesAreBacked(s: Semaphore, e: Event, initial: int)
    requires Valid(s, initial) && Enabled(s, e) && Apply(s, e).passed > s.passed
    ensures s.value > 0 && s.passed < initial + s.signals
    ensures Apply(s, e).value == s.value - 1
  {
  }

  // ------------------------------------------------------------ whole runs

  predicate IsRun(s: Semaphore, es: seq<Event>)
    decreases |es|
  {
    es == [] || (Enabled(s, es[0]) && IsRun(Apply(s, es[0]), es[1..]))
  }

  function After(s: Semaphore, es: seq<Event>): Semaphore
    requires IsRun(s, es)
    decreases |es|
  {
    if es == [] then s else After(Apply(s, es[0]), es[1..])
  }

  lemma {:induction false} RunKeepsValid(s: Semaphore, es: seq<Event>, initial: int)
    requires Valid(s, initial) && IsRun(s, es)
    ensures Valid(After(s, es), initial)
    decreases |es|
  {
    hide Valid, Enabled, Apply;
    if es != [] {
      StepKeepsValid(s, es[0], initial);
      RunKeepsValid(Apply(s, es[0]), es[1..], initial);
    }
  }

  /**
    Over every run of a new semaphore: value and completed waits account for every unit, and while
    the value is positive no waiting thread depends on another signal.
   */
  lemma RunsCountAndWake(value: int, threads: nat, es: seq<Event>)
    requires IsRun(New(value, threads), es)
    ensures var s := After(New(value, threads), es);
      && s.value + s.passed == value + s.signals
      && (s.value > 0 && (exists t: nat :: t < |s.callers| && !s.callers[t].Away?) ==>
          exists u: nat :: Enabled(s, Test(u)) && Apply(s, Test(u)).passed == s.passed + 1)
  {
    hide Enabled, Apply, Total;
    NewIsValid(value, threads);
    RunKeepsValid(New(value, threads), es, value);
    var s := After(New(value, threads), es);
    if t: nat :| s.value > 0 && t < |s.callers| && !s.callers[t].Away? {
      var u := NoLostWakeUp(s, value, t);
    }
  }
}
