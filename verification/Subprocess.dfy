/**
  Spawning children from several threads of one process: which pipe ends survive in whom.
  A pipe end is named by the call that made it and its side.
 */
module Subprocess {
  import opened Descriptors

  datatype Side = SupplyRead | SupplyWrite | IngestRead | IngestWrite

  datatype End = File(id: nat) | PipeEnd(call: nat, side: Side)

  // The table an exec'd child should have: the caller's own descriptors with the
  // requested pipe ends as standard input and output.
  function Wired(base: Table<End>, call: nat, wantIn: bool, wantOut: bool): Table<End> {
    var t := if wantIn then base[0 := Descriptor(PipeEnd(call, SupplyRead), false)] else base;
    if wantOut then t[1 := Descriptor(PipeEnd(call, IngestWrite), false)] else t
  }

  // The four descriptors of a call; -1 where no pipe was requested.
  datatype Fds = Fds(supplyRead: int, supplyWrite: int, ingestRead: int, ingestWrite: int)

  function Put(t: Table<End>, fd: int, call: nat, side: Side): Table<End> {
    if fd < 0 then t else t[fd := Descriptor(PipeEnd(call, side), true)]
  }

  // The table between the pipe2 calls and fork.
  function Opened(base: Table<End>, call: nat, f: Fds): Table<End> {
    Put(Put(Put(Put(base, f.supplyRead, call, SupplyRead), f.supplyWrite, call, SupplyWrite),
      f.ingestRead, call, IngestRead), f.ingestWrite, call, IngestWrite)
  }

  // The pipe2 calls hand out the lowest descriptors not in use, one after the other.
  predicate Allotted(base: Table<End>, call: nat, f: Fds, wantIn: bool, wantOut: bool) {
    && (if wantIn then
          && f.supplyRead >= 0 && LowestFree(base, f.supplyRead)
          && f.supplyWrite >= 0 && LowestFree(Put(base, f.supplyRead, call, SupplyRead), f.supplyWrite)
        else f.supplyRead == f.supplyWrite == -1)
    && var t := Put(Put(base, f.supplyRead, call, SupplyRead), f.supplyWrite, call, SupplyWrite);
       if wantOut then
         && f.ingestRead >= 0 && LowestFree(t, f.ingestRead)
         && f.ingestWrite >= 0 && LowestFree(Put(t, f.ingestRead, call, IngestRead), f.ingestWrite)
       else f.ingestRead == f.ingestWrite == -1
  }

  predicate Fresh(base: Table<End>, f: Fds, wantIn: bool, wantOut: bool) {
    && (if wantIn then f.supplyRead >= 0 && f.supplyWrite >= 0 && f.supplyRead != f.supplyWrite
        else f.supplyRead == f.supplyWrite == -1)
    && (if wantOut then f.ingestRead >= 0 && f.ingestWrite >= 0 && f.ingestRead != f.ingestWrite
        else f.ingestRead == f.ingestWrite == -1)
    && (wantIn && wantOut ==>
          f.supplyRead !in {f.ingestRead, f.ingestWrite} && f.supplyWrite !in {f.ingestRead, f.ingestWrite})
    && f.supplyRead !in base && f.supplyWrite !in base && f.ingestRead !in base && f.ingestWrite !in base
  }

  // New descriptors are new; and where they land when 0 or 1 was not open.
  lemma AllottedPlaces(base: Table<End>, call: nat, f: Fds, wantIn: bool, wantOut: bool)
    requires Allotted(base, call, f, wantIn, wantOut)
    ensures Fresh(base, f, wantIn, wantOut)
    ensures wantIn && 0 !in base ==> f.supplyRead == 0
    ensures wantIn && wantOut ==> f.ingestRead > 1 && f.ingestWrite > 1
    ensures !wantIn && wantOut && 1 !in base ==> f.ingestRead == 1 || (f.ingestRead == 0 && f.ingestWrite == 1)
  {
    if wantIn && wantOut {
      var t := Put(Put(base, f.supplyRead, call, SupplyRead), f.supplyWrite, call, SupplyWrite);
      assert 0 in t && 1 in t;
    }
    if !wantIn && wantOut && 1 !in base && f.ingestRead == 0 {
      var t := Put(base, f.ingestRead, call, IngestRead);
      assert 0 in t && 1 !in t;
    }
  }

  method OpenPipes(parent: Process<End>, call: nat, wantIn: bool, wantOut: bool) returns (f: Fds)
    modifies parent
    ensures Allotted(old(parent.table), call, f, wantIn, wantOut)
    ensures parent.table == Opened(old(parent.table), call, f)
  {
    f := Fds(-1, -1, -1, -1);
    if wantIn {
      var r := parent.Open(PipeEnd(call, SupplyRead), true);
      var w := parent.Open(PipeEnd(call, SupplyWrite), true);
      f := f.(supplyRead := r, supplyWrite := w);
    }
    if wantOut {
      var r := parent.Open(PipeEnd(call, IngestRead), true);
      var w := parent.Open(PipeEnd(call, IngestWrite), true);
      f := f.(ingestRead := r, ingestWrite := w);
    }
  }

  // Which of the requested ends really become standard input and output.
  function GetsIn(base: Table<End>, wantIn: bool): bool {
    wantIn && 0 in base
  }

  function GetsOut(base: Table<End>, wantIn: bool, wantOut: bool): bool {
    wantOut && (1 in base || wantIn)
  }

  method WireChild(child: Process<End>, f: Fds, wantIn: bool, wantOut: bool, ghost base: Table<End>, ghost call: nat)
    requires Allotted(base, call, f, wantIn, wantOut) && child.table == Opened(base, call, f)
    modifies child
    ensures child.table == Wired(base, call, GetsIn(base, wantIn), GetsOut(base, wantIn, wantOut))
  {
    hide Opened, Wired, Dup2Of, CloseOf, Allotted;
    WiresIn(base, call, f, wantIn, wantOut);
    WiresOut(base, call, f, wantIn, wantOut);
    AllottedPlaces(base, call, f, wantIn, wantOut);
    if wantIn {
      child.Dup2(f.supplyRead, 0);
      child.Close(f.supplyRead);
      child.Close(f.supplyWrite);
    }
    if wantOut {
      child.Dup2(f.ingestWrite, 1);
      child.Close(f.ingestRead);
      child.Close(f.ingestWrite);
    }
  }

  // The child's table half way: standard input is dealt with, the output pipe still open.
  function HalfWired(base: Table<End>, call: nat, f: Fds, wantIn: bool): Table<End> {
    Opened(Wired(base, call, GetsIn(base, wantIn), false), call, Fds(-1, -1, f.ingestRead, f.ingestWrite))
  }

  lemma WiresIn(base: Table<End>, call: nat, f: Fds, wantIn: bool, wantOut: bool)
    requires Allotted(base, call, f, wantIn, wantOut)
    ensures wantIn ==> f.supplyRead >= 0 && f.supplyWrite >= 0
    ensures HalfWired(base, call, f, wantIn) == if wantIn
      then CloseOf(CloseOf(Dup2Of(Opened(base, call, f), f.supplyRead, 0), f.supplyRead), f.supplyWrite)
      else Opened(base, call, f)
  {
    AllottedPlaces(base, call, f, wantIn, wantOut);
    hide Allotted;
  }

  lemma WiresOut(base: Table<End>, call: nat, f: Fds, wantIn: bool, wantOut: bool)
    requires Allotted(base, call, f, wantIn, wantOut)
    ensures wantOut ==> f.ingestRead >= 0 && f.ingestWrite >= 0
    ensures Wired(base, call, GetsIn(base, wantIn), GetsOut(base, wantIn, wantOut)) == if wantOut
      then CloseOf(CloseOf(Dup2Of(HalfWired(base, call, f, wantIn), f.ingestWrite, 1), f.ingestRead), f.ingestWrite)
      else HalfWired(base, call, f, wantIn)
  {
    AllottedPlaces(base, call, f, wantIn, wantOut);
    hide Allotted;
  }

  // No descriptor of the table belongs to the call yet.
  predicate NewCall(t: Table<End>, call: nat) {
    forall fd :: fd in t && t[fd].end.PipeEnd? ==> t[fd].end.call != call
  }

  predicate HasAt(t: Table<End>, fd: nat, end: End) {
    fd in t && t[fd].end == end
  }

  /**
    One undisturbed call from any table. The child's standard input is the supply pipe if and only if
    descriptor 0 was open; its standard output is the ingest pipe if and only if descriptor 1 was open
    or input was requested too, whose pipe then fills the gap.
   */
  method Spawn(parent: Process<End>, call: nat, supplyChildInput: bool, supplyChildOutput: bool)
    returns (child: Process<End>, supplyfd: int, ingestfd: int)
    requires NewCall(parent.table, call)
    modifies parent
    ensures fresh(child)
    ensures child.table == ExecOf(Wired(old(parent.table), call,
      GetsIn(old(parent.table), supplyChildInput), GetsOut(old(parent.table), supplyChildInput, supplyChildOutput)))
    ensures supplyChildInput ==> (HasAt(child.table, 0, PipeEnd(call, SupplyRead)) <==> 0 in old(parent.table))
    ensures supplyChildOutput ==>
      (HasAt(child.table, 1, PipeEnd(call, IngestWrite)) <==> 1 in old(parent.table) || supplyChildInput)
    ensures !supplyChildInput ==> Inherits(child.table, old(parent.table), 0)
    ensures !supplyChildOutput ==> Inherits(child.table, old(parent.table), 1)
    ensures forall fd :: fd >= 2 ==> Inherits(child.table, old(parent.table), fd)
    ensures parent.table == Put(Put(old(parent.table), supplyfd, call, SupplyWrite), ingestfd, call, IngestRead)
    ensures if supplyChildInput
            then supplyfd >= 0 && supplyfd !in old(parent.table) &&
              supplyfd in parent.table && parent.table[supplyfd] == Descriptor(PipeEnd(call, SupplyWrite), true)
            else supplyfd == -1
    ensures if supplyChildOutput
            then ingestfd >= 0 && ingestfd !in old(parent.table) && ingestfd != supplyfd &&
              ingestfd in parent.table && parent.table[ingestfd] == Descriptor(PipeEnd(call, IngestRead), true)
            else ingestfd == -1
    ensures forall fd :: fd != supplyfd && fd != ingestfd ==>
      (fd in parent.table <==> fd in old(parent.table)) &&
      (fd in parent.table ==> parent.table[fd] == old(parent.table)[fd])
  {
    hide Wired, ExecOf, Opened, Allotted, Inherits, HasAt;
    ghost var base := parent.table;
    var f := OpenPipes(parent, call, supplyChildInput, supplyChildOutput);
    AllottedPlaces(base, call, f, supplyChildInput, supplyChildOutput);
    child := new Process(parent.table);
    WireChild(child, f, supplyChildInput, supplyChildOutput, base, call);
    child.Exec();
    StdioOf(base, call, GetsIn(base, supplyChildInput), GetsOut(base, supplyChildInput, supplyChildOutput));
    OthersOf(base, call, GetsIn(base, supplyChildInput), GetsOut(base, supplyChildInput, supplyChildOutput));
    if supplyChildInput {
      parent.Close(f.supplyRead);
    }
    if supplyChildOutput {
      parent.Close(f.ingestWrite);
    }
    ParentKeeps(base, call, f, supplyChildInput, supplyChildOutput);
    supplyfd, ingestfd := f.supplyWrite, f.ingestRead;
  }

  lemma StdioOf(base: Table<End>, call: nat, wiresIn: bool, wiresOut: bool)
    requires NewCall(base, call)
    ensures HasAt(ExecOf(Wired(base, call, wiresIn, wiresOut)), 0, PipeEnd(call, SupplyRead)) <==> wiresIn
    ensures HasAt(ExecOf(Wired(base, call, wiresIn, wiresOut)), 1, PipeEnd(call, IngestWrite)) <==> wiresOut
  {
  }

  lemma OthersOf(base: Table<End>, call: nat, wiresIn: bool, wiresOut: bool)
    ensures var t := ExecOf(Wired(base, call, wiresIn, wiresOut));
      && (!wiresIn ==> Inherits(t, base, 0)) && (!wiresOut ==> Inherits(t, base, 1))
      && (forall fd: nat :: fd >= 2 ==> Inherits(t, base, fd))
  {
  }

  lemma ParentKeeps(base: Table<End>, call: nat, f: Fds, wantIn: bool, wantOut: bool)
    requires Fresh(base, f, wantIn, wantOut)
    ensures var t := if wantIn then CloseOf(Opened(base, call, f), f.supplyRead) else Opened(base, call, f);
      (if wantOut then CloseOf(t, f.ingestWrite) else t) ==
        Put(Put(base, f.supplyWrite, call, SupplyWrite), f.ingestRead, call, IngestRead)
  {
  }

  // What the child of an undisturbed call with descriptors f runs with.
  function ChildOf(base: Table<End>, call: nat, f: Fds, wantIn: bool, wantOut: bool): Table<End>
    requires Allotted(base, call, f, wantIn, wantOut)
  {
    var t := Opened(base, call, f);
    var u := if wantIn then CloseOf(CloseOf(Dup2Of(t, f.supplyRead, 0), f.supplyRead), f.supplyWrite) else t;
    ExecOf(if wantOut then CloseOf(CloseOf(Dup2Of(u, f.ingestWrite, 1), f.ingestRead), f.ingestWrite) else u)
  }

  /** A caller with descriptor 0 closed asks for input: the child starts without standard input. */
  lemma ClosedStdinLosesInput()
    ensures var base: Table<End> := map[1 := Descriptor(File(1), false), 2 := Descriptor(File(2), false)];
      var f := Fds(0, 3, -1, -1);
      Allotted(base, 7, f, true, false) && 0 !in ChildOf(base, 7, f, true, false)
  {
    var base: Table<End> := map[1 := Descriptor(File(1), false), 2 := Descriptor(File(2), false)];
    var f := Fds(0, 3, -1, -1);
    assert 1 in Put(base, 0, 7, SupplyRead);
  }

  /** A caller with descriptor 1 closed asks for output only: the child starts without standard output. */
  lemma ClosedStdoutLosesOutput()
    ensures var base: Table<End> := map[0 := Descriptor(File(0), false), 2 := Descriptor(File(2), false)];
      var f := Fds(-1, -1, 1, 3);
      Allotted(base, 7, f, false, true) && 1 !in ChildOf(base, 7, f, false, true)
  {
    var base: Table<End> := map[0 := Descriptor(File(0), false), 2 := Descriptor(File(2), false)];
    var f := Fds(-1, -1, 1, 3);
    assert Put(Put(base, -1, 7, SupplyRead), -1, 7, SupplyWrite) == base;
    assert 0 in Put(base, 1, 7, IngestRead);
  }
}
