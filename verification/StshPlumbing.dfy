/**
  Building an n-stage pipeline: one pipe per adjacent pair, made without close-on-exec, so every
  copy that fork hands on must be closed by hand.
 */
module StshPlumbing {
  import opened Descriptors

  datatype End = File(id: nat) | PipeEnd(pipe: nat, write: bool) | InputFile | OutputFile

  function Put(t: Table<End>, fd: int, end: End): Table<End> {
    if fd < 0 then t else t[fd := Descriptor(end, false)]
  }

  // Standard input and output of stage i as far as pipes go.
  function Piped(base: Table<End>, i: nat, n: nat): Table<End> {
    var t := if i > 0 then Put(base, 0, PipeEnd(i - 1, false)) else base;
    if i + 1 < n then Put(t, 1, PipeEnd(i, true)) else t
  }

  // What stage i of n runs with, given the shell's own table.
  function StageTable(base: Table<End>, i: nat, n: nat, input: bool, output: bool): Table<End> {
    var t := if i == 0 && input then Put(Piped(base, i, n), 0, InputFile) else Piped(base, i, n);
    if i + 1 == n && output then Put(t, 1, OutputFile) else t
  }

  predicate HasAt(t: Table<End>, fd: nat, end: End) {
    fd in t && t[fd].end == end
  }

  /**
    What stage i of n must run with: the first reads the input file, the last writes the output file,
    each other standard descriptor is a pipe end or the shell's own, and nothing else is added or lost.
   */
  ghost predicate Plumbed(t: Table<End>, base: Table<End>, i: nat, n: nat, input: bool, output: bool) {
    && (forall fd: nat :: HasAt(t, fd, InputFile) <==> fd == 0 && i == 0 && input)
    && (forall fd: nat :: HasAt(t, fd, OutputFile) <==> fd == 1 && i == n - 1 && output)
    && (forall fd: nat, p: nat :: HasAt(t, fd, PipeEnd(p, false)) <==> fd == 0 && p == i - 1)
    && (forall fd: nat, p: nat :: HasAt(t, fd, PipeEnd(p, true)) <==> fd == 1 && p == i && i < n - 1)
    && (i == 0 && !input ==> Inherits(t, base, 0))
    && (i == n - 1 && !output ==> Inherits(t, base, 1))
    && (forall fd: nat :: fd >= 2 ==> Inherits(t, base, fd))
  }

  predicate IsBase(base: Table<End>) {
    0 in base && 1 in base && forall fd :: fd in base ==> base[fd].end.File?
  }

  // The shell's table before stage i: only the read end that stage i will use is extra.
  function Between(base: Table<End>, i: nat, n: nat, prevRead: int): Table<End> {
    if 0 < i < n then Put(base, prevRead, PipeEnd(i - 1, false)) else base
  }

  function Forking(base: Table<End>, i: nat, n: nat, prevRead: int, readEnd: int, writeEnd: int): Table<End> {
    Put(Put(Between(base, i, n, prevRead), readEnd, PipeEnd(i, false)), writeEnd, PipeEnd(i, true))
  }

  // The descriptors in play are new and distinct.
  predicate Apart(base: Table<End>, i: nat, n: nat, prevRead: int, readEnd: int, writeEnd: int) {
    && i < n && prevRead !in base
    && (if i == 0 then prevRead == -1 else prevRead >= 0)
    && (if i + 1 < n then readEnd >= 0 && writeEnd >= 0 else readEnd == writeEnd == -1)
    && (i + 1 < n ==>
      readEnd !in base && writeEnd !in base && readEnd != writeEnd && prevRead != readEnd && prevRead != writeEnd)
  }

  // ------------------------------------------------------------ one stage

  lemma TakesInput(base: Table<End>, i: nat, n: nat, prevRead: int, readEnd: int, writeEnd: int)
    requires IsBase(base) && Apart(base, i, n, prevRead, readEnd, writeEnd) && i > 0
    ensures CloseOf(Dup2Of(Forking(base, i, n, prevRead, readEnd, writeEnd), prevRead, 0), prevRead) ==
      Put(Put(Put(base, 0, PipeEnd(i - 1, false)), readEnd, PipeEnd(i, false)), writeEnd, PipeEnd(i, true))
  {
  }

  lemma TakesOutput(t: Table<End>, i: nat, readEnd: int, writeEnd: int)
    requires 1 in t && readEnd >= 0 && writeEnd >= 0 && readEnd !in t && writeEnd !in t && readEnd != writeEnd
    ensures var u := Put(Put(t, readEnd, PipeEnd(i, false)), writeEnd, PipeEnd(i, true));
      CloseOf(CloseOf(Dup2Of(u, writeEnd, 1), readEnd), writeEnd)
      == Put(t, 1, PipeEnd(i, true))
  {
  }

  lemma Redirects(t: Table<End>, fd: nat, to: nat, end: End)
    requires to in t && fd !in t
    ensures CloseOf(Dup2Of(t[fd := Descriptor(end, false)], fd, to), fd) == Put(t, to, end)
  {
  }

  lemma StdioOpen(base: Table<End>, i: nat, n: nat)
    requires IsBase(base)
    ensures 0 in Piped(base, i, n) && 1 in Piped(base, i, n)
  {
  }

  lemma StageIsPlumbed(base: Table<End>, i: nat, n: nat, input: bool, output: bool)
    requires IsBase(base) && i < n
    ensures Plumbed(ExecOf(StageTable(base, i, n, input, output)), base, i, n, input, output)
  {
    hide HasAt, Inherits;
    var t := ExecOf(StageTable(base, i, n, input, output));
    FilesAt(base, i, n, input, output);
    PipesAt(base, i, n, input, output);
    OthersAt(base, i, n, input, output);
    hide StageTable, ExecOf, IsBase;
  }

  lemma FilesAt(base: Table<End>, i: nat, n: nat, input: bool, output: bool)
    requires IsBase(base) && i < n
    ensures var t := ExecOf(StageTable(base, i, n, input, output));
      && (forall fd: nat :: HasAt(t, fd, InputFile) <==> fd == 0 && i == 0 && input)
      && (forall fd: nat :: HasAt(t, fd, OutputFile) <==> fd == 1 && i == n - 1 && output)
  {
  }

  lemma PipesAt(base: Table<End>, i: nat, n: nat, input: bool, output: bool)
    requires IsBase(base) && i < n
    ensures var t := ExecOf(StageTable(base, i, n, input, output));
      && (forall fd: nat, p: nat :: HasAt(t, fd, PipeEnd(p, false)) <==> fd == 0 && p == i - 1)
      && (forall fd: nat, p: nat :: HasAt(t, fd, PipeEnd(p, true)) <==> fd == 1 && p == i && i < n - 1)
  {
  }

  lemma OthersAt(base: Table<End>, i: nat, n: nat, input: bool, output: bool)
    requires i < n
    ensures var t := ExecOf(StageTable(base, i, n, input, output));
      && (i == 0 && !input ==> Inherits(t, base, 0)) && (i == n - 1 && !output ==> Inherits(t, base, 1))
      && (forall fd: nat :: fd >= 2 ==> Inherits(t, base, fd))
  {
  }

  // The child's side: pipes first, then the redirections at the two ends.
  method RunStage(child: Process<End>, i: nat, n: nat, input: bool, output: bool,
      prevRead: int, readEnd: int, writeEnd: int, ghost base: Table<End>)
    requires IsBase(base) && Apart(base, i, n, prevRead, readEnd, writeEnd)
    requires child.table == Forking(base, i, n, prevRead, readEnd, writeEnd)
    modifies child
    ensures child.table == ExecOf(StageTable(base, i, n, input, output))
    ensures Plumbed(child.table, base, i, n, input, output)
  {
    hide Dup2Of, CloseOf, ExecOf, Plumbed;
    StageIsPlumbed(base, i, n, input, output);
    if prevRead != -1 {
      TakesInput(base, i, n, prevRead, readEnd, writeEnd);
      child.Dup2(prevRead, 0);
      child.Close(prevRead);
    }
    if i + 1 < n {
      TakesOutput(if i > 0 then Put(base, 0, PipeEnd(i - 1, false)) else base, i, readEnd, writeEnd);
      child.Dup2(writeEnd, 1);
      child.Close(readEnd);
      child.Close(writeEnd);
    }
    assert child.table == Piped(base, i, n);
    hide Piped, Put, Forking;
    StdioOpen(base, i, n);
    Redirect(child, i, n, input, output, base);
    child.Exec();
  }

  method Redirect(child: Process<End>, i: nat, n: nat, input: bool, output: bool, ghost base: Table<End>)
    requires i < n && IsBase(base) && child.table == Piped(base, i, n)
    modifies child
    ensures child.table == StageTable(base, i, n, input, output)
  {
    hide Dup2Of, CloseOf, Piped;
    StdioOpen(base, i, n);
    if i == 0 && input {
      var fd := child.Open(InputFile, false);
      Redirects(Piped(base, i, n), fd, 0, InputFile);
      child.Dup2(fd, 0);
      child.Close(fd);
    }
    if i + 1 == n && output {
      ghost var t := child.table;
      var fd := child.Open(OutputFile, false);
      Redirects(t, fd, 1, OutputFile);
      child.Dup2(fd, 1);
      child.Close(fd);
    }
  }

  // ------------------------------------------------------------ the shell's side

  lemma CleansUp(base: Table<End>, i: nat, n: nat, prevRead: int, readEnd: int, writeEnd: int)
    requires Apart(base, i, n, prevRead, readEnd, writeEnd)
    ensures var t := Forking(base, i, n, prevRead, readEnd, writeEnd);
      var u := if prevRead != -1 then CloseOf(t, prevRead) else t;
      Between(base, i + 1, n, if i + 1 < n then readEnd else prevRead) == if i + 1 < n then CloseOf(u, writeEnd) else u
  {
  }

  // The second close of the last read end finds nothing to close.
  lemma ClosesNothing(base: Table<End>, fd: nat)
    requires fd !in base
    ensures CloseOf(base, fd) == base
  {
  }

  method OpenPipe(shell: Process<End>, i: nat, n: nat, prevRead: int, ghost base: Table<End>)
    returns (readEnd: int, writeEnd: int)
    requires i < n && prevRead !in base && (if i == 0 then prevRead == -1 else prevRead >= 0)
    requires shell.table == Between(base, i, n, prevRead)
    modifies shell
    ensures Apart(base, i, n, prevRead, readEnd, writeEnd)
    ensures shell.table == Forking(base, i, n, prevRead, readEnd, writeEnd)
  {
    readEnd, writeEnd := -1, -1;
    if i + 1 < n {
      readEnd := shell.Open(PipeEnd(i, false), false);
      writeEnd := shell.Open(PipeEnd(i, true), false);
    }
  }

  /**
    runPipeline up to the job table: every stage's table and process group, and the shell's own
    table as it was, although the last read end is closed twice.
   */
  method RunPipeline(shell: Process<End>, pids: seq<nat>, input: bool, output: bool)
    returns (stages: seq<Table<End>>, groups: seq<nat>)
    requires IsBase(shell.table) && forall i :: 0 <= i < |pids| ==> pids[i] > 0
    modifies shell
    ensures shell.table == old(shell.table)
    ensures |stages| == |pids| && |groups| == |pids|
    ensures forall i :: 0 <= i < |pids| ==>
      stages[i] == ExecOf(StageTable(old(shell.table), i, |pids|, input, output)) && groups[i] == pids[0]
    ensures forall i :: 0 <= i < |pids| ==> Plumbed(stages[i], old(shell.table), i, |pids|, input, output)
  {
    hide Forking, StageTable, Dup2Of, CloseOf, ExecOf, Plumbed;
    var n := |pids|;
    var pgid: nat, prevRead := 0, -1;
    ghost var base := shell.table;
    stages, groups := [], [];
    for i := 0 to n
      invariant |stages| == i && |groups| == i
      invariant pgid == (if i == 0 then 0 else pids[0])
      invariant prevRead !in base && (if i == 0 then prevRead == -1 else prevRead >= -1)
      invariant 0 < i < n ==> prevRead >= 0
      invariant shell.table == Between(base, i, n, prevRead)
      invariant forall k :: 0 <= k < i ==>
        stages[k] == ExecOf(StageTable(base, k, n, input, output)) && groups[k] == pids[0]
      invariant forall k :: 0 <= k < i ==> Plumbed(stages[k], base, k, n, input, output)
    {
      var readEnd, writeEnd := OpenPipe(shell, i, n, prevRead, base);
      var child := new Process(shell.table);
      var desired := if pgid == 0 then pids[i] else pgid;
      RunStage(child, i, n, input, output, prevRead, readEnd, writeEnd, base);
      stages, groups := stages + [child.table], groups + [desired];
      if pgid == 0 {
        pgid := pids[i];
      }
      CleansUp(base, i, n, prevRead, readEnd, writeEnd);
      if prevRead != -1 {
        shell.Close(prevRead);
      }
      if i + 1 < n {
        shell.Close(writeEnd);
        prevRead := readEnd;
      }
    }
    if prevRead != -1 {
      ClosesNothing(base, prevRead);
      shell.Close(prevRead);
    }
  }

  // ------------------------------------------------------------ who holds what

  /** Stage i holds the read end of pipe i - 1, the write end of pipe i, and no other pipe end. */
  lemma StageHolds(base: Table<End>, i: nat, n: nat, input: bool, output: bool, pipe: nat, write: bool)
    requires IsBase(base) && i < n
    ensures Holds(ExecOf(StageTable(base, i, n, input, output)), PipeEnd(pipe, write)) <==>
      (if write then pipe == i && i + 1 < n else pipe + 1 == i)
  {
    var t := ExecOf(StageTable(base, i, n, input, output));
    if write && pipe == i && i + 1 < n {
      assert 1 in t && t[1].end == PipeEnd(pipe, write);
    }
    if !write && pipe + 1 == i {
      assert 0 in t && t[0].end == PipeEnd(pipe, write);
    }
  }

  /**
    While some stages have exited, a pipe still has a writer exactly when the stage before it is
    still there: each stage sees end of file as soon as its predecessor is gone.
   */
  lemma EndOfFileSpreads(base: Table<End>, n: nat, input: bool, output: bool, alive: set<nat>, pipe: nat)
    requires IsBase(base) && pipe + 1 < n && forall i :: i in alive ==> i < n
    ensures (exists i :: i in alive && Holds(ExecOf(StageTable(base, i, n, input, output)), PipeEnd(pipe, true))) <==>
      pipe in alive
  {
    hide Holds, ExecOf, StageTable, IsBase;
    forall i | i in alive
      ensures Holds(ExecOf(StageTable(base, i, n, input, output)), PipeEnd(pipe, true)) <==> i == pipe
    {
      StageHolds(base, i, n, input, output, pipe, true);
    }
    if pipe in alive {
      assert Holds(ExecOf(StageTable(base, pipe, n, input, output)), PipeEnd(pipe, true));
    }
  }

  // ------------------------------------------------------------ descriptors 0 and 1 must be open

  // What the two stages of `a | b` run with when pipe returns r and w, from any table of the shell.
  function FirstOfTwo(base: Table<End>, r: nat, w: nat): Table<End> {
    var t := Put(Put(base, r, PipeEnd(0, false)), w, PipeEnd(0, true));
    ExecOf(CloseOf(CloseOf(Dup2Of(t, w, 1), r), w))
  }

  function SecondOfTwo(base: Table<End>, r: nat): Table<End> {
    ExecOf(CloseOf(Dup2Of(Put(base, r, PipeEnd(0, false)), r, 0), r))
  }

  /**
    The plumbing needs a shell with standard input and output open: of two stages the first writes
    the pipe if and only if descriptor 1 was open, the second reads it if and only if 0 was.
   */
  lemma TwoStagesNeedStdio(base: Table<End>, r: nat, w: nat)
    requires forall fd :: fd in base ==> base[fd].end.File?
    requires LowestFree(base, r) && LowestFree(Put(base, r, PipeEnd(0, false)), w)
    ensures HasAt(FirstOfTwo(base, r, w), 1, PipeEnd(0, true)) <==> 1 in base
    ensures HasAt(SecondOfTwo(base, r), 0, PipeEnd(0, false)) <==> 0 in base
  {
    var t := Put(base, r, PipeEnd(0, false));
    assert r in t;
    if 1 !in base && r != 1 {
      assert r == 0 && 0 in t && 1 !in t;
    }
  }
}
