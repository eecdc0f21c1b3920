/**
  Any number of threads spawning children at once. The threads share one descriptor table;
  fork copies whatever it holds at that moment; every system call is one step.
 */
module SubprocessRuns {
  import opened Descriptors
  import opened Subprocess

  datatype CallPc = MakeSupply | MakeIngest | Fork | CloseSupplyRead | CloseIngestWrite | Returned

  // A call of subprocess(): its local variables and which of its descriptors it has closed.
  datatype Call = Call(wantIn: bool, wantOut: bool, pc: CallPc, fds: map<Side, nat>, closed: set<Side>) {
    predicate Open(side: Side) {
      side in fds && side !in closed
    }
  }

  datatype ChildPc =
    | DupIn | CloseInRead | CloseInWrite | DupOut | CloseOutRead | CloseOutWrite | Execing | Running | Gone

  datatype Child = Child(call: nat, wantIn: bool, wantOut: bool, fds: map<Side, nat>, pc: ChildPc, table: Table<End>)

  datatype State = State(parent: Table<End>, calls: seq<Call>, children: seq<Child>)

  datatype Event =
    | Start(wantIn: bool, wantOut: bool)      // a thread enters subprocess()
    | MakePipe(c: nat, read: nat, write: nat) // pipe2(..., O_CLOEXEC) returning the lowest free descriptors
    | ForkChild(c: nat)
    | ParentClose(c: nat)
    | Release(c: nat, side: Side)             // the caller closes supplyfd or ingestfd
    | ChildStep(k: nat)
    | ChildExit(k: nat)

  function AfterSupply(wantOut: bool): CallPc {
    if wantOut then MakeIngest else Fork
  }

  function FirstPc(wantIn: bool, wantOut: bool): CallPc {
    if wantIn then MakeSupply else AfterSupply(wantOut)
  }

  function ReadSide(pc: CallPc): Side {
    if pc == MakeSupply then SupplyRead else IngestRead
  }

  function WriteSide(pc: CallPc): Side {
    if pc == MakeSupply then SupplyWrite else IngestWrite
  }

  function ChildStart(wantIn: bool, wantOut: bool): ChildPc {
    if wantIn then DupIn else if wantOut then DupOut else Execing
  }

  predicate Enabled(s: State, e: Event) {
    match e
    case Start(_, _) => true
    case MakePipe(c, r, w) =>
      && c < |s.calls| && s.calls[c].pc in {MakeSupply, MakeIngest}
      && LowestFree(s.parent, r) && LowestFree(s.parent[r := Descriptor(PipeEnd(c, ReadSide(s.calls[c].pc)), true)], w)
    case ForkChild(c) => c < |s.calls| && s.calls[c].pc == Fork
    case ParentClose(c) => c < |s.calls| && s.calls[c].pc in {CloseSupplyRead, CloseIngestWrite}
    case Release(c, side) =>
      c < |s.calls| && s.calls[c].pc == Returned && side in {SupplyWrite, IngestRead} && s.calls[c].Open(side)
    case ChildStep(k) => k < |s.children| && s.children[k].pc !in {Running, Gone}
    case ChildExit(k) => k < |s.children| && s.children[k].pc == Running
  }

  function Fd(fds: map<Side, nat>, side: Side): nat {
    if side in fds then fds[side] else 0
  }

  function StepChild(ch: Child): Child {
    match ch.pc
    case DupIn => ch.(pc := CloseInRead, table := Dup2Of(ch.table, Fd(ch.fds, SupplyRead), 0))
    case CloseInRead => ch.(pc := CloseInWrite, table := CloseOf(ch.table, Fd(ch.fds, SupplyRead)))
    case CloseInWrite =>
      ch.(pc := if ch.wantOut then DupOut else Execing, table := CloseOf(ch.table, Fd(ch.fds, SupplyWrite)))
    case DupOut => ch.(pc := CloseOutRead, table := Dup2Of(ch.table, Fd(ch.fds, IngestWrite), 1))
    case CloseOutRead => ch.(pc := CloseOutWrite, table := CloseOf(ch.table, Fd(ch.fds, IngestRead)))
    case CloseOutWrite => ch.(pc := Execing, table := CloseOf(ch.table, Fd(ch.fds, IngestWrite)))
    case Execing => ch.(pc := Running, table := ExecOf(ch.table))
    case Running => ch
    case Gone => ch
  }

  // close(fds[side]) in the shared table, recorded as closed; closeIfOpen skips -1.
  function CloseSide(s: State, c: nat, side: Side, pc: CallPc): State
    requires c < |s.calls|
  {
    var call := s.calls[c];
    if side in call.fds then
      s.(parent := CloseOf(s.parent, call.fds[side]),
        calls := s.calls[c := call.(pc := pc, closed := call.closed + {side})])
    else s.(calls := s.calls[c := call.(pc := pc)])
  }

  function Piped(call: Call, r: nat, w: nat): Call {
    call.(pc := if call.pc == MakeSupply then AfterSupply(call.wantOut) else Fork,
      fds := call.fds[ReadSide(call.pc) := r][WriteSide(call.pc) := w])
  }

  function Forked(s: State, c: nat): Child
    requires c < |s.calls|
  {
    var call := s.calls[c];
    Child(c, call.wantIn, call.wantOut, call.fds, ChildStart(call.wantIn, call.wantOut), s.parent)
  }

  function Apply(s: State, e: Event): State
    requires Enabled(s, e)
  {
    match e
    case Start(wantIn, wantOut) => s.(calls := s.calls + [Call(wantIn, wantOut, FirstPc(wantIn, wantOut), map[], {})])
    case MakePipe(c, r, w) =>
      var call := s.calls[c];
      s.(parent := s.parent[r := Descriptor(PipeEnd(c, ReadSide(call.pc)), true)]
                           [w := Descriptor(PipeEnd(c, WriteSide(call.pc)), true)],
        calls := s.calls[c := Piped(call, r, w)])
    case ForkChild(c) =>
      s.(calls := s.calls[c := s.calls[c].(pc := CloseSupplyRead)], children := s.children + [Forked(s, c)])
    case ParentClose(c) =>
      if s.calls[c].pc == CloseSupplyRead then CloseSide(s, c, SupplyRead, CloseIngestWrite)
      else CloseSide(s, c, IngestWrite, Returned)
    case Release(c, side) => CloseSide(s, c, side, Returned)
    case ChildStep(k) => s.(children := s.children[k := StepChild(s.children[k])])
    case ChildExit(k) => s.(children := s.children[k := s.children[k].(pc := Gone, table := map[])])
  }

  // ------------------------------------------------------------ the invariant

  // The process starts with descriptors 0 and 1 open, and none of its files is a pipe made here.
  predicate IsBase(base: Table<End>) {
    0 in base && 1 in base && Files(base)
  }

  predicate Files(base: Table<End>) {
    forall fd :: fd in base ==> base[fd].end.File?
  }

  predicate CallShape(call: Call) {
    && (call.pc == MakeSupply ==> call.wantIn) && (call.pc == MakeIngest ==> call.wantOut)
    && (forall side :: side in call.fds <==> Made(call, side))
    && (forall side :: side in call.closed ==> Made(call, side))
    && (SupplyRead in call.closed <==> call.wantIn && (call.pc.CloseIngestWrite? || call.pc.Returned?))
    && (IngestWrite in call.closed <==> call.wantOut && call.pc.Returned?)
    && (!call.pc.Returned? ==> SupplyWrite !in call.closed && IngestRead !in call.closed)
  }

  predicate Supplies(side: Side) {
    side.SupplyRead? || side.SupplyWrite?
  }

  predicate Made(call: Call, side: Side) {
    if Supplies(side) then call.wantIn && !call.pc.MakeSupply?
    else call.wantOut && !call.pc.MakeSupply? && !call.pc.MakeIngest?
  }

  // The shared table holds the original descriptors and, close-on-exec, exactly the open ends.
  predicate HasBase(t: Table<End>, base: Table<End>) {
    forall fd :: fd in base ==> fd in t && t[fd] == base[fd]
  }

  // Every other descriptor is close-on-exec and is the open end of one call.
  predicate Accounted(t: Table<End>, calls: seq<Call>, base: Table<End>) {
    forall fd :: fd in t && fd !in base ==>
      && t[fd].cloexec && t[fd].end.PipeEnd? && t[fd].end.call < |calls|
      && calls[t[fd].end.call].Open(t[fd].end.side) && calls[t[fd].end.call].fds[t[fd].end.side] == fd
  }

  // Every open end of a call is where the call's variable says.
  ghost predicate EndsInPlace(t: Table<End>, calls: seq<Call>, base: Table<End>) {
    forall c, side :: 0 <= c < |calls| && calls[c].Open(side) ==>
      calls[c].fds[side] !in base && calls[c].fds[side] in t &&
        t[calls[c].fds[side]] == Descriptor(PipeEnd(c, side), true)
  }

  ghost predicate ParentOk(s: State, base: Table<End>) {
    HasBase(s.parent, base) && Accounted(s.parent, s.calls, base) && EndsInPlace(s.parent, s.calls, base)
  }

  predicate InDone(pc: ChildPc) {
    pc != DupIn
  }

  predicate OutDone(pc: ChildPc) {
    pc in {CloseOutRead, CloseOutWrite, Execing, Running}
  }

  // Before exec: the original descriptors, some of them replaced, and close-on-exec ends.
  predicate Before(t: Table<End>, base: Table<End>, wired: Table<End>) {
    && wired.Keys == base.Keys
    && (forall fd :: fd in base ==> fd in t && t[fd] == wired[fd])
    && (forall fd :: fd in t && fd !in base ==> t[fd].cloexec)
  }

  predicate At(ch: Child, side: Side) {
    side in ch.fds && ch.fds[side] in ch.table && ch.table[ch.fds[side]].end == PipeEnd(ch.call, side)
  }

  predicate ChildShape(ch: Child, base: Table<End>) {
    && (ch.pc in {DupIn, CloseInRead, CloseInWrite} ==> ch.wantIn)
    && (ch.pc in {DupOut, CloseOutRead, CloseOutWrite} ==> ch.wantOut)
    && (forall side :: side in ch.fds <==> if Supplies(side) then ch.wantIn else ch.wantOut)
    && (forall side :: side in ch.fds ==> ch.fds[side] !in base)
    && (forall a, b :: a in ch.fds && b in ch.fds && ch.fds[a] == ch.fds[b] ==> a == b)
  }

  function WiredSoFar(ch: Child, base: Table<End>): Table<End> {
    Wired(base, ch.call, ch.wantIn && InDone(ch.pc), ch.wantOut && OutDone(ch.pc))
  }

  predicate ChildTable(ch: Child, base: Table<End>) {
    if ch.pc == Running then ch.table == ExecOf(WiredSoFar(ch, base))
    else if ch.pc == Gone then ch.table == map[]
    else
      && Before(ch.table, base, WiredSoFar(ch, base))
      && (ch.pc == DupIn ==> At(ch, SupplyRead))
      && (ch.pc in {DupIn, CloseInRead, CloseInWrite, DupOut} && ch.wantOut ==> At(ch, IngestWrite))
  }

  predicate ChildOk(ch: Child, base: Table<End>) {
    ChildShape(ch, base) && ChildTable(ch, base)
  }

  ghost predicate Inv(s: State, base: Table<End>) {
    && IsBase(base)
    && (forall c :: 0 <= c < |s.calls| ==> CallShape(s.calls[c]))
    && ParentOk(s, base)
    && (forall k :: 0 <= k < |s.children| ==> s.children[k].call < |s.calls| && ChildOk(s.children[k], base))
  }

  // ------------------------------------------------------------ children

  lemma Dup2Kept(t: Table<End>, base: Table<End>, wired: Table<End>, from: nat, to: nat)
    requires Before(t, base, wired) && from in t && from !in base && to in base
    ensures Before(Dup2Of(t, from, to), base, wired[to := Descriptor(t[from].end, false)])
  {
  }

  lemma CloseKept(t: Table<End>, base: Table<End>, wired: Table<End>, fd: nat)
    requires Before(t, base, wired) && fd !in base
    ensures Before(CloseOf(t, fd), base, wired)
  {
  }

  lemma ExecKept(t: Table<End>, base: Table<End>, wired: Table<End>)
    requires Before(t, base, wired)
    ensures ExecOf(t) == ExecOf(wired)
  {
  }

  lemma WiredIn(base: Table<End>, call: nat)
    requires IsBase(base)
    ensures Wired(base, call, true, false) == base[0 := Descriptor(PipeEnd(call, SupplyRead), false)]
    ensures Wired(base, call, false, false) == base
  {
  }

  lemma WiredOut(base: Table<End>, call: nat, wantIn: bool)
    requires IsBase(base)
    ensures Wired(base, call, wantIn, true) ==
      Wired(base, call, wantIn, false)[1 := Descriptor(PipeEnd(call, IngestWrite), false)]
  {
  }

  lemma DupKept(ch: Child, base: Table<End>)
    requires IsBase(base) && ChildOk(ch, base) && ch.pc in {DupIn, DupOut}
    ensures ChildTable(StepChild(ch), base)
  {
    hide Before, Wired;
    if ch.pc == DupIn {
      WiredIn(base, ch.call);
      Dup2Kept(ch.table, base, Wired(base, ch.call, false, false), ch.fds[SupplyRead], 0);
    } else {
      WiredOut(base, ch.call, ch.wantIn);
      Dup2Kept(ch.table, base, Wired(base, ch.call, ch.wantIn, false), ch.fds[IngestWrite], 1);
    }
  }

  lemma ClosesKept(ch: Child, base: Table<End>)
    requires ChildOk(ch, base) && ch.pc in {CloseInRead, CloseInWrite, CloseOutRead, CloseOutWrite}
    ensures ChildTable(StepChild(ch), base)
  {
    hide Before, Wired;
    var side := match ch.pc
      case CloseInRead => SupplyRead
      case CloseInWrite => SupplyWrite
      case CloseOutRead => IngestRead
      case _ => IngestWrite;
    CloseKept(ch.table, base, WiredSoFar(ch, base), ch.fds[side]);
  }

  lemma ChildStepKept(ch: Child, base: Table<End>)
    requires IsBase(base) && ChildOk(ch, base) && ch.pc !in {Running, Gone}
    ensures ChildOk(StepChild(ch), base) && StepChild(ch).call == ch.call
  {
    assert ChildShape(StepChild(ch), base);
    hide ChildShape, Before, Wired, StepChild;
    if ch.pc in {DupIn, DupOut} {
      DupKept(ch, base);
    } else if ch.pc == Execing {
      ExecStepKept(ch, base);
    } else {
      ClosesKept(ch, base);
    }
    SameCall(ch);
  }

  lemma ExecStepKept(ch: Child, base: Table<End>)
    requires ChildOk(ch, base) && ch.pc == Execing
    ensures ChildTable(StepChild(ch), base)
  {
    hide Before, Wired, ExecOf;
    ExecKept(ch.table, base, WiredSoFar(ch, base));
  }

  lemma SameCall(ch: Child)
    ensures StepChild(ch).call == ch.call
  {
  }

  // ------------------------------------------------------------ the shared table

  lemma StartKept(s: State, base: Table<End>, e: Event)
    requires e.Start? && Inv(s, base) && Enabled(s, e)
    ensures Inv(Apply(s, e), base)
  {
    hide ChildOk, IsBase, HasBase, CloseSide, Piped, StepChild, Forked;
  }

  lemma PipeShape(call: Call, r: nat, w: nat)
    requires CallShape(call) && (call.pc.MakeSupply? || call.pc.MakeIngest?)
    ensures ReadSide(call.pc) !in call.fds && WriteSide(call.pc) !in call.fds && call.closed == {}
    ensures CallShape(Piped(call, r, w))
  {
    forall side ensures side !in call.closed {
      assert side in call.closed ==> Made(call, side);
    }
  }

  lemma PipeInPlace(s: State, base: Table<End>, c: nat, r: nat, w: nat)
    requires ParentOk(s, base) && Enabled(s, MakePipe(c, r, w)) && s.calls[c].closed == {}
    requires ReadSide(s.calls[c].pc) !in s.calls[c].fds && WriteSide(s.calls[c].pc) !in s.calls[c].fds
    ensures var t := Apply(s, MakePipe(c, r, w)); EndsInPlace(t.parent, t.calls, base)
  {
    hide Accounted;
    var t := Apply(s, MakePipe(c, r, w));
    var call := s.calls[c];
    forall b, side | 0 <= b < |t.calls| && t.calls[b].Open(side)
      ensures t.calls[b].fds[side] !in base && t.calls[b].fds[side] in t.parent &&
        t.parent[t.calls[b].fds[side]] == Descriptor(PipeEnd(b, side), true)
    {
      if b != c || (side != ReadSide(call.pc) && side != WriteSide(call.pc)) {
        assert s.calls[b].Open(side);
      }
    }
  }

  lemma PipeAccounted(s: State, base: Table<End>, c: nat, r: nat, w: nat)
    requires ParentOk(s, base) && Enabled(s, MakePipe(c, r, w)) && s.calls[c].closed == {}
    requires ReadSide(s.calls[c].pc) !in s.calls[c].fds && WriteSide(s.calls[c].pc) !in s.calls[c].fds
    ensures var t := Apply(s, MakePipe(c, r, w)); HasBase(t.parent, base) && Accounted(t.parent, t.calls, base)
  {
    hide EndsInPlace, ReadSide, WriteSide;
    var t := Apply(s, MakePipe(c, r, w));
    var next := Piped(s.calls[c], r, w);
    assert t.calls == s.calls[c := next] && r !in base && w !in base;
    SidesDiffer(s.calls[c].pc);
    forall fd | fd in t.parent && fd !in base
      ensures t.parent[fd].cloexec && t.parent[fd].end.PipeEnd? && t.parent[fd].end.call < |t.calls|
      ensures var end := t.parent[fd].end; t.calls[end.call].Open(end.side) && t.calls[end.call].fds[end.side] == fd
    {
      if fd != r && fd != w {
        assert s.parent[fd] == t.parent[fd] && s.calls[s.parent[fd].end.call].Open(s.parent[fd].end.side);
      }
    }
  }

  lemma SidesDiffer(pc: CallPc)
    ensures ReadSide(pc) != WriteSide(pc)
  {
  }

  lemma MakePipeKept(s: State, base: Table<End>, e: Event)
    requires e.MakePipe? && Inv(s, base) && Enabled(s, e)
    ensures Inv(Apply(s, e), base)
  {
    hide ChildOk, IsBase, CallShape, HasBase, Accounted, EndsInPlace, Piped, ReadSide, WriteSide;
    hide CloseSide, Forked, StepChild;
    PipeShape(s.calls[e.c], e.read, e.write);
    PipeInPlace(s, base, e.c, e.read, e.write);
    PipeAccounted(s, base, e.c, e.read, e.write);
    var t := Apply(s, e);
    assert t.calls[e.c] == Piped(s.calls[e.c], e.read, e.write) && t.children == s.children;
  }

  lemma ForkedOk(s: State, base: Table<End>, c: nat)
    requires IsBase(base) && ParentOk(s, base) && c < |s.calls| && CallShape(s.calls[c]) && s.calls[c].pc.Fork?
    ensures ChildOk(Forked(s, c), base)
  {
    hide Wired, IsBase;
    var call, ch := s.calls[c], Forked(s, c);
    forall side ensures side !in call.closed {
      assert side in call.closed ==> Made(call, side);
    }
    forall side ensures side in ch.fds <==> if Supplies(side) then ch.wantIn else ch.wantOut {
      assert side in call.fds <==> Made(call, side);
    }
    forall side | side in ch.fds ensures ch.fds[side] !in base && At(ch, side) {
      assert call.Open(side);
    }
    WiredIn(base, c);
  }

  lemma ForkKept(s: State, base: Table<End>, e: Event)
    requires e.ForkChild? && Inv(s, base) && Enabled(s, e)
    ensures Inv(Apply(s, e), base)
  {
    hide ChildOk, IsBase, CallShape, Forked, HasBase, Accounted, EndsInPlace, CloseSide, Piped, StepChild;
    ForkedOk(s, base, e.c);
    ForkShape(s.calls[e.c]);
    SameOpens(s.parent, s.calls, e.c, s.calls[e.c].(pc := CloseSupplyRead), base);
    assert Forked(s, e.c).call == e.c by { ForkedCall(s, e.c); }
  }

  lemma ForkedCall(s: State, c: nat)
    requires c < |s.calls|
    ensures Forked(s, c).call == c
  {
  }

  lemma SameOpens(t: Table<End>, calls: seq<Call>, c: nat, call: Call, base: Table<End>)
    requires c < |calls| && call.fds == calls[c].fds && call.closed == calls[c].closed
    requires Accounted(t, calls, base) && EndsInPlace(t, calls, base)
    ensures Accounted(t, calls[c := call], base) && EndsInPlace(t, calls[c := call], base)
  {
    var next := calls[c := call];
    forall b, side | 0 <= b < |next| && next[b].Open(side) ensures calls[b].Open(side) {
    }
  }

  lemma ForkShape(call: Call)
    requires CallShape(call) && call.pc.Fork?
    ensures CallShape(call.(pc := CloseSupplyRead))
  {
    forall side ensures Made(call.(pc := CloseSupplyRead), side) == Made(call, side) {
    }
  }

  lemma CloseInPlace(s: State, base: Table<End>, c: nat, side: Side, pc: CallPc)
    requires ParentOk(s, base) && c < |s.calls| && (side in s.calls[c].fds ==> s.calls[c].Open(side))
    ensures var t := CloseSide(s, c, side, pc); EndsInPlace(t.parent, t.calls, base)
  {
    hide Accounted;
    var t := CloseSide(s, c, side, pc);
    forall b, sd | 0 <= b < |t.calls| && t.calls[b].Open(sd)
      ensures t.calls[b].fds[sd] !in base && t.calls[b].fds[sd] in t.parent &&
        t.parent[t.calls[b].fds[sd]] == Descriptor(PipeEnd(b, sd), true)
    {
      assert s.calls[b].Open(sd);
    }
  }

  lemma CloseAccounted(s: State, base: Table<End>, c: nat, side: Side, pc: CallPc)
    requires ParentOk(s, base) && c < |s.calls| && (side in s.calls[c].fds ==> s.calls[c].Open(side))
    ensures var t := CloseSide(s, c, side, pc); HasBase(t.parent, base) && Accounted(t.parent, t.calls, base)
  {
    var t := CloseSide(s, c, side, pc);
    if side in s.calls[c].fds {
      assert s.calls[c].Open(side);
    }
  }

  lemma CloseSideKept(s: State, base: Table<End>, c: nat, side: Side, pc: CallPc)
    requires Inv(s, base) && c < |s.calls| && CallShape(CloseSide(s, c, side, pc).calls[c])
    requires side in s.calls[c].fds ==> s.calls[c].Open(side)
    ensures Inv(CloseSide(s, c, side, pc), base)
  {
    CloseInPlace(s, base, c, side, pc);
    CloseAccounted(s, base, c, side, pc);
    hide ChildOk, IsBase, CallShape, HasBase, Accounted, EndsInPlace;
  }

  lemma CloseShape(s: State, c: nat, side: Side)
    requires c < |s.calls| && CallShape(s.calls[c])
    ensures s.calls[c].pc.CloseSupplyRead? ==>
      CallShape(CloseSide(s, c, SupplyRead, CloseIngestWrite).calls[c]) &&
      (SupplyRead in s.calls[c].fds ==> s.calls[c].Open(SupplyRead))
    ensures s.calls[c].pc.CloseIngestWrite? ==>
      CallShape(CloseSide(s, c, IngestWrite, Returned).calls[c]) &&
      (IngestWrite in s.calls[c].fds ==> s.calls[c].Open(IngestWrite))
    ensures s.calls[c].pc.Returned? && (side == SupplyWrite || side == IngestRead) ==>
      CallShape(CloseSide(s, c, side, Returned).calls[c])
  {
    var call := s.calls[c];
    forall pc: CallPc, sd | !pc.MakeSupply? && !pc.MakeIngest? && !call.pc.MakeSupply? && !call.pc.MakeIngest?
      ensures Made(call.(pc := pc), sd) == Made(call, sd)
    {
    }
  }

  /** Every step of every thread and child keeps the invariant. */
  lemma StepKept(s: State, base: Table<End>, e: Event)
    requires Inv(s, base) && Enabled(s, e)
    ensures Inv(Apply(s, e), base)
  {
    match e
    case Start(_, _) => StartKept(s, base, e);
    case MakePipe(_, _, _) => MakePipeKept(s, base, e);
    case ForkChild(_) => ForkKept(s, base, e);
    case ParentClose(c) => ParentCloseKept(s, base, c);
    case Release(c, side) => ReleaseKept(s, base, c, side);
    case ChildStep(k) => ChildEventKept(s, base, e);
    case ChildExit(k) => ChildEventKept(s, base, e);
  }

  lemma ParentCloseKept(s: State, base: Table<End>, c: nat)
    requires Inv(s, base) && Enabled(s, ParentClose(c))
    ensures Inv(Apply(s, ParentClose(c)), base)
  {
    hide CallShape, ParentOk, ChildOk, IsBase, CloseSide;
    CloseShape(s, c, SupplyRead);
    if s.calls[c].pc.CloseSupplyRead? {
      CloseSideKept(s, base, c, SupplyRead, CloseIngestWrite);
    } else {
      CloseSideKept(s, base, c, IngestWrite, Returned);
    }
  }

  lemma ReleaseKept(s: State, base: Table<End>, c: nat, side: Side)
    requires Inv(s, base) && Enabled(s, Release(c, side))
    ensures Inv(Apply(s, Release(c, side)), base)
  {
    hide CallShape, ParentOk, ChildOk, IsBase, CloseSide;
    CloseShape(s, c, side);
    CloseSideKept(s, base, c, side, Returned);
  }

  lemma ChildEventKept(s: State, base: Table<End>, e: Event)
    requires (e.ChildStep? || e.ChildExit?) && Inv(s, base) && Enabled(s, e)
    ensures Inv(Apply(s, e), base)
  {
    hide CallShape, HasBase, Accounted, EndsInPlace, IsBase, ChildOk, StepChild;
    if e.ChildStep? {
      ChildStepKept(s.children[e.k], base);
    } else {
      GoneOk(s.children[e.k], base);
    }
  }

  lemma GoneOk(ch: Child, base: Table<End>)
    requires ChildOk(ch, base)
    ensures ChildOk(ch.(pc := Gone, table := map[]), base)
  {
  }

  // ------------------------------------------------------------ what every run keeps

  predicate Run(s: State, events: seq<Event>)
    decreases |events|
  {
    events == [] || (Enabled(s, events[0]) && Run(Apply(s, events[0]), events[1..]))
  }

  function After(s: State, events: seq<Event>): State
    requires Run(s, events)
    decreases |events|
  {
    if events == [] then s else After(Apply(s, events[0]), events[1..])
  }

  function Init(base: Table<End>): State {
    State(base, [], [])
  }

  lemma {:induction false} RunKeeps(s: State, base: Table<End>, events: seq<Event>)
    requires Inv(s, base) && Run(s, events)
    ensures Inv(After(s, events), base)
    decreases |events|
  {
    hide Inv, Apply, Enabled;
    if events != [] {
      StepKept(s, base, events[0]);
      RunKeeps(Apply(s, events[0]), base, events[1..]);
    }
  }

  predicate InFlight(ch: Child) {
    !ch.pc.Running? && !ch.pc.Gone?
  }

  lemma WiredEnds(base: Table<End>, call: nat, wantIn: bool, wantOut: bool, end: End)
    requires IsBase(base) && end.PipeEnd?
    ensures Holds(ExecOf(Wired(base, call, wantIn, wantOut)), end) <==>
      (wantIn && end == PipeEnd(call, SupplyRead)) || (wantOut && end == PipeEnd(call, IngestWrite))
  {
    var t := ExecOf(Wired(base, call, wantIn, wantOut));
    if wantIn && end == PipeEnd(call, SupplyRead) {
      assert 0 in t && t[0].end == end;
    }
    if wantOut && end == PipeEnd(call, IngestWrite) {
      assert 1 in t && t[1].end == end;
    }
  }

  lemma NoPipes(base: Table<End>, call: nat)
    requires IsBase(base)
    ensures NewCall(base, call)
  {
  }

  /**
    However the threads interleave, a program that has been exec'd starts with exactly the
    original descriptors, the requested ends of its own call being 0 and 1.
   */
  lemma ExecdTable(base: Table<End>, events: seq<Event>, k: nat)
    requires IsBase(base) && Run(Init(base), events)
    requires var s := After(Init(base), events); k < |s.children| && s.children[k].pc.Running?
    ensures var ch := After(Init(base), events).children[k];
      ch.table == ExecOf(Wired(base, ch.call, ch.wantIn, ch.wantOut)) &&
      forall end: End :: end.PipeEnd? && Holds(ch.table, end) ==>
        end == PipeEnd(ch.call, SupplyRead) || end == PipeEnd(ch.call, IngestWrite)
    ensures var ch := After(Init(base), events).children[k];
      && (if ch.wantIn then HasAt(ch.table, 0, PipeEnd(ch.call, SupplyRead)) else Inherits(ch.table, base, 0))
      && (if ch.wantOut then HasAt(ch.table, 1, PipeEnd(ch.call, IngestWrite)) else Inherits(ch.table, base, 1))
      && (forall fd: nat :: fd >= 2 ==> Inherits(ch.table, base, fd))
  {
    hide Apply, Enabled, Run, Wired, ExecOf, Holds, HasAt, Inherits;
    InitKept(base);
    RunKeeps(Init(base), base, events);
    var ch := After(Init(base), events).children[k];
    NoPipes(base, ch.call);
    StdioOf(base, ch.call, ch.wantIn, ch.wantOut);
    OthersOf(base, ch.call, ch.wantIn, ch.wantOut);
    forall end: End | end.PipeEnd? && Holds(ch.table, end)
      ensures end == PipeEnd(ch.call, SupplyRead) || end == PipeEnd(ch.call, IngestWrite)
    {
      WiredEnds(base, ch.call, ch.wantIn, ch.wantOut, end);
    }
  }

  lemma InitKept(base: Table<End>)
    requires IsBase(base)
    ensures Inv(Init(base), base)
  {
  }

  // Who may hold the write end of a pipe once no child is between fork and exec.
  ghost predicate SomeoneHolds(s: State, end: End) {
    Holds(s.parent, end) || exists k :: 0 <= k < |s.children| && Holds(s.children[k].table, end)
  }

  lemma ParentHolds(s: State, base: Table<End>, c: nat, side: Side)
    requires Inv(s, base) && c < |s.calls|
    ensures Holds(s.parent, PipeEnd(c, side)) <==> s.calls[c].Open(side)
  {
    hide ChildOk, CallShape;
    if s.calls[c].Open(side) {
      assert s.calls[c].fds[side] in s.parent;
    }
  }

  lemma ChildHolds(s: State, base: Table<End>, k: nat, end: End)
    requires Inv(s, base) && k < |s.children| && !InFlight(s.children[k]) && end.PipeEnd?
    ensures var ch := s.children[k];
      Holds(ch.table, end) <==>
        (ch.pc.Running? && (
          (ch.wantIn && end == PipeEnd(ch.call, SupplyRead)) || (ch.wantOut && end == PipeEnd(ch.call, IngestWrite))))
  {
    hide Wired, ExecOf, CallShape, ParentOk;
    var ch := s.children[k];
    WiredEnds(base, ch.call, ch.wantIn, ch.wantOut, end);
  }

  /**
    Once no fork is in flight, the supply pipe has a writer exactly as long as the caller keeps
    supplyfd open: closing it gives the child end of file.
   */
  lemma SupplyEndsWhenClosed(s: State, base: Table<End>, c: nat)
    requires Inv(s, base) && c < |s.calls| && forall k :: 0 <= k < |s.children| ==> !InFlight(s.children[k])
    ensures SomeoneHolds(s, PipeEnd(c, SupplyWrite)) <==> s.calls[c].Open(SupplyWrite)
  {
    hide Inv, Holds;
    ParentHolds(s, base, c, SupplyWrite);
    forall k | 0 <= k < |s.children| ensures !Holds(s.children[k].table, PipeEnd(c, SupplyWrite)) {
      ChildHolds(s, base, k, PipeEnd(c, SupplyWrite));
    }
  }

  /** Likewise the caller reads end of file from ingestfd exactly when the call's own child has exited. */
  lemma IngestEndsWithChild(s: State, base: Table<End>, c: nat)
    requires Inv(s, base) && c < |s.calls| && s.calls[c].pc.Returned?
    requires forall k :: 0 <= k < |s.children| ==> !InFlight(s.children[k])
    ensures SomeoneHolds(s, PipeEnd(c, IngestWrite)) <==>
      exists k :: 0 <= k < |s.children| && s.children[k].call == c && s.children[k].wantOut && s.children[k].pc.Running?
  {
    NotOpen(s, base, c);
    hide Inv, Holds;
    ParentHolds(s, base, c, IngestWrite);
    forall k | 0 <= k < |s.children|
      ensures Holds(s.children[k].table, PipeEnd(c, IngestWrite)) <==>
        s.children[k].call == c && s.children[k].wantOut && s.children[k].pc.Running?
    {
      ChildHolds(s, base, k, PipeEnd(c, IngestWrite));
    }
  }

  lemma NotOpen(s: State, base: Table<End>, c: nat)
    requires Inv(s, base) && c < |s.calls| && s.calls[c].pc.Returned?
    ensures !s.calls[c].Open(IngestWrite) && !s.calls[c].Open(SupplyRead)
  {
    hide ParentOk, ChildOk;
    var call := s.calls[c];
    assert IngestWrite in call.fds <==> Made(call, IngestWrite);
    assert SupplyRead in call.fds <==> Made(call, SupplyRead);
  }

  /** No descriptor leaks: when every call has returned and its results are closed, the table is the original one. */
  lemma NothingLeaks(s: State, base: Table<End>)
    requires Inv(s, base)
    requires forall c :: 0 <= c < |s.calls| ==>
      s.calls[c].pc.Returned? && !s.calls[c].Open(SupplyWrite) && !s.calls[c].Open(IngestRead)
    ensures s.parent == base
  {
    hide ChildOk, CallShape, Accounted;
    forall c, side: Side | 0 <= c < |s.calls| ensures !s.calls[c].Open(side) {
      NotOpen(s, base, c);
      assert side.SupplyRead? || side.SupplyWrite? || side.IngestRead? || side.IngestWrite?;
    }
    forall fd | fd in s.parent ensures fd in base {
      Owner(s, base, fd);
    }
  }

  lemma Owner(s: State, base: Table<End>, fd: nat)
    requires Inv(s, base) && fd in s.parent
    ensures fd in base || exists c, side :: 0 <= c < |s.calls| && s.calls[c].Open(side)
  {
    hide ChildOk, CallShape;
    if fd !in base {
      var end := s.parent[fd].end;
      assert s.calls[end.call].Open(end.side);
    }
  }

  // ------------------------------------------------------------ the same over runs

  ghost predicate Settled(s: State) {
    forall k :: 0 <= k < |s.children| ==> !InFlight(s.children[k])
  }

  /** In every run, once no fork is in flight, a supply pipe has a writer exactly while supplyfd is open. */
  lemma SupplyEndsInRuns(base: Table<End>, events: seq<Event>, c: nat)
    requires IsBase(base) && Run(Init(base), events)
    requires var s := After(Init(base), events); c < |s.calls| && Settled(s)
    ensures var s := After(Init(base), events); SomeoneHolds(s, PipeEnd(c, SupplyWrite)) <==>
      s.calls[c].Open(SupplyWrite)
  {
    hide Run, After, Inv, SomeoneHolds;
    InitKept(base);
    RunKeeps(Init(base), base, events);
    SupplyEndsWhenClosed(After(Init(base), events), base, c);
  }

  /** In every run, once no fork is in flight, an ingest pipe has a writer exactly while its child runs. */
  lemma IngestEndsInRuns(base: Table<End>, events: seq<Event>, c: nat)
    requires IsBase(base) && Run(Init(base), events)
    requires var s := After(Init(base), events); c < |s.calls| && s.calls[c].pc.Returned? && Settled(s)
    ensures var s := After(Init(base), events);
      SomeoneHolds(s, PipeEnd(c, IngestWrite)) <==>
      exists k :: 0 <= k < |s.children| && s.children[k].call == c && s.children[k].wantOut && s.children[k].pc.Running?
  {
    hide Run, After, Inv, SomeoneHolds;
    InitKept(base);
    RunKeeps(Init(base), base, events);
    IngestEndsWithChild(After(Init(base), events), base, c);
  }

  /** In every run the table is the original one whenever all calls have returned and their results are closed. */
  lemma NothingLeaksInRuns(base: Table<End>, events: seq<Event>)
    requires IsBase(base) && Run(Init(base), events)
    requires var s := After(Init(base), events);
      forall c :: 0 <= c < |s.calls| ==>
        s.calls[c].pc.Returned? && !s.calls[c].Open(SupplyWrite) && !s.calls[c].Open(IngestRead)
    ensures After(Init(base), events).parent == base
  {
    hide Run, After, Inv;
    InitKept(base);
    RunKeeps(Init(base), base, events);
    NothingLeaks(After(Init(base), events), base);
  }

  // ------------------------------------------------------------ descriptors 0 and 1 must be open

  // Every exec'd child of every run starts as it should.
  ghost predicate AlwaysWired(base: Table<End>) {
    forall events, k: nat :: Run(Init(base), events) && ExecdAt(After(Init(base), events), k) ==>
      WiredRight(After(Init(base), events).children[k], base)
  }

  predicate ExecdAt(s: State, k: nat) {
    k < |s.children| && s.children[k].pc.Running?
  }

  predicate WiredRight(ch: Child, base: Table<End>) {
    ch.table == ExecOf(Wired(base, ch.call, ch.wantIn, ch.wantOut))
  }

  lemma {:induction false} RunExtends(s: State, events: seq<Event>, e: Event)
    requires Run(s, events) && Enabled(After(s, events), e)
    ensures Run(s, events + [e]) && After(s, events + [e]) == Apply(After(s, events), e)
    decreases |events|
  {
    hide Enabled, Apply;
    if events == [] {
      assert [e][1..] == [];
    } else {
      assert (events + [e])[1..] == events[1..] + [e] && (events + [e])[0] == events[0];
      RunExtends(Apply(s, events[0]), events[1..], e);
    }
  }

  // The lowest free descriptor of a table.
  lemma LowestExists(t: Table<End>) returns (fd: nat)
    ensures LowestFree(t, fd)
  {
    fd := 0;
    var above := t.Keys;
    while fd in t
      invariant forall k: nat :: k < fd ==> k in t
      invariant forall k :: k in t && k >= fd ==> k in above
      decreases |above|
    {
      above := above - {fd};
      fd := fd + 1;
    }
  }

  function ForkedState(base: Table<End>, input: bool, r: nat, w: nat): State {
    var pc := if input then MakeSupply else MakeIngest;
    var fds: map<Side, nat> := map[ReadSide(pc) := r][WriteSide(pc) := w];
    var t := base[r := Descriptor(PipeEnd(0, ReadSide(pc)), true)][w := Descriptor(PipeEnd(0, WriteSide(pc)), true)];
    State(t, [Call(input, !input, CloseSupplyRead, fds, {})],
      [Child(0, input, !input, fds, ChildStart(input, !input), t)])
  }

  // One call that wants input only, or output only, up to the fork.
  lemma OneFork(base: Table<End>, input: bool, r: nat) returns (events: seq<Event>, w: nat)
    requires LowestFree(base, r)
    ensures w !in base && w != r
    ensures Run(Init(base), events) && After(Init(base), events) == ForkedState(base, input, r, w)
  {
    var s := Init(base);
    var s1 := Apply(s, Start(input, !input));
    var pc := if input then MakeSupply else MakeIngest;
    w := LowestExists(base[r := Descriptor(PipeEnd(0, ReadSide(pc)), true)]);
    assert s1.calls[0].pc == pc;
    var s2 := Apply(s1, MakePipe(0, r, w));
    var s3 := Apply(s2, ForkChild(0));
    events := [];
    assert Run(s, events) && After(s, events) == s;
    RunExtends(s, events, Start(input, !input));
    events := events + [Start(input, !input)];
    RunExtends(s, events, MakePipe(0, r, w));
    events := events + [MakePipe(0, r, w)];
    RunExtends(s, events, ForkChild(0));
    events := events + [ForkChild(0)];
    assert s3 == ForkedState(base, input, r, w);
  }

  function Steps(ch: Child, n: nat): Child {
    if n == 0 then ch else StepChild(Steps(ch, n - 1))
  }

  // A child takes its steps while nothing else moves.
  lemma {:induction false} ChildRuns(s: State, events: seq<Event>, n: nat) returns (longer: seq<Event>)
    requires Run(s, events) && |After(s, events).children| == 1
    requires forall j :: 0 <= j < n ==> InFlight(Steps(After(s, events).children[0], j))
    ensures Run(s, longer) && |After(s, longer).children| == 1
    ensures After(s, longer).children[0] == Steps(After(s, events).children[0], n)
  {
    hide Run, After, StepChild;
    if n == 0 {
      longer := events;
    } else {
      longer := ChildRuns(s, events, n - 1);
      assert InFlight(Steps(After(s, events).children[0], n - 1));
      RunExtends(s, longer, ChildStep(0));
      longer := longer + [ChildStep(0)];
    }
  }

  // With descriptor 0 closed, a call for input leaves its child without standard input.
  lemma StdinLost(base: Table<End>, w: nat)
    requires 0 !in base && w != 0 && w !in base
    ensures var ch := ForkedState(base, true, 0, w).children[0];
      && (forall j :: 0 <= j < 4 ==> InFlight(Steps(ch, j)))
      && Steps(ch, 4).pc.Running? && 0 !in Steps(ch, 4).table && Steps(ch, 4).wantIn && Steps(ch, 4).call == 0
      && !Steps(ch, 4).wantOut
  {
    var ch := ForkedState(base, true, 0, w).children[0];
    FourSteps(ch);
    hide Steps;
    var c1 := StepChild(ch);
    assert c1 == ch.(pc := CloseInRead);
    var c2 := StepChild(c1);
    assert c2.pc == CloseInWrite && 0 !in c2.table;
    var c3 := StepChild(c2);
    assert c3.pc == Execing && 0 !in c3.table;
    assert StepChild(c3).pc == Running && 0 !in StepChild(c3).table;
  }

  // With descriptor 1 closed, a call for output alone leaves its child without standard output.
  lemma StdoutLost(base: Table<End>, r: nat, w: nat)
    requires 1 !in base && r == 1 && w != 1
    ensures var ch := ForkedState(base, false, r, w).children[0];
      && (forall j :: 0 <= j < 4 ==> InFlight(Steps(ch, j)))
      && Steps(ch, 4).pc.Running? && 1 !in Steps(ch, 4).table && Steps(ch, 4).wantOut && Steps(ch, 4).call == 0
      && !Steps(ch, 4).wantIn
  {
    var ch := ForkedState(base, false, r, w).children[0];
    FourSteps(ch);
    hide Steps;
    var c1 := StepChild(ch);
    assert c1.pc == CloseOutRead;
    var c2 := StepChild(c1);
    assert c2.pc == CloseOutWrite && 1 !in c2.table;
    var c3 := StepChild(c2);
    assert c3.pc == Execing && 1 !in c3.table;
    assert StepChild(c3).pc == Running && 1 !in StepChild(c3).table;
  }

  lemma FourSteps(ch: Child)
    ensures Steps(ch, 0) == ch && Steps(ch, 1) == StepChild(ch) && Steps(ch, 2) == StepChild(StepChild(ch))
    ensures Steps(ch, 3) == StepChild(StepChild(StepChild(ch)))
    ensures Steps(ch, 4) == StepChild(StepChild(StepChild(StepChild(ch))))
  {
    hide StepChild;
    assert Steps(ch, 2) == StepChild(Steps(ch, 1));
    assert Steps(ch, 3) == StepChild(Steps(ch, 2));
  }

  /**
    All runs wire all children as they should if and only if descriptors 0 and 1 are open to begin
    with: a single call is enough to lose standard input or output otherwise.
   */
  lemma WiredIffStdioOpen(base: Table<End>)
    requires Files(base)
    ensures AlwaysWired(base) <==> 0 in base && 1 in base
  {
    hide Run, After, Wired, Steps, ForkedState;
    if 0 in base && 1 in base {
      forall events, k: nat | Run(Init(base), events) && ExecdAt(After(Init(base), events), k)
        ensures WiredRight(After(Init(base), events).children[k], base)
      {
        ExecdTable(base, events, k);
      }
    } else {
      var events := ClosedBreaks(base);
    }
  }

  lemma ClosedBreaks(base: Table<End>) returns (events: seq<Event>)
    requires 0 !in base || 1 !in base
    ensures Run(Init(base), events) && ExecdAt(After(Init(base), events), 0)
    ensures !WiredRight(After(Init(base), events).children[0], base)
  {
    hide Run, After, Steps, ForkedState, StepChild;
    var w;
    if 0 !in base {
      events, w := OneFork(base, true, 0);
      StdinLost(base, w);
      OneChild(base, true, 0, w);
      events := ChildRuns(Init(base), events, 4);
    } else {
      events, w := OneFork(base, false, 1);
      StdoutLost(base, 1, w);
      OneChild(base, false, 1, w);
      events := ChildRuns(Init(base), events, 4);
    }
  }

  lemma OneChild(base: Table<End>, input: bool, r: nat, w: nat)
    ensures |ForkedState(base, input, r, w).children| == 1
  {
  }
}
