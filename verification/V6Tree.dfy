/**
  Directory trees: built bottom-up on a fresh image, every path resolves in the image
  exactly as it does in the tree.
 */
module V6Tree {
  import opened Bytes
  import opened V6Format
  import opened V6Reader
  import opened V6Mkfs

  datatype Tree = File(inumber: nat, data: Str) | Dir(inumber: nat, children: Forest)

  datatype Forest = Nil | Child(name: Str, tree: Tree, rest: Forest)

  const DOT: Str := [46]
  const DOTDOT: Str := [46, 46]

  // strncpy into a zeroed 14-byte field.
  function Field(name: Str): (f: Str)
    ensures |f| == NAME
  {
    CutFits(name, NAME);
    Cut(name, NAME) + Zeros(NAME - |Cut(name, NAME)|)
  }

  lemma {:induction false} CutFits(s: Str, n: nat)
    ensures |Cut(s, n)| <= n && NoNul(Cut(s, n)) && |Cut(s, n)| <= |s|
  {
    if n > 0 && s != [] && s[0] != 0 {
      CutFits(s[1..], n - 1);
    }
  }

  lemma {:induction false} CutTwice(s: Str, n: nat, k: nat)
    requires |Cut(s, n)| <= n
    ensures Cut(Cut(s, n) + Zeros(k), n) == Cut(s, n)
  {
    if n > 0 && s != [] && s[0] != 0 {
      var t := Cut(s[1..], n - 1);
      assert Cut(s, n) == [s[0]] + t;
      assert (Cut(s, n) + Zeros(k))[1..] == t + Zeros(k);
      CutTwice(s[1..], n - 1, k);
    }
  }

  // mkent
  function MakeEntry(inumber: nat, name: Str): DirEnt {
    DirEnt(inumber, Field(name))
  }

  function Entries(f: Forest): seq<DirEnt> {
    match f
    case Nil => []
    case Child(name, t, rest) => [MakeEntry(t.inumber, name)] + Entries(rest)
  }

  function Count(f: Forest): nat {
    match f
    case Nil => 0
    case Child(_, _, rest) => 1 + Count(rest)
  }

  function Inumbers(t: Tree): set<nat> {
    match t
    case File(i, _) => {i}
    case Dir(i, children) => {i} + ForestInumbers(children)
  }

  function ForestInumbers(f: Forest): set<nat> {
    match f
    case Nil => {}
    case Child(_, t, rest) => Inumbers(t) + ForestInumbers(rest)
  }

  // Distinct inumbers from 1 to 64, at most 30 entries per directory, file sizes of 24 bits.
  predicate Buildable(t: Tree) {
    1 <= t.inumber <= 64 &&
    match t
    case File(_, data) => |data| < 16777216
    case Dir(i, children) => Count(children) <= 30 && i !in ForestInumbers(children) && ForestBuildable(children)
  }

  predicate ForestBuildable(f: Forest) {
    match f
    case Nil => true
    case Child(_, t, rest) => Buildable(t) && ForestBuildable(rest) && Inumbers(t) !! ForestInumbers(rest)
  }

  function SectorsOf(t: Tree): nat {
    match t
    case File(_, data) => FileSectors(data)
    case Dir(_, children) => ForestSectors(children) + 1
  }

  function ForestSectors(f: Forest): nat {
    match f
    case Nil => 0
    case Child(_, t, rest) => SectorsOf(t) + ForestSectors(rest)
  }

  // The image holds the tree, its root listed with the given parent.
  predicate Realizes(nodes: map<nat, Node>, t: Tree, parent: nat) {
    t.inumber in nodes &&
    match t
    case File(i, data) => nodes[i] == Node(false, Kept(data))
    case Dir(i, children) =>
      nodes[i] == Node(true, DirData(i, parent, Entries(children))) && ForestRealizes(nodes, children, i)
  }

  predicate ForestRealizes(nodes: map<nat, Node>, f: Forest, parent: nat) {
    match f
    case Nil => true
    case Child(_, t, rest) => Realizes(nodes, t, parent) && ForestRealizes(nodes, rest, parent)
  }

  predicate AgreeOn(a: map<nat, Node>, b: map<nat, Node>, keys: set<nat>) {
    forall i :: i in keys && i in a ==> i in b && b[i] == a[i]
  }

  lemma {:induction false} RealizesKept(a: map<nat, Node>, b: map<nat, Node>, t: Tree, parent: nat)
    requires Realizes(a, t, parent) && AgreeOn(a, b, Inumbers(t))
    ensures Realizes(b, t, parent)
    decreases t
  {
    if t.Dir? {
      ForestKept(a, b, t.children, t.inumber);
    }
  }

  lemma {:induction false} ForestKept(a: map<nat, Node>, b: map<nat, Node>, f: Forest, parent: nat)
    requires ForestRealizes(a, f, parent) && AgreeOn(a, b, ForestInumbers(f))
    ensures ForestRealizes(b, f, parent)
    decreases f
  {
    if f.Child? {
      RealizesKept(a, b, f.tree, parent);
      ForestKept(a, b, f.rest, parent);
    }
  }

  lemma {:induction false} EntriesFit(f: Forest)
    requires ForestBuildable(f)
    ensures |Entries(f)| == Count(f) && forall e :: e in Entries(f) ==> EntryFits(e)
  {
    if f.Child? {
      EntriesFit(f.rest);
    }
  }

  // ------------------------------------------------------------ building

  /** Children first, then the directory that lists them. */
  method BuildTree(m: Mkfs, t: Tree, parent: nat)
    requires m.Valid() && Buildable(t) && parent < 65536 && m.nextData + SectorsOf(t) <= 65536
    modifies m
    ensures m.Valid() && Realizes(m.nodes, t, parent) && m.nextData == old(m.nextData) + SectorsOf(t)
    ensures forall i :: i in old(m.nodes) && i !in Inumbers(t) ==> i in m.nodes && m.nodes[i] == old(m.nodes)[i]
    decreases t
  {
    match t
    case File(i, data) => m.MakeFile(i, data);
    case Dir(i, children) =>
      BuildForest(m, children, i);
      EntriesFit(children);
      ghost var before := m.nodes;
      m.MakeDir(i, parent, Entries(children));
      ForestKept(before, m.nodes, children, i);
  }

  method BuildForest(m: Mkfs, f: Forest, parent: nat)
    requires m.Valid() && ForestBuildable(f) && parent < 65536 && m.nextData + ForestSectors(f) <= 65536
    modifies m
    ensures m.Valid() && ForestRealizes(m.nodes, f, parent) && m.nextData == old(m.nextData) + ForestSectors(f)
    ensures forall i :: i in old(m.nodes) && i !in ForestInumbers(f) ==> i in m.nodes && m.nodes[i] == old(m.nodes)[i]
    decreases f
  {
    if f.Child? {
      BuildTree(m, f.tree, parent);
      ghost var before := m.nodes;
      BuildForest(m, f.rest, parent);
      RealizesKept(before, m.nodes, f.tree, parent);
    }
  }

  // ------------------------------------------------------------ what a path means

  function FindChild(f: Forest, name: Str): Option<Tree> {
    match f
    case Nil => None
    case Child(n, t, rest) => if Cut(n, NAME) == name then Some(t) else FindChild(rest, name)
  }

  // The inumber reached from the last directory of the trail; the trail starts at the root.
  function Resolve(trail: seq<Tree>, names: seq<Str>): int
    requires trail != []
    decreases |names|
  {
    var here := trail[|trail| - 1];
    if names == [] then here.inumber
    else if here.File? then -1
    else if names[0] == DOT then Resolve(trail, names[1..])
    else if names[0] == DOTDOT then Resolve(if |trail| == 1 then trail else trail[..|trail| - 1], names[1..])
    else
      match FindChild(here.children, names[0])
      case None => -1
      case Some(t) => Resolve(trail + [t], names[1..])
  }

  function LookupInTree(root: Tree, path: Str): int {
    if At(path, 0) != SLASH then -1 else Resolve([root], Components(path, 0))
  }

  // ------------------------------------------------------------ directories on the disk

  function FindEntry(es: seq<DirEnt>, name: Str): Option<DirEnt> {
    if es == [] then None
    else if es[0].inumber != 0 && Cut(es[0].name, NAME) == Cut(name, NAME) then Some(es[0])
    else FindEntry(es[1..], name)
  }

  predicate Named(e: DirEnt, name: Str) {
    e.inumber != 0 && Cut(e.name, NAME) == Cut(name, NAME)
  }

  /** The entry found is the first one in use whose name agrees in its first 14 characters, if there is any. */
  lemma {:induction false} FirstEntry(es: seq<DirEnt>, name: Str)
    ensures FindEntry(es, name) == None <==> forall k :: 0 <= k < |es| ==> !Named(es[k], name)
    ensures forall k :: 0 <= k < |es| && Named(es[k], name) && (forall j :: 0 <= j < k ==> !Named(es[j], name)) ==>
      FindEntry(es, name) == Some(es[k])
  {
    hide Cut;
    if es != [] {
      FirstEntry(es[1..], name);
      assert forall k :: 1 <= k < |es| ==> es[k] == es[1..][k - 1];
      assert forall k :: 0 <= k < |es[1..]| ==> es[1..][k] == es[k + 1];
    }
  }

  lemma {:induction false} FindEntryConcat(a: seq<DirEnt>, b: seq<DirEnt>, name: Str)
    ensures FindEntry(a + b, name) == match FindEntry(a, name) case Some(e) => Some(e) case None => FindEntry(b, name)
  {
    if a == [] {
      assert a + b == b;
    } else {
      assert (a + b)[1..] == a[1..] + b;
      FindEntryConcat(a[1..], b, name);
    }
  }

  lemma EntryInBlock(es: seq<DirEnt>, b: nat, e: nat)
    requires (forall x :: x in es ==> EntryFits(x)) && 32 * b + e < |es| && e < 32
    ensures ReadEntry(Padded(EntriesBytes(es), b), 16 * e) == es[32 * b + e]
  {
    hide Padded, ReadEntry, EntriesBytes, Has;
    var data := EntriesBytes(es);
    EntriesLength(es);
    HasWhole(data);
    EntriesReadBack(data, 0, es, 32 * b + e);
    SliceInBlock(data, b, 16 * e);
    EntryOfSlice(data, 512 * b + 16 * e);
    EntryOfSlice(Padded(data, b), 16 * e);
  }

  lemma SliceInBlock(data: Str, b: nat, p: nat)
    requires p + 16 <= 512 && 512 * b + p + 16 <= |data|
    ensures Padded(data, b)[p..p + 16] == data[512 * b + p..512 * b + p + 16]
  {
    hide Padded;
    var q := 512 * b + p;
    var left, right := Padded(data, b)[p..p + 16], data[q..q + 16];
    forall i | 0 <= i < 16 ensures left[i] == right[i] {
      PaddedAt(data, b, p + i);
    }
  }

  lemma PaddedAt(data: Str, b: nat, i: nat)
    requires i < 512 && 512 * b + i < |data|
    ensures Padded(data, b)[i] == data[512 * b + i]
  {
  }

  lemma HasWhole(s: Str)
    ensures Has(s, 0, s)
  {
  }

  lemma EntryOfSlice(a: Str, p: nat)
    requires p + 16 <= |a|
    ensures ReadEntry(a, p) == ReadEntry(a[p..p + 16], 0)
  {
    var s := a[p..p + 16];
    assert s[0] == a[p] && s[1] == a[p + 1];
    forall k | 0 <= k < NAME ensures ReadEntry(a, p).name[k] == ReadEntry(s, 0).name[k] {
      assert s[2 + k] == a[p + 2 + k];
    }
  }

  lemma {:induction false} BlockFinds(es: seq<DirEnt>, b: nat, n: nat, e: nat, name: Str)
    requires (forall x :: x in es ==> EntryFits(x)) && n <= 32 && 32 * b + n <= |es| && e <= n
    ensures FindInBlock(Padded(EntriesBytes(es), b), n, e, name) == FindEntry(es[32 * b + e..32 * b + n], name)
    decreases n - e
  {
    hide Padded, ReadEntry, EntriesBytes, SameName, Cut, EntryFits;
    if e < n {
      EntryInBlock(es, b, e);
      var ent := es[32 * b + e];
      SameNameIsCut(ent.name, name, NAME);
      BlockFinds(es, b, n, e + 1, name);
      var s := es[32 * b + e..32 * b + n];
      assert s[0] == ent && s[1..] == es[32 * b + (e + 1)..32 * b + n];
    }
  }

  lemma {:induction false} BlocksFind(d: Disk, dir: nat, es: seq<DirEnt>, name: Str, b: nat)
    requires Stored(d, dir, Node(true, EntriesBytes(es))) && (forall x :: x in es ==> EntryFits(x))
    requires b <= Blocks(16 * |es|)
    ensures FindFrom(d, dir, name, b, Blocks(16 * |es|)) == FindEntry(es[Clip(32 * b, |es|)..], name)
    decreases Blocks(16 * |es|) - b
  {
    hide Padded, ReadEntry, EntriesBytes, SameName, Cut, EntryFits, GetBlock, Iget, GetSize, IsDir, FindInBlock;
    EntriesLength(es);
    if b < Blocks(16 * |es|) {
      var n := Clip(32 * b + 32, |es|) - 32 * b;
      assert BytesIn(16 * |es|, b) == 16 * n;
      BlockFinds(es, b, n, 0, name);
      BlocksFind(d, dir, es, name, b + 1);
      var here, rest := es[32 * b..32 * b + n], es[Clip(32 * b + 32, |es|)..];
      assert es[Clip(32 * b, |es|)..] == here + rest;
      FindEntryConcat(here, rest, name);
    }
  }

  /** Searching a stored directory finds its first used entry with that name. */
  lemma DirectorySearch(d: Disk, dir: nat, es: seq<DirEnt>, name: Str)
    requires Stored(d, dir, Node(true, EntriesBytes(es))) && (forall x :: x in es ==> EntryFits(x))
    ensures FindName(d, name, dir) == FindEntry(es, name)
  {
    hide Padded, ReadEntry, EntriesBytes, SameName, Cut, EntryFits, GetBlock, FindFrom, FindEntry;
    EntriesLength(es);
    BlocksFind(d, dir, es, name, 0);
    assert es[0..] == es;
  }

  // ------------------------------------------------------------ image and tree agree

  // A component as the path walker extracts it.
  predicate IsName(name: Str) {
    Cut(name, NAME) == name
  }

  lemma {:induction false} ChildrenSearch(f: Forest, name: Str)
    requires ForestBuildable(f) && IsName(name)
    ensures FindEntry(Entries(f), name) ==
      match FindChild(f, name) case None => None case Some(t) => Some(MakeEntry(t.inumber, ChildName(f, name)))
  {
    if f.Child? {
      ChildrenSearch(f.rest, name);
      CutFits(f.name, NAME);
      CutTwice(f.name, NAME, NAME - |Cut(f.name, NAME)|);
      assert Entries(f)[1..] == Entries(f.rest);
    }
  }

  function ChildName(f: Forest, name: Str): Str {
    match f
    case Nil => []
    case Child(n, _, rest) => if Cut(n, NAME) == name then n else ChildName(rest, name)
  }

  lemma DotsSearch(i: nat, parent: nat, name: Str)
    requires i >= 1 && parent >= 1 && IsName(name)
    ensures FindEntry([DotEntry(i), DotDotEntry(parent)], name) ==
      if name == DOT then Some(DotEntry(i)) else if name == DOTDOT then Some(DotDotEntry(parent)) else None
  {
    hide Cut;
    CutOfDots(1);
    SingleEntry(DotEntry(i), name);
    SingleEntry(DotDotEntry(parent), name);
    FindEntryConcat([DotEntry(i)], [DotDotEntry(parent)], name);
    assert [DotEntry(i), DotDotEntry(parent)] == [DotEntry(i)] + [DotDotEntry(parent)];
  }

  lemma SingleEntry(e: DirEnt, name: Str)
    ensures FindEntry([e], name) == if e.inumber != 0 && Cut(e.name, NAME) == Cut(name, NAME) then Some(e) else None
  {
    assert FindEntry([], name) == None;
    assert [e][1..] == [];
  }

  lemma CutOfDots(n: nat)
    requires n == 1 || n == 2
    ensures Cut([46] + Zeros(13), NAME) == DOT && Cut([46, 46] + Zeros(12), NAME) == DOTDOT
  {
    assert ([46] + Zeros(13))[1..] == Zeros(13);
    assert ([46, 46] + Zeros(12))[1..] == [46] + Zeros(12);
    assert ([46] + Zeros(12))[1..] == Zeros(12);
    assert Cut(Zeros(13), 13) == [] && Cut(Zeros(12), 12) == [];
  }

  // Each tree of the trail is a child of the one before it; all are in the image.
  predicate IsTrail(nodes: map<nat, Node>, trail: seq<Tree>) {
    && trail != []
    && (forall k :: 0 <= k < |trail| ==> Buildable(trail[k]) && (k + 1 < |trail| ==> trail[k].Dir?))
    && (forall k :: 0 <= k < |trail| ==> Realizes(nodes, trail[k], ParentIn(trail, k)))
  }

  // The root is its own parent.
  function ParentIn(trail: seq<Tree>, k: nat): nat
    requires k < |trail|
  {
    if k == 0 then trail[0].inumber else trail[k - 1].inumber
  }

  ghost predicate ImageOf(d: Disk, nodes: map<nat, Node>) {
    forall i :: i in nodes ==> Stored(d, i, nodes[i])
  }

  lemma StepInDirectory(d: Disk, nodes: map<nat, Node>, t: Tree, parent: nat, name: Str)
    requires ImageOf(d, nodes) && Realizes(nodes, t, parent) && Buildable(t) && t.Dir? && 1 <= parent < 65536
    requires IsName(name)
    ensures var found := FindName(d, name, t.inumber);
      if name == DOT then found.Some? && found.value.inumber == t.inumber
      else if name == DOTDOT then found.Some? && found.value.inumber == parent
      else match FindChild(t.children, name)
        case None => found == None
        case Some(u) => found.Some? && found.value.inumber == u.inumber
  {
    hide Stored, Cut, FindName, EntriesBytes, FindEntry, Inumbers, ForestInumbers, ForestRealizes;
    var dots, es := [DotEntry(t.inumber), DotDotEntry(parent)], Entries(t.children);
    EntriesFit(t.children);
    DirectorySearch(d, t.inumber, dots + es, name);
    FindEntryConcat(dots, es, name);
    DotsSearch(t.inumber, parent, name);
    ChildrenSearch(t.children, name);
  }

  lemma StepInFile(d: Disk, nodes: map<nat, Node>, t: Tree, parent: nat, name: Str)
    requires ImageOf(d, nodes) && Realizes(nodes, t, parent) && t.File?
    ensures FindName(d, name, t.inumber) == None
  {
    hide BlocksRead, FindFrom;
  }

  lemma {:induction false} ChildRealized(nodes: map<nat, Node>, f: Forest, parent: nat, name: Str)
    requires ForestRealizes(nodes, f, parent) && ForestBuildable(f) && FindChild(f, name).Some?
    ensures Realizes(nodes, FindChild(f, name).value, parent) && Buildable(FindChild(f, name).value)
  {
    if Cut(f.name, NAME) != name {
      ChildRealized(nodes, f.rest, parent, name);
    }
  }

  lemma ChildOfRealized(nodes: map<nat, Node>, t: Tree, parent: nat, name: Str)
    requires Realizes(nodes, t, parent) && Buildable(t) && t.Dir? && FindChild(t.children, name).Some?
    ensures Realizes(nodes, FindChild(t.children, name).value, t.inumber) &&
      Buildable(FindChild(t.children, name).value)
  {
    hide Cut, Inumbers, ForestInumbers, FindChild;
    ChildRealized(nodes, t.children, t.inumber, name);
  }

  lemma TrailGrows(nodes: map<nat, Node>, trail: seq<Tree>, name: Str)
    requires IsTrail(nodes, trail) && trail[|trail| - 1].Dir? && FindChild(trail[|trail| - 1].children, name).Some?
    ensures IsTrail(nodes, trail + [FindChild(trail[|trail| - 1].children, name).value])
  {
    hide Realizes, Buildable, FindChild;
    var here := trail[|trail| - 1];
    ChildOfRealized(nodes, here, ParentIn(trail, |trail| - 1), name);
    var longer := trail + [FindChild(here.children, name).value];
    forall k | 0 <= k < |longer| ensures Realizes(nodes, longer[k], ParentIn(longer, k)) {
      if k < |trail| {
        assert ParentIn(longer, k) == ParentIn(trail, k);
      }
    }
  }

  lemma TrailShrinks(nodes: map<nat, Node>, trail: seq<Tree>)
    requires IsTrail(nodes, trail) && |trail| > 1
    ensures IsTrail(nodes, trail[..|trail| - 1])
  {
    var shorter := trail[..|trail| - 1];
    forall k | 0 <= k < |shorter| ensures Realizes(nodes, shorter[k], ParentIn(shorter, k)) {
      assert ParentIn(shorter, k) == ParentIn(trail, k);
    }
  }

  lemma {:induction false} WalkIsResolve(d: Disk, nodes: map<nat, Node>, trail: seq<Tree>, names: seq<Str>)
    requires ImageOf(d, nodes) && IsTrail(nodes, trail) && forall n :: n in names ==> IsName(n)
    ensures WalkFrom(d, trail[|trail| - 1].inumber, names) == Resolve(trail, names)
    decreases |names|
  {
    hide Cut, FindName, Inumbers, ForestInumbers, Buildable, Realizes, Stored;
    if names != [] {
      var k := |trail| - 1;
      var here := trail[k];
      var rest := names[1..];
      assert names[0] in names && forall n :: n in rest ==> n in names;
      assert Realizes(nodes, here, ParentIn(trail, k));
      TrailInumbers(trail, nodes);
      if here.File? {
        StepInFile(d, nodes, here, ParentIn(trail, k), names[0]);
      } else {
        StepInDirectory(d, nodes, here, ParentIn(trail, k), names[0]);
        if names[0] == DOT {
          WalkIsResolve(d, nodes, trail, rest);
        } else if names[0] == DOTDOT {
          if |trail| > 1 {
            TrailShrinks(nodes, trail);
            WalkIsResolve(d, nodes, trail[..k], rest);
          } else {
            WalkIsResolve(d, nodes, trail, rest);
          }
        } else if FindChild(here.children, names[0]).Some? {
          TrailGrows(nodes, trail, names[0]);
          WalkIsResolve(d, nodes, trail + [FindChild(here.children, names[0]).value], rest);
        }
      }
    }
  }

  lemma TrailInumbers(trail: seq<Tree>, nodes: map<nat, Node>)
    requires IsTrail(nodes, trail)
    ensures forall k :: 0 <= k < |trail| ==> 1 <= trail[k].inumber <= 64 && 1 <= ParentIn(trail, k) <= 64
  {
    hide Realizes, ForestBuildable, Inumbers, ForestInumbers;
    forall k | 0 <= k < |trail| ensures 1 <= trail[k].inumber <= 64 {
      assert Buildable(trail[k]);
    }
  }

  lemma {:induction false} ComponentsAreNames(path: Str, p: nat)
    ensures forall n :: n in Components(path, p) ==> IsName(n)
    decreases |path| - p
  {
    hide Cut;
    var q := SkipSlashes(path, p);
    if At(path, q) != 0 {
      var r := ComponentEnd(path, q);
      CutIdempotent(path[q..r]);
      ComponentsAreNames(path, r);
    }
  }

  lemma CutIdempotent(s: Str)
    ensures IsName(Cut(s, NAME))
  {
    CutFits(s, NAME);
    CutTwice(s, NAME, 0);
    assert Cut(s, NAME) + Zeros(0) == Cut(s, NAME);
  }

  /** Every path, with dots, repeated slashes and over-long names, resolves in the image as in the tree. */
  lemma LookupMatchesTree(d: Disk, nodes: map<nat, Node>, root: Tree, path: Str)
    requires ImageOf(d, nodes) && root.inumber == ROOT && Buildable(root) && Realizes(nodes, root, ROOT)
    ensures Lookup(d, path) == LookupInTree(root, path)
  {
    hide WalkFrom, Resolve, Components, Stored;
    ComponentsAreNames(path, 0);
    WalkIsResolve(d, nodes, [root], Components(path, 0));
  }

  // ------------------------------------------------------------ paths of nodes

  // A name as a path can spell it.
  predicate Plain(n: Str) {
    n != [] && NoNul(n) && SLASH !in n
  }

  function PathOf(names: seq<Str>): Str {
    if names == [] then [] else [SLASH] + names[0] + PathOf(names[1..])
  }

  function Cuts(names: seq<Str>): seq<Str> {
    if names == [] then [] else [Cut(names[0], NAME)] + Cuts(names[1..])
  }

  // Reading s + t from position |s| + p is reading t from p.
  lemma {:induction false} SkipShift(s: Str, t: Str, p: nat)
    ensures SkipSlashes(s + t, |s| + p) == |s| + SkipSlashes(t, p)
    decreases |t| - p
  {
    if At(t, p) == SLASH {
      SkipShift(s, t, p + 1);
    }
  }

  lemma {:induction false} EndShift(s: Str, t: Str, p: nat)
    ensures ComponentEnd(s + t, |s| + p) == |s| + ComponentEnd(t, p)
    decreases |t| - p
  {
    if At(t, p) != SLASH && At(t, p) != 0 {
      EndShift(s, t, p + 1);
    }
  }

  lemma ComponentsEnd(path: Str, p: nat)
    requires At(path, SkipSlashes(path, p)) == 0
    ensures Components(path, p) == []
  {
  }

  lemma ComponentsNext(path: Str, p: nat, q: nat, r: nat)
    requires q == SkipSlashes(path, p) && At(path, q) != 0 && r == ComponentEnd(path, q)
    ensures q < r <= |path|
    ensures Components(path, p) == [Cut(path[q..r], NAME)] + Components(path, r)
  {
  }

  lemma AtShift(s: Str, t: Str, p: nat)
    ensures At(s + t, |s| + p) == At(t, p)
  {
  }

  lemma {:induction false} ComponentsShift(s: Str, t: Str, p: nat)
    ensures Components(s + t, |s| + p) == Components(t, p)
    decreases |t| - p
  {
    hide Components, SkipSlashes, ComponentEnd, Cut, At;
    SkipShift(s, t, p);
    var q := SkipSlashes(t, p);
    AtShift(s, t, q);
    if At(t, q) == 0 {
      ComponentsEnd(t, p);
      ComponentsEnd(s + t, |s| + p);
    } else {
      EndShift(s, t, q);
      var r := ComponentEnd(t, q);
      ComponentsNext(t, p, q, r);
      ComponentsNext(s + t, |s| + p, |s| + q, |s| + r);
      assert (s + t)[|s| + q..|s| + r] == t[q..r];
      SkipForward(t, p);
      ComponentsShift(s, t, r);
    }
  }

  lemma SkipForward(t: Str, p: nat)
    ensures SkipSlashes(t, p) >= p
  {
  }

  lemma {:induction false} EndAt(path: Str, p: nat, r: nat)
    requires p <= r && (At(path, r) == SLASH || At(path, r) == 0)
    requires forall k :: p <= k < r ==> At(path, k) != SLASH && At(path, k) != 0
    ensures ComponentEnd(path, p) == r
    decreases r - p
  {
    if p < r {
      EndAt(path, p + 1, r);
    }
  }

  lemma PathReads(n: Str, rest: Str)
    requires Plain(n) && (rest == [] || rest[0] == SLASH)
    ensures var path := ([SLASH] + n) + rest;
      At(path, 0) == SLASH && At(path, 1) != SLASH && At(path, 1) != 0 &&
      ComponentEnd(path, 1) == |n| + 1 && path[1..|n| + 1] == n
  {
    var path := ([SLASH] + n) + rest;
    assert forall k :: 1 <= k <= |n| ==> path[k] == n[k - 1];
    assert rest != [] ==> path[|n| + 1] == rest[0];
    EndAt(path, 1, |n| + 1);
  }

  /** The components of a spelled-out path are its names, each cut to 14 characters. */
  lemma {:induction false} ComponentsOfPath(names: seq<Str>)
    requires forall n :: n in names ==> Plain(n)
    ensures Components(PathOf(names), 0) == Cuts(names)
  {
    hide Components, ComponentEnd, Cut, At, Plain;
    if names == [] {
      EmptyComponents();
    } else {
      var n, rest := names[0], PathOf(names[1..]);
      assert n in names && forall m :: m in names[1..] ==> m in names;
      ComponentsOfPath(names[1..]);
      PathReads(n, rest);
      var path := ([SLASH] + n) + rest;
      ComponentsAtSlash(path, 0);
      ComponentsInName(path, 1, |n| + 1);
      ComponentsShift([SLASH] + n, rest, 0);
    }
  }

  /** Only the first 14 characters of a component matter. */
  lemma LongTailsIgnored(d: Disk, a: seq<Str>, b: seq<Str>)
    requires (forall n :: n in a ==> Plain(n)) && (forall n :: n in b ==> Plain(n)) && Cuts(a) == Cuts(b) && a != []
    ensures Lookup(d, PathOf(a)) == Lookup(d, PathOf(b))
  {
    ComponentsOfPath(a);
    ComponentsOfPath(b);
    assert b != [];
    assert At(PathOf(a), 0) == SLASH && At(PathOf(b), 0) == SLASH;
  }

  lemma ComponentsAtSlash(path: Str, p: nat)
    requires At(path, p) == SLASH
    ensures Components(path, p) == Components(path, p + 1)
  {
    hide ComponentEnd, Cut;
    assert SkipSlashes(path, p) == SkipSlashes(path, p + 1);
  }

  lemma ComponentsInName(path: Str, p: nat, r: nat)
    requires At(path, p) != SLASH && At(path, p) != 0 && r == ComponentEnd(path, p)
    ensures p < r <= |path| && Components(path, p) == [Cut(path[p..r], NAME)] + Components(path, r)
  {
    assert SkipSlashes(path, p) == p;
  }

  lemma PrefixReads(a: Str, b: Str)
    requires NoNul(a)
    ensures forall k :: 0 <= k < |a| ==> At(a + b, k) == At(a, k) && At(a, k) != 0
    ensures b != [] ==> At(a + b, |a|) == b[0]
    ensures At(a, |a|) == 0
  {
  }

  // Inside the part before a slash nothing depends on what follows the slash.
  lemma {:induction false} ComponentsBefore(a: Str, b: Str, p: nat)
    requires NoNul(a) && p <= |a|
    ensures Components(a + ([SLASH] + b), p) == Components(a, p) + Components(b, 0)
    decreases |a| - p
  {
    hide Components, SkipSlashes, Cut, At, NoNul;
    var tail := [SLASH] + b;
    var path := a + tail;
    PrefixReads(a, tail);
    if p == |a| {
      ComponentsShift(a, tail, 0);
      ComponentsShift([SLASH], b, 0);
      AtShift(a, tail, 0);
      ComponentsAtSlash(path, p);
      assert path == (a + [SLASH]) + b;
      ComponentsShift(a + [SLASH], b, 0);
      NothingAfter(a);
    } else if At(a, p) == SLASH {
      ComponentsAtSlash(a, p);
      ComponentsAtSlash(path, p);
      ComponentsBefore(a, b, p + 1);
    } else {
      var r := ComponentEnd(a, p);
      ComponentsInName(a, p, r);
      EndSame(a, tail, p, r);
      ComponentsInName(path, p, r);
      assert path[p..r] == a[p..r];
      ComponentsBefore(a, b, r);
    }
  }

  lemma EmptyComponents()
    ensures Components([], 0) == []
  {
  }

  lemma NothingAfter(a: Str)
    ensures Components(a, |a|) == []
  {
  }

  lemma EndSame(a: Str, tail: Str, p: nat, r: nat)
    requires NoNul(a) && p < |a| && r == ComponentEnd(a, p) && tail != [] && tail[0] == SLASH
    ensures ComponentEnd(a + tail, p) == r
  {
    PrefixReads(a, tail);
    EndAt(a + tail, p, r);
  }

  /** Extra slashes in the middle or at the end of a path change nothing. */
  lemma ExtraSlashesIgnored(d: Disk, a: Str, b: Str)
    requires NoNul(a)
    ensures Lookup(d, a + ([SLASH] + ([SLASH] + b))) == Lookup(d, a + ([SLASH] + b))
    ensures a != [] ==> Lookup(d, a + ([SLASH] + [])) == Lookup(d, a)
  {
    hide Components, WalkFrom;
    ComponentsBefore(a, [SLASH] + b, 0);
    ComponentsBefore(a, b, 0);
    ComponentsBefore(a, [], 0);
    ComponentsAtSlash([SLASH] + b, 0);
    ComponentsShift([SLASH], b, 0);
    EmptyComponents();
    assert Components(a, 0) + [] == Components(a, 0);
  }

  // The node reached from t by following child names.
  function Descend(t: Tree, names: seq<Str>): Option<Tree>
    decreases |names|
  {
    if names == [] then Some(t)
    else if t.File? then None
    else
      match FindChild(t.children, names[0])
      case None => None
      case Some(u) => Descend(u, names[1..])
  }

  lemma {:induction false} ResolveDescends(trail: seq<Tree>, names: seq<Str>)
    requires trail != [] && DOT !in names && DOTDOT !in names
    ensures Resolve(trail, names) ==
      match Descend(trail[|trail| - 1], names) case None => -1 case Some(u) => u.inumber
    decreases |names|
  {
    var here := trail[|trail| - 1];
    if names != [] && here.Dir? && FindChild(here.children, names[0]).Some? {
      ResolveDescends(trail + [FindChild(here.children, names[0]).value], names[1..]);
    }
  }

  /** The path of a node gives its inumber; a path that names no node gives -1. */
  lemma NodePaths(d: Disk, nodes: map<nat, Node>, root: Tree, names: seq<Str>)
    requires ImageOf(d, nodes) && root.inumber == ROOT && Buildable(root) && Realizes(nodes, root, ROOT)
    requires names != [] && (forall n :: n in names ==> Plain(n)) && DOT !in Cuts(names) && DOTDOT !in Cuts(names)
    ensures Lookup(d, PathOf(names)) == match Descend(root, Cuts(names)) case None => -1 case Some(u) => u.inumber
  {
    hide Stored, Realizes, Buildable, Cut;
    LookupMatchesTree(d, nodes, root, PathOf(names));
    ComponentsOfPath(names);
    assert At(PathOf(names), 0) == SLASH;
    ResolveDescends([root], Cuts(names));
  }

  predicate DistinctCuts(f: Forest) {
    match f
    case Nil => true
    case Child(n, _, rest) => FindChild(rest, Cut(n, NAME)) == None && DistinctCuts(rest)
  }

  predicate IsChild(f: Forest, name: Str, t: Tree) {
    f.Child? && ((f.name == name && f.tree == t) || IsChild(f.rest, name, t))
  }

  /** Among distinct names every child is found under its own name. */
  lemma {:induction false} ChildFoundByName(f: Forest, name: Str, t: Tree)
    requires DistinctCuts(f) && IsChild(f, name, t)
    ensures FindChild(f, Cut(name, NAME)) == Some(t)
  {
    hide Cut;
    if !(f.name == name && f.tree == t) {
      ChildFoundByName(f.rest, name, t);
    }
  }

  lemma {:induction false} ResolveUp(trail: seq<Tree>, names: seq<Str>, last: Str)
    requires trail != [] && DOT !in names && DOTDOT !in names && last != DOT && last != DOTDOT
    requires Descend(trail[|trail| - 1], names + [last]).Some? && Descend(trail[|trail| - 1], names + [last]).value.Dir?
    ensures Resolve(trail, names + [last] + [DOTDOT]) == Resolve(trail, names)
    decreases |names|
  {
    var here := trail[|trail| - 1];
    if names == [] {
      assert [] + [last] == [last] && [last][1..] == [];
      assert [] + [last] + [DOTDOT] == [last, DOTDOT];
      assert [last, DOTDOT][1..] == [DOTDOT] && [DOTDOT][1..] == [];
      var u := FindChild(here.children, last).value;
      assert Descend(u, []) == Some(u);
      assert (trail + [u])[..|trail|] == trail;
      assert Resolve(trail, [last, DOTDOT]) == Resolve(trail + [u], [DOTDOT]);
      assert Resolve(trail + [u], [DOTDOT]) == Resolve(trail, []);
    } else {
      assert (names + [last])[1..] == names[1..] + [last] && (names + [last])[0] == names[0];
      assert (names + [last] + [DOTDOT])[1..] == names[1..] + [last] + [DOTDOT];
      assert (names + [last] + [DOTDOT])[0] == names[0];
      var u := FindChild(here.children, names[0]).value;
      ResolveUp(trail + [u], names[1..], last);
    }
  }

  /** `..` from any directory leads back to the directory that lists it. */
  lemma DotDotIsParent(root: Tree, names: seq<Str>, last: Str)
    requires DOT !in names && DOTDOT !in names && last != DOT && last != DOTDOT
    requires Descend(root, names + [last]).Some? && Descend(root, names + [last]).value.Dir?
    ensures Descend(root, names).Some?
    ensures Resolve([root], names + [last] + [DOTDOT]) == Descend(root, names).value.inumber
  {
    ResolveUp([root], names, last);
    ResolveDescends([root], names);
    DescendPrefix(root, names, last);
  }

  lemma {:induction false} ResolveDot(trail: seq<Tree>, names: seq<Str>)
    requires trail != [] && DOT !in names && DOTDOT !in names
    requires Descend(trail[|trail| - 1], names).Some? && Descend(trail[|trail| - 1], names).value.Dir?
    ensures Resolve(trail, names + [DOT]) == Resolve(trail, names)
    decreases |names|
  {
    var here := trail[|trail| - 1];
    if names == [] {
      assert [] + [DOT] == [DOT] && [DOT][1..] == [];
      assert Resolve(trail, [DOT]) == Resolve(trail, []);
    } else {
      assert (names + [DOT])[1..] == names[1..] + [DOT] && (names + [DOT])[0] == names[0];
      ResolveDot(trail + [FindChild(here.children, names[0]).value], names[1..]);
    }
  }

  lemma {:induction false} CutsAppend(names: seq<Str>, n: Str)
    ensures Cuts(names + [n]) == Cuts(names) + [Cut(n, NAME)] && |Cuts(names)| == |names|
  {
    hide Cut;
    if names == [] {
      assert [] + [n] == [n] && [n][1..] == [];
      assert Cuts([]) == [];
    } else {
      assert (names + [n])[1..] == names[1..] + [n];
      CutsAppend(names[1..], n);
    }
  }

  lemma DotsArePlain()
    ensures Plain(DOT) && Plain(DOTDOT) && Cut(DOT, NAME) == DOT && Cut(DOTDOT, NAME) == DOTDOT
  {
    CutOfDots(1);
    assert DOT[1..] == [] && DOTDOT[1..] == DOT;
    assert Cut(DOT, NAME) == [46] + Cut([], NAME - 1);
    assert Cut(DOT, NAME - 1) == [46] + Cut([], NAME - 2);
  }

  /** In the image, a directory's `.` is itself and its `..` its parent; the root is its own parent. */
  lemma DotsInPaths(d: Disk, nodes: map<nat, Node>, root: Tree, names: seq<Str>)
    requires ImageOf(d, nodes) && root.inumber == ROOT && Buildable(root) && Realizes(nodes, root, ROOT)
    requires (forall n :: n in names ==> Plain(n)) && DOT !in Cuts(names) && DOTDOT !in Cuts(names)
    requires Descend(root, Cuts(names)).Some? && Descend(root, Cuts(names)).value.Dir?
    ensures Lookup(d, PathOf(names + [DOT])) == Descend(root, Cuts(names)).value.inumber
    ensures names == [] ==> Lookup(d, PathOf([DOTDOT])) == 1
    ensures names != [] ==>
      var up := Descend(root, Cuts(names[..|names| - 1]));
      up.Some? && Lookup(d, PathOf(names + [DOTDOT])) == up.value.inumber
  {
    hide Stored, Realizes, Buildable, Cut, Components, Resolve, Descend, Plain, ImageOf;
    DotsArePlain();
    LookupOfNames(d, nodes, root, names + [DOT]);
    CutsAppend(names, DOT);
    ResolveDot([root], Cuts(names));
    ResolveDescends([root], Cuts(names));
    LookupOfNames(d, nodes, root, names + [DOTDOT]);
    CutsAppend(names, DOTDOT);
    if names == [] {
      assert names + [DOTDOT] == [DOTDOT];
      RootParent(root);
    } else {
      var front, last := names[..|names| - 1], names[|names| - 1];
      assert names == front + [last];
      CutsAppend(front, last);
      assert Cut(last, NAME) in Cuts(names);
      DotDotIsParent(root, Cuts(front), Cut(last, NAME));
    }
  }

  lemma RootParent(root: Tree)
    requires Descend(root, Cuts([])).Some? && Descend(root, Cuts([])).value.Dir?
    ensures Resolve([root], Cuts([]) + [DOTDOT]) == root.inumber
  {
    assert Cuts([]) + [DOTDOT] == [DOTDOT] && [DOTDOT][1..] == [];
    assert Resolve([root], []) == root.inumber;
  }

  lemma LookupOfNames(d: Disk, nodes: map<nat, Node>, root: Tree, names: seq<Str>)
    requires ImageOf(d, nodes) && root.inumber == ROOT && Buildable(root) && Realizes(nodes, root, ROOT)
    requires names != [] && forall n :: n in names ==> Plain(n)
    ensures Lookup(d, PathOf(names)) == Resolve([root], Cuts(names))
  {
    hide Stored, Realizes, Buildable, Cut, Resolve;
    LookupMatchesTree(d, nodes, root, PathOf(names));
    ComponentsOfPath(names);
    assert At(PathOf(names), 0) == SLASH;
  }

  lemma {:induction false} DescendPrefix(t: Tree, names: seq<Str>, last: Str)
    requires Descend(t, names + [last]).Some?
    ensures Descend(t, names).Some?
    decreases |names|
  {
    if names != [] {
      assert (names + [last])[1..] == names[1..] + [last] && (names + [last])[0] == names[0];
      DescendPrefix(FindChild(t.children, names[0]).value, names[1..], last);
    }
  }

  /** From an empty image to path lookup: build the tree, then resolve any path on the result. */
  method BuildAndLookup(root: Tree, path: Str) returns (inumber: int)
    requires root.inumber == ROOT && Buildable(root) && DATA_START + SectorsOf(root) <= 65536
    ensures inumber == LookupInTree(root, path)
  {
    hide Realizes, Buildable, Lookup, LookupInTree, Placed;
    var m := new Mkfs();
    BuildTree(m, root, ROOT);
    m.WriteSuperblock();
    PlacedAreStored(m);
    var fs := new FileSystem(m.disk);
    inumber := fs.PathnameLookup(path);
    LookupMatchesTree(m.disk, m.nodes, root, path);
  }

  lemma PlacedAreStored(m: Mkfs)
    requires m.Valid()
    ensures ImageOf(m.disk, m.nodes)
  {
    hide Stored, Within;
  }
}
