/**
  The layered reader: inode, block map, file block, directory, path.
 */
module V6Reader {
  import opened Bytes
  import opened V6Format

  const ROOT: nat := 1
  const SLASH: Byte := 47

  // ------------------------------------------------------------ inodes and block maps

  function InodeSector(inumber: nat): nat
    requires inumber >= 1
  {
    INODE_START + (inumber - 1) / INODES_PER_BLOCK
  }

  function InodeSlot(inumber: nat): nat
    requires inumber >= 1
  {
    32 * ((inumber - 1) % INODES_PER_BLOCK)
  }

  function Iget(d: Disk, inumber: int): Option<Inode> {
    if inumber < 1 then None else Some(ReadInode(ReadSector(d, InodeSector(inumber)), InodeSlot(inumber)))
  }

  function GetSize(n: Inode): nat {
    n.size0 * 65536 + n.size1
  }

  function Pointer(d: Disk, sector: nat, k: nat): nat {
    ReadU16(ReadSector(d, sector), 2 * k)
  }

  // The sector of file block b, 0 for a hole, -1 for an error.
  function IndexLookup(d: Disk, n: Inode, b: int): int
    requires |n.addr| == 8
  {
    if b < 0 then -1
    else if !IsLarge(n.mode) then
      if b >= 8 then -1 else n.addr[b]
    else if b < 7 * PTRS then
      if n.addr[b / PTRS] == 0 then -1 else Pointer(d, n.addr[b / PTRS], b % PTRS)
    else
      var first, second := (b - 7 * PTRS) / PTRS, (b - 7 * PTRS) % PTRS;
      if first >= PTRS then -1
      else if n.addr[7] == 0 then -1
      else
        var l1 := Pointer(d, n.addr[7], first);
        if l1 == 0 then -1 else Pointer(d, l1, second)
  }

  /**
    Where block 256 * k + j of a file is: one of the 8 direct sectors, word j of indirect block k below
    7, or behind two levels of pointers from there on; -1 where a pointer block is missing.
   */
  lemma BlockMap(d: Disk, n: Inode, k: nat, j: nat)
    requires |n.addr| == 8 && j < 256
    ensures forall b: int :: b < 0 ==> IndexLookup(d, n, b) == -1
    ensures var r := IndexLookup(d, n, 256 * k + j);
      if !IsLarge(n.mode) then r == if k == 0 && j < 8 then n.addr[j] else -1
      else if k < 7 then
        var s: seq<int> := ReadSector(d, n.addr[k]);
        r == if n.addr[k] == 0 then -1 else s[2 * j] + 256 * s[2 * j + 1]
      else if k < 263 && n.addr[7] != 0 then
        var top: seq<int> := ReadSector(d, n.addr[7]);
        var l1: nat := top[2 * (k - 7)] + 256 * top[2 * (k - 7) + 1];
        var s: seq<int> := ReadSector(d, l1);
        r == if l1 == 0 then -1 else s[2 * j] + 256 * s[2 * j + 1]
      else r == -1
  {
    assert (256 * k + j) / 256 == k && (256 * k + j) % 256 == j;
    if k >= 7 {
      assert (256 * (k - 7) + j) / 256 == k - 7 && (256 * (k - 7) + j) % 256 == j;
    }
  }

  function ValidBytes(size: nat, b: nat): nat {
    if b < size / SECTOR then SECTOR else if size % SECTOR == 0 then SECTOR else size % SECTOR
  }

  // Contents of file block b and how many of its bytes count.
  function GetBlock(d: Disk, inumber: int, b: int): Option<(Sector, nat)> {
    match Iget(d, inumber)
    case None => None
    case Some(n) =>
      var s := IndexLookup(d, n, b);
      if s <= 0 then None else Some((ReadSector(d, s), ValidBytes(GetSize(n), b)))
  }

  // ------------------------------------------------------------ names

  // A C string of at most n characters held in an n-byte field.
  function Cut(s: Str, n: nat): Str {
    if n == 0 || s == [] || s[0] == 0 then [] else [s[0]] + Cut(s[1..], n - 1)
  }

  // strncmp(a, b, n) == 0
  predicate SameName(a: Str, b: Str, n: nat) {
    n == 0 || (At(a, 0) == At(b, 0) && (At(a, 0) == 0 || SameName(a[1..], b[1..], n - 1)))
  }

  /** Bounded comparison sees exactly the first n characters up to a NUL. */
  lemma {:induction false} SameNameIsCut(a: Str, b: Str, n: nat)
    ensures SameName(a, b, n) <==> Cut(a, n) == Cut(b, n)
  {
    if n > 0 && a != [] && a[0] != 0 {
      assert Cut(a, n) == [a[0]] + Cut(a[1..], n - 1);
      assert Cut(a, n)[0] == a[0] && Cut(a, n)[1..] == Cut(a[1..], n - 1);
    }
    if n > 0 && b != [] && b[0] != 0 {
      assert Cut(b, n) == [b[0]] + Cut(b[1..], n - 1);
      assert Cut(b, n)[0] == b[0] && Cut(b, n)[1..] == Cut(b[1..], n - 1);
    }
    if n > 0 && a != [] && b != [] {
      SameNameIsCut(a[1..], b[1..], n - 1);
    }
  }

  // ------------------------------------------------------------ directories

  function FindInBlock(s: Str, nents: nat, e: nat, name: Str): Option<DirEnt>
    decreases nents - e
  {
    if e >= nents then None
    else
      var ent := ReadEntry(s, 16 * e);
      if ent.inumber != 0 && SameName(ent.name, name, NAME) then Some(ent) else FindInBlock(s, nents, e + 1, name)
  }

  function FindFrom(d: Disk, dir: int, name: Str, b: nat, blocks: nat): Option<DirEnt>
    decreases blocks - b
  {
    if b >= blocks then None
    else
      match GetBlock(d, dir, b)
      case None => None
      case Some(p) =>
        match FindInBlock(p.0, p.1 / 16, 0, name)
        case Some(ent) => Some(ent)
        case None => FindFrom(d, dir, name, b + 1, blocks)
  }

  function BlockCount(size: nat): nat {
    (size + SECTOR - 1) / SECTOR
  }

  function FindName(d: Disk, name: Str, dir: int): Option<DirEnt> {
    match Iget(d, dir)
    case None => None
    case Some(n) => if !IsDir(n.mode) then None else FindFrom(d, dir, name, 0, BlockCount(GetSize(n)))
  }

  // ------------------------------------------------------------ paths

  function SkipSlashes(path: Str, p: nat): (q: nat)
    ensures q >= p && At(path, q) != SLASH && forall k :: p <= k < q ==> At(path, k) == SLASH
    decreases |path| - p
  {
    if At(path, p) == SLASH then SkipSlashes(path, p + 1) else p
  }

  function ComponentEnd(path: Str, p: nat): (q: nat)
    ensures q >= p && (At(path, q) == SLASH || At(path, q) == 0)
    ensures forall k :: p <= k < q ==> At(path, k) != SLASH && At(path, k) != 0
    ensures q <= |path| || q == p
    decreases |path| - p
  {
    if At(path, p) == SLASH || At(path, p) == 0 then p else ComponentEnd(path, p + 1)
  }

  // The non-empty components from position p on, each cut to 14 characters.
  function Components(path: Str, p: nat): seq<Str>
    decreases |path| - p
  {
    var q := SkipSlashes(path, p);
    if At(path, q) == 0 then []
    else
      var r := ComponentEnd(path, q);
      [Cut(path[q..r], NAME)] + Components(path, r)
  }

  function WalkFrom(d: Disk, inumber: int, names: seq<Str>): int
    decreases |names|
  {
    if names == [] then inumber
    else
      match FindName(d, names[0], inumber)
      case None => -1
      case Some(ent) => WalkFrom(d, ent.inumber, names[1..])
  }

  function Lookup(d: Disk, path: Str): int {
    if At(path, 0) != SLASH then -1 else WalkFrom(d, ROOT, Components(path, 0))
  }

  /** Only absolute paths resolve; `/` is the root. */
  lemma PathStart(d: Disk, path: Str)
    ensures path == [] || path[0] != 47 ==> Lookup(d, path) == -1
    ensures path == [47] ==> Lookup(d, path) == 1
  {
    if path == [47] {
      assert SkipSlashes(path, 0) == 1;
      assert Components(path, 0) == [];
    }
  }

  // ------------------------------------------------------------ the reading code

  class FileSystem {
    const image: Disk

    constructor (d: Disk)
      ensures image == d
    {
      image := d;
    }

    /** Fills the caller's buffer with the block; -1, with the buffer untouched, when there is none. */
    method FileGetBlock(inumber: int, blockNum: int, buf: array<Byte>) returns (n: int)
      requires buf.Length == SECTOR
      modifies buf
      ensures match GetBlock(image, inumber, blockNum)
        case None => n == -1 && buf[..] == old(buf[..])
        case Some(p) => n == p.1 && buf[..] == p.0
    {
      var ino := Iget(image, inumber);
      if ino.None? {
        return -1;
      }
      var sector := IndexLookup(image, ino.value, blockNum);
      if sector <= 0 {
        return -1;
      }
      var bytes := ReadSector(image, sector);
      forall i | 0 <= i < SECTOR {
        buf[i] := bytes[i];
      }
      assert buf[..] == bytes;
      var size := GetSize(ino.value);
      if blockNum < size / SECTOR {
        return SECTOR;
      }
      var tail := size % SECTOR;
      n := if tail == 0 then SECTOR else tail;
    }

    method DirectoryFindName(name: Str, dir: int) returns (found: Option<DirEnt>)
      ensures found == FindName(image, name, dir)
    {
      hide ReadInode, ReadEntry, SameName, ReadSector, IndexLookup, IsDir;
      var ino := Iget(image, dir);
      if ino.None? || !IsDir(ino.value.mode) {
        return None;
      }
      var numBlocks := BlockCount(GetSize(ino.value));
      var buf := new Byte[SECTOR](_ => 0);
      var b := 0;
      while b < numBlocks
        invariant 0 <= b <= numBlocks
        invariant FindName(image, name, dir) == FindFrom(image, dir, name, b, numBlocks)
      {
        var valid := FileGetBlock(dir, b, buf);
        if valid < 0 {
          return None;
        }
        var nents := valid / 16;
        var e := 0;
        while e < nents
          invariant 0 <= e <= nents
          invariant FindInBlock(buf[..], nents, 0, name) == FindInBlock(buf[..], nents, e, name)
        {
          var ent := ReadEntry(buf[..], 16 * e);
          if ent.inumber != 0 && SameName(ent.name, name, NAME) {
            return Some(ent);
          }
          e := e + 1;
        }
        b := b + 1;
      }
      found := None;
    }

    method PathnameLookup(path: Str) returns (inumber: int)
      ensures inumber == Lookup(image, path)
    {
      hide FindName, Cut;
      if At(path, 0) != SLASH {
        return -1;
      }
      inumber := ROOT;
      var p := 0;
      while At(path, p) != 0
        invariant Lookup(image, path) == WalkFrom(image, inumber, Components(path, p))
        decreases |path| - p
      {
        ghost var from := p;
        p := SkipRun(path, p);
        if At(path, p) == 0 {
          break;
        }
        ghost var start := p;
        var component;
        p, component := TakeComponent(path, p);
        assert Components(path, from) == [component] + Components(path, p);
        var ent := DirectoryFindName(component, inumber);
        if ent.None? {
          return -1;
        }
        inumber := ent.value.inumber;
      }
    }
  }

  method SkipRun(path: Str, at: nat) returns (p: nat)
    ensures p == SkipSlashes(path, at)
  {
    p := at;
    while At(path, p) == SLASH
      invariant SkipSlashes(path, p) == SkipSlashes(path, at)
      decreases |path| - p
    {
      p := p + 1;
    }
  }

  // Characters past the 14th are skipped, not stored.
  method TakeComponent(path: Str, at: nat) returns (p: nat, component: Str)
    ensures p == ComponentEnd(path, at)
    ensures at <= |path| ==> component == Cut(path[at..p], NAME)
  {
    p, component := at, [];
    while At(path, p) != SLASH && At(path, p) != 0
      invariant at <= p && (p <= |path| || p == at) && ComponentEnd(path, p) == ComponentEnd(path, at)
      invariant forall k :: at <= k < p ==> At(path, k) != SLASH && At(path, k) != 0
      invariant at <= |path| ==> component == path[at..if p - at <= NAME then p else at + NAME]
      decreases |path| - p
    {
      if |component| < NAME {
        component := component + [At(path, p)];
      }
      p := p + 1;
    }
    if at <= |path| {
      assert forall k :: 0 <= k < p - at ==> path[at..p][k] == At(path, at + k);
      CutIsPrefix(path[at..p], NAME);
    }
  }

  lemma {:induction false} CutIsPrefix(s: Str, n: nat)
    requires NoNul(s)
    ensures Cut(s, n) == s[..if |s| <= n then |s| else n]
  {
    if n > 0 && s != [] {
      CutIsPrefix(s[1..], n - 1);
    }
  }
}
