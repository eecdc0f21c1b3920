/**
  The image builder: a bump allocator, small and singly indirect files, one-block
  directories. Whatever it builds later, the reader finds every file it built before.
 */
module V6Mkfs {
  import opened Bytes
  import opened V6Format
  import opened V6Reader

  const MAX_BLOCKS: nat := 1792

  // What an inode stands for: a file or directory with these bytes.
  datatype Node = Node(dir: bool, data: Str)

  function Blocks(size: nat): nat {
    (size + 511) / 512
  }

  function Clip(p: nat, n: nat): nat {
    if p <= n then p else n
  }

  // Block b of the contents, padded with zeros.
  function Padded(data: Str, b: nat): Sector {
    var from, to := Clip(512 * b, |data|), Clip(512 * b + 512, |data|);
    data[from..to] + Zeros(SECTOR - (to - from))
  }

  function BytesIn(size: nat, b: nat): nat {
    Clip(512 * b + 512, size) - Clip(512 * b, size)
  }

  // What the builder keeps of a file: it fills no more than seven indirect blocks.
  function Kept(data: Str): Str {
    data[..Clip(512 * MAX_BLOCKS, |data|)]
  }

  /** A file is kept whole if and only if it has at most 7 * 256 blocks. */
  lemma KeptWhole(data: Str)
    ensures Kept(data) == data <==> Blocks(|data|) <= MAX_BLOCKS
    ensures Blocks(|Kept(data)|) == Clip(Blocks(|data|), MAX_BLOCKS)
    ensures forall b: nat :: b < MAX_BLOCKS ==> Padded(Kept(data), b) == Padded(data, b)
  {
    if |data| <= 512 * MAX_BLOCKS {
      assert Kept(data) == data;
    }
  }

  /** One byte more than 7 * 256 blocks is one byte lost. */
  lemma LongFileCut()
    ensures var data := Zeros(917505); Kept(data) != data && |Kept(data)| == 917504
  {
    KeptWhole(Zeros(917505));
  }

  // The size in the inode of a file kept as `data`: that of the data, or more if the end was cut off.
  predicate SizeFor(size: nat, data: Str) {
    size < 16777216 && (size == |data| || (size > |data| && |data| == 512 * MAX_BLOCKS))
  }

  lemma CountsAgree(size: nat, data: Str, b: nat)
    requires SizeFor(size, data) && b < Blocks(|data|)
    ensures ValidBytes(size, b) == BytesIn(|data|, b)
  {
  }

  // ------------------------------------------------------------ what is on the disk

  ghost predicate BlocksRead(d: Disk, inumber: nat, data: Str) {
    && (forall b: int :: 0 <= b < Blocks(|data|) ==>
      GetBlock(d, inumber, b) == Some((Padded(data, b), BytesIn(|data|, b))))
    && (forall b: int :: b < 0 || b >= Blocks(|data|) ==> GetBlock(d, inumber, b) == None)
  }

  // The reader sees exactly the node.
  ghost predicate Stored(d: Disk, inumber: nat, node: Node) {
    && inumber >= 1
    && IsDir(Iget(d, inumber).value.mode) == node.dir
    && (node.dir ==> GetSize(Iget(d, inumber).value) == |node.data|)
    && BlocksRead(d, inumber, node.data)
  }

  predicate InArea(s: nat, limit: nat) {
    s == 0 || DATA_START <= s < limit
  }

  // All sectors reachable from the inode are allocated data sectors.
  ghost predicate Within(d: Disk, n: Inode, limit: nat) {
    && |n.addr| == 8
    && (forall k :: 0 <= k < 8 ==> InArea(n.addr[k], limit))
    && (IsLarge(n.mode) ==> n.addr[7] == 0)
    && (IsLarge(n.mode) ==> forall k, j :: 0 <= k < 7 && 0 <= j < PTRS && n.addr[k] != 0 ==>
        InArea(Pointer(d, n.addr[k], j), limit))
  }

  ghost predicate Placed(d: Disk, limit: nat, inumber: nat, node: Node) {
    Stored(d, inumber, node) && Within(d, Iget(d, inumber).value, limit)
  }

  ghost predicate AgreeBelow(d: Disk, e: Disk, limit: nat) {
    forall s :: DATA_START <= s < limit ==> ReadSector(e, s) == ReadSector(d, s)
  }

  lemma BlockUnmoved(d: Disk, e: Disk, inumber: nat, limit: nat, b: int)
    requires inumber >= 1 && Iget(e, inumber) == Iget(d, inumber) && AgreeBelow(d, e, limit)
    requires Within(d, Iget(d, inumber).value, limit)
    ensures GetBlock(e, inumber, b) == GetBlock(d, inumber, b)
  {
    hide ReadInode, ReadU16, ReadSector;
    var n := Iget(d, inumber).value;
    if IsLarge(n.mode) && 0 <= b < 7 * PTRS && n.addr[b / PTRS] != 0 {
      assert InArea(n.addr[b / PTRS], limit);
      assert InArea(Pointer(d, n.addr[b / PTRS], b % PTRS), limit);
    }
  }

  /** Writes above the limit and to other inodes change nothing the reader sees of this one. */
  lemma PlacedKept(d: Disk, e: Disk, inumber: nat, limit: nat, limit': nat, node: Node)
    requires Placed(d, limit, inumber, node) && limit <= limit'
    requires Iget(e, inumber) == Iget(d, inumber) && AgreeBelow(d, e, limit)
    ensures Placed(e, limit', inumber, node)
  {
    hide ReadInode, ReadU16, ReadSector, GetBlock, Padded;
    forall b: int ensures GetBlock(e, inumber, b) == GetBlock(d, inumber, b) {
      BlockUnmoved(d, e, inumber, limit, b);
    }
    PointersKept(d, e, Iget(d, inumber).value, limit, limit');
  }

  lemma PointersKept(d: Disk, e: Disk, n: Inode, limit: nat, limit': nat)
    requires Within(d, n, limit) && limit <= limit' && AgreeBelow(d, e, limit)
    ensures Within(e, n, limit')
  {
    hide ReadU16, ReadSector;
    forall k, j | 0 <= k < 7 && 0 <= j < PTRS && n.addr[k] != 0 && IsLarge(n.mode)
      ensures InArea(Pointer(e, n.addr[k], j), limit')
    {
      assert InArea(n.addr[k], limit) && InArea(Pointer(d, n.addr[k], j), limit);
    }
  }

  // ------------------------------------------------------------ block maps

  function Size0(size: nat): nat { size / 65536 % 256 }
  function Size1(size: nat): nat { size % 65536 }

  function SmallMap(start: nat, n: nat): seq<nat> {
    seq(8, k => if k < n then start + k else 0)
  }

  // Data block b of a large file follows b data blocks and b / 256 indirect blocks.
  function LargeSector(start: nat, b: nat): nat {
    start + b + b / 256
  }

  // Indirect block k comes after the data blocks it points to.
  function IndirectSector(start: nat, n: nat, k: nat): nat {
    start + Clip(256 * k + 256, n) + k
  }

  function LargeMap(start: nat, n: nat, groups: nat): seq<nat> {
    seq(8, k => if 0 <= k < groups && k < 7 then IndirectSector(start, n, k) else 0)
  }

  function Groups(n: nat): nat {
    (n + 255) / 256
  }

  function LargePointer(start: nat, n: nat, k: nat, j: nat): nat {
    if 256 * k + j < n then LargeSector(start, 256 * k + j) else 0
  }

  function FileInode(mode: nat, nlink: nat, size: nat, addr: seq<nat>): Inode {
    Inode(mode, nlink, 0, 0, Size0(size), Size1(size), addr, [0, 0, 0, 0])
  }

  lemma SizeReadsBack(mode: nat, nlink: nat, size: nat, addr: seq<nat>)
    requires size < 16777216
    ensures GetSize(FileInode(mode, nlink, size, addr)) == size
  {
  }

  lemma SmallReads(d: Disk, inumber: nat, start: nat, limit: nat, mode: nat, nlink: nat, data: Str)
    requires inumber >= 1 && start >= DATA_START && Blocks(|data|) <= 8 && start + Blocks(|data|) <= limit
    requires mode == IALLOC || mode == IALLOC + IFDIR
    requires Iget(d, inumber) == Some(FileInode(mode, nlink, |data|, SmallMap(start, Blocks(|data|))))
    requires forall b :: 0 <= b < Blocks(|data|) ==> ReadSector(d, start + b) == Padded(data, b)
    ensures Placed(d, limit, inumber, Node(mode == IALLOC + IFDIR, data))
  {
    hide ReadInode, ReadSector, Padded, Iget, Size0, Size1, BytesIn, ValidBytes;
    var n := Iget(d, inumber).value;
    SizeReadsBack(mode, nlink, |data|, SmallMap(start, Blocks(|data|)));
    forall b: int | 0 <= b < Blocks(|data|)
      ensures GetBlock(d, inumber, b) == Some((Padded(data, b), BytesIn(|data|, b)))
    {
      CountsAgree(|data|, data, b);
      assert IndexLookup(d, n, b) == start + b;
    }
    forall b: int | b < 0 || b >= Blocks(|data|) ensures GetBlock(d, inumber, b) == None {
      assert IndexLookup(d, n, b) <= 0;
    }
  }

  lemma LargeReads(d: Disk, inumber: nat, start: nat, limit: nat, size: nat, data: Str)
    requires inumber >= 1 && start >= DATA_START && SizeFor(size, data)
    requires 8 < Blocks(|data|) <= MAX_BLOCKS && start + Blocks(|data|) + Groups(Blocks(|data|)) <= limit
    requires Iget(d, inumber) ==
      Some(FileInode(IALLOC + ILARG, 1, size, LargeMap(start, Blocks(|data|), Groups(Blocks(|data|)))))
    requires forall b :: 0 <= b < Blocks(|data|) ==> ReadSector(d, LargeSector(start, b)) == Padded(data, b)
    requires forall k, j :: 0 <= k < Groups(Blocks(|data|)) && 0 <= j < PTRS ==>
      Pointer(d, IndirectSector(start, Blocks(|data|), k), j) == LargePointer(start, Blocks(|data|), k, j)
    ensures Placed(d, limit, inumber, Node(false, data))
  {
    hide ReadInode, ReadSector, Padded, Iget, Size0, Size1, BytesIn, ValidBytes, Pointer, SizeFor;
    var n, count := Iget(d, inumber).value, Blocks(|data|);
    SizeIsSmall(size, data);
    forall b: int | 0 <= b < count
      ensures GetBlock(d, inumber, b) == Some((Padded(data, b), BytesIn(|data|, b)))
    {
      CountsAgree(size, data, b);
      LargeLookup(d, n, start, count, b);
    }
    forall b: int | b < 0 || b >= count ensures GetBlock(d, inumber, b) == None {
      LargeLookup(d, n, start, count, b);
    }
    LargeWithin(d, n, start, limit, count);
  }

  lemma SizeIsSmall(size: nat, data: Str)
    requires SizeFor(size, data)
    ensures forall mode: nat, nlink: nat, addr: seq<nat> :: GetSize(FileInode(mode, nlink, size, addr)) == size
  {
  }

  lemma LargeLookup(d: Disk, n: Inode, start: nat, count: nat, b: int)
    requires n.mode == IALLOC + ILARG && n.addr == LargeMap(start, count, Groups(count)) && count <= MAX_BLOCKS
    requires start >= 1
    requires forall k, j :: 0 <= k < Groups(count) && 0 <= j < PTRS ==>
      Pointer(d, IndirectSector(start, count, k), j) == LargePointer(start, count, k, j)
    ensures 0 <= b < count ==> IndexLookup(d, n, b) == LargeSector(start, b)
    ensures b < 0 || b >= count ==> IndexLookup(d, n, b) <= 0
  {
    hide Pointer;
    if 0 <= b < 7 * PTRS {
      var k, j := b / PTRS, b % PTRS;
      assert b == 256 * k + j;
      assert k < Groups(count) <==> 256 * k < count;
      if k < Groups(count) {
        assert Pointer(d, IndirectSector(start, count, k), j) == LargePointer(start, count, k, j);
      }
    }
  }

  lemma LargeWithin(d: Disk, n: Inode, start: nat, limit: nat, count: nat)
    requires n.mode == IALLOC + ILARG && n.addr == LargeMap(start, count, Groups(count)) && count <= MAX_BLOCKS
    requires start >= DATA_START && start + count + Groups(count) <= limit
    requires forall k, j :: 0 <= k < Groups(count) && 0 <= j < PTRS ==>
      Pointer(d, IndirectSector(start, count, k), j) == LargePointer(start, count, k, j)
    ensures Within(d, n, limit)
  {
    hide Pointer;
    forall k, j | 0 <= k < 7 && 0 <= j < PTRS && n.addr[k] != 0 ensures InArea(Pointer(d, n.addr[k], j), limit) {
      assert k < Groups(count);
      assert Pointer(d, IndirectSector(start, count, k), j) == LargePointer(start, count, k, j);
      var b := 256 * k + j;
      assert b < count ==> b / 256 == k;
    }
  }

  // ------------------------------------------------------------ reading a file block by block

  lemma BlockBytes(data: Str, b: nat)
    requires b < Blocks(|data|)
    ensures 0 < BytesIn(|data|, b) <= SECTOR
    ensures Padded(data, b)[..BytesIn(|data|, b)] == data[512 * b..Clip(512 * b + 512, |data|)]
  {
  }

  /** Reading block after block until the reader fails gives back exactly the bytes written. */
  method ReadWhole(fs: FileSystem, inumber: nat, ghost node: Node) returns (data: Str)
    requires Stored(fs.image, inumber, node)
    ensures data == node.data
  {
    hide Padded, GetBlock, Iget, BytesIn, IsDir, GetSize;
    data := [];
    var buf := new Byte[SECTOR](_ => 0);
    var b := 0;
    while true
      invariant 0 <= b <= Blocks(|node.data|)
      invariant data == node.data[..Clip(512 * b, |node.data|)]
      decreases Blocks(|node.data|) - b
    {
      var n := fs.FileGetBlock(inumber, b, buf);
      if n < 0 {
        break;
      }
      BlockBytes(node.data, b);
      data := data + buf[..n];
      b := b + 1;
    }
  }

  // ------------------------------------------------------------ the builder

  function SectorsFor(n: nat): nat {
    if n <= 8 then n else n + Groups(n)
  }

  function FileSectors(data: Str): nat {
    SectorsFor(Clip(Blocks(|data|), MAX_BLOCKS))
  }

  function DotEntry(inumber: nat): DirEnt {
    DirEnt(inumber, [46] + Zeros(13))
  }

  function DotDotEntry(inumber: nat): DirEnt {
    DirEnt(inumber, [46, 46] + Zeros(12))
  }

  function DirData(inumber: nat, parent: nat, entries: seq<DirEnt>): Str {
    EntriesBytes([DotEntry(inumber), DotDotEntry(parent)] + entries)
  }

  // Data and indirect blocks of a large file from sector start on.
  ghost predicate LargeLaidOut(d: Disk, start: nat, addr: seq<nat>, data: Str) {
    var n := Blocks(|data|);
    && addr == LargeMap(start, n, Groups(n))
    && (forall b :: 0 <= b < n ==> ReadSector(d, LargeSector(start, b)) == Padded(data, b))
    && (forall k, j :: 0 <= k < Groups(n) && 0 <= j < PTRS ==>
      Pointer(d, IndirectSector(start, n, k), j) == LargePointer(start, n, k, j))
  }

  class Mkfs {
    var disk: Disk
    var nextData: nat
    var nextInode: nat
    var maxBlock: nat
    // Every inode written so far and what was written to it.
    ghost var nodes: map<nat, Node>

    ghost predicate Valid()
      reads this
    {
      && DATA_START <= nextData == maxBlock + 1 <= 65536 && maxBlock in disk
      && (forall s :: s in disk ==> s <= maxBlock)
      && (forall i :: i in nodes ==> 1 <= i <= 64)
      && (forall i :: i in nodes ==> Placed(disk, nextData, i, nodes[i]))
    }

    /** Boot block, superblock and inode region start as zeros. */
    constructor ()
      ensures Valid() && nodes == map[] && nextData == DATA_START && nextInode == 1
      ensures forall s :: ReadSector(disk, s) == Zeros(SECTOR)
    {
      disk := map[];
      nextData, nextInode, maxBlock := DATA_START, 1, 0;
      nodes := map[];
      new;
      for b := 0 to DATA_START
        invariant nodes == map[] && nextData == DATA_START && nextInode == 1
        invariant forall s :: s in disk ==> s <= maxBlock
        invariant b > 0 ==> maxBlock in disk
        invariant maxBlock == if b > 0 then b - 1 else 0
        invariant forall s :: s in disk ==> disk[s] == Zeros(SECTOR)
      {
        WriteSector(b, Zeros(SECTOR));
      }
    }

    method WriteSector(sector: nat, bytes: Sector)
      modifies this`disk, this`maxBlock
      ensures disk == old(disk)[sector := bytes]
      ensures maxBlock == if sector > old(maxBlock) then sector else old(maxBlock)
    {
      disk := disk[sector := bytes];
      if sector > maxBlock {
        maxBlock := sector;
      }
    }

    method AllocData() returns (sector: nat)
      modifies this`nextData
      ensures sector == old(nextData) && nextData == sector + 1
    {
      sector := nextData;
      nextData := nextData + 1;
    }

    // Inode 1 is reserved for the root; the first call returns 2.
    method AllocInode() returns (inumber: nat)
      modifies this`nextInode
      ensures inumber == nextInode == old(nextInode) + 1
    {
      nextInode := nextInode + 1;
      inumber := nextInode;
    }

    ghost predicate Bounded()
      reads this
    {
      DATA_START <= nextData == maxBlock + 1 && maxBlock in disk && forall s :: s in disk ==> s <= maxBlock
    }

    /** One inode slot is rewritten; every other inode and all data sectors stay. */
    method PutInode(inumber: nat, n: Inode)
      requires 1 <= inumber <= 64 && Fits(n) && Bounded()
      modifies this`disk, this`maxBlock
      ensures Bounded()
      ensures Iget(disk, inumber) == Some(n)
      ensures Has(ReadSector(disk, 2 + (inumber - 1) / 16), 32 * ((inumber - 1) % 16), InodeBytes(n))
      ensures forall j :: 1 <= j <= 64 && j != inumber ==> Iget(disk, j) == Iget(old(disk), j)
      ensures AgreeBelow(old(disk), disk, nextData) && AgreeBelow(disk, old(disk), nextData)
    {
      hide ReadInode, InodeBytes, Fits;
      var raw := ReadSector(disk, InodeSector(inumber));
      InodeBytesLength(n);
      var block := Patched(raw, InodeSlot(inumber), InodeBytes(n));
      WriteSector(InodeSector(inumber), block);
      InodeReadBack(block, InodeSlot(inumber), n);
      forall j | 1 <= j <= 64 && j != inumber ensures Iget(disk, j) == Iget(old(disk), j) {
        if InodeSector(j) == InodeSector(inumber) {
          NeighboursKept(raw, (inumber - 1) % 16, InodeBytes(n), (j - 1) % 16);
        }
      }
    }

    // memset, memcpy, alloc_data, wsector: the next block of a file.
    method WriteBlock(data: Str, b: nat) returns (sector: nat)
      requires 512 * b <= |data| && Bounded()
      modifies this`disk, this`nextData, this`maxBlock
      ensures Bounded()
      ensures sector == old(nextData) && nextData == sector + 1
      ensures disk == old(disk)[sector := Padded(data, b)]
    {
      hide Padded;
      var chunk := |data| - b * SECTOR;
      if chunk > SECTOR {
        chunk := SECTOR;
      }
      var buf := data[b * SECTOR..b * SECTOR + chunk] + Zeros(SECTOR - chunk);
      PaddedIs(data, b, chunk);
      sector := AllocData();
      WriteSector(sector, buf);
    }

    static lemma PaddedIs(data: Str, b: nat, chunk: nat)
      requires 512 * b <= |data| && chunk == if |data| - 512 * b > 512 then 512 else |data| - 512 * b
      ensures data[512 * b..512 * b + chunk] + Zeros(512 - chunk) == Padded(data, b)
    {
    }

    method SmallFile(data: Str) returns (addr: seq<nat>)
      requires Blocks(|data|) <= 8 && Bounded()
      modifies this`disk, this`nextData, this`maxBlock
      ensures Bounded()
      ensures addr == SmallMap(old(nextData), Blocks(|data|)) && nextData == old(nextData) + Blocks(|data|)
      ensures forall b :: 0 <= b < Blocks(|data|) ==> ReadSector(disk, old(nextData) + b) == Padded(data, b)
      ensures forall s: nat :: s < old(nextData) ==> ReadSector(disk, s) == ReadSector(old(disk), s)
    {
      hide Padded;
      addr := [0, 0, 0, 0, 0, 0, 0, 0];
      var b := 0;
      while b < Blocks(|data|)
        invariant 0 <= b <= Blocks(|data|) && nextData == old(nextData) + b && Bounded()
        invariant addr == SmallMap(old(nextData), b)
        invariant forall k :: 0 <= k < b ==> ReadSector(disk, old(nextData) + k) == Padded(data, k)
        invariant forall s: nat :: s < old(nextData) ==> ReadSector(disk, s) == ReadSector(old(disk), s)
      {
        var d := WriteBlock(data, b);
        addr := addr[b := d];
        b := b + 1;
      }
    }

    // One group of at most 256 data blocks followed by the block that points to them.
    method IndirectGroup(data: Str, start: nat, k: nat) returns (indirect: nat)
      requires 256 * k < Blocks(|data|) && Bounded()
      requires nextData == LargeSector(start, 256 * k) && IndirectSector(start, Blocks(|data|), k) < 65536
      modifies this`disk, this`nextData, this`maxBlock
      ensures Bounded()
      ensures indirect == IndirectSector(start, Blocks(|data|), k) && nextData == indirect + 1
      ensures forall b :: 256 * k <= b < Clip(256 * k + 256, Blocks(|data|)) ==>
        ReadSector(disk, LargeSector(start, b)) == Padded(data, b)
      ensures forall j :: 0 <= j < PTRS ==> Pointer(disk, indirect, j) == LargePointer(start, Blocks(|data|), k, j)
      ensures forall s: nat :: s < old(nextData) ==> ReadSector(disk, s) == ReadSector(old(disk), s)
    {
      hide Padded, ReadU16, U16s, LargeSector, ReadSector;
      var n := Blocks(|data|);
      var here := if n - 256 * k < PTRS then n - 256 * k else PTRS;
      GroupSectors(start, n, k, here);
      var ptrs := DataGroup(data, start, k, here);
      ghost var filled := disk;
      indirect := AllocData();
      U16sLength(ptrs);
      var bytes: Sector := U16s(ptrs);
      WriteSector(indirect, bytes);
      SectorAdded(filled, indirect, bytes);
      forall i | 0 <= i < PTRS ensures Pointer(disk, indirect, i) == LargePointer(start, n, k, i) {
        HasAll(bytes);
        ReadBackU16s(bytes, 0, ptrs, i);
      }
    }

    method DataGroup(data: Str, start: nat, k: nat, here: nat) returns (ptrs: seq<nat>)
      requires 0 < here <= PTRS && 256 * k + here <= Blocks(|data|) && Bounded()
      requires nextData == LargeSector(start, 256 * k)
      modifies this`disk, this`nextData, this`maxBlock
      ensures Bounded() && nextData == old(nextData) + here && |ptrs| == PTRS
      ensures forall i :: 0 <= i < PTRS ==> ptrs[i] == if i < here then old(nextData) + i else 0
      ensures forall b :: 256 * k <= b < 256 * k + here ==> ReadSector(disk, LargeSector(start, b)) == Padded(data, b)
      ensures forall s: nat :: s < old(nextData) ==> ReadSector(disk, s) == ReadSector(old(disk), s)
    {
      hide Padded, LargeSector, ReadSector;
      ptrs := seq<nat>(PTRS, _ => 0);
      var j := 0;
      while j < here
        invariant 0 <= j <= here && nextData == old(nextData) + j && Bounded() && |ptrs| == PTRS
        invariant forall i :: 0 <= i < PTRS ==> ptrs[i] == if i < j then old(nextData) + i else 0
        invariant forall b :: 256 * k <= b < 256 * k + j ==> ReadSector(disk, LargeSector(start, b)) == Padded(data, b)
        invariant forall s: nat :: s < old(nextData) ==> ReadSector(disk, s) == ReadSector(old(disk), s)
      {
        ghost var before := disk;
        var d := WriteBlock(data, 256 * k + j);
        SectorAdded(before, d, Padded(data, 256 * k + j));
        SectorsInGroup(start, k, j);
        ptrs := ptrs[j := d];
        j := j + 1;
      }
    }

    static lemma SectorsInGroup(start: nat, k: nat, j: nat)
      requires j < 256
      ensures LargeSector(start, 256 * k + j) == LargeSector(start, 256 * k) + j
      ensures forall b :: 256 * k <= b < 256 * k + j ==> LargeSector(start, b) < LargeSector(start, 256 * k) + j
    {
    }

    static lemma HasAll(s: Str)
      ensures Has(s, 0, s)
    {
    }

    static lemma GroupSectors(start: nat, n: nat, k: nat, here: nat)
      requires 256 * k < n && here == if n - 256 * k < 256 then n - 256 * k else 256
      ensures forall b :: 256 * k <= b < 256 * k + here ==>
        LargeSector(start, b) == LargeSector(start, 256 * k) + (b - 256 * k)
      ensures LargeSector(start, 256 * k) + here == IndirectSector(start, n, k)
      ensures forall i :: 0 <= i < 256 ==>
        LargePointer(start, n, k, i) == if i < here then LargeSector(start, 256 * k) + i else 0
    {
      assert forall b :: 256 * k <= b < 256 * k + here ==> b / 256 == k;
    }

    // The outer loop stops after seven groups, whether or not blocks remain.
    method LargeFile(data: Str) returns (addr: seq<nat>)
      requires Blocks(|data|) > 8 && Bounded() && nextData + FileSectors(data) <= 65536
      modifies this`disk, this`nextData, this`maxBlock
      ensures Bounded() && nextData == old(nextData) + FileSectors(data)
      ensures LargeLaidOut(disk, old(nextData), addr, Kept(data))
      ensures forall s: nat :: s < old(nextData) ==> ReadSector(disk, s) == ReadSector(old(disk), s)
    {
      hide Padded, ReadU16, LargePointer;
      var start, n := nextData, Blocks(|data|);
      addr := [0, 0, 0, 0, 0, 0, 0, 0];
      var remaining, idx := n, 0;
      while idx < 7 && remaining > 0
        invariant 0 <= idx <= 7 && idx <= Groups(n) && Bounded()
        invariant remaining == n - Clip(256 * idx, n)
        invariant nextData == start + Clip(256 * idx, n) + idx
        invariant addr == LargeMap(start, n, idx)
        invariant forall b :: 0 <= b < Clip(256 * idx, n) ==> ReadSector(disk, LargeSector(start, b)) == Padded(data, b)
        invariant forall k, j :: 0 <= k < idx && 0 <= j < PTRS ==>
          Pointer(disk, IndirectSector(start, n, k), j) == LargePointer(start, n, k, j)
        invariant forall s: nat :: s < start ==> ReadSector(disk, s) == ReadSector(old(disk), s)
        decreases 7 - idx
      {
        label before:
        assert LargeSector(start, 256 * idx) == nextData;
        var indirect := IndirectGroup(data, start, idx);
        EarlierSectors(start, n, idx);
        forall k, j | 0 <= k < idx && 0 <= j < PTRS
          ensures Pointer(disk, IndirectSector(start, n, k), j) == LargePointer(start, n, k, j)
        {
          var sector := IndirectSector(start, n, k);
          assert ReadSector(disk, sector) == ReadSector(old@before(disk), sector);
        }
        addr := addr[idx := indirect];
        remaining := remaining - (if remaining < PTRS then remaining else PTRS);
        idx := idx + 1;
      }
      SevenGroups(data, start, idx);
      KeptWhole(data);
    }

    // With the loop over, the layout for all blocks is the layout for those kept.
    static lemma SevenGroups(data: Str, start: nat, idx: nat)
      requires Blocks(|data|) > 8 && idx <= 7 && (idx == 7 || 256 * idx >= Blocks(|data|))
      requires idx <= Groups(Blocks(|data|))
      ensures var n, m := Blocks(|data|), Clip(Blocks(|data|), MAX_BLOCKS);
        && Clip(256 * idx, n) == m && idx == Groups(m) && LargeMap(start, n, idx) == LargeMap(start, m, Groups(m))
        && (forall k :: 0 <= k < idx ==> IndirectSector(start, n, k) == IndirectSector(start, m, k))
        && (forall k, j :: 0 <= k < idx && 0 <= j < PTRS ==>
          LargePointer(start, n, k, j) == LargePointer(start, m, k, j))
    {
    }

    static lemma EarlierSectors(start: nat, n: nat, idx: nat)
      requires 256 * idx < n
      ensures forall k :: 0 <= k < idx ==> IndirectSector(start, n, k) < LargeSector(start, 256 * idx)
      ensures forall b :: 0 <= b < 256 * idx ==> LargeSector(start, b) < LargeSector(start, 256 * idx)
    {
    }

    /** The file is readable, and so is every file and directory made before. */
    method MakeFile(inumber: nat, data: Str)
      requires Valid() && 1 <= inumber <= 64
      requires |data| < 16777216 && nextData + FileSectors(data) <= 65536
      modifies this
      ensures Valid() && nodes == old(nodes)[inumber := Node(false, Kept(data))]
      ensures nextData == old(nextData) + FileSectors(data) && nextInode == old(nextInode)
      ensures var ino := Iget(disk, inumber).value;
        && ino.mode == (if Blocks(|data|) <= 8 then 32768 else 36864) && ino.nlink == 1
        && ino.uid == ino.gid == 0 && GetSize(ino) == |data|
    {
      hide Padded, Placed, Iget, ReadSector, Pointer, Fits, LargeLaidOut, Kept, InodeBytes;
      var start, n := nextData, Blocks(|data|);
      var before := disk;
      var addr;
      var mode := IALLOC;
      if n <= 8 {
        addr := SmallFile(data);
      } else {
        mode := mode + ILARG;
        addr := LargeFile(data);
      }
      var ino := FileInode(mode, 1, |data|, addr);
      SizeReadsBack(mode, 1, |data|, addr);
      ghost var written := disk;
      KeptWhole(data);
      FileInodeFits(mode, |data|, addr, start, Kept(data), written);
      PutInode(inumber, ino);
      if n <= 8 {
        SectorsFollow(written, disk, nextData);
        SmallReads(disk, inumber, start, nextData, IALLOC, 1, data);
      } else {
        LargeFollow(written, disk, start, nextData, addr, Kept(data));
        LargeIsPlaced(disk, inumber, start, nextData, addr, data);
      }
      nodes := nodes[inumber := Node(false, Kept(data))];
      InodesBelow(before, written, start);
      OthersKept(old(nodes), before, start, inumber);
    }

    // make_file(alloc_inode(), ...): a number no file or directory has yet.
    method AddFile(data: Str) returns (inumber: nat)
      requires Valid() && nextInode < 64 && forall i :: i in nodes ==> i <= nextInode
      requires |data| < 16777216 && nextData + FileSectors(data) <= 65536
      modifies this
      ensures Valid() && forall i :: i in nodes ==> i <= nextInode
      ensures inumber !in old(nodes) && nodes == old(nodes)[inumber := Node(false, Kept(data))]
      ensures nextData == old(nextData) + FileSectors(data) && nextInode == old(nextInode) + 1
    {
      inumber := AllocInode();
      MakeFile(inumber, data);
    }

    static lemma FileInodeFits(mode: nat, size: nat, addr: seq<nat>, start: nat, data: Str, d: Disk)
      requires mode == IALLOC || mode == IALLOC + ILARG
      requires size < 16777216 && Blocks(|data|) <= MAX_BLOCKS && start + SectorsFor(Blocks(|data|)) <= 65536
      requires if Blocks(|data|) <= 8 then addr == SmallMap(start, Blocks(|data|))
        else LargeLaidOut(d, start, addr, data)
      ensures Fits(FileInode(mode, 1, size, addr))
    {
      hide Padded, Pointer, ReadSector;
      forall k | 0 <= k < 8 ensures addr[k] < 65536 {
      }
    }

    static lemma LargeIsPlaced(d: Disk, inumber: nat, start: nat, limit: nat, addr: seq<nat>, data: Str)
      requires inumber >= 1 && start >= DATA_START && Blocks(|data|) > 8 && |data| < 16777216
      requires limit == start + FileSectors(data) && LargeLaidOut(d, start, addr, Kept(data))
      requires Iget(d, inumber) == Some(FileInode(IALLOC + ILARG, 1, |data|, addr))
      ensures Placed(d, limit, inumber, Node(false, Kept(data)))
    {
      KeptWhole(data);
      assert SizeFor(|data|, Kept(data));
      hide Padded, Pointer, ReadSector, Placed, Iget, Kept, SizeFor;
      LargeReads(d, inumber, start, limit, |data|, Kept(data));
    }

    static lemma SectorsFollow(written: Disk, now: Disk, limit: nat)
      requires AgreeBelow(written, now, limit)
      ensures forall s :: DATA_START <= s < limit ==> ReadSector(now, s) == ReadSector(written, s)
    {
    }

    static lemma LargeFollow(written: Disk, now: Disk, start: nat, limit: nat, addr: seq<nat>, data: Str)
      requires AgreeBelow(written, now, limit) && start >= DATA_START && LargeLaidOut(written, start, addr, data)
      requires limit == start + Blocks(|data|) + Groups(Blocks(|data|))
      ensures LargeLaidOut(now, start, addr, data)
    {
      hide Padded, ReadSector, ReadU16, LargePointer;
      forall k, j | 0 <= k < Groups(Blocks(|data|)) && 0 <= j < PTRS
        ensures Pointer(now, IndirectSector(start, Blocks(|data|), k), j) == LargePointer(start, Blocks(|data|), k, j)
      {
        assert IndirectSector(start, Blocks(|data|), k) < limit;
      }
    }

    static lemma InodesBelow(before: Disk, written: Disk, start: nat)
      requires start >= DATA_START && forall s: nat :: s < start ==> ReadSector(written, s) == ReadSector(before, s)
      ensures forall j :: 1 <= j <= 64 ==> Iget(written, j) == Iget(before, j)
      ensures AgreeBelow(before, written, start)
    {
      hide ReadInode, ReadSector;
    }

    lemma OthersKept(before: map<nat, Node>, d: Disk, start: nat, inumber: nat)
      requires start <= nextData && AgreeBelow(d, disk, start)
      requires forall i :: i in before ==> 1 <= i <= 64 && Placed(d, start, i, before[i])
      requires forall j :: 1 <= j <= 64 && j != inumber ==> Iget(disk, j) == Iget(d, j)
      ensures forall i :: i in before && i != inumber ==> Placed(disk, nextData, i, before[i])
    {
      hide Placed, Iget, ReadSector;
      forall i | i in before && i != inumber ensures Placed(disk, nextData, i, before[i]) {
        PlacedKept(d, disk, i, start, nextData, before[i]);
      }
    }

    method MakeDir(inumber: nat, parent: nat, entries: seq<DirEnt>)
      requires Valid() && 1 <= inumber <= 64 && parent < 65536
      requires |entries| <= 30 && (forall e :: e in entries ==> EntryFits(e)) && nextData + 1 <= 65536
      modifies this
      ensures Valid() && nodes == old(nodes)[inumber := Node(true, DirData(inumber, parent, entries))]
      ensures nextData == old(nextData) + 1 && nextInode == old(nextInode)
      ensures var ino := Iget(disk, inumber).value;
        && ino.mode == 49152 && ino.nlink == 2 && ino.uid == ino.gid == 0 && GetSize(ino) == 16 * (|entries| + 2)
    {
      hide Padded, Placed, Iget, ReadSector, EntriesBytes, InodeBytes;
      var start, before := nextData, disk;
      var data := DirData(inumber, parent, entries);
      EntriesLength([DotEntry(inumber), DotDotEntry(parent)] + entries);
      assert Blocks(|data|) == 1;
      var d := WriteBlock(data, 0);
      assert forall s: nat :: s < start ==> ReadSector(disk, s) == ReadSector(before, s) by {
        SectorAdded(before, d, Padded(data, 0));
      }
      var addr := [d, 0, 0, 0, 0, 0, 0, 0];
      assert addr == SmallMap(start, 1);
      ghost var written := disk;
      SectorAdded(before, d, Padded(data, 0));
      SizeReadsBack(IALLOC + IFDIR, 2, |data|, addr);
      PutInode(inumber, FileInode(IALLOC + IFDIR, 2, |data|, addr));
      SectorsFollow(written, disk, nextData);
      SmallReads(disk, inumber, start, nextData, IALLOC + IFDIR, 2, data);
      nodes := nodes[inumber := Node(true, data)];
      InodesBelow(before, written, start);
      OthersKept(old(nodes), before, start, inumber);
    }

    static lemma SectorAdded(d: Disk, sector: nat, bytes: Sector)
      ensures ReadSector(d[sector := bytes], sector) == bytes
      ensures forall s :: s != sector ==> ReadSector(d[sector := bytes], s) == ReadSector(d, s)
    {
    }

    /**
      The superblock: 4 inode blocks and one past the highest sector written, in 16 bits. Every sector
      written lies below the recorded size if and only if there are fewer than 65536 of them; with the
      very last sector number in use the field wraps to 0.
     */
    method WriteSuperblock()
      requires Valid()
      modifies this`disk, this`maxBlock
      ensures Valid()
      ensures ReadU16(ReadSector(disk, 1), 0) == 4
      ensures nextData == old(nextData) && nodes == old(nodes)
      ensures ReadU16(ReadSector(disk, 1), 2) == nextData % 65536
      ensures (forall s :: s in disk ==> s < ReadU16(ReadSector(disk, 1), 2)) <==> nextData < 65536
    {
      hide Placed, Iget;
      var before := disk;
      var bytes := U16(4) + U16(maxBlock + 1) + Zeros(508);
      WriteSector(1, bytes);
      SectorAdded(before, 1, bytes);
      SuperblockReads(bytes, old(maxBlock));
      SuperblockElsewhere(before, disk);
      OthersKept(nodes, before, nextData, 0);
    }

    static lemma SuperblockReads(bytes: Str, top: nat)
      requires bytes == U16(4) + U16(top + 1) + Zeros(508)
      ensures ReadU16(bytes, 0) == 4 && ReadU16(bytes, 2) == (top + 1) % 65536
    {
      assert Has(bytes, 0, U16(4)) && Has(bytes, 2, U16(top + 1));
      ReadBackU16(bytes, 0, 4);
      ReadBackU16(bytes, 2, top + 1);
    }

    static lemma SuperblockElsewhere(d: Disk, e: Disk)
      requires forall s :: s != 1 ==> ReadSector(e, s) == ReadSector(d, s)
      ensures forall j :: 1 <= j <= 64 ==> Iget(e, j) == Iget(d, j)
      ensures forall limit: nat :: AgreeBelow(d, e, limit)
    {
      hide ReadInode, ReadSector;
    }
  }

  /** An image with all 65536 sectors in use: its superblock records the size 0. */
  method FullDisk() returns (m: Mkfs)
    ensures fresh(m) && m.Valid() && m.nextData == 65536
    ensures ReadU16(ReadSector(m.disk, 1), 2) == 0
  {
    m := new Mkfs();
    for i := 1 to 37
      invariant fresh(m) && m.Valid() && m.nextData == DATA_START + 1799 * (i - 1)
    {
      m.MakeFile(i, Zeros(917504));
    }
    m.MakeFile(37, Zeros(512 * 763));
    m.WriteSuperblock();
  }
}
