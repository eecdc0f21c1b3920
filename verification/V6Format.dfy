/**
  The on-disk format of the Unix Version 6 file system: 512-byte sectors, 32-byte
  inodes, 16-byte directory entries, all little-endian.
 */
module V6Format {
  import opened Bytes

  datatype Option<T> = None | Some(value: T)

  const SECTOR: nat := 512
  const INODES_PER_BLOCK: nat := 16
  const INODE_START: nat := 2
  const DATA_START: nat := 6
  const PTRS: nat := 256

  function Zeros(n: nat): (z: Str)
    ensures |z| == n && forall k :: 0 <= k < n ==> z[k] == 0
  {
    seq(n, _ => 0)
  }

  type Sector = s: Str | |s| == 512 witness Zeros(512)

  type Disk = map<nat, Sector>

  // A sector never written reads as zeros.
  function ReadSector(d: Disk, n: nat): Sector {
    if n in d then d[n] else Zeros(SECTOR)
  }

  // ------------------------------------------------------------ arrays of 16-bit words

  function U16s(xs: seq<nat>): Str {
    if xs == [] then [] else U16(xs[0]) + U16s(xs[1..])
  }

  lemma {:induction false} U16sLength(xs: seq<nat>)
    ensures |U16s(xs)| == 2 * |xs|
  {
    if xs != [] {
      U16sLength(xs[1..]);
    }
  }

  lemma {:induction false} ReadBackU16s(b: Str, p: nat, xs: seq<nat>, k: nat)
    requires k < |xs| && Has(b, p, U16s(xs))
    ensures ReadU16(b, p + 2 * k) == xs[k] % 65536
    decreases k
  {
    hide Has, ReadU16, U16;
    HasConcat(b, p, U16(xs[0]), U16s(xs[1..]));
    if k == 0 {
      ReadBackU16(b, p, xs[0]);
    } else {
      ReadBackU16s(b, p + 2, xs[1..], k - 1);
    }
  }

  // ------------------------------------------------------------ inodes

  datatype Inode = Inode(
    mode: nat, nlink: nat, uid: nat, gid: nat, size0: nat, size1: nat, addr: seq<nat>, times: seq<nat>)

  // Mode bits: IALLOC 0100000, IFMT 0060000, IFDIR 0040000, ILARG 0010000.
  const IALLOC: nat := 32768
  const IFDIR: nat := 16384
  const ILARG: nat := 4096

  predicate IsLarge(mode: nat) {
    mode / 4096 % 2 == 1
  }

  predicate IsDir(mode: nat) {
    mode / 8192 % 4 == 2
  }

  predicate Fits(n: Inode) {
    n.mode < 65536 && n.nlink < 256 && n.uid < 256 && n.gid < 256 && n.size0 < 256 && n.size1 < 65536
    && |n.addr| == 8 && |n.times| == 4
    && (forall x :: x in n.addr ==> x < 65536) && (forall x :: x in n.times ==> x < 65536)
  }

  function InodeBytes(n: Inode): Str
    requires Fits(n)
  {
    U16(n.mode) + ([n.nlink, n.uid, n.gid, n.size0] + (U16(n.size1) + (U16s(n.addr) + U16s(n.times))))
  }

  lemma InodeBytesLength(n: Inode)
    requires Fits(n)
    ensures |InodeBytes(n)| == 32
  {
    U16sLength(n.addr);
    U16sLength(n.times);
  }

  function Words(s: Str, p: nat, n: nat): seq<nat> {
    seq(n, k requires 0 <= k < n => ReadU16(s, p + 2 * k))
  }

  function ReadInode(s: Str, p: nat): Inode {
    Inode(ReadU16(s, p), At(s, p + 2), At(s, p + 3), At(s, p + 4), At(s, p + 5), ReadU16(s, p + 6),
          Words(s, p + 8, 8), Words(s, p + 24, 4))
  }

  lemma WordsReadBack(b: Str, p: nat, xs: seq<nat>)
    requires Has(b, p, U16s(xs)) && forall x :: x in xs ==> x < 65536
    ensures Words(b, p, |xs|) == xs
  {
    hide Has, U16s, ReadU16;
    forall k | 0 <= k < |xs| ensures ReadU16(b, p + 2 * k) == xs[k] {
      ReadBackU16s(b, p, xs, k);
      assert xs[k] in xs;
    }
  }

  /** Reading an inode back from where its 32 bytes are gives the inode. */
  lemma InodeReadBack(b: Str, p: nat, n: Inode)
    requires Fits(n) && Has(b, p, InodeBytes(n))
    ensures ReadInode(b, p) == n
  {
    hide Has, U16, U16s, ReadU16, At, Words;
    var tail := U16s(n.addr) + U16s(n.times);
    var flags := [n.nlink, n.uid, n.gid, n.size0];
    U16sLength(n.addr);
    HasConcat(b, p, U16(n.mode), flags + (U16(n.size1) + tail));
    HasConcat(b, p + 2, flags, U16(n.size1) + tail);
    HasConcat(b, p + 6, U16(n.size1), tail);
    HasConcat(b, p + 8, U16s(n.addr), U16s(n.times));
    ReadBackU16(b, p, n.mode);
    FlagsAt(b, p + 2, flags);
    ReadBackU16(b, p + 6, n.size1);
    WordsReadBack(b, p + 8, n.addr);
    WordsReadBack(b, p + 24, n.times);
  }

  /** Where each field of an inode is among its 32 bytes. */
  lemma InodeLayout(n: Inode)
    requires Fits(n)
    ensures var b: seq<int> := InodeBytes(n);
      && |b| == 32 && b[0] + 256 * b[1] == n.mode && b[2] == n.nlink && b[3] == n.uid && b[4] == n.gid
      && b[5] == n.size0 && b[6] + 256 * b[7] == n.size1
      && (forall k :: 0 <= k < 8 ==> b[8 + 2 * k] + 256 * b[9 + 2 * k] == n.addr[k])
      && (forall k :: 0 <= k < 4 ==> b[24 + 2 * k] + 256 * b[25 + 2 * k] == n.times[k])
  {
    hide InodeBytes;
    var b := InodeBytes(n);
    InodeBytesLength(n);
    assert Has(b, 0, b);
    InodeReadBack(b, 0, n);
    assert forall k :: 0 <= k < 8 ==> n.addr[k] == Words(b, 8, 8)[k];
    assert forall k :: 0 <= k < 4 ==> n.times[k] == Words(b, 24, 4)[k];
  }

  lemma FlagsAt(b: Str, p: nat, flags: Str)
    requires Has(b, p, flags) && |flags| == 4
    ensures At(b, p) == flags[0] && At(b, p + 1) == flags[1] && At(b, p + 2) == flags[2] && At(b, p + 3) == flags[3]
  {
    HasIn(b, p, flags, 0);
    HasIn(b, p, flags, 1);
    HasIn(b, p, flags, 2);
    HasIn(b, p, flags, 3);
  }

  // ------------------------------------------------------------ patching a sector

  function Patched(s: Sector, p: nat, bytes: Str): (r: Sector)
    requires p + |bytes| <= SECTOR
    ensures Has(r, p, bytes)
    ensures forall i :: 0 <= i < SECTOR && !(p <= i < p + |bytes|) ==> r[i] == s[i]
  {
    s[..p] + bytes + s[p + |bytes|..]
  }

  /** Writing one inode slot leaves the other fifteen inodes of the sector as they were. */
  lemma NeighboursKept(s: Sector, k: nat, bytes: Str, j: nat)
    requires k < INODES_PER_BLOCK && j < INODES_PER_BLOCK && j != k && |bytes| == 32
    ensures ReadInode(Patched(s, 32 * k, bytes), 32 * j) == ReadInode(s, 32 * j)
  {
    var r := Patched(s, 32 * k, bytes);
    assert forall i :: 32 * j <= i < 32 * j + 32 ==> At(r, i) == At(s, i);
    SameBytesSameInode(s, r, 32 * j);
  }

  lemma SameBytesSameInode(s: Str, r: Str, p: nat)
    requires forall i :: p <= i < p + 32 ==> At(r, i) == At(s, i)
    ensures ReadInode(r, p) == ReadInode(s, p)
  {
    hide At;
    forall k | 0 <= k < 16 ensures ReadU16(r, p + 2 * k) == ReadU16(s, p + 2 * k) {
      assert At(r, p + 2 * k) == At(s, p + 2 * k);
      assert At(r, p + 2 * k + 1) == At(s, p + 2 * k + 1);
    }
    assert At(r, p + 2) == At(s, p + 2) && At(r, p + 3) == At(s, p + 3);
    assert At(r, p + 4) == At(s, p + 4) && At(r, p + 5) == At(s, p + 5);
    assert ReadU16(r, p + 2 * 0) == ReadU16(s, p + 2 * 0) && ReadU16(r, p + 2 * 3) == ReadU16(s, p + 2 * 3);
    SameWords(s, r, p, 4, 8);
    SameWords(s, r, p, 12, 4);
  }

  lemma SameWords(s: Str, r: Str, p: nat, from: nat, n: nat)
    requires forall k :: from <= k < from + n ==> ReadU16(r, p + 2 * k) == ReadU16(s, p + 2 * k)
    ensures Words(r, p + 2 * from, n) == Words(s, p + 2 * from, n)
  {
    hide ReadU16;
    forall k | 0 <= k < n ensures ReadU16(r, p + 2 * from + 2 * k) == ReadU16(s, p + 2 * from + 2 * k) {
      assert p + 2 * from + 2 * k == p + 2 * (from + k);
    }
  }

  // ------------------------------------------------------------ directory entries

  const NAME: nat := 14

  datatype DirEnt = DirEnt(inumber: nat, name: Str)

  predicate EntryFits(e: DirEnt) {
    e.inumber < 65536 && |e.name| == NAME
  }

  function EntryBytes(e: DirEnt): Str {
    U16(e.inumber) + e.name
  }

  function EntriesBytes(es: seq<DirEnt>): Str {
    if es == [] then [] else EntryBytes(es[0]) + EntriesBytes(es[1..])
  }

  lemma {:induction false} EntriesLength(es: seq<DirEnt>)
    requires forall e :: e in es ==> EntryFits(e)
    ensures |EntriesBytes(es)| == 16 * |es|
  {
    if es != [] {
      assert es[0] in es && forall e :: e in es[1..] ==> e in es;
      EntriesLength(es[1..]);
    }
  }

  function ReadEntry(s: Str, p: nat): DirEnt {
    DirEnt(ReadU16(s, p), seq<Byte>(NAME, k requires 0 <= k < NAME => At(s, p + 2 + k)))
  }

  /** A directory entry is the inumber, low byte first, and the 14 bytes of the name. */
  lemma EntryLayout(e: DirEnt)
    requires EntryFits(e)
    ensures var b: seq<int> := EntryBytes(e); |b| == 16 && b[0] + 256 * b[1] == e.inumber && b[2..] == e.name
  {
    LittleEndian(e.inumber);
  }

  lemma EntryReadBack(b: Str, p: nat, e: DirEnt)
    requires EntryFits(e) && Has(b, p, EntryBytes(e))
    ensures ReadEntry(b, p) == e
  {
    hide Has, U16, ReadU16;
    HasConcat(b, p, U16(e.inumber), e.name);
    ReadBackU16(b, p, e.inumber);
    forall k | 0 <= k < NAME ensures At(b, p + 2 + k) == e.name[k] {
      HasIn(b, p + 2, e.name, k);
    }
  }

  /** Entry k of a packed array of entries. */
  lemma {:induction false} EntriesReadBack(b: Str, p: nat, es: seq<DirEnt>, k: nat)
    requires k < |es| && (forall e :: e in es ==> EntryFits(e)) && Has(b, p, EntriesBytes(es))
    ensures ReadEntry(b, p + 16 * k) == es[k]
    decreases k
  {
    hide Has, ReadEntry, EntryBytes;
    assert es[0] in es && forall e :: e in es[1..] ==> e in es;
    HasConcat(b, p, EntryBytes(es[0]), EntriesBytes(es[1..]));
    EntryLength(es[0]);
    if k == 0 {
      EntryReadBack(b, p, es[0]);
    } else {
      EntriesReadBack(b, p + 16, es[1..], k - 1);
    }
  }

  lemma EntryLength(e: DirEnt)
    requires EntryFits(e)
    ensures |EntryBytes(e)| == 16
  {
  }
}
