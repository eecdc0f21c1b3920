/**
  The layout shared by the two files of the review search: a count, a table of
  absolute offsets and the entries themselves, one after the other.
 */
module TableFile {
  import opened Bytes

  function Join(chunks: seq<Str>): Str {
    if chunks == [] then [] else chunks[0] + Join(chunks[1..])
  }

  lemma {:induction false} JoinAppend(chunks: seq<Str>, c: Str)
    ensures Join(chunks + [c]) == Join(chunks) + c
  {
    if chunks == [] {
      assert [c][1..] == [];
    } else {
      assert (chunks + [c])[1..] == chunks[1..] + [c];
      JoinAppend(chunks[1..], c);
    }
  }

  lemma JoinNone()
    ensures Join([]) == []
  {
  }

  lemma {:induction false} JoinSplit(chunks: seq<Str>, i: nat)
    requires i <= |chunks|
    ensures Join(chunks) == Join(chunks[..i]) + Join(chunks[i..])
  {
    if i == 0 {
      assert chunks[0..] == chunks;
    } else {
      assert chunks[1..][..i - 1] == chunks[..i][1..];
      assert chunks[1..][i - 1..] == chunks[i..];
      JoinSplit(chunks[1..], i - 1);
    }
  }

  // Where entry i starts in a file of n entries.
  function Offset(n: nat, chunks: seq<Str>, i: nat): nat
    requires i <= |chunks|
  {
    4 + 4 * n + |Join(chunks[..i])|
  }

  function Table(offsets: seq<nat>): Str {
    if offsets == [] then [] else U32(offsets[0]) + Table(offsets[1..])
  }

  lemma {:induction false} TableAppend(offsets: seq<nat>, o: nat)
    ensures Table(offsets + [o]) == Table(offsets) + U32(o)
  {
    if offsets == [] {
      assert [o][1..] == [];
    } else {
      assert (offsets + [o])[1..] == offsets[1..] + [o];
      TableAppend(offsets[1..], o);
    }
  }

  lemma {:induction false} TableLength(offsets: seq<nat>)
    ensures |Table(offsets)| == 4 * |offsets|
  {
    if offsets != [] {
      TableLength(offsets[1..]);
    }
  }

  lemma {:induction false} TableEntry(b: Str, p: nat, offsets: seq<nat>, i: nat)
    requires i < |offsets| && Has(b, p, Table(offsets))
    ensures Has(b, p + 4 * i, U32(offsets[i]))
    decreases i
  {
    HasConcat(b, p, U32(offsets[0]), Table(offsets[1..]));
    if i > 0 {
      TableEntry(b, p + 4, offsets[1..], i - 1);
    }
  }

  function Offsets(chunks: seq<Str>): (o: seq<nat>)
    ensures |o| == |chunks|
  {
    seq(|chunks|, i requires 0 <= i < |chunks| => Offset(|chunks|, chunks, i))
  }

  function FileOf(chunks: seq<Str>): Str {
    U32(|chunks|) + Table(Offsets(chunks)) + Join(chunks)
  }

  lemma HasMiddle(a: Str, m: Str, z: Str)
    ensures Has(a + m + z, |a|, m) && Has(a + (m + z), |a|, m)
  {
    assert a + m + z == a + (m + z);
  }

  lemma CountRead(n: nat, rest: Str)
    requires n < 4294967296
    ensures ReadU32(U32(n) + rest, 0) == n
  {
    hide *;
    HasMiddle([], U32(n), rest);
    assert [] + U32(n) + rest == U32(n) + rest;
    ReadBackU32(U32(n) + rest, 0, n);
  }

  lemma CountAt(chunks: seq<Str>)
    requires |FileOf(chunks)| < 4294967296
    ensures ReadU32(FileOf(chunks), 0) == |chunks|
  {
    hide U32, ReadU32, Join, Table, Offsets;
    var t := Table(Offsets(chunks));
    TableLength(Offsets(chunks));
    CountRead(|chunks|, t + Join(chunks));
    assert FileOf(chunks) == U32(|chunks|) + (t + Join(chunks));
  }

  lemma JoinAround(chunks: seq<Str>, i: nat)
    requires i < |chunks|
    ensures Join(chunks) == Join(chunks[..i]) + (chunks[i] + Join(chunks[i + 1..]))
  {
    JoinSplit(chunks, i);
    assert chunks[i..][1..] == chunks[i + 1..];
  }

  lemma BodyAt(chunks: seq<Str>, i: nat)
    requires i < |chunks|
    ensures Has(FileOf(chunks), Offset(|chunks|, chunks, i), chunks[i])
  {
    var head := U32(|chunks|) + Table(Offsets(chunks));
    TableLength(Offsets(chunks));
    JoinAround(chunks, i);
    var a, z := Join(chunks[..i]), Join(chunks[i + 1..]);
    assert FileOf(chunks) == (head + a) + (chunks[i] + z);
    HasMiddle(head + a, chunks[i], z);
  }

  lemma OffsetInFile(chunks: seq<Str>, i: nat)
    requires i <= |chunks|
    ensures Offset(|chunks|, chunks, i) <= |FileOf(chunks)|
  {
    TableLength(Offsets(chunks));
    JoinSplit(chunks, i);
  }

  lemma TableRead(b: Str, offsets: seq<nat>, i: nat)
    requires i < |offsets| && Has(b, 4, Table(offsets)) && offsets[i] < 4294967296
    ensures ReadU32(b, 4 + 4 * i) == offsets[i]
  {
    hide *;
    TableEntry(b, 4, offsets, i);
    ReadBackU32(b, 4 + 4 * i, offsets[i]);
  }

  lemma OffsetAt(chunks: seq<Str>, i: nat)
    requires i < |chunks| && |FileOf(chunks)| < 4294967296
    ensures ReadU32(FileOf(chunks), 4 + 4 * i) == Offset(|chunks|, chunks, i)
  {
    HasMiddle(U32(|chunks|), Table(Offsets(chunks)), Join(chunks));
    OffsetInFile(chunks, i);
    TableRead(FileOf(chunks), Offsets(chunks), i);
  }

  /** Count, table and entries are where a reader looks for them. */
  lemma EntryAt(chunks: seq<Str>, i: nat)
    requires i < |chunks| && |FileOf(chunks)| < 4294967296
    ensures ReadU32(FileOf(chunks), 0) == |chunks|
    ensures ReadU32(FileOf(chunks), 4 + 4 * i) == Offset(|chunks|, chunks, i)
    ensures Has(FileOf(chunks), Offset(|chunks|, chunks, i), chunks[i])
  {
    CountAt(chunks);
    OffsetAt(chunks, i);
    BodyAt(chunks, i);
  }

  // Appending one entry moves no earlier offset.
  lemma OffsetsGrow(n: nat, chunks: seq<Str>, c: Str)
    ensures forall k :: 0 <= k <= |chunks| ==> Offset(n, chunks + [c], k) == Offset(n, chunks, k)
    ensures Offset(n, chunks + [c], |chunks| + 1) == Offset(n, chunks, |chunks|) + |c|
    ensures Join(chunks + [c]) == Join(chunks) + c
  {
    hide Join;
    JoinAppend(chunks, c);
    forall k | 0 <= k <= |chunks| ensures (chunks + [c])[..k] == chunks[..k] {
    }
    assert (chunks + [c])[..|chunks| + 1] == chunks + [c];
    assert chunks[..|chunks|] == chunks;
  }

  /** Writing the header in front of the entries, as both builders end. */
  method Assemble(offsets: seq<nat>, blob: Str, ghost chunks: seq<Str>) returns (file: Str)
    requires offsets == Offsets(chunks) && blob == Join(chunks)
    ensures file == FileOf(chunks)
  {
    hide Join, Table, U32, Offsets;
    assert Table([]) == [] by { TableLength([]); }
    var header := U32(|offsets|);
    for i := 0 to |offsets|
      invariant header == U32(|offsets|) + Table(offsets[..i])
    {
      TableAppend(offsets[..i], offsets[i]);
      assert offsets[..i + 1] == offsets[..i] + [offsets[i]];
      header := header + U32(offsets[i]);
    }
    assert offsets[..|offsets|] == offsets;
    file := header + blob;
  }
}
