/**
  The MapReduce engine for arbitrary mapper and reducer programs: chunking, routing
  by hash, locked merging in any order, sorting. A program is what it writes to its
  standard output as a function of its standard input.
 */
module MapReduce {
  import opened Bytes
  import opened Text
  import opened Sorting

  type Program = Str -> Str

  function Key(kv: Str): Str {
    kv[..Find(kv, TAB, 0)]
  }

  function NonEmpty(ls: seq<Str>): seq<Str> {
    if ls == [] then [] else (if ls[0] == [] then [] else [ls[0]]) + NonEmpty(ls[1..])
  }

  // The records in the output of a program.
  function Records(out: Str): seq<Str> {
    NonEmpty(Lines(out))
  }

  // The records routed to partition r of n.
  function Routed(recs: seq<Str>, hash: Str -> nat, n: nat, r: nat): seq<Str>
    requires n > 0
  {
    if recs == [] then [] else (if hash(Key(recs[0])) % n == r then [recs[0]] else []) + Routed(recs[1..], hash, n, r)
  }

  lemma {:induction false} RoutedConcat(a: seq<Str>, b: seq<Str>, hash: Str -> nat, n: nat, r: nat)
    requires n > 0
    ensures Routed(a + b, hash, n, r) == Routed(a, hash, n, r) + Routed(b, hash, n, r)
  {
    if a == [] {
      assert a + b == b;
    } else {
      assert (a + b)[1..] == a[1..] + b;
      RoutedConcat(a[1..], b, hash, n, r);
    }
  }

  lemma {:induction false} RoutedIsFilter(recs: seq<Str>, hash: Str -> nat, n: nat, r: nat, l: Str)
    requires n > 0
    ensures multiset(Routed(recs, hash, n, r))[l] == if hash(Key(l)) % n == r then multiset(recs)[l] else 0
  {
    if recs != [] {
      RoutedIsFilter(recs[1..], hash, n, r, l);
      assert recs == [recs[0]] + recs[1..];
    }
  }

  lemma {:induction false} NonEmptyConcat(a: seq<Str>, b: seq<Str>)
    ensures NonEmpty(a + b) == NonEmpty(a) + NonEmpty(b)
  {
    if a == [] {
      assert a + b == b;
    } else {
      assert (a + b)[1..] == a[1..] + b;
      NonEmptyConcat(a[1..], b);
    }
  }

  lemma {:induction false} NonEmptyStays(a: seq<Str>)
    requires forall l :: l in a ==> l != []
    ensures NonEmpty(a) == a
  {
    if a != [] {
      assert a[0] in a && forall l :: l in a[1..] ==> l in a;
      NonEmptyStays(a[1..]);
    }
  }

  // ------------------------------------------------------------ chunks

  // Lines i with i % m == c, from line i on.
  function ChunkLines(lines: seq<Str>, m: nat, c: nat): seq<Str>
    requires m > 0
    decreases |lines|
  {
    if lines == [] then []
    else
      var k := |lines| - 1;
      ChunkLines(lines[..k], m, c) + if k % m == c then [lines[k]] else []
  }

  method SplitIntoChunks(lines: seq<Str>, m: nat) returns (chunks: seq<Str>)
    requires m > 0
    ensures |chunks| == m && forall c :: 0 <= c < m ==> chunks[c] == Unlines(ChunkLines(lines, m, c))
  {
    hide Unlines, ChunkLines;
    chunks := seq(m, _ => []);
    forall c | 0 <= c < m ensures Unlines(ChunkLines(lines[..0], m, c)) == [] {
      NoLines(m, c);
    }
    for i := 0 to |lines|
      invariant |chunks| == m && forall c :: 0 <= c < m ==> chunks[c] == Unlines(ChunkLines(lines[..i], m, c))
    {
      forall c | 0 <= c < m
        ensures Unlines(ChunkLines(lines[..i + 1], m, c)) ==
          if i % m == c then Unlines(ChunkLines(lines[..i], m, c)) + (lines[i] + [NEWLINE])
          else Unlines(ChunkLines(lines[..i], m, c))
      {
        NextLine(lines, m, c, i);
      }
      chunks := chunks[i % m := chunks[i % m] + (lines[i] + [NEWLINE])];
    }
    assert lines[..|lines|] == lines;
  }

  /** Line j of chunk c is line c + j * m of the input, as far as there is one. */
  lemma {:induction false} ChunkAt(lines: seq<Str>, m: nat, c: nat, j: nat)
    requires c < m
    ensures j < |ChunkLines(lines, m, c)| <==> c + m * j < |lines|
    ensures c + m * j < |lines| ==> ChunkLines(lines, m, c)[j] == lines[c + m * j]
    decreases |lines|
  {
    if lines == [] {
      MultipleIsNat(m, j);
    } else {
      var k := |lines| - 1;
      ChunkAt(lines[..k], m, c, j);
      var n := |ChunkLines(lines[..k], m, c)|;
      ChunkAt(lines[..k], m, c, n);
      if n > 0 {
        ChunkAt(lines[..k], m, c, n - 1);
      }
      NextInChunk(k, m, c, n, j);
    }
  }

  lemma MultipleIsNat(m: nat, j: nat)
    ensures m * j >= 0
  {
  }

  lemma Multiples(m: nat, a: int, b: int)
    requires a < b
    ensures m * a + m <= m * b
  {
    var d: nat := b - a - 1;
    MultipleIsNat(m, d);
    assert m * b == m * (a + 1 + d) == m * a + m + m * d;
  }

  // Line k is the next of chunk c exactly when the chunk has used up all places below k.
  lemma NextInChunk(k: nat, m: nat, c: nat, n: nat, j: nat)
    requires c < m && c + m * n >= k && (n > 0 ==> c + m * (n - 1) < k)
    ensures k % m == c <==> k == c + m * n
    ensures j > n ==> c + m * j > k
    ensures j < n ==> c + m * j < k
  {
    Remains(k, m, c, n, k / m, k % m);
    if j > n {
      Multiples(m, n, j);
    } else if j < n - 1 {
      Multiples(m, j, n - 1);
    }
  }

  lemma Remains(k: nat, m: nat, c: nat, n: nat, q: nat, r: nat)
    requires c < m && r < m && k == m * q + r && c + m * n >= k && (n > 0 ==> c + m * (n - 1) < k)
    ensures r == c <==> k == c + m * n
  {
    if q < n {
      Multiples(m, q, n);
      if q < n - 1 {
        Multiples(m, q, n - 1);
      }
    } else if q > n {
      Multiples(m, n, q);
    }
  }

  lemma NoLines(m: nat, c: nat)
    requires m > 0
    ensures Unlines(ChunkLines([], m, c)) == []
  {
  }

  lemma NextLine(lines: seq<Str>, m: nat, c: nat, i: nat)
    requires m > 0 && i < |lines|
    ensures Unlines(ChunkLines(lines[..i + 1], m, c)) ==
      if i % m == c then Unlines(ChunkLines(lines[..i], m, c)) + (lines[i] + [NEWLINE])
      else Unlines(ChunkLines(lines[..i], m, c))
  {
    hide Unlines;
    var front := ChunkLines(lines[..i], m, c);
    assert lines[..i + 1][..i] == lines[..i];
    if i % m == c {
      UnlinesConcat(front, [lines[i]]);
      UnlinesOne(lines[i]);
    } else {
      assert front + [] == front;
    }
  }

  // ------------------------------------------------------------ map and shuffle

  // Routing the records of one mapper into n local buffers.
  method Route(emitted: Str, hash: Str -> nat, n: nat) returns (local: seq<Str>)
    requires n > 0
    ensures |local| == n && forall r :: 0 <= r < n ==> local[r] == Unlines(Routed(Records(emitted), hash, n, r))
  {
    hide Unlines, Routed, Lines, Key, NonEmpty;
    local := seq(n, _ => []);
    var lines := Lines(emitted);
    forall r | 0 <= r < n ensures Unlines(Routed(NonEmpty(lines[..0]), hash, n, r)) == [] {
      NothingRouted(hash, n, r);
    }
    for i := 0 to |lines|
      invariant |local| == n && forall r :: 0 <= r < n ==> local[r] == Unlines(Routed(NonEmpty(lines[..i]), hash, n, r))
    {
      var kv := lines[i];
      forall r | 0 <= r < n
        ensures Unlines(Routed(NonEmpty(lines[..i + 1]), hash, n, r)) ==
          if kv != [] && hash(Key(kv)) % n == r
            then Unlines(Routed(NonEmpty(lines[..i]), hash, n, r)) + (kv + [NEWLINE])
          else Unlines(Routed(NonEmpty(lines[..i]), hash, n, r))
      {
        NextRouted(lines, i, hash, n, r);
      }
      if kv != [] {
        var r := hash(Key(kv)) % n;
        local := local[r := local[r] + (kv + [NEWLINE])];
      }
    }
    assert lines[..|lines|] == lines;
  }

  lemma NothingRouted(hash: Str -> nat, n: nat, r: nat)
    requires n > 0
    ensures Unlines(Routed(NonEmpty([]), hash, n, r)) == []
  {
  }

  lemma NextRouted(lines: seq<Str>, i: nat, hash: Str -> nat, n: nat, r: nat)
    requires n > 0 && i < |lines|
    ensures Unlines(Routed(NonEmpty(lines[..i + 1]), hash, n, r)) ==
      if lines[i] != [] && hash(Key(lines[i])) % n == r
        then Unlines(Routed(NonEmpty(lines[..i]), hash, n, r)) + (lines[i] + [NEWLINE])
      else Unlines(Routed(NonEmpty(lines[..i]), hash, n, r))
  {
    hide Key, Unlines;
    var l := lines[i];
    assert lines[..i + 1] == lines[..i] + [l];
    NonEmptyConcat(lines[..i], [l]);
    NonEmptyOne(l);
    var front := NonEmpty(lines[..i]);
    if l == [] {
      assert front + [] == front;
    } else {
      RoutedConcat(front, [l], hash, n, r);
      RoutedOne(l, hash, n, r);
      var routed := Routed(front, hash, n, r);
      assert routed + [] == routed;
      UnlinesConcat(routed, [l]);
      UnlinesOne(l);
    }
  }

  lemma UnlinesNone()
    ensures Unlines([]) == []
  {
  }

  lemma NonEmptyOne(l: Str)
    ensures NonEmpty([l]) == if l == [] then [] else [l]
  {
    assert [l][1..] == [];
    assert NonEmpty([]) == [];
  }

  lemma RoutedOne(l: Str, hash: Str -> nat, n: nat, r: nat)
    requires n > 0
    ensures Routed([l], hash, n, r) == if hash(Key(l)) % n == r then [l] else []
  {
    assert [l][1..] == [];
    assert Routed([], hash, n, r) == [];
  }

  predicate InRange(order: seq<nat>, n: nat) {
    forall i :: 0 <= i < |order| ==> order[i] < n
  }

  // Concatenating the lists named by a sequence of indices.
  function Gather(lists: seq<seq<Str>>, order: seq<nat>): seq<Str>
    requires InRange(order, |lists|)
  {
    if order == [] then [] else lists[order[0]] + Gather(lists, order[1..])
  }

  function Upto(n: nat): (s: seq<nat>)
    ensures |s| == n && forall i :: 0 <= i < n ==> s[i] == i
  {
    seq(n, i => i)
  }

  lemma {:induction false} GatherSplit(lists: seq<seq<Str>>, order: seq<nat>, j: nat)
    requires InRange(order, |lists|) && j < |order|
    ensures InRange(order[..j] + order[j + 1..], |lists|)
    ensures multiset(Gather(lists, order)) ==
      multiset(lists[order[j]]) + multiset(Gather(lists, order[..j] + order[j + 1..]))
  {
    var less := order[..j] + order[j + 1..];
    if j == 0 {
      assert less == order[1..];
    } else {
      GatherSplit(lists, order[1..], j - 1);
      assert less[1..] == order[1..][..j - 1] + order[1..][j..];
      assert less[0] == order[0];
    }
  }

  /** The order in which mappers append to a partition does not change its multiset of records. */
  lemma {:induction false} GatherOrder(lists: seq<seq<Str>>, a: seq<nat>, b: seq<nat>)
    requires InRange(a, |lists|) && InRange(b, |lists|) && multiset(a) == multiset(b)
    ensures multiset(Gather(lists, a)) == multiset(Gather(lists, b))
    decreases |a|
  {
    hide Upto;
    if a == [] {
      assert |multiset(b)| == 0;
    } else {
      assert a[0] in multiset(b);
      var j :| 0 <= j < |b| && b[j] == a[0];
      GatherSplit(lists, b, j);
      WithoutOne(a, b, j);
      GatherOrder(lists, a[1..], b[..j] + b[j + 1..]);
    }
  }

  lemma WithoutOne(a: seq<nat>, b: seq<nat>, j: nat)
    requires a != [] && j < |b| && b[j] == a[0] && multiset(a) == multiset(b)
    ensures multiset(a[1..]) == multiset(b[..j] + b[j + 1..])
  {
    assert b == b[..j] + [b[j]] + b[j + 1..];
    assert a == [a[0]] + a[1..];
    assert multiset(b[..j] + b[j + 1..]) == multiset(b) - multiset{a[0]};
  }

  lemma {:induction false} GatherAppend(lists: seq<seq<Str>>, a: seq<nat>, k: nat)
    requires InRange(a, |lists|) && k < |lists|
    ensures Gather(lists, a + [k]) == Gather(lists, a) + lists[k]
  {
    if a == [] {
      assert [k][1..] == [];
      assert Gather(lists, []) == [];
    } else {
      assert (a + [k])[1..] == a[1..] + [k];
      GatherAppend(lists, a[1..], k);
    }
  }

  // Records of each mapper, routed to partition r.
  ghost function RoutedLists(emitted: seq<Str>, hash: Str -> nat, n: nat, r: nat): seq<seq<Str>>
    requires n > 0
  {
    seq(|emitted|, c requires 0 <= c < |emitted| => Routed(Records(emitted[c]), hash, n, r))
  }

  // All records of all mappers, in mapper order.
  ghost function AllRecords(emitted: seq<Str>): seq<Str> {
    if emitted == [] then [] else AllRecords(emitted[..|emitted| - 1]) + Records(emitted[|emitted| - 1])
  }

  ghost predicate IsOrder(order: seq<nat>, m: nat) {
    multiset(order) == multiset(Upto(m))
  }

  lemma OrderInRange(order: seq<nat>, m: nat)
    requires IsOrder(order, m)
    ensures InRange(order, m)
  {
    forall i | 0 <= i < |order| ensures order[i] < m {
      assert order[i] in multiset(order);
      assert order[i] in multiset(Upto(m));
    }
  }

  // Appending the local buffers of partition r in the given order.
  method Merge(locals: seq<seq<Str>>, r: nat, order: seq<nat>, ghost lists: seq<seq<Str>>) returns (partition: Str)
    requires InRange(order, |locals|)
    requires |lists| == |locals|
    requires forall k :: 0 <= k < |locals| ==> r < |locals[k]| && locals[k][r] == Unlines(lists[k])
    ensures partition == Unlines(Gather(lists, order))
  {
    hide Unlines, Gather;
    partition := [];
    UnlinesNone();
    GatherNone(lists);
    for i := 0 to |order|
      invariant partition == Unlines(Gather(lists, order[..i]))
    {
      assert order[i] in order;
      assert order[..i + 1] == order[..i] + [order[i]];
      GatherAppend(lists, order[..i], order[i]);
      UnlinesConcat(Gather(lists, order[..i]), lists[order[i]]);
      partition := partition + locals[order[i]][r];
    }
    assert order[..|order|] == order;
  }

  lemma GatherNone(lists: seq<seq<Str>>)
    ensures Gather(lists, []) == []
  {
  }

  // ------------------------------------------------------------ reduce

  lemma LessIsTotal()
    ensures StrictTotal(Less)
  {
    forall x ensures !Less(x, x) {
      LessTotal(x, x);
    }
    forall x, y ensures Less(x, y) || x == y || Less(y, x) {
      LessTotal(x, y);
    }
    forall x, y, z | Less(x, y) && Less(y, z) ensures Less(x, z) {
      LessTransitive(x, y, z);
    }
  }

  // A partition's records in sorted order, one per line.
  function ReducerInput(recs: seq<Str>): Str {
    Unlines(Sort(Less, recs))
  }

  // What the reducer makes of a set of records; it is not run on nothing.
  function Reduced(reducer: Program, recs: seq<Str>): Str {
    if ReducerInput(recs) == [] then [] else reducer(ReducerInput(recs))
  }

  lemma SortForgetsOrder(a: seq<Str>, b: seq<Str>)
    requires multiset(a) == multiset(b)
    ensures Sort(Less, a) == Sort(Less, b)
  {
    hide Less, Sort, StrictTotal;
    LessIsTotal();
    SortSorts(Less, a);
    SortSorts(Less, b);
    SortedIsUnique(Less, Sort(Less, a), Sort(Less, b));
  }

  method ReducePartition(partition: Str, reducer: Program) returns (part: Str)
    ensures part == Reduced(reducer, Records(partition))
  {
    hide Lines, NonEmpty, Unlines, Less, Sort;
    var lines := Lines(partition);
    var recs: seq<Str> := [];
    assert NonEmpty(lines[..0]) == [] by { NonEmptyNone(); }
    for i := 0 to |lines|
      invariant recs == NonEmpty(lines[..i])
    {
      assert lines[..i + 1] == lines[..i] + [lines[i]];
      NonEmptyConcat(lines[..i], [lines[i]]);
      NonEmptyOne(lines[i]);
      if lines[i] != [] {
        recs := recs + [lines[i]];
      }
    }
    assert lines[..|lines|] == lines;
    recs := Sort(Less, recs);
    var input: Str := [];
    UnlinesNone();
    for i := 0 to |recs|
      invariant input == Unlines(recs[..i])
    {
      assert recs[..i + 1] == recs[..i] + [recs[i]];
      UnlinesConcat(recs[..i], [recs[i]]);
      UnlinesOne(recs[i]);
      input := input + (recs[i] + [NEWLINE]);
    }
    assert recs[..|recs|] == recs;
    part := if input == [] then [] else reducer(input);
  }

  lemma NonEmptyNone()
    ensures NonEmpty([]) == []
  {
  }

  // ------------------------------------------------------------ the engine

  // What each mapper writes.
  ghost function Emitted(lines: seq<Str>, m: nat, mapper: Program): seq<Str>
    requires m > 0
  {
    seq(m, c requires 0 <= c < m =>
      var chunk := Unlines(ChunkLines(lines, m, c)); if chunk == [] then [] else mapper(chunk))
  }

  /** A mapper without a line is not run, and neither is a reducer without a record. */
  lemma IdleWorkers(lines: seq<Str>, m: nat, c: nat, mapper: Program, reducer: Program)
    requires c < m
    ensures c >= |lines| ==> Emitted(lines, m, mapper)[c] == []
    ensures Reduced(reducer, []) == []
  {
    if c >= |lines| {
      ChunkAt(lines, m, c, 0);
      assert |ChunkLines(lines, m, c)| == 0;
      assert Unlines([]) == [];
    }
  }

  lemma {:induction false} GatherRouted(emitted: seq<Str>, hash: Str -> nat, n: nat, r: nat)
    requires n > 0
    ensures Gather(RoutedLists(emitted, hash, n, r), Upto(|emitted|)) == Routed(AllRecords(emitted), hash, n, r)
    decreases |emitted|
  {
    hide Routed, NonEmpty, Lines;
    if emitted == [] {
      RoutedNone(hash, n, r);
    } else {
      var k := |emitted| - 1;
      var front := emitted[..k];
      GatherRouted(front, hash, n, r);
      var lists := RoutedLists(emitted, hash, n, r);
      assert Upto(k + 1) == Upto(k) + [k];
      GatherAppend(lists, Upto(k), k);
      GatherPrefix(RoutedLists(front, hash, n, r), lists, Upto(k));
      RoutedConcat(AllRecords(front), Records(emitted[k]), hash, n, r);
    }
  }

  lemma RoutedNone(hash: Str -> nat, n: nat, r: nat)
    requires n > 0
    ensures Routed([], hash, n, r) == []
  {
  }

  lemma {:induction false} GatherPrefix(a: seq<seq<Str>>, b: seq<seq<Str>>, order: seq<nat>)
    requires a <= b && InRange(order, |a|)
    ensures Gather(a, order) == Gather(b, order)
  {
    if order != [] {
      GatherPrefix(a, b, order[1..]);
    }
  }

  lemma {:induction false} RecordsOfUnlines(recs: seq<Str>)
    requires forall l :: l in recs ==> l != [] && OneLine(l)
    ensures Records(Unlines(recs)) == recs
  {
    LinesBack(recs);
    NonEmptyStays(recs);
  }

  lemma {:induction false} NonEmptyAre(ls: seq<Str>)
    ensures forall l :: l in NonEmpty(ls) ==> l != [] && l in ls
  {
    if ls != [] {
      NonEmptyAre(ls[1..]);
    }
  }

  lemma RecordsAreRecords(out: Str)
    ensures forall l :: l in Records(out) ==> l != [] && OneLine(l)
  {
    LinesAreLines(out);
    NonEmptyAre(Lines(out));
  }

  lemma {:induction false} GatherIn(lists: seq<seq<Str>>, order: seq<nat>)
    requires InRange(order, |lists|)
    ensures forall l :: l in Gather(lists, order) ==> exists k :: 0 <= k < |lists| && l in lists[k]
  {
    if order != [] {
      assert order[0] in order;
      GatherIn(lists, order[1..]);
    }
  }

  lemma {:induction false} RoutedIn(recs: seq<Str>, hash: Str -> nat, n: nat, r: nat)
    requires n > 0
    ensures forall l :: l in Routed(recs, hash, n, r) ==> l in recs
  {
    if recs != [] {
      RoutedIn(recs[1..], hash, n, r);
    }
  }

  lemma GatheredAreRecords(emitted: seq<Str>, hash: Str -> nat, n: nat, r: nat, order: seq<nat>)
    requires n > 0 && InRange(order, |emitted|)
    ensures forall l :: l in Gather(RoutedLists(emitted, hash, n, r), order) ==> l != [] && OneLine(l)
  {
    hide Routed, NonEmpty, Lines, Gather;
    var lists := RoutedLists(emitted, hash, n, r);
    GatherIn(lists, order);
    forall l | l in Gather(lists, order) ensures l != [] && OneLine(l) {
      var k :| 0 <= k < |lists| && l in lists[k];
      RoutedIn(Records(emitted[k]), hash, n, r);
      RecordsAreRecords(emitted[k]);
    }
  }

  /**
    Part r is the reducer's output on exactly the emitted records routed to r, sorted:
    the number of workers, their scheduling and the merge order leave no trace.
   */
  method Run(lines: seq<Str>, m: nat, n: nat, mapper: Program, reducer: Program, hash: Str -> nat,
      orders: seq<seq<nat>>)
    returns (parts: seq<Str>)
    requires m > 0 && n > 0
    requires |orders| == n && forall r :: 0 <= r < n ==> IsOrder(orders[r], m)
    ensures |parts| == n
    ensures forall r :: 0 <= r < n ==>
      parts[r] == Reduced(reducer, Routed(AllRecords(Emitted(lines, m, mapper)), hash, n, r))
  {
    hide Lines, NonEmpty, Unlines, Routed, Less, Sort, Gather, ChunkLines, Reduced, Records, IsOrder, AllRecords;
    var chunks := SplitIntoChunks(lines, m);
    var locals: seq<seq<Str>> := [];
    ghost var emittedAll := Emitted(lines, m, mapper);
    for c := 0 to m
      invariant |locals| == c
      invariant forall k :: 0 <= k < c ==> |locals[k]| == n
      invariant forall k, r :: 0 <= k < c && 0 <= r < n ==>
        locals[k][r] == Unlines(Routed(Records(emittedAll[k]), hash, n, r))
    {
      var emitted := if chunks[c] == [] then [] else mapper(chunks[c]);
      var local := Route(emitted, hash, n);
      locals := locals + [local];
    }
    parts := [];
    for r := 0 to n
      invariant |parts| == r
      invariant forall k :: 0 <= k < r ==> parts[k] == Reduced(reducer, Routed(AllRecords(emittedAll), hash, n, k))
    {
      ghost var lists := RoutedLists(emittedAll, hash, n, r);
      OrderInRange(orders[r], m);
      var partition := Merge(locals, r, orders[r], lists);
      var part := ReducePartition(partition, reducer);
      PartitionIs(emittedAll, hash, n, r, orders[r], reducer);
      parts := parts + [part];
    }
  }

  lemma PartitionIs(emitted: seq<Str>, hash: Str -> nat, n: nat, r: nat, order: seq<nat>, reducer: Program)
    requires n > 0 && IsOrder(order, |emitted|) && InRange(order, |emitted|)
    ensures Reduced(reducer, Records(Unlines(Gather(RoutedLists(emitted, hash, n, r), order)))) ==
      Reduced(reducer, Routed(AllRecords(emitted), hash, n, r))
  {
    hide Records, Unlines, Gather, Routed, AllRecords, Sort, Less;
    var lists := RoutedLists(emitted, hash, n, r);
    GatheredAreRecords(emitted, hash, n, r, order);
    RecordsOfUnlines(Gather(lists, order));
    GatherOrder(lists, order, Upto(|emitted|));
    GatherRouted(emitted, hash, n, r);
    SortForgetsOrder(Gather(lists, order), Routed(AllRecords(emitted), hash, n, r));
  }
}
