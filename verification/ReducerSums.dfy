/**
  The reducer in terms of keys and numbers: a record is a key with a count or a key alone, which
  counts 1, and every key gets one line with the sum of its counts.
 */
module ReducerSums {
  import opened Bytes
  import opened Text
  import opened Sorting
  import opened MapReduce
  import opened WordCount
  import opened KeyGrouping

  datatype Entry = Bare(key: Str) | Counted(key: Str, count: int)

  function LineFor(e: Entry): Str {
    match e
    case Bare(key) => key
    case Counted(key, count) => key + [TAB] + DecInt(count)
  }

  function CountOf(e: Entry): int {
    match e
    case Bare(_) => 1
    case Counted(_, count) => count
  }

  // A key without tab and newline, and a count that fits a long.
  predicate EntryOk(e: Entry) {
    && TAB !in e.key && NEWLINE !in e.key
    && match e
       case Bare(key) => key != []
       case Counted(_, count) => -9223372036854775808 <= count <= 9223372036854775807
  }

  function LinesFor(es: seq<Entry>): (ls: seq<Str>)
    ensures |ls| == |es|
  {
    seq(|es|, i requires 0 <= i < |es| => LineFor(es[i]))
  }

  function Sum(es: seq<Entry>, key: Str): int {
    if es == [] then 0
    else
      var last := |es| - 1;
      Sum(es[..last], key) + if es[last].key == key then CountOf(es[last]) else 0
  }

  // Entries with the same key stand next to each other.
  predicate Together(es: seq<Entry>) {
    forall i, j, l :: 0 <= i < j < l < |es| && es[i].key == es[l].key ==> es[j].key == es[i].key
  }

  predicate HasKey(es: seq<Entry>, key: Str) {
    exists i :: 0 <= i < |es| && es[i].key == key
  }

  /** A record contributes its count to its key; without a tab, 1 to the whole line. */
  lemma RecordContributes(e: Entry)
    requires EntryOk(e)
    ensures Key(LineFor(e)) == e.key && Value(LineFor(e)) == Some(CountOf(e))
  {
    hide Stol;
    var rec := LineFor(e);
    match e
    case Bare(key) =>
      KeyOf(key, rec);
      FindNone(rec, TAB);
    case Counted(key, count) =>
      assert forall i :: 0 <= i < |key| ==> rec[i] == key[i];
      FindIs(rec, TAB, 0, |key|);
      assert rec[..|key|] == key && rec[|key| + 1..] == DecInt(count);
      StolReadsBack(count);
  }

  lemma LineIsLine(e: Entry)
    requires TAB !in e.key && NEWLINE !in e.key && (e.Bare? ==> e.key != [])
    ensures LineFor(e) != [] && OneLine(LineFor(e))
  {
    if e.Counted? {
      DecIsDigits(if e.count < 0 then -e.count else e.count);
      var d := DecInt(e.count);
      assert forall k :: 0 <= k < |d| ==> d[k] != NEWLINE;
    }
  }

  lemma LinesAreRecords(es: seq<Entry>)
    requires forall i :: 0 <= i < |es| ==> EntryOk(es[i])
    ensures AllCount(LinesFor(es)) && Records(Unlines(LinesFor(es))) == LinesFor(es)
    ensures forall i :: 0 <= i < |es| ==>
      Key(LinesFor(es)[i]) == es[i].key && Value(LinesFor(es)[i]) == Some(CountOf(es[i]))
  {
    hide LineFor, CountOf, Key, Value, Records, Unlines;
    var ls := LinesFor(es);
    forall i | 0 <= i < |es|
      ensures ls[i] != [] && OneLine(ls[i]) && Key(ls[i]) == es[i].key && Value(ls[i]) == Some(CountOf(es[i]))
    {
      RecordContributes(es[i]);
      LineIsLine(es[i]);
    }
    RecordsOfUnlines(ls);
  }

  lemma {:induction false} SameSums(es: seq<Entry>, key: Str)
    requires forall i :: 0 <= i < |es| ==> EntryOk(es[i])
    ensures AllCount(LinesFor(es)) && SumFor(LinesFor(es), key) == Sum(es, key)
    decreases |es|
  {
    hide LineFor, CountOf, Key, Value, EntryOk, Records;
    LinesAreRecords(es);
    if es != [] {
      var n := |es| - 1;
      SameSums(es[..n], key);
      assert LinesFor(es)[..n] == LinesFor(es[..n]);
    }
  }

  // Lines come out in the order in which their keys come in.
  predicate InOrder(gs: seq<Group>, recs: seq<Str>) {
    forall a, b, p, q ::
      0 <= a < b < |gs| && 0 <= p < |recs| && 0 <= q < |recs| && Key(recs[p]) == gs[a].key && Key(recs[q]) == gs[b].key
      ==>
      p < q
  }

  lemma {:induction false} GroupsInOrder(recs: seq<Str>)
    requires AllCount(recs) && Grouped(recs)
    ensures InOrder(Groups(recs), recs)
    decreases |recs|
  {
    hide Key, Value, Grown, Grouped, InOrder, Tallies;
    if recs == [] {
      NoneInOrder();
    } else {
      var n := |recs| - 1;
      assert recs == recs[..n] + [recs[n]];
      GroupedFront(recs[..n], recs[n]);
      GroupsInOrder(recs[..n]);
      GroupedSums(recs[..n]);
      OneMoreInOrder(Groups(recs[..n]), recs[..n], recs[n]);
    }
  }

  lemma NoneInOrder()
    ensures InOrder([], [])
  {
  }

  lemma OneMoreInOrder(gs: seq<Group>, recs: seq<Str>, rec: Str)
    requires AllCount(recs) && Value(rec).Some? && Grouped(recs + [rec]) && Tallies(gs, recs) && InOrder(gs, recs)
    ensures InOrder(Grown(gs, Key(rec), Value(rec).value), recs + [rec])
  {
    hide Key, Value, Grouped, SumFor, AllCount;
    var next, all := Grown(gs, Key(rec), Value(rec).value), recs + [rec];
    if Key(rec) in Keys(recs) {
      KeyIsLast(recs, rec);
    }
    forall g | g in gs && g.key == Key(rec) ensures Key(rec) in Keys(recs) {
    }
    forall a, b, p, q |
      && 0 <= a < b < |next| && 0 <= p < |all| && 0 <= q < |all|
      && Key(all[p]) == next[a].key && Key(all[q]) == next[b].key
      ensures p < q
    {
      assert a < |gs| && next[a].key == gs[a].key;
      assert gs[a] in gs && (b < |gs| ==> gs[b] in gs && next[b].key == gs[b].key);
      assert p < |recs| ==> all[p] == recs[p];
      assert q < |recs| ==> all[q] == recs[q];
      assert q < |recs| ==> Key(recs[q]) in Keys(recs);
    }
  }

  // The totals in the terms of the groups they come from.
  ghost predicate TotalsOf(gs: seq<Group>, totals: seq<Entry>) {
    |totals| == |gs| && forall i :: 0 <= i < |gs| ==> totals[i] == Counted(gs[i].key, gs[i].total)
  }

  predicate KeysInOrder(totals: seq<Entry>, es: seq<Entry>) {
    forall a, b, p, q ::
      && 0 <= a < b < |totals| && 0 <= p < |es| && 0 <= q < |es|
      && es[p].key == totals[a].key && es[q].key == totals[b].key
      ==>
      p < q
  }

  lemma TotalIsSum(es: seq<Entry>, gs: seq<Group>, totals: seq<Entry>, t: Entry)
    requires forall i :: 0 <= i < |es| ==> EntryOk(es[i])
    requires AllCount(LinesFor(es)) && Tallies(gs, LinesFor(es)) && TotalsOf(gs, totals)
    ensures t in totals <==> t.Counted? && HasKey(es, t.key) && t.count == Sum(es, t.key)
  {
    hide LineFor, EntryOk, Keys, SumFor, Sum, AllCount, HasKey, Key;
    SameSums(es, t.key);
    KeysOf(es, t.key);
    if t.Counted? && HasKey(es, t.key) && t.count == Sum(es, t.key) {
      var i :| 0 <= i < |gs| && gs[i] == Group(t.key, t.count);
      assert totals[i] == t;
    }
    if t in totals {
      var i :| 0 <= i < |totals| && totals[i] == t;
      assert gs[i] in gs;
    }
  }

  lemma TotalsInOrder(es: seq<Entry>, gs: seq<Group>, totals: seq<Entry>)
    requires forall i :: 0 <= i < |es| ==> EntryOk(es[i])
    requires InOrder(gs, LinesFor(es)) && TotalsOf(gs, totals)
    ensures KeysInOrder(totals, es)
  {
    hide LineFor, EntryOk, Key, Value, CountOf, Records, Unlines;
    LinesAreRecords(es);
    var recs := LinesFor(es);
    forall a, b, p, q |
      && 0 <= a < b < |totals| && 0 <= p < |es| && 0 <= q < |es|
      && es[p].key == totals[a].key && es[q].key == totals[b].key
      ensures p < q
    {
      assert Key(recs[p]) == gs[a].key && Key(recs[q]) == gs[b].key;
    }
  }

  /**
    On records with equal keys together the reducer writes one line per key, in the order in which the
    keys come, holding the sum of the counts of that key, and no other line.
   */
  lemma ReducerTotals(es: seq<Entry>) returns (totals: seq<Entry>)
    requires Together(es) && forall i :: 0 <= i < |es| ==> EntryOk(es[i])
    ensures Summed(Records(Unlines(LinesFor(es)))) == Some(Unlines(LinesFor(totals)))
    ensures forall i, j :: 0 <= i < j < |totals| ==> totals[i].key != totals[j].key
    ensures forall t :: t in totals <==> t.Counted? && HasKey(es, t.key) && t.count == Sum(es, t.key)
    ensures KeysInOrder(totals, es)
  {
    hide LineFor, CountOf, Key, Value, EntryOk, Records, Unlines, Groups, Keys, SumFor, CountLine, Sum, AllCount;
    hide HasKey, KeysInOrder, InOrder;
    var recs := LinesFor(es);
    LinesAreRecords(es);
    GroupedSums(recs);
    GroupsInOrder(recs);
    var gs := Groups(recs);
    totals := seq(|gs|, i requires 0 <= i < |gs| => Counted(gs[i].key, gs[i].total));
    SameLines(gs, totals);
    TotalsInOrder(es, gs, totals);
    hide Tallies;
    forall t ensures t in totals <==> t.Counted? && HasKey(es, t.key) && t.count == Sum(es, t.key) {
      TotalIsSum(es, gs, totals, t);
    }
    DistinctGroups(gs, recs);
  }

  lemma DistinctGroups(gs: seq<Group>, recs: seq<Str>)
    requires AllCount(recs) && Tallies(gs, recs)
    ensures forall i, j :: 0 <= i < j < |gs| ==> gs[i].key != gs[j].key
  {
  }

  lemma SameLines(gs: seq<Group>, totals: seq<Entry>)
    requires |totals| == |gs| && forall i :: 0 <= i < |gs| ==> totals[i] == Counted(gs[i].key, gs[i].total)
    ensures CountLines(gs) == LinesFor(totals)
  {
  }

  lemma KeysOf(es: seq<Entry>, key: Str)
    requires forall i :: 0 <= i < |es| ==> EntryOk(es[i])
    ensures key in Keys(LinesFor(es)) <==> HasKey(es, key)
  {
    hide LineFor, Key, EntryOk, Value, CountOf, Records;
    var ls := LinesFor(es);
    LinesAreRecords(es);
    if HasKey(es, key) {
      var i :| 0 <= i < |es| && es[i].key == key;
      assert Key(ls[i]) == key;
    }
    if key in Keys(ls) {
      var i :| 0 <= i < |ls| && Key(ls[i]) == key;
      assert es[i].key == key;
    }
  }

  /** Counted keys whose records are sorted as lines have equal keys together. */
  lemma SortedTogether(es: seq<Entry>)
    requires forall i :: 0 <= i < |es| ==> EntryOk(es[i]) && es[i].Counted?
    requires SortedBy(Less, LinesFor(es))
    ensures Together(es)
  {
    hide Less, Key, Value, CountOf, Sort, Records, Unlines, StrictTotal, EntryOk, LineFor;
    var ls := LinesFor(es);
    LinesAreRecords(es);
    LessIsTotal();
    SortedStays(Less, ls);
    forall rec | rec in ls ensures TAB in rec {
      var i :| 0 <= i < |ls| && ls[i] == rec;
      CountedHasTab(es[i]);
    }
    TabsSortGrouped(ls);
    forall i, j, l | 0 <= i < j < l < |es| && es[i].key == es[l].key ensures es[j].key == es[i].key {
      assert Key(ls[i]) == Key(ls[l]);
    }
  }

  lemma CountedHasTab(e: Entry)
    requires e.Counted?
    ensures TAB in LineFor(e)
  {
    assert LineFor(e)[|e.key|] == TAB;
  }

  /** In particular for counted keys in sorted order, which is what the engine feeds a reducer. */
  lemma SortedTotals(es: seq<Entry>) returns (totals: seq<Entry>)
    requires (forall i :: 0 <= i < |es| ==> EntryOk(es[i]) && es[i].Counted?) && SortedBy(Less, LinesFor(es))
    ensures Summed(Records(Unlines(LinesFor(es)))) == Some(Unlines(LinesFor(totals)))
    ensures forall i, j :: 0 <= i < j < |totals| ==> totals[i].key != totals[j].key
    ensures forall t :: t in totals <==> t.Counted? && HasKey(es, t.key) && t.count == Sum(es, t.key)
  {
    SortedTogether(es);
    totals := ReducerTotals(es);
  }
}
