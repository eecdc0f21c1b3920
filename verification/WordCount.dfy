/**
  The word-count mapper and reducer, why sorting whole lines groups equal keys, and
  what the engine computes when it runs the two: the number of times each word occurs.
 */
module WordCount {
  import opened Bytes
  import opened Text
  import opened Words
  import opened Sorting
  import opened MapReduce

  // ------------------------------------------------------------ the mapper

  // A record "key\tvalue".
  function Record(key: Str, value: Str): Str {
    key + [TAB] + value
  }

  function One(w: Str): Str {
    Record(w, [49])
  }

  function Ones(ws: seq<Str>): (r: seq<Str>)
    ensures |r| == |ws|
  {
    seq(|ws|, i requires 0 <= i < |ws| => One(ws[i]))
  }

  lemma OnesAppend(ws: seq<Str>, w: Str)
    ensures Unlines(Ones(ws + [w])) == Unlines(Ones(ws)) + (One(w) + [NEWLINE])
  {
    hide Unlines, One;
    assert Ones(ws + [w]) == Ones(ws) + [One(w)];
    UnlinesConcat(Ones(ws), [One(w)]);
    UnlinesOne(One(w));
  }

  /** The character loop of the mapper writes one record per word. */
  method Mapper(input: Str) returns (output: Str)
    ensures output == Unlines(Ones(WordsOf(input)))
    ensures var words := WordsOf(input);
      output == Unlines(seq(|words|, i requires 0 <= i < |words| => words[i] + [9, 49]))
  {
    hide WordsFrom, Lower, AllAlnum, IsAlnum, ToLower, Unlines, One;
    ghost var words: seq<Str> := [];
    assert Unlines(Ones([])) == [] by {
      UnlinesNone();
      assert Ones([]) == [];
    }
    output := [];
    var cur: Str := [];
    ghost var start := 0;
    EmptyIsAlnum();
    assert input[0..0] == [];
    for i := 0 to |input|
      invariant 0 <= start <= i && cur == Lower(input[start..i]) && AllAlnum(input[start..i])
      invariant WordsOf(input) == words + WordsFrom(input, start)
      invariant output == Unlines(Ones(words))
    {
      if IsAlnum(input[i]) {
        RunGrows(input, start, i);
        cur := cur + [ToLower(input[i])];
      } else {
        if cur != [] {
          WordsAtRun(input, start, i);
          OnesAppend(words, cur);
          output, words, cur := output + (One(cur) + [NEWLINE]), words + [cur], [];
        }
        WordsAtGap(input, i);
        start := i + 1;
        EmptyIsAlnum();
        assert input[i + 1..i + 1] == [];
      }
    }
    if cur != [] {
      WordsAtRun(input, start, |input|);
      OnesAppend(words, cur);
      output, words := output + (One(cur) + [NEWLINE]), words + [cur];
    }
    WordsAtEnd(input);
    assert WordsOf(input) == words;
    OnesAre(words);
  }

  // The word, a tab and the digit 1.
  lemma OnesAre(ws: seq<Str>)
    ensures Ones(ws) == seq(|ws|, i requires 0 <= i < |ws| => ws[i] + [9, 49])
  {
    forall i | 0 <= i < |ws| ensures Ones(ws)[i] == ws[i] + [9, 49] {
    }
  }

  // ------------------------------------------------------------ the reducer

  const LONG_MAX := 9223372036854775807
  const LONG_MIN := -9223372036854775808

  function InLong(v: int): Option<int> {
    if LONG_MIN <= v <= LONG_MAX then Some(v) else None
  }

  // std::stol in base 10: blanks, an optional sign, digits; None where it throws, which is where
  // there are no digits or the number does not fit.
  function Stol(s: Str): Option<int> {
    if s == [] then None
    else if IsSpace(s[0]) then Stol(s[1..])
    else if Digit(s[0]) then InLong(Digits(s, 0))
    else if (s[0] == 43 || s[0] == 45) && |s| > 1 && Digit(s[1]) then
      var n: int := Digits(s[1..], 0);
      InLong(if s[0] == 45 then -n else n)
    else None
  }

  /** A total the reducer prints reads back as itself if it fits, and throws if it does not. */
  lemma StolReadsBack(v: int)
    ensures Stol(DecInt(v)) == if LONG_MIN <= v <= LONG_MAX then Some(v) else None
  {
    hide Dec, Digits;
    var d := Dec(if v < 0 then -v else v);
    DecIsDigits(if v < 0 then -v else v);
    DigitsOfDec(if v < 0 then -v else v);
    assert Digit(d[0]);
    assert ([45] + d)[1..] == d;
  }

  predicate AllSpace(s: Str) {
    forall k :: 0 <= k < |s| ==> IsSpace(s[k])
  }

  /** stol takes blanks, a sign or none, digits and anything behind them; it throws if the number does not fit. */
  lemma {:induction false} StolReads(blanks: Str, sign: Str, n: nat, rest: Str)
    requires AllSpace(blanks) && (sign == [] || sign == [43] || sign == [45]) && (rest == [] || !Digit(rest[0]))
    ensures var m: int := n;
      var v := if sign == [45] then -m else m;
      Stol(blanks + sign + Dec(n) + rest) ==
        if -9223372036854775808 <= v <= 9223372036854775807 then Some(v) else None
  {
    hide Dec, Digits;
    var s := blanks + sign + Dec(n) + rest;
    if blanks != [] {
      assert s[1..] == blanks[1..] + sign + Dec(n) + rest;
      StolReads(blanks[1..], sign, n, rest);
    } else {
      DecIsDigits(n);
      DecReadsBack(n, rest);
      assert sign == [] ==> s == Dec(n) + rest;
      assert sign != [] ==> s[1..] == Dec(n) + rest && s[0] == sign[0] && s[1] == Dec(n)[0];
    }
  }

  /** And it throws on everything else. */
  lemma {:induction false} StolThrows(blanks: Str, rest: Str)
    requires AllSpace(blanks)
    requires rest != [] ==>
      !IsSpace(rest[0]) && !Digit(rest[0]) && (rest[0] == 43 || rest[0] == 45 ==> |rest| == 1 || !Digit(rest[1]))
    ensures Stol(blanks + rest) == None
  {
    hide Digits;
    if blanks == [] {
      assert blanks + rest == rest;
    } else {
      assert (blanks + rest)[1..] == blanks[1..] + rest;
      StolThrows(blanks[1..], rest);
    }
  }

  // The count a record carries: 1 when it has no tab.
  function Value(rec: Str): Option<int> {
    var tab := Find(rec, TAB, 0);
    if tab == |rec| then Some(1) else Stol(rec[tab + 1..])
  }

  predicate AllCount(recs: seq<Str>) {
    forall i :: 0 <= i < |recs| ==> Value(recs[i]).Some?
  }

  datatype Group = Group(key: Str, total: int)

  // One group per maximal run of records with the same key.
  function Groups(recs: seq<Str>): seq<Group>
    requires AllCount(recs)
    decreases |recs|
  {
    if recs == [] then []
    else Grown(Groups(recs[..|recs| - 1]), Key(recs[|recs| - 1]), Value(recs[|recs| - 1]).value)
  }

  function Grown(gs: seq<Group>, key: Str, v: int): seq<Group> {
    var k := |gs| - 1;
    if gs == [] || gs[k].key != key then gs + [Group(key, v)] else gs[..k] + [Group(key, gs[k].total + v)]
  }

  function CountLine(g: Group): Str {
    Record(g.key, DecInt(g.total))
  }

  function CountLines(gs: seq<Group>): (r: seq<Str>)
    ensures |r| == |gs|
  {
    seq(|gs|, i requires 0 <= i < |gs| => CountLine(gs[i]))
  }

  // What the reducer writes, or None when some count does not parse.
  function Summed(recs: seq<Str>): Option<Str> {
    if AllCount(recs) then Some(Unlines(CountLines(Groups(recs)))) else None
  }

  lemma CountLinesAppend(gs: seq<Group>, g: Group)
    ensures Unlines(CountLines(gs + [g])) == Unlines(CountLines(gs)) + (CountLine(g) + [NEWLINE])
  {
    hide Unlines, CountLine;
    assert CountLines(gs + [g]) == CountLines(gs) + [CountLine(g)];
    UnlinesConcat(CountLines(gs), [CountLine(g)]);
    UnlinesOne(CountLine(g));
  }

  lemma NextGroup(recs: seq<Str>, rec: Str)
    requires AllCount(recs) && Value(rec).Some?
    ensures AllCount(recs + [rec]) && Groups(recs + [rec]) == Grown(Groups(recs), Key(rec), Value(rec).value)
  {
    hide Value, Key;
    assert (recs + [rec])[..|recs|] == recs;
  }

  // The groups so far, the last of them still open.
  function Open(closed: seq<Group>, have: bool, key: Str, total: int): seq<Group> {
    if have then closed + [Group(key, total)] else closed
  }

  lemma StaysOpen(recs: seq<Str>, rec: Str, closed: seq<Group>, have: bool, key: Str, total: int)
    requires AllCount(recs) && Value(rec).Some? && Groups(recs) == Open(closed, have, key, total)
    requires !have ==> closed == [] && total == 0
    ensures AllCount(recs + [rec])
    ensures Groups(recs + [rec]) ==
      if have && key != Key(rec) then Open(closed + [Group(key, total)], true, Key(rec), Value(rec).value)
      else Open(closed, true, Key(rec), total + Value(rec).value)
  {
    hide Value, Key, Groups;
    NextGroup(recs, rec);
    assert (closed + [Group(key, total)])[..|closed|] == closed;
  }

  lemma BadCount(recs: seq<Str>, rec: Str, rest: seq<Str>)
    requires Value(rec).None?
    ensures !AllCount(recs + [rec] + rest)
  {
    assert (recs + [rec] + rest)[|recs|] == rec;
  }

  /** The line loop of the reducer: one output line per run of equal keys. */
  method Reducer(input: Str) returns (output: Option<Str>)
    ensures output == Summed(Records(input))
  {
    hide Value, Key, Lines, NonEmpty, Unlines, CountLine, CountLines, AllCount, Groups;
    var lines := Lines(input);
    var out: Str := [];
    var currentKey: Str, total, have := [], 0, false;
    ghost var recs: seq<Str>, closed: seq<Group> := [], [];
    NothingSummed(lines);
    for i := 0 to |lines|
      invariant recs == NonEmpty(lines[..i]) && AllCount(recs)
      invariant Groups(recs) == Open(closed, have, currentKey, total)
      invariant !have ==> closed == [] && total == 0
      invariant out == Unlines(CountLines(closed))
    {
      NonEmptyStep(lines, i);
      if lines[i] != [] {
        var key := Key(lines[i]);
        var value := Value(lines[i]);
        if value == None {
          BadCount(recs, lines[i], NonEmpty(lines[i + 1..]));
          return None;
        }
        StaysOpen(recs, lines[i], closed, have, currentKey, total);
        if have && key != currentKey {
          CountLinesAppend(closed, Group(currentKey, total));
          out := out + (CountLine(Group(currentKey, total)) + [NEWLINE]);
          closed, total := closed + [Group(currentKey, total)], 0;
        }
        currentKey, total, have := key, total + value.value, true;
        recs := recs + [lines[i]];
      }
    }
    assert lines[..|lines|] == lines;
    if have {
      CountLinesAppend(closed, Group(currentKey, total));
      out := out + (CountLine(Group(currentKey, total)) + [NEWLINE]);
    }
    output := Some(out);
  }

  lemma NothingSummed(lines: seq<Str>)
    ensures NonEmpty(lines[..0]) == [] && AllCount([]) && Groups([]) == []
    ensures Unlines(CountLines([])) == []
  {
    assert CountLines([]) == [];
    UnlinesNone();
  }

  lemma NonEmptyStep(lines: seq<Str>, i: nat)
    requires i < |lines|
    ensures NonEmpty(lines[..i + 1]) == NonEmpty(lines[..i]) + if lines[i] == [] then [] else [lines[i]]
    ensures lines[i] != [] ==> NonEmpty(lines) == NonEmpty(lines[..i]) + [lines[i]] + NonEmpty(lines[i + 1..])
  {
    hide NonEmpty;
    var a, b, c := lines[..i], [lines[i]], lines[i + 1..];
    CutAt(lines, i);
    NonEmptyOne(lines[i]);
    NonEmptyCut(lines, a, b, c);
  }

  lemma CutAt(lines: seq<Str>, i: nat)
    requires i < |lines|
    ensures lines[..i + 1] == lines[..i] + [lines[i]]
    ensures lines == lines[..i] + [lines[i]] + lines[i + 1..]
  {
  }

  lemma NonEmptyCut(lines: seq<Str>, a: seq<Str>, b: seq<Str>, c: seq<Str>)
    requires lines == a + b + c
    ensures NonEmpty(a + b) == NonEmpty(a) + NonEmpty(b)
    ensures NonEmpty(lines) == NonEmpty(a) + NonEmpty(b) + NonEmpty(c)
  {
    hide NonEmpty;
    NonEmptyConcat(a, b);
    NonEmptyConcat(a + b, c);
  }

  // ------------------------------------------------------------ grouped records

  // Records with the same key stand next to each other.
  predicate Grouped(recs: seq<Str>) {
    forall i, j, l :: 0 <= i < j < l < |recs| && Key(recs[i]) == Key(recs[l]) ==> Key(recs[j]) == Key(recs[i])
  }

  // The sum of the counts of the records with key k.
  function SumFor(recs: seq<Str>, k: Str): int
    requires AllCount(recs)
    decreases |recs|
  {
    if recs == [] then 0
    else
      var last := recs[|recs| - 1];
      SumFor(recs[..|recs| - 1], k) + if Key(last) == k then Value(last).value else 0
  }

  function Keys(recs: seq<Str>): set<Str> {
    set i | 0 <= i < |recs| :: Key(recs[i])
  }

  // Each key has exactly one group, and it holds the key's sum; the last record's group is last.
  ghost predicate Tallies(gs: seq<Group>, recs: seq<Str>)
    requires AllCount(recs)
  {
    && (forall i, j :: 0 <= i < j < |gs| ==> gs[i].key != gs[j].key)
    && (forall g: Group :: g in gs <==> g.key in Keys(recs) && g.total == SumFor(recs, g.key))
    && (recs != [] ==> gs != [] && gs[|gs| - 1].key == Key(recs[|recs| - 1]))
  }

  /** On grouped records the reducer gives every key one line holding the sum of its counts. */
  lemma {:induction false} GroupedSums(recs: seq<Str>)
    requires AllCount(recs) && Grouped(recs)
    ensures Tallies(Groups(recs), recs)
    decreases |recs|
  {
    hide Key, Value, Tallies, Grown, Grouped;
    if recs == [] {
      NothingTallies();
    } else {
      var n := |recs| - 1;
      assert recs == recs[..n] + [recs[n]];
      GroupedFront(recs[..n], recs[n]);
      GroupedSums(recs[..n]);
      OneMore(Groups(recs[..n]), recs[..n], recs[n]);
    }
  }

  lemma NothingTallies()
    ensures Tallies([], [])
  {
    hide Key;
    assert Keys([]) == {};
  }

  lemma GroupedFront(recs: seq<Str>, rec: Str)
    requires Grouped(recs + [rec])
    ensures Grouped(recs)
  {
    hide Key;
    assert forall i :: 0 <= i < |recs| ==> (recs + [rec])[i] == recs[i];
  }

  lemma KeysAppend(recs: seq<Str>, rec: Str)
    ensures Keys(recs + [rec]) == Keys(recs) + {Key(rec)}
  {
    hide Key;
    var all := recs + [rec];
    assert all[|recs|] == rec;
    assert forall i :: 0 <= i < |recs| ==> all[i] == recs[i];
  }

  lemma SumAppend(recs: seq<Str>, rec: Str, k: Str)
    requires AllCount(recs) && Value(rec).Some? && AllCount(recs + [rec])
    ensures SumFor(recs + [rec], k) == SumFor(recs, k) + if Key(rec) == k then Value(rec).value else 0
  {
    hide Key, Value;
    assert (recs + [rec])[..|recs|] == recs;
  }

  lemma {:induction false} NoSum(recs: seq<Str>, k: Str)
    requires AllCount(recs) && k !in Keys(recs)
    ensures SumFor(recs, k) == 0
    decreases |recs|
  {
    hide Key, Value;
    if recs != [] {
      var n := |recs| - 1;
      assert recs == recs[..n] + [recs[n]];
      KeysAppend(recs[..n], recs[n]);
      NoSum(recs[..n], k);
    }
  }

  lemma OneMore(gs: seq<Group>, recs: seq<Str>, rec: Str)
    requires AllCount(recs) && Value(rec).Some? && AllCount(recs + [rec]) && Grouped(recs + [rec])
    requires Tallies(gs, recs)
    ensures Tallies(Grown(gs, Key(rec), Value(rec).value), recs + [rec])
  {
    hide Key, Value, Keys, SumFor, AllCount, Grouped;
    var key, v, k := Key(rec), Value(rec).value, |gs| - 1;
    var next := Grown(gs, key, v);
    KeysAppend(recs, rec);
    forall g: Group ensures SumFor(recs + [rec], g.key) == SumFor(recs, g.key) + if key == g.key then v else 0 {
      SumAppend(recs, rec, g.key);
    }
    if key in Keys(recs) {
      KeyIsLast(recs, rec);
      assert gs[k].key == key && gs == gs[..k] + [gs[k]] && gs[k] in gs;
      forall g: Group ensures g in next <==> g.key in Keys(recs + [rec]) && g.total == SumFor(recs + [rec], g.key) {
        assert g.key != key ==> (g in next <==> g in gs);
        assert g in next && g.key == key ==> g == Group(key, gs[k].total + v);
      }
    } else {
      NoSum(recs, key);
      assert forall g :: g in gs ==> g.key != key;
      assert forall g: Group :: g in next <==> g in gs || g == Group(key, v);
    }
  }

  lemma KeyIsLast(recs: seq<Str>, rec: Str)
    requires Grouped(recs + [rec]) && Key(rec) in Keys(recs)
    ensures recs != [] && Key(recs[|recs| - 1]) == Key(rec)
  {
    hide Key;
    var all, n := recs + [rec], |recs| - 1;
    var i :| 0 <= i < |recs| && Key(recs[i]) == Key(rec);
    assert all[i] == recs[i] && all[n] == recs[n] && all[n + 1] == rec;
  }
}
