/**
  The engine running the word-count mapper and reducer: the parts together hold every
  distinct word of the input once, with the number of times it occurs.
 */
module WordTotals {
  import opened Bytes
  import opened Text
  import opened Words
  import opened Sorting
  import opened MapReduce
  import opened WordCount
  import opened KeyGrouping

  // ------------------------------------------------------------ words of lines

  function WordsOfLines(ls: seq<Str>): seq<Str> {
    if ls == [] then [] else WordsOfLines(ls[..|ls| - 1]) + WordsOf(ls[|ls| - 1])
  }

  lemma {:induction false} WordsOfLinesConcat(a: seq<Str>, b: seq<Str>)
    ensures WordsOfLines(a + b) == WordsOfLines(a) + WordsOfLines(b)
    decreases |b|
  {
    hide WordsFrom;
    if b == [] {
      assert a + b == a;
    } else {
      var n := |b| - 1;
      assert (a + b)[..|a + b| - 1] == a + b[..n] && (a + b)[|a + b| - 1] == b[n];
      WordsOfLinesConcat(a, b[..n]);
    }
  }

  lemma WordsOfLine(l: Str)
    ensures WordsOfLines([l]) == WordsOf(l)
  {
    hide WordsFrom;
    assert [l][..0] == [];
    assert WordsOfLines([]) == [];
  }

  // A line break ends a word.
  lemma WordsAcrossBreak(l: Str, rest: Str)
    ensures WordsOf(l + [NEWLINE] + rest) == WordsOf(l) + WordsOf(rest)
  {
    hide WordsFrom;
    assert l + [NEWLINE] + rest == l + ([NEWLINE] + rest);
    WordsOfConcat(l, [NEWLINE] + rest);
    WordsOfConcat([NEWLINE], rest);
    NoWordInBreak();
  }

  lemma NoWordInBreak()
    ensures WordsOf([NEWLINE]) == []
  {
    WordsAtGap([NEWLINE], 0);
    WordsAtEnd([NEWLINE]);
  }

  lemma {:induction false} WordsOfUnlines(ls: seq<Str>)
    ensures WordsOf(Unlines(ls)) == WordsOfLines(ls)
  {
    hide WordsFrom, WordsOfLines, WordsOf;
    if ls == [] {
      NoWords();
    } else {
      WordsAcrossBreak(ls[0], Unlines(ls[1..]));
      WordsOfUnlines(ls[1..]);
      WordsOfLine(ls[0]);
      WordsOfLinesConcat([ls[0]], ls[1..]);
      assert ls == [ls[0]] + ls[1..];
    }
  }

  lemma NoWords()
    ensures WordsOf([]) == [] && WordsOfLines([]) == []
  {
    WordsAtEnd([]);
  }

  lemma {:induction false} WordsOfText(text: Str)
    ensures WordsOfLines(Lines(text)) == WordsOf(text)
    decreases |text|
  {
    hide WordsFrom, WordsOfLines, WordsOf;
    if text == [] {
      NoWords();
    } else {
      var k := Find(text, NEWLINE, 0);
      WordsOfLine(text[..k]);
      if k == |text| {
        assert text[..k] == text && Lines(text) == [text];
      } else {
        var rest := text[k + 1..];
        assert text == text[..k] + [NEWLINE] + rest;
        WordsAcrossBreak(text[..k], rest);
        WordsOfText(rest);
        WordsOfLinesConcat([text[..k]], Lines(rest));
      }
    }
  }

  // ------------------------------------------------------------ words of chunks

  // The words of the first `upto` of m chunks.
  function ChunkWords(lines: seq<Str>, m: nat, upto: nat): seq<Str>
    requires m > 0
  {
    if upto == 0 then [] else ChunkWords(lines, m, upto - 1) + WordsOfLines(ChunkLines(lines, m, upto - 1))
  }

  lemma {:induction false} OneMoreLine(lines: seq<Str>, l: Str, m: nat, upto: nat)
    requires m > 0
    ensures multiset(ChunkWords(lines + [l], m, upto)) ==
      multiset(ChunkWords(lines, m, upto)) + if |lines| % m < upto then multiset(WordsOf(l)) else multiset{}
  {
    hide WordsFrom, WordsOfLines, ChunkLines, WordsOf;
    if upto > 0 {
      OneMoreLine(lines, l, m, upto - 1);
      ChunkGrows(lines, l, m, upto - 1);
    }
  }

  lemma ChunkGrows(lines: seq<Str>, l: Str, m: nat, c: nat)
    requires m > 0
    ensures WordsOfLines(ChunkLines(lines + [l], m, c)) ==
      WordsOfLines(ChunkLines(lines, m, c)) + if |lines| % m == c then WordsOf(l) else []
  {
    hide WordsFrom, WordsOfLines, WordsOf;
    assert (lines + [l])[..|lines|] == lines;
    var before := ChunkLines(lines, m, c);
    if |lines| % m == c {
      WordsOfLinesConcat(before, [l]);
      WordsOfLine(l);
    } else {
      assert before + [] == before;
    }
  }

  /** Chunking neither loses nor repeats a word, whatever the number of chunks. */
  lemma {:induction false} ChunksKeepWords(lines: seq<Str>, m: nat)
    requires m > 0
    ensures multiset(ChunkWords(lines, m, m)) == multiset(WordsOfLines(lines))
    decreases |lines|
  {
    hide WordsFrom, ChunkWords, WordsOf;
    if lines == [] {
      NoChunkWords(m, m);
    } else {
      var n := |lines| - 1;
      assert lines == lines[..n] + [lines[n]];
      ChunksKeepWords(lines[..n], m);
      OneMoreLine(lines[..n], lines[n], m, m);
    }
  }

  lemma {:induction false} NoChunkWords(m: nat, upto: nat)
    requires m > 0
    ensures ChunkWords([], m, upto) == []
  {
    if upto > 0 {
      NoChunkWords(m, upto - 1);
    }
  }

  // ------------------------------------------------------------ what the mappers emit

  ghost predicate MapsWords(mapper: Program) {
    forall s :: mapper(s) == Unlines(Ones(WordsOf(s)))
  }

  ghost predicate SumsRecords(reducer: Program) {
    forall s :: Summed(Records(s)).Some? ==> reducer(s) == Summed(Records(s)).value
  }

  lemma WordHasNoTab(w: Str)
    requires IsWord(w)
    ensures TAB !in w && OneLine(w) && OneLine(One(w)) && One(w) != [] && TAB in One(w)
  {
    assert w[0] == w[0];
    assert One(w)[|w|] == TAB;
  }

  lemma RecordsOfOnes(ws: seq<Str>)
    requires forall w :: w in ws ==> IsWord(w)
    ensures Records(Unlines(Ones(ws))) == Ones(ws)
  {
    hide Unlines, IsWord, One, Records;
    forall l | l in Ones(ws) ensures l != [] && OneLine(l) {
      var i :| 0 <= i < |ws| && l == One(ws[i]);
      WordHasNoTab(ws[i]);
    }
    RecordsOfUnlines(Ones(ws));
  }

  lemma UnlinesNothing(ls: seq<Str>)
    ensures Unlines(ls) == [] <==> ls == []
  {
  }

  lemma MapperRecords(lines: seq<Str>, m: nat, mapper: Program, c: nat)
    requires m > 0 && c < m && MapsWords(mapper)
    ensures Records(Emitted(lines, m, mapper)[c]) == Ones(WordsOfLines(ChunkLines(lines, m, c)))
  {
    hide Unlines, Records, ChunkLines, WordsOf, WordsOfLines;
    var cl := ChunkLines(lines, m, c);
    UnlinesNothing(cl);
    WordsOfUnlines(cl);
    AllAreWords(Unlines(cl));
    RecordsOfOnes(WordsOfLines(cl));
    if cl == [] {
      NoWords();
      UnlinesNone();
      assert Ones([]) == [];
    }
  }

  lemma AllAreWords(s: Str)
    ensures forall w :: w in WordsOf(s) ==> IsWord(w)
  {
    WordsAreWords(s, 0);
  }

  lemma {:induction false} EmittedOnes(lines: seq<Str>, m: nat, mapper: Program, upto: nat)
    requires m > 0 && upto <= m && MapsWords(mapper)
    ensures AllRecords(Emitted(lines, m, mapper)[..upto]) == Ones(ChunkWords(lines, m, upto))
  {
    hide Emitted, Records, WordsOfLines, ChunkLines, MapsWords, One;
    if upto == 0 {
      assert Ones([]) == [];
    } else {
      var e := Emitted(lines, m, mapper);
      EmittedLength(lines, m, mapper);
      EmittedOnes(lines, m, mapper, upto - 1);
      MapperRecords(lines, m, mapper, upto - 1);
      assert e[..upto][..upto - 1] == e[..upto - 1];
      OnesConcat(ChunkWords(lines, m, upto - 1), WordsOfLines(ChunkLines(lines, m, upto - 1)));
    }
  }

  lemma EmittedLength(lines: seq<Str>, m: nat, mapper: Program)
    requires m > 0
    ensures |Emitted(lines, m, mapper)| == m
  {
  }

  lemma OnesConcat(a: seq<Str>, b: seq<Str>)
    ensures Ones(a + b) == Ones(a) + Ones(b)
  {
    hide One;
  }

  lemma {:induction false} OnesCount(ws: seq<Str>, w: Str)
    ensures multiset(Ones(ws))[One(w)] == multiset(ws)[w]
    decreases |ws|
  {
    hide One;
    if ws == [] {
    } else {
      var n := |ws| - 1;
      assert ws == ws[..n] + [ws[n]];
      OnesConcat(ws[..n], [ws[n]]);
      OnesCount(ws[..n], w);
      OneInjective(ws[n], w);
      assert Ones([ws[n]]) == [One(ws[n])];
    }
  }

  lemma OneInjective(a: Str, b: Str)
    ensures One(a) == One(b) <==> a == b
  {
    assert One(a)[..|One(a)| - 2] == a && One(b)[..|One(b)| - 2] == b;
  }

  // ------------------------------------------------------------ one part

  lemma ValueOfOne(w: Str)
    requires IsWord(w)
    ensures Key(One(w)) == w && Value(One(w)) == Some(1)
  {
    WordHasNoTab(w);
    KeyOf(w, One(w));
    FindIs(One(w), TAB, 0, |w|);
    assert One(w)[|w| + 1..] == [49];
  }

  ghost predicate AreOnes(recs: seq<Str>) {
    forall rec :: rec in recs ==> exists w :: IsWord(w) && rec == One(w)
  }

  lemma OnesValue(recs: seq<Str>, i: nat)
    requires AreOnes(recs) && i < |recs|
    ensures Value(recs[i]) == Some(1) && IsWord(Key(recs[i])) && recs[i] == One(Key(recs[i])) && TAB in recs[i]
  {
    hide Value, Key, One, IsWord;
    assert recs[i] in recs;
    var w :| IsWord(w) && recs[i] == One(w);
    ValueOfOne(w);
    WordHasNoTab(w);
  }

  lemma OnesCountAll(recs: seq<Str>)
    requires AreOnes(recs)
    ensures AllCount(recs) && forall rec :: rec in recs ==> TAB in rec
  {
    hide Value, AreOnes;
    forall i | 0 <= i < |recs| ensures Value(recs[i]).Some? && TAB in recs[i] {
      OnesValue(recs, i);
    }
  }

  lemma {:induction false} SumIsCount(recs: seq<Str>, w: Str)
    requires AreOnes(recs) && AllCount(recs) && IsWord(w)
    ensures SumFor(recs, w) == multiset(recs)[One(w)]
    decreases |recs|
  {
    hide Value, Key, One, IsWord, AllCount;
    if recs != [] {
      var n := |recs| - 1;
      assert recs == recs[..n] + [recs[n]];
      OnesValue(recs, n);
      assert forall rec :: rec in recs[..n] ==> rec in recs;
      OnesCountAll(recs[..n]);
      SumIsCount(recs[..n], w);
      OneInjective(Key(recs[n]), w);
    }
  }

  // Part r of n holds one line per distinct word routed to it, with its number of occurrences.
  ghost predicate Counted(part: Str, words: seq<Str>, hash: Str -> nat, n: nat, r: nat)
    requires n > 0
  {
    var ls := Lines(part);
    && part == Unlines(ls)
    && (forall i, j :: 0 <= i < j < |ls| ==> Key(ls[i]) != Key(ls[j]))
    && (forall l :: l in ls <==>
      Key(l) in words && hash(Key(l)) % n == r && l == Key(l) + [TAB] + Dec(multiset(words)[Key(l)]))
  }

  lemma CountLineShape(g: Group)
    requires IsWord(g.key)
    ensures Key(CountLine(g)) == g.key && OneLine(CountLine(g))
    ensures g.total >= 0 ==> CountLine(g) == g.key + [TAB] + Dec(g.total)
  {
    hide Key, Dec;
    WordHasNoTab(g.key);
    KeyOf(g.key, CountLine(g));
    DecIsDigits(if g.total < 0 then -g.total else g.total);
    forall i | 0 <= i < |CountLine(g)| ensures CountLine(g)[i] != NEWLINE {
      assert i < |g.key| ==> g.key[i] in g.key;
    }
  }

  // Reading the groups off the reducer's lines.
  lemma LinesOfGroups(gs: seq<Group>)
    requires forall g :: g in gs ==> IsWord(g.key)
    ensures Lines(Unlines(CountLines(gs))) == CountLines(gs)
    ensures forall i :: 0 <= i < |gs| ==> Key(CountLines(gs)[i]) == gs[i].key
  {
    hide Key, Lines, Unlines, CountLine, IsWord;
    forall i | 0 <= i < |gs| ensures OneLine(CountLine(gs[i])) && Key(CountLine(gs[i])) == gs[i].key {
      assert gs[i] in gs;
      CountLineShape(gs[i]);
    }
    LinesBack(CountLines(gs));
  }

  // Groups that hold each routed word with its count print as a counted part.
  lemma GroupsPrintCounts(gs: seq<Group>, words: seq<Str>, hash: Str -> nat, n: nat, r: nat)
    requires n > 0 && (forall w :: w in words ==> IsWord(w))
    requires forall i, j :: 0 <= i < j < |gs| ==> gs[i].key != gs[j].key
    requires forall g: Group :: g in gs <==>
      g.key in words && hash(g.key) % n == r && g.total == multiset(words)[g.key]
    ensures Counted(Unlines(CountLines(gs)), words, hash, n, r)
  {
    hide Key, Lines, Unlines, CountLine, IsWord, Record, Dec;
    LinesOfGroups(gs);
    var ls := CountLines(gs);
    forall l ensures l in ls <==>
      Key(l) in words && hash(Key(l)) % n == r && l == Key(l) + [TAB] + Dec(multiset(words)[Key(l)])
    {
      if l in ls {
        var i :| 0 <= i < |ls| && ls[i] == l;
        assert gs[i] in gs;
        CountLineShape(gs[i]);
      }
      if Key(l) in words && hash(Key(l)) % n == r && l == Key(l) + [TAB] + Dec(multiset(words)[Key(l)]) {
        var g := Group(Key(l), multiset(words)[Key(l)]);
        assert g in gs;
        var i :| 0 <= i < |gs| && gs[i] == g;
        CountLineShape(g);
        assert ls[i] == l;
      }
    }
  }

  lemma RoutedOnes(words: seq<Str>, all: seq<Str>, hash: Str -> nat, n: nat, r: nat)
    requires n > 0 && (forall w :: w in words ==> IsWord(w)) && multiset(all) == multiset(words)
    ensures AreOnes(Routed(Ones(all), hash, n, r))
    ensures forall w :: IsWord(w) ==>
      multiset(Routed(Ones(all), hash, n, r))[One(w)] == if hash(w) % n == r then multiset(words)[w] else 0
  {
    hide Key, One, IsWord, Routed;
    RoutedIn(Ones(all), hash, n, r);
    forall rec | rec in Routed(Ones(all), hash, n, r) ensures exists w :: IsWord(w) && rec == One(w) {
      var i :| 0 <= i < |all| && Ones(all)[i] == rec;
      assert all[i] in multiset(all);
    }
    forall w | IsWord(w)
      ensures multiset(Routed(Ones(all), hash, n, r))[One(w)] == if hash(w) % n == r then multiset(words)[w] else 0
    {
      RoutedIsFilter(Ones(all), hash, n, r, One(w));
      ValueOfOne(w);
      OnesCount(all, w);
    }
  }

  // Sorting keeps records, so a key stands among them iff the record does.
  lemma KeysOfOnes(recs: seq<Str>, w: Str)
    requires AreOnes(recs)
    ensures w in Keys(recs) <==> IsWord(w) && multiset(recs)[One(w)] > 0
  {
    hide Key, One, IsWord, AreOnes, Value;
    if w in Keys(recs) {
      var i :| 0 <= i < |recs| && Key(recs[i]) == w;
      OnesValue(recs, i);
      assert recs[i] in multiset(recs);
    }
    if IsWord(w) && multiset(recs)[One(w)] > 0 {
      assert One(w) in multiset(recs);
      var i :| 0 <= i < |recs| && recs[i] == One(w);
      ValueOfOne(w);
    }
  }

  lemma SortedOnes(recs: seq<Str>)
    requires AreOnes(recs)
    ensures AreOnes(Sort(Less, recs)) && multiset(Sort(Less, recs)) == multiset(recs) && Grouped(Sort(Less, recs))
  {
    hide Less, Sort, StrictTotal, Grouped;
    OnesCountAll(recs);
    TabsSortGrouped(recs);
    LessIsTotal();
    SortSorts(Less, recs);
    forall rec | rec in Sort(Less, recs) ensures rec in recs {
      InSorted(recs, rec);
    }
  }

  /** What the reducer makes of a partition's records. */
  lemma PartIsCounted(words: seq<Str>, all: seq<Str>, reducer: Program, hash: Str -> nat, n: nat, r: nat)
    requires n > 0 && SumsRecords(reducer) && multiset(all) == multiset(words)
    requires forall w :: w in words ==> IsWord(w)
    ensures Counted(Reduced(reducer, Routed(Ones(all), hash, n, r)), words, hash, n, r)
  {
    hide Key, One, Ones, IsWord, Routed, Sort, Less, AreOnes, Counted, Grouped, Value, Unlines, Records, Groups, Keys;
    var recs := Routed(Ones(all), hash, n, r);
    RoutedOnes(words, all, hash, n, r);
    SortedOnes(recs);
    var s := Sort(Less, recs);
    OnesCountAll(s);
    GroupedSums(s);
    var gs := Groups(s);
    forall g: Group ensures g in gs <==>
      g.key in words && hash(g.key) % n == r && g.total == multiset(words)[g.key]
    {
      KeysOfOnes(s, g.key);
      if IsWord(g.key) {
        SumIsCount(s, g.key);
      }
    }
    GroupsPrintCounts(gs, words, hash, n, r);
    ReducedSorted(recs, s, reducer);
  }

  lemma ReducedSorted(recs: seq<Str>, s: seq<Str>, reducer: Program)
    requires SumsRecords(reducer) && s == Sort(Less, recs) && AllCount(s) && AreOnes(s)
    ensures Reduced(reducer, recs) == Unlines(CountLines(Groups(s)))
  {
    hide Value, Less, Sort, Unlines, Records, One, IsWord, AreOnes;
    UnlinesNothing(s);
    if s == [] {
      UnlinesNone();
      assert CountLines([]) == [];
    } else {
      OnesAreLines(s);
      RecordsOfUnlines(s);
    }
  }

  lemma OnesAreLines(s: seq<Str>)
    requires AreOnes(s)
    ensures forall l :: l in s ==> l != [] && OneLine(l)
  {
    hide One, IsWord;
    forall l | l in s ensures l != [] && OneLine(l) {
      var w :| IsWord(w) && l == One(w);
      WordHasNoTab(w);
    }
  }

  // ------------------------------------------------------------ the whole job

  /**
    Counting the words of a file: for every input, numbers of workers, hash function and
    merge orders, part r lists each distinct word with hash r exactly once, with its count.
   */
  method CountWords(text: Str, m: nat, n: nat, mapper: Program, reducer: Program, hash: Str -> nat,
      orders: seq<seq<nat>>)
    returns (parts: seq<Str>)
    requires m > 0 && n > 0 && MapsWords(mapper) && SumsRecords(reducer)
    requires |orders| == n && forall r :: 0 <= r < n ==> IsOrder(orders[r], m)
    ensures |parts| == n && forall r :: 0 <= r < n ==> Counted(parts[r], WordsOf(text), hash, n, r)
  {
    hide Lines, WordsOf, Counted, Reduced, Routed, IsOrder, Emitted, AllRecords, IsWord;
    var lines := Lines(text);
    parts := Run(lines, m, n, mapper, reducer, hash, orders);
    AllAreWords(text);
    WordsOfText(text);
    ChunksKeepWords(lines, m);
    EmittedOnes(lines, m, mapper, m);
    EmittedLength(lines, m, mapper);
    assert Emitted(lines, m, mapper)[..m] == Emitted(lines, m, mapper);
    forall r | 0 <= r < n ensures Counted(parts[r], WordsOf(text), hash, n, r) {
      PartIsCounted(WordsOf(text), ChunkWords(lines, m, m), reducer, hash, n, r);
    }
  }

  /** No word appears in two parts, and every word appears in one. */
  lemma WordsInOnePart(parts: seq<Str>, words: seq<Str>, hash: Str -> nat, n: nat, w: Str)
    requires n > 0 && |parts| == n && forall r :: 0 <= r < n ==> Counted(parts[r], words, hash, n, r)
    requires w in words && IsWord(w)
    ensures forall r :: 0 <= r < n ==>
      ((exists l :: l in Lines(parts[r]) && Key(l) == w) <==> r == hash(w) % n)
  {
    hide Lines, Key, IsWord, Dec;
    var l := w + [TAB] + Dec(multiset(words)[w]);
    CountLineShape(Group(w, multiset(words)[w]));
    assert Key(l) == w;
    var r := hash(w) % n;
    assert l in Lines(parts[r]);
  }
}
