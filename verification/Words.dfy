/**
  Splitting text into lower-case alphanumeric words, as the index builder, the
  query parser and the word-count mapper all do.
 */
module Words {
  import opened Bytes

  predicate IsDigit(c: Byte) { 48 <= c <= 57 }
  predicate IsUpper(c: Byte) { 65 <= c <= 90 }
  predicate IsAlnum(c: Byte) { IsDigit(c) || IsUpper(c) || 97 <= c <= 122 }
  predicate IsSpace(c: Byte) { c == 32 || 9 <= c <= 13 }

  function ToLower(c: Byte): Byte {
    if IsUpper(c) then c + 32 else c
  }

  function Lower(s: Str): (r: Str)
    ensures |r| == |s| && forall k :: 0 <= k < |s| ==> r[k] == ToLower(s[k])
  {
    if s == [] then [] else [ToLower(s[0])] + Lower(s[1..])
  }

  predicate AllAlnum(s: Str) {
    forall k :: 0 <= k < |s| ==> IsAlnum(s[k])
  }

  // A word as the splitter emits it.
  predicate IsWord(w: Str) {
    w != [] && forall k :: 0 <= k < |w| ==> IsAlnum(w[k]) && !IsUpper(w[k])
  }

  // ------------------------------------------------------------ the words of a text

  // [i, j) is a maximal run of alphanumeric characters of s.
  predicate IsRun(s: Str, i: nat, j: nat) {
    && i < j <= |s|
    && AllAlnum(s[i..j])
    && (i > 0 ==> !IsAlnum(s[i - 1]))
    && (j < |s| ==> !IsAlnum(s[j]))
  }

  function RunEnd(s: Str, i: nat): (j: nat)
    requires i <= |s|
    ensures i <= j <= |s| && AllAlnum(s[i..j]) && (j < |s| ==> !IsAlnum(s[j]))
    decreases |s| - i
  {
    if i < |s| && IsAlnum(s[i]) then
      var j := RunEnd(s, i + 1);
      assert s[i..j] == [s[i]] + s[i + 1..j];
      j
    else i
  }

  // The words of s from position i on; i does not lie inside a run.
  function WordsFrom(s: Str, i: nat): seq<Str>
    requires i <= |s|
    decreases |s| - i
  {
    if i == |s| then []
    else if IsAlnum(s[i]) then [Lower(s[i..RunEnd(s, i)])] + WordsFrom(s, RunEnd(s, i))
    else WordsFrom(s, i + 1)
  }

  function WordsOf(s: Str): seq<Str> {
    WordsFrom(s, 0)
  }

  function RunsFrom(s: Str, i: nat): seq<(nat, nat)>
    requires i <= |s|
    decreases |s| - i
  {
    if i == |s| then []
    else if IsAlnum(s[i]) then [(i, RunEnd(s, i))] + RunsFrom(s, RunEnd(s, i))
    else RunsFrom(s, i + 1)
  }

  lemma {:induction false} RunsAreMaximal(s: Str, i: nat)
    requires i <= |s| && (0 < i < |s| ==> !IsAlnum(s[i - 1]) || !IsAlnum(s[i]))
    ensures forall r :: r in RunsFrom(s, i) ==> i <= r.0 && IsRun(s, r.0, r.1)
    decreases |s| - i
  {
    if i < |s| {
      RunsAreMaximal(s, if IsAlnum(s[i]) then RunEnd(s, i) else i + 1);
    }
  }

  lemma {:induction false} RunsCover(s: Str, i: nat, p: nat)
    requires i <= p < |s| && IsAlnum(s[p])
    ensures exists r :: r in RunsFrom(s, i) && r.0 <= p < r.1
    decreases |s| - i
  {
    if IsAlnum(s[i]) {
      if p < RunEnd(s, i) {
        assert RunsFrom(s, i)[0] == (i, RunEnd(s, i));
      } else {
        RunsCover(s, RunEnd(s, i), p);
      }
    } else {
      RunsCover(s, i + 1, p);
    }
  }

  // The k-th word is the k-th run in lower case, and runs do not overlap.
  predicate RunAt(s: Str, i: nat, k: nat)
    requires i <= |s| && k < |RunsFrom(s, i)| && |WordsFrom(s, i)| == |RunsFrom(s, i)|
  {
    var r := RunsFrom(s, i)[k];
    i <= r.0 < r.1 <= |s| && WordsFrom(s, i)[k] == Lower(s[r.0..r.1]) &&
    (k > 0 ==> RunsFrom(s, i)[k - 1].1 <= r.0)
  }

  /** The words are exactly the maximal alphanumeric runs, in order, in lower case. */
  lemma {:induction false} WordsAreRuns(s: Str, i: nat)
    requires i <= |s|
    ensures |WordsFrom(s, i)| == |RunsFrom(s, i)|
    ensures forall k :: 0 <= k < |RunsFrom(s, i)| ==> RunAt(s, i, k)
    decreases |s| - i
  {
    if i < |s| {
      var j := if IsAlnum(s[i]) then RunEnd(s, i) else i + 1;
      WordsAreRuns(s, j);
      forall k | 0 <= k < |RunsFrom(s, i)|
        ensures RunAt(s, i, k)
      {
        if !IsAlnum(s[i]) {
          assert RunAt(s, j, k);
        } else if k > 0 {
          assert RunAt(s, j, k - 1);
          assert RunsFrom(s, i)[k] == RunsFrom(s, j)[k - 1] && WordsFrom(s, i)[k] == WordsFrom(s, j)[k - 1];
        }
      }
    }
  }

  lemma {:induction false} WordsAreWords(s: Str, i: nat)
    requires i <= |s|
    ensures forall w :: w in WordsFrom(s, i) ==> IsWord(w)
    decreases |s| - i
  {
    if i < |s| {
      if IsAlnum(s[i]) {
        var w := Lower(s[i..RunEnd(s, i)]);
        assert forall k :: 0 <= k < |w| ==> w[k] == ToLower(s[i..RunEnd(s, i)][k]);
        WordsAreWords(s, RunEnd(s, i));
      } else {
        WordsAreWords(s, i + 1);
      }
    }
  }

  // ------------------------------------------------------------ splitting and joining

  lemma {:induction false} RunEndShift(s: Str, t: Str, i: nat)
    requires i <= |t|
    ensures RunEnd(s + t, |s| + i) == |s| + RunEnd(t, i)
    decreases |t| - i
  {
    if i < |t| && IsAlnum(t[i]) {
      RunEndShift(s, t, i + 1);
    }
  }

  lemma {:induction false} WordsShift(s: Str, t: Str, i: nat)
    requires i <= |t|
    ensures WordsFrom(s + t, |s| + i) == WordsFrom(t, i)
    decreases |t| - i
  {
    if i < |t| {
      if IsAlnum(t[i]) {
        RunEndShift(s, t, i);
        assert (s + t)[|s| + i..|s| + RunEnd(t, i)] == t[i..RunEnd(t, i)];
        WordsShift(s, t, RunEnd(t, i));
      } else {
        WordsShift(s, t, i + 1);
      }
    }
  }

  // A cut that does not fall inside a run splits the words.
  predicate CutsCleanly(s: Str, t: Str) {
    s == [] || t == [] || !IsAlnum(s[|s| - 1]) || !IsAlnum(t[0])
  }

  lemma RunBeforeCut(s: Str, t: Str, i: nat, j: nat)
    requires i < j <= |s| && AllAlnum(s[i..j]) && (j < |s| ==> !IsAlnum(s[j])) && CutsCleanly(s, t)
    ensures (s + t)[i..j] == s[i..j] && (j < |s + t| ==> !IsAlnum((s + t)[j]))
  {
    if j == |s| {
      assert s[i..j][j - 1 - i] == s[|s| - 1];
    }
  }

  lemma {:induction false} WordsOfConcatFrom(s: Str, t: Str, i: nat)
    requires i <= |s| && CutsCleanly(s, t)
    ensures WordsFrom(s + t, i) == WordsFrom(s, i) + WordsOf(t)
    decreases |s| - i
  {
    hide Lower, AllAlnum, RunEnd, WordsFrom, IsAlnum;
    var u := s + t;
    if i == |s| {
      WordsShift(s, t, 0);
      WordsAtEnd(s);
    } else {
      assert u[i] == s[i];
      if IsAlnum(s[i]) {
        var j := RunEnd(s, i);
        RunIsRun(s, i);
        RunBeforeCut(s, t, i, j);
        WordsAtRun(s, i, j);
        WordsAtRun(u, i, j);
        WordsOfConcatFrom(s, t, j);
      } else {
        WordsAtGap(s, i);
        WordsAtGap(u, i);
        WordsOfConcatFrom(s, t, i + 1);
      }
    }
  }

  lemma RunIsRun(s: Str, i: nat)
    requires i < |s| && IsAlnum(s[i])
    ensures var j := RunEnd(s, i); i < j <= |s| && AllAlnum(s[i..j]) && (j < |s| ==> !IsAlnum(s[j]))
  {
  }

  /** Splitting distributes over every cut that does not break a word. */
  lemma WordsOfConcat(s: Str, t: Str)
    requires CutsCleanly(s, t)
    ensures WordsOf(s + t) == WordsOf(s) + WordsOf(t)
  {
    WordsOfConcatFrom(s, t, 0);
  }

  // ------------------------------------------------------------ the loop

  lemma WordsAtRun(s: Str, i: nat, j: nat)
    requires i < j <= |s| && AllAlnum(s[i..j]) && (j < |s| ==> !IsAlnum(s[j]))
    ensures WordsFrom(s, i) == [Lower(s[i..j])] + WordsFrom(s, j)
  {
    assert s[i..j][0] == s[i];
    RunEndIs(s, i, j);
  }

  lemma WordsAtGap(s: Str, i: nat)
    requires i < |s| && !IsAlnum(s[i])
    ensures WordsFrom(s, i) == WordsFrom(s, i + 1)
  {
  }

  lemma WordsAtEnd(s: Str)
    ensures WordsFrom(s, |s|) == []
  {
  }

  lemma {:induction false} LowerAppend(s: Str, c: Byte)
    ensures Lower(s + [c]) == Lower(s) + [ToLower(c)]
  {
    assert forall k :: 0 <= k <= |s| ==> Lower(s + [c])[k] == ToLower((s + [c])[k]);
  }

  lemma RunGrows(s: Str, start: nat, i: nat)
    requires start <= i < |s| && AllAlnum(s[start..i]) && IsAlnum(s[i])
    ensures AllAlnum(s[start..i + 1]) && Lower(s[start..i + 1]) == Lower(s[start..i]) + [ToLower(s[i])]
  {
    assert s[start..i + 1] == s[start..i] + [s[i]];
    LowerAppend(s[start..i], s[i]);
  }

  /** The character loop of splitWords computes the words. */
  method SplitWords(s: Str) returns (words: seq<Str>)
    ensures words == WordsOf(s)
  {
    hide WordsFrom, Lower, AllAlnum, IsAlnum, ToLower;
    words := [];
    var cur: Str := [];
    ghost var start := 0;
    EmptyIsAlnum();
    assert s[0..0] == [];
    for i := 0 to |s|
      invariant 0 <= start <= i && cur == Lower(s[start..i]) && AllAlnum(s[start..i])
      invariant WordsOf(s) == words + WordsFrom(s, start)
    {
      if IsAlnum(s[i]) {
        RunGrows(s, start, i);
        cur := cur + [ToLower(s[i])];
      } else {
        if cur != [] {
          WordsAtRun(s, start, i);
          words := words + [cur];
          cur := [];
        }
        WordsAtGap(s, i);
        start := i + 1;
        EmptyIsAlnum();
        assert s[i + 1..i + 1] == [];
      }
    }
    if cur != [] {
      WordsAtRun(s, start, |s|);
      words := words + [cur];
    }
    WordsAtEnd(s);
  }

  lemma EmptyIsAlnum()
    ensures AllAlnum([]) && Lower([]) == []
  {
  }

  lemma {:induction false} RunEndIs(s: Str, i: nat, j: nat)
    requires i <= j <= |s| && AllAlnum(s[i..j]) && (j < |s| ==> !IsAlnum(s[j]))
    ensures RunEnd(s, i) == j
    decreases j - i
  {
    if i < j {
      assert s[i..j][0] == s[i];
      assert AllAlnum(s[i + 1..j]) by {
        assert s[i + 1..j] == s[i..j][1..];
      }
      RunEndIs(s, i + 1, j);
    }
  }
}
