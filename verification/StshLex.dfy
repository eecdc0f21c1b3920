/**
  The shell's lexer: words separated by blanks, and the operators | < > & which are
  tokens of their own even inside a word.
 */
module StshLex {
  import opened Bytes
  import opened Words

  const BAR: Byte := 124
  const LESS: Byte := 60
  const GREATER: Byte := 62
  const AMPERSAND: Byte := 38
  const BLANK: Byte := 32

  predicate IsOp(c: Byte) {
    c == BAR || c == LESS || c == GREATER || c == AMPERSAND
  }

  predicate IsPlain(c: Byte) {
    !IsSpace(c) && !IsOp(c)
  }

  predicate AllPlain(s: Str) {
    forall k :: 0 <= k < |s| ==> IsPlain(s[k])
  }

  // A word of the command line: not empty, no blank and no operator in it.
  predicate IsToken(t: Str) {
    t != [] && (AllPlain(t) || (|t| == 1 && IsOp(t[0])))
  }

  function PlainEnd(s: Str, i: nat): (j: nat)
    requires i <= |s|
    ensures i <= j <= |s| && AllPlain(s[i..j]) && (j < |s| ==> !IsPlain(s[j]))
    decreases |s| - i
  {
    if i < |s| && IsPlain(s[i]) then
      var j := PlainEnd(s, i + 1);
      assert s[i..j] == [s[i]] + s[i + 1..j];
      j
    else i
  }

  // The tokens of s from position i on; i is not inside a word.
  function LexFrom(s: Str, i: nat): seq<Str>
    requires i <= |s|
    decreases |s| - i
  {
    if i == |s| then []
    else if IsPlain(s[i]) then [s[i..PlainEnd(s, i)]] + LexFrom(s, PlainEnd(s, i))
    else (if IsOp(s[i]) then [[s[i]]] else []) + LexFrom(s, i + 1)
  }

  function LexOf(s: Str): seq<Str> {
    LexFrom(s, 0)
  }

  lemma {:induction false} PlainEndIs(s: Str, i: nat, j: nat)
    requires i <= j <= |s| && AllPlain(s[i..j]) && (j < |s| ==> !IsPlain(s[j]))
    ensures PlainEnd(s, i) == j
    decreases j - i
  {
    if i < j {
      assert s[i..j][0] == s[i];
      assert s[i + 1..j] == s[i..j][1..];
      PlainEndIs(s, i + 1, j);
    }
  }

  lemma LexAtWord(s: Str, i: nat, j: nat)
    requires i < j <= |s| && AllPlain(s[i..j]) && (j < |s| ==> !IsPlain(s[j]))
    ensures LexFrom(s, i) == [s[i..j]] + LexFrom(s, j)
  {
    assert s[i..j][0] == s[i];
    PlainEndIs(s, i, j);
  }

  lemma LexAtGap(s: Str, i: nat)
    requires i < |s| && !IsPlain(s[i])
    ensures LexFrom(s, i) == (if IsOp(s[i]) then [[s[i]]] else []) + LexFrom(s, i + 1)
  {
  }

  lemma LexAtEnd(s: Str)
    ensures LexFrom(s, |s|) == []
  {
  }

  lemma PlainGrows(s: Str, start: nat, i: nat)
    requires start <= i < |s| && AllPlain(s[start..i]) && IsPlain(s[i])
    ensures AllPlain(s[start..i + 1]) && s[start..i + 1] == s[start..i] + [s[i]]
  {
    assert s[start..i + 1] == s[start..i] + [s[i]];
  }

  /** The character loop of lex. */
  method Lex(line: Str) returns (tokens: seq<Str>)
    ensures tokens == LexOf(line)
  {
    hide LexFrom, AllPlain;
    tokens := [];
    var cur: Str := [];
    ghost var start := 0;
    NothingPlain();
    assert line[0..0] == [];
    for i := 0 to |line|
      invariant 0 <= start <= i && cur == line[start..i] && AllPlain(cur)
      invariant LexOf(line) == tokens + LexFrom(line, start)
    {
      if IsPlain(line[i]) {
        PlainGrows(line, start, i);
        cur := cur + [line[i]];
      } else {
        if cur != [] {
          LexAtWord(line, start, i);
          tokens := tokens + [cur];
          cur := [];
        }
        LexAtGap(line, i);
        if IsOp(line[i]) {
          tokens := tokens + [[line[i]]];
        }
        start := i + 1;
        NothingPlain();
        assert line[i + 1..i + 1] == [];
      }
    }
    if cur != [] {
      LexAtWord(line, start, |line|);
      tokens := tokens + [cur];
    }
    LexAtEnd(line);
  }

  lemma NothingPlain()
    ensures AllPlain([])
  {
  }

  /** Every token is a single operator or a word without blanks and operators. */
  lemma {:induction false} TokensAreTokens(s: Str, i: nat)
    requires i <= |s|
    ensures forall t :: t in LexFrom(s, i) ==> IsToken(t)
    decreases |s| - i
  {
    if i < |s| {
      TokensAreTokens(s, if IsPlain(s[i]) then PlainEnd(s, i) else i + 1);
    }
  }

  // ------------------------------------------------------------ joining

  lemma {:induction false} LexShift(s: Str, t: Str, i: nat)
    requires i <= |t|
    ensures LexFrom(s + t, |s| + i) == LexFrom(t, i)
    decreases |t| - i
  {
    hide LexFrom, AllPlain, IsPlain;
    var u, n := s + t, |s|;
    if i == |t| {
      assert n + i == |u|;
      LexAtEnd(t);
      LexAtEnd(u);
    } else {
      assert u[n + i] == t[i];
      if IsPlain(t[i]) {
        var j := PlainEnd(t, i);
        PlainEndIsWord(t, i);
        assert u[n + i..n + j] == t[i..j] && (j < |t| ==> u[n + j] == t[j]);
        LexAtWord(t, i, j);
        LexAtWord(u, n + i, n + j);
        LexShift(s, t, j);
      } else {
        LexAtGap(t, i);
        LexAtGap(u, n + i);
        LexShift(s, t, i + 1);
      }
    }
  }

  predicate Parts(s: Str, t: Str) {
    s == [] || t == [] || !IsPlain(s[|s| - 1]) || !IsPlain(t[0])
  }

  lemma WordBeforeCut(s: Str, t: Str, i: nat, j: nat)
    requires i < j <= |s| && AllPlain(s[i..j]) && (j < |s| ==> !IsPlain(s[j])) && Parts(s, t)
    ensures (s + t)[i..j] == s[i..j] && (j < |s + t| ==> !IsPlain((s + t)[j]))
  {
    if j == |s| {
      assert s[i..j][j - 1 - i] == s[|s| - 1];
    }
  }

  lemma {:induction false} LexConcatFrom(s: Str, t: Str, i: nat)
    requires i <= |s| && Parts(s, t)
    ensures LexFrom(s + t, i) == LexFrom(s, i) + LexOf(t)
    decreases |s| - i
  {
    hide AllPlain, PlainEnd;
    if i == |s| {
      LexShift(s, t, 0);
      LexAtEnd(s);
    } else if IsPlain(s[i]) {
      var j := PlainEnd(s, i);
      PlainEndIsWord(s, i);
      WordBeforeCut(s, t, i, j);
      LexAtWord(s, i, j);
      LexAtWord(s + t, i, j);
      LexConcatFrom(s, t, j);
    } else {
      LexConcatFrom(s, t, i + 1);
    }
  }

  lemma PlainEndIsWord(s: Str, i: nat)
    requires i < |s| && IsPlain(s[i])
    ensures var j := PlainEnd(s, i); i < j <= |s| && AllPlain(s[i..j]) && (j < |s| ==> !IsPlain(s[j]))
  {
  }

  /** Cutting a line at a blank or operator cuts its tokens. */
  lemma LexConcat(s: Str, t: Str)
    requires Parts(s, t)
    ensures LexOf(s + t) == LexOf(s) + LexOf(t)
  {
    LexConcatFrom(s, t, 0);
  }

  /** An operator is its own token even when written flush against its neighbours. */
  lemma OperatorsStandAlone(s: Str, op: Byte, t: Str)
    requires IsOp(op)
    ensures LexOf(s + [op] + t) == LexOf(s) + [[op]] + LexOf(t)
  {
    hide LexFrom;
    LexConcat(s + [op], t);
    LexConcat(s, [op]);
    LexAtGap([op], 0);
    LexAtEnd([op]);
  }

  function Join(tokens: seq<Str>): Str {
    if tokens == [] then [] else if |tokens| == 1 then tokens[0] else tokens[0] + [BLANK] + Join(tokens[1..])
  }

  lemma LexOneToken(t: Str)
    requires IsToken(t)
    ensures LexOf(t) == [t]
  {
    hide LexFrom;
    if AllPlain(t) {
      assert t[0..|t|] == t;
      LexAtWord(t, 0, |t|);
    } else {
      assert t == [t[0]];
      LexAtGap(t, 0);
    }
    LexAtEnd(t);
  }

  /** Lexing undoes joining tokens with blanks. */
  lemma {:induction false} LexOfJoin(tokens: seq<Str>)
    requires forall t :: t in tokens ==> IsToken(t)
    ensures LexOf(Join(tokens)) == tokens
  {
    hide LexFrom, LexOf, IsToken;
    if tokens == [] {
      LexNothing();
    } else {
      assert tokens[0] in tokens;
      LexOneToken(tokens[0]);
      if |tokens| > 1 {
        var rest := Join(tokens[1..]);
        assert forall t :: t in tokens[1..] ==> t in tokens;
        LexOfJoin(tokens[1..]);
        LexAfterBlank(rest);
        assert tokens[0] + [BLANK] + rest == tokens[0] + ([BLANK] + rest);
        LexConcat(tokens[0], [BLANK] + rest);
      }
    }
  }

  lemma LexNothing()
    ensures LexOf([]) == []
  {
  }

  lemma LexAfterBlank(rest: Str)
    ensures LexOf([BLANK] + rest) == LexOf(rest)
  {
    hide LexFrom;
    LexConcat([BLANK], rest);
    LexAtGap([BLANK], 0);
    LexAtEnd([BLANK]);
  }
}
