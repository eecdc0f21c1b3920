/**
  Query parsing for the review search: unquoted words are terms of their own, a
  quoted phrase is one term.
 */
module AmazonQuery {
  import opened Bytes
  import opened Words

  const QUOTE: Byte := 34

  type Term = seq<Str>

  predicate Breaks(c: Byte) {
    IsSpace(c) || c == QUOTE
  }

  function TokenEnd(q: Str, i: nat): (j: nat)
    requires i <= |q|
    ensures i <= j <= |q| && (forall k :: i <= k < j ==> !Breaks(q[k])) && (j < |q| ==> Breaks(q[j]))
    decreases |q| - i
  {
    if i == |q| || Breaks(q[i]) then i else TokenEnd(q, i + 1)
  }

  function Singles(ws: seq<Str>): seq<Term> {
    if ws == [] then [] else [[ws[0]]] + Singles(ws[1..])
  }

  function Phrase(ws: seq<Str>): seq<Term> {
    if ws == [] then [] else [ws]
  }

  function Flatten(ts: seq<Term>): seq<Str> {
    if ts == [] then [] else ts[0] + Flatten(ts[1..])
  }

  // The terms of the query from position i on, i outside any phrase.
  function TermsFrom(q: Str, i: nat): seq<Term>
    requires i <= |q|
    decreases |q| - i
  {
    if i == |q| then []
    else if IsSpace(q[i]) then TermsFrom(q, i + 1)
    else if q[i] == QUOTE then
      var close := Find(q, QUOTE, i + 1);
      Phrase(WordsOf(q[i + 1..close])) + TermsFrom(q, if close == |q| then |q| else close + 1)
    else
      var j := TokenEnd(q, i);
      Singles(WordsOf(q[i..j])) + TermsFrom(q, j)
  }

  function Terms(q: Str): seq<Term> {
    TermsFrom(q, 0)
  }

  // ------------------------------------------------------------ the cursor loop

  lemma TermsAtSpace(q: Str, i: nat)
    requires i < |q| && IsSpace(q[i])
    ensures TermsFrom(q, i) == TermsFrom(q, i + 1)
  {
  }

  lemma TermsAtQuote(q: Str, i: nat, close: nat, next: nat)
    requires i < |q| && !IsSpace(q[i]) && q[i] == QUOTE
    requires close == Find(q, QUOTE, i + 1) && next == if close == |q| then |q| else close + 1
    ensures TermsFrom(q, i) == Phrase(WordsOf(q[i + 1..close])) + TermsFrom(q, next)
  {
  }

  lemma TermsAtToken(q: Str, i: nat, j: nat)
    requires i < |q| && !IsSpace(q[i]) && q[i] != QUOTE && j == TokenEnd(q, i)
    ensures j > i
    ensures TermsFrom(q, i) == Singles(WordsOf(q[i..j])) + TermsFrom(q, j)
  {
  }

  method FindTokenEnd(query: Str, i: nat) returns (j: nat)
    requires i <= |query|
    ensures j == TokenEnd(query, i)
  {
    j := i;
    while j < |query| && !Breaks(query[j])
      invariant i <= j <= |query| && TokenEnd(query, i) == TokenEnd(query, j)
    {
      j := j + 1;
    }
  }

  method ConvertQuery(query: Str) returns (terms: seq<Term>)
    ensures terms == Terms(query)
  {
    hide IsSpace, Find, TokenEnd, TermsFrom, WordsOf, Singles;
    terms := [];
    var i := 0;
    while i < |query|
      invariant i <= |query| && Terms(query) == terms + TermsFrom(query, i)
      decreases |query| - i
    {
      if IsSpace(query[i]) {
        TermsAtSpace(query, i);
        i := i + 1;
      } else if query[i] == QUOTE {
        var close := Find(query, QUOTE, i + 1);
        var next := if close == |query| then |query| else close + 1;
        TermsAtQuote(query, i, close, next);
        var words := SplitWords(query[i + 1..close]);
        if words != [] {
          terms := terms + [words];
        }
        i := next;
      } else {
        var j := FindTokenEnd(query, i);
        TermsAtToken(query, i, j);
        var words := SplitWords(query[i..j]);
        terms := AddSingles(terms, words);
        i := j;
      }
    }
    TermsAtEnd(query);
  }

  lemma TermsAtEnd(q: Str)
    ensures TermsFrom(q, |q|) == []
  {
  }

  method AddSingles(before: seq<Term>, words: seq<Str>) returns (terms: seq<Term>)
    ensures terms == before + Singles(words)
  {
    terms := before;
    for k := 0 to |words|
      invariant terms + Singles(words[k..]) == before + Singles(words)
    {
      assert words[k..][1..] == words[k + 1..];
      terms := terms + [[words[k]]];
    }
  }

  // ------------------------------------------------------------ what the terms are

  lemma {:induction false} FlattenConcat(a: seq<Term>, b: seq<Term>)
    ensures Flatten(a + b) == Flatten(a) + Flatten(b)
  {
    if a == [] {
      assert a + b == b;
    } else {
      assert (a + b)[1..] == a[1..] + b;
      FlattenConcat(a[1..], b);
    }
  }

  lemma {:induction false} FlattenSingles(ws: seq<Str>)
    ensures Flatten(Singles(ws)) == ws
  {
    if ws != [] {
      FlattenSingles(ws[1..]);
    }
  }

  lemma FlattenPhrase(ws: seq<Str>)
    ensures Flatten(Phrase(ws)) == ws
  {
    if ws != [] {
      assert Phrase(ws)[1..] == [];
    }
  }

  lemma NoWordsIn(s: Str)
    requires |s| <= 1 && (s == [] || !IsAlnum(s[0]))
    ensures WordsOf(s) == []
  {
    if s != [] {
      assert WordsFrom(s, 1) == [];
    }
  }

  lemma WordsAroundPhrase(q: Str, i: nat, close: nat, next: nat)
    requires i < close <= next <= |q| && next <= close + 1 && q[i] == QUOTE && (close < |q| ==> q[close] == QUOTE)
    ensures WordsOf(q[i..]) == WordsOf(q[i + 1..close]) + WordsOf(q[next..])
  {
    var p, r := q[i + 1..close], q[close..next] + q[next..];
    assert q[i..] == [q[i]] + (p + r);
    NoWordsIn([q[i]]);
    WordsOfConcat([q[i]], p + r);
    assert r != [] ==> r[0] == q[close];
    WordsOfConcat(p, r);
    NoWordsIn(q[close..next]);
    WordsOfConcat(q[close..next], q[next..]);
  }

  lemma {:induction false} FlattenTermsFrom(q: Str, i: nat)
    requires i <= |q|
    ensures Flatten(TermsFrom(q, i)) == WordsOf(q[i..])
    decreases |q| - i
  {
    if i < |q| {
      if IsSpace(q[i]) {
        FlattenTermsFrom(q, i + 1);
        assert q[i..] == [q[i]] + q[i + 1..];
        NoWordsIn([q[i]]);
        WordsOfConcat([q[i]], q[i + 1..]);
      } else if q[i] == QUOTE {
        var close := Find(q, QUOTE, i + 1);
        var next := if close == |q| then |q| else close + 1;
        var p := q[i + 1..close];
        FlattenTermsFrom(q, next);
        FlattenConcat(Phrase(WordsOf(p)), TermsFrom(q, next));
        FlattenPhrase(WordsOf(p));
        WordsAroundPhrase(q, i, close, next);
      } else {
        var j := TokenEnd(q, i);
        FlattenTermsFrom(q, j);
        FlattenConcat(Singles(WordsOf(q[i..j])), TermsFrom(q, j));
        FlattenSingles(WordsOf(q[i..j]));
        assert q[i..] == q[i..j] + q[j..];
        WordsOfConcat(q[i..j], q[j..]);
      }
    }
  }

  /** Quotes only group: read in order, the words of all terms are the words of the query. */
  lemma TermsFlatten(q: Str)
    ensures Flatten(Terms(q)) == WordsOf(q)
  {
    FlattenTermsFrom(q, 0);
    assert q[0..] == q;
  }

  lemma {:induction false} SinglesAreTerms(ws: seq<Str>)
    requires forall w :: w in ws ==> IsWord(w)
    ensures forall t :: t in Singles(ws) ==> |t| == 1 && IsWord(t[0])
  {
    if ws != [] {
      SinglesAreTerms(ws[1..]);
    }
  }

  /** No term is empty and every word in a term is a non-empty lower-case alphanumeric word. */
  lemma {:induction false} TermsAreTerms(q: Str, i: nat)
    requires i <= |q|
    ensures forall t :: t in TermsFrom(q, i) ==> t != [] && forall w :: w in t ==> IsWord(w)
    decreases |q| - i
  {
    if i < |q| {
      if IsSpace(q[i]) {
        TermsAreTerms(q, i + 1);
      } else if q[i] == QUOTE {
        var close := Find(q, QUOTE, i + 1);
        WordsAreWords(q[i + 1..close], 0);
        TermsAreTerms(q, if close == |q| then |q| else close + 1);
      } else {
        var j := TokenEnd(q, i);
        WordsAreWords(q[i..j], 0);
        SinglesAreTerms(WordsOf(q[i..j]));
        TermsAreTerms(q, j);
      }
    }
  }

  lemma {:induction false} SinglesConcat(a: seq<Str>, b: seq<Str>)
    ensures Singles(a + b) == Singles(a) + Singles(b)
  {
    if a == [] {
      assert a + b == b;
    } else {
      assert (a + b)[1..] == a[1..] + b;
      SinglesConcat(a[1..], b);
    }
  }

  /** Without a quote every word is a term of its own. */
  lemma {:induction false} UnquotedTerms(q: Str, i: nat)
    requires i <= |q| && QUOTE !in q[i..]
    ensures TermsFrom(q, i) == Singles(WordsOf(q[i..]))
    decreases |q| - i
  {
    if i < |q| {
      assert q[i] == q[i..][0];
      var j := if IsSpace(q[i]) then i + 1 else TokenEnd(q, i);
      assert q[j..] == q[i..][j - i..];
      UnquotedTerms(q, j);
      assert q[i..] == q[i..j] + q[j..];
      WordsOfConcat(q[i..j], q[j..]);
      if IsSpace(q[i]) {
        NoWordsIn(q[i..j]);
      }
      SinglesConcat(WordsOf(q[i..j]), WordsOf(q[j..]));
    }
  }

  // ------------------------------------------------------------ quotes anywhere

  lemma {:induction false} TokenEndShift(s: Str, t: Str, i: nat)
    requires i <= |t|
    ensures TokenEnd(s + t, |s| + i) == |s| + TokenEnd(t, i)
    decreases |t| - i
  {
    if i < |t| && !Breaks(t[i]) {
      TokenEndShift(s, t, i + 1);
    }
  }

  lemma {:induction false} FindShift(s: Str, t: Str, c: Byte, i: nat)
    requires i <= |t|
    ensures Find(s + t, c, |s| + i) == |s| + Find(t, c, i)
    decreases |t| - i
  {
    if i < |t| && t[i] != c {
      FindShift(s, t, c, i + 1);
    }
  }

  lemma {:induction false} TermsShift(s: Str, t: Str, i: nat)
    requires i <= |t|
    ensures TermsFrom(s + t, |s| + i) == TermsFrom(t, i)
    decreases |t| - i
  {
    hide IsSpace, WordsOf, Singles, Phrase, TermsFrom, Find, TokenEnd;
    var q, n := s + t, |s|;
    if i == |t| {
      assert n + i == |q|;
      TermsAtEnd(q);
      TermsAtEnd(t);
    } else if IsSpace(t[i]) {
      TermsAtSpace(q, n + i);
      TermsAtSpace(t, i);
      TermsShift(s, t, i + 1);
    } else if t[i] == QUOTE {
      FindShift(s, t, QUOTE, i + 1);
      var close := Find(t, QUOTE, i + 1);
      var next := if close == |t| then |t| else close + 1;
      assert q[n + i + 1..n + close] == t[i + 1..close];
      TermsAtQuote(q, n + i, n + close, n + next);
      TermsAtQuote(t, i, close, next);
      TermsShift(s, t, next);
    } else {
      TokenEndShift(s, t, i);
      var j := TokenEnd(t, i);
      assert q[n + i..n + j] == t[i..j];
      TermsAtToken(q, n + i, n + j);
      TermsAtToken(t, i, j);
      TermsShift(s, t, j);
    }
  }

  lemma {:induction false} TokenStopsAtQuote(a: Str, t: Str, i: nat)
    requires i <= |a| && t != [] && t[0] == QUOTE
    ensures TokenEnd(a + t, i) == TokenEnd(a, i)
    decreases |a| - i
  {
    if i < |a| && !Breaks(a[i]) {
      TokenStopsAtQuote(a, t, i + 1);
    }
  }

  lemma {:induction false} TermsBeforeQuote(a: Str, t: Str, i: nat)
    requires i <= |a| && QUOTE !in a && t != [] && t[0] == QUOTE
    ensures TermsFrom(a + t, i) == TermsFrom(a, i) + Terms(t)
    decreases |a| - i
  {
    hide IsSpace, WordsOf, Singles, TermsFrom, TokenEnd;
    var q := a + t;
    if i == |a| {
      TermsShift(a, t, 0);
      TermsAtEnd(a);
    } else if IsSpace(a[i]) {
      TermsAtSpace(q, i);
      TermsAtSpace(a, i);
      TermsBeforeQuote(a, t, i + 1);
    } else {
      TokenStopsAtQuote(a, t, i);
      var j := TokenEnd(a, i);
      assert q[i..j] == a[i..j];
      TermsAtToken(q, i, j);
      TermsAtToken(a, i, j);
      TermsBeforeQuote(a, t, j);
    }
  }

  lemma TermsAtPhrase(p: Str, rest: Str, closed: bool)
    requires QUOTE !in p
    ensures var q := [QUOTE] + p + if closed then [QUOTE] + rest else [];
      Terms(q) == Phrase(WordsOf(p)) + if closed then Terms(rest) else []
  {
    hide WordsOf, TermsFrom, Phrase;
    var q := [QUOTE] + p + if closed then [QUOTE] + rest else [];
    assert forall k :: 1 <= k <= |p| ==> q[k] == p[k - 1];
    assert closed ==> q[|p| + 1] == QUOTE;
    var close := Find(q, QUOTE, 1);
    assert close == |p| + 1 && q[1..close] == p;
    QuoteIsNoSpace();
    if closed {
      var front := [QUOTE] + p + [QUOTE];
      assert q == front + rest && |front| == close + 1;
      TermsAtQuote(q, 0, close, close + 1);
      TermsShift(front, rest, 0);
    } else {
      TermsAtQuote(q, 0, close, |q|);
      TermsAtEnd(q);
    }
  }

  lemma QuoteIsNoSpace()
    ensures !IsSpace(QUOTE)
  {
  }

  lemma {:induction false} SinglesAt(ws: seq<Str>)
    ensures Singles(ws) == seq(|ws|, k requires 0 <= k < |ws| => [ws[k]])
  {
    if ws != [] {
      SinglesAt(ws[1..]);
    }
  }

  /**
    A quoted phrase anywhere, flush against its neighbours or not, closed or left open, is one term
    holding all its words, if it has any; the words before it are terms of their own, and what
    follows is a query of its own.
   */
  lemma QuotesGroup(a: Str, p: Str, rest: Str, closed: bool)
    requires QUOTE !in a && QUOTE !in p
    ensures var before, phrase := WordsOf(a), WordsOf(p);
      Terms(a + [QUOTE] + p + if closed then [QUOTE] + rest else []) ==
        seq(|before|, k requires 0 <= k < |before| => [before[k]]) +
        (if phrase == [] then [] else [phrase]) + if closed then Terms(rest) else []
  {
    hide WordsOf, TermsFrom;
    var t := [QUOTE] + p + if closed then [QUOTE] + rest else [];
    assert a + [QUOTE] + p + (if closed then [QUOTE] + rest else []) == a + t;
    TermsBeforeQuote(a, t, 0);
    UnquotedTerms(a, 0);
    assert a[0..] == a;
    TermsAtPhrase(p, rest, closed);
    SinglesAt(WordsOf(a));
  }
}
