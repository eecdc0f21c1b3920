/**
  Lines as getline reads them and decimal numbers as the standard library prints
  and parses them.
 */
module Text {
  import opened Bytes

  const NEWLINE: Byte := 10
  const TAB: Byte := 9

  datatype Option<T> = None | Some(value: T)

  // ------------------------------------------------------------ lines

  // The lines getline returns: a last line without newline counts unless it is empty.
  function Lines(s: Str): seq<Str>
    decreases |s|
  {
    if s == [] then []
    else
      var k := Find(s, NEWLINE, 0);
      [s[..k]] + if k == |s| then [] else Lines(s[k + 1..])
  }

  function Unlines(ls: seq<Str>): Str {
    if ls == [] then [] else ls[0] + [NEWLINE] + Unlines(ls[1..])
  }

  predicate OneLine(s: Str) {
    NEWLINE !in s
  }

  lemma FindIs(s: Str, c: Byte, i: nat, j: nat)
    requires i <= j < |s| && s[j] == c && forall k :: i <= k < j ==> s[k] != c
    ensures Find(s, c, i) == j
  {
  }

  lemma FindNone(s: Str, c: Byte)
    requires c !in s
    ensures Find(s, c, 0) == |s|
  {
  }

  lemma LinesCons(l: Str, rest: Str)
    requires OneLine(l)
    ensures Lines(l + [NEWLINE] + rest) == [l] + Lines(rest)
  {
    var s := l + [NEWLINE] + rest;
    assert forall k :: 0 <= k < |l| ==> s[k] == l[k];
    FindIs(s, NEWLINE, 0, |l|);
    assert s[..|l|] == l && s[|l| + 1..] == rest;
  }

  /** Reading back lines that were written one per line. */
  lemma {:induction false} LinesOfUnlines(ls: seq<Str>, rest: Str)
    requires forall l :: l in ls ==> OneLine(l)
    ensures Lines(Unlines(ls) + rest) == ls + Lines(rest)
  {
    hide Lines;
    if ls == [] {
      assert [] + rest == rest && [] + Lines(rest) == Lines(rest);
    } else {
      assert ls[0] in ls && forall l :: l in ls[1..] ==> l in ls;
      LinesOfUnlines(ls[1..], rest);
      assert Unlines(ls) + rest == ls[0] + [NEWLINE] + (Unlines(ls[1..]) + rest);
      LinesCons(ls[0], Unlines(ls[1..]) + rest);
      assert ls == [ls[0]] + ls[1..];
    }
  }

  lemma LinesBack(ls: seq<Str>)
    requires forall l :: l in ls ==> OneLine(l)
    ensures Lines(Unlines(ls)) == ls
  {
    LinesOfUnlines(ls, []);
    assert Unlines(ls) + [] == Unlines(ls);
  }

  lemma {:induction false} UnlinesConcat(a: seq<Str>, b: seq<Str>)
    ensures Unlines(a + b) == Unlines(a) + Unlines(b)
  {
    if a == [] {
      assert a + b == b;
    } else {
      assert (a + b)[1..] == a[1..] + b;
      UnlinesConcat(a[1..], b);
    }
  }

  lemma UnlinesOne(l: Str)
    ensures Unlines([l]) == l + [NEWLINE]
  {
    assert [l][1..] == [];
    assert Unlines([]) == [];
  }

  lemma {:induction false} LinesAreLines(s: Str)
    ensures forall l :: l in Lines(s) ==> OneLine(l)
    decreases |s|
  {
    if s != [] {
      var k := Find(s, NEWLINE, 0);
      if k < |s| {
        LinesAreLines(s[k + 1..]);
      }
    }
  }

  // ------------------------------------------------------------ decimal numbers

  predicate Digit(c: Byte) {
    48 <= c <= 57
  }

  function Dec(n: nat): Str {
    if n < 10 then [48 + n] else Dec(n / 10) + [48 + n % 10]
  }

  function DecInt(n: int): Str {
    if n < 0 then [45] + Dec(-n) else Dec(n)
  }

  /** Decimal: one more digit is ten times the number and the digit. */
  lemma DecDigit(n: nat, d: nat)
    requires d < 10
    ensures Dec(d) == [48 + d]
    ensures n > 0 ==> Dec(10 * n + d) == Dec(n) + [48 + d]
  {
    assert n > 0 ==> (10 * n + d) / 10 == n && (10 * n + d) % 10 == d;
  }

  // The value of the leading digits of s, read after `acc`.
  function Digits(s: Str, acc: nat): nat {
    if s == [] || !Digit(s[0]) then acc else Digits(s[1..], 10 * acc + (s[0] - 48))
  }

  lemma {:induction false} DecIsDigits(n: nat)
    ensures Dec(n) != [] && forall k :: 0 <= k < |Dec(n)| ==> Digit(Dec(n)[k])
  {
    if n >= 10 {
      DecIsDigits(n / 10);
    }
  }

  lemma {:induction false} DigitsConcat(a: Str, b: Str, acc: nat)
    requires forall k :: 0 <= k < |a| ==> Digit(a[k])
    ensures Digits(a + b, acc) == Digits(b, Digits(a, acc))
  {
    if a == [] {
      assert a + b == b;
    } else {
      assert (a + b)[1..] == a[1..] + b;
      DigitsConcat(a[1..], b, 10 * acc + (a[0] - 48));
    }
  }

  /** Parsing a printed number gives the number, whatever non-digit follows. */
  lemma {:induction false} DecReadsBack(n: nat, rest: Str)
    requires rest == [] || !Digit(rest[0])
    ensures Digits(Dec(n) + rest, 0) == n
  {
    DecIsDigits(n);
    DigitsConcat(Dec(n), rest, 0);
    DigitsOfDec(n);
  }

  lemma {:induction false} DigitsOfDec(n: nat)
    ensures Digits(Dec(n), 0) == n
  {
    if n < 10 {
      assert [48 + n][1..] == [];
    } else {
      DecIsDigits(n / 10);
      DigitsConcat(Dec(n / 10), [48 + n % 10], 0);
      DigitsOfDec(n / 10);
      assert [48 + n % 10][1..] == [];
      assert Digits([48 + n % 10], n / 10) == 10 * (n / 10) + n % 10;
    }
  }
}
