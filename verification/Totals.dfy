/**
  Totals over sequences, with the effect of replacing one element.
  The protocol models below use them to count threads by program point.
 */
module Totals {

  function Total<T>(s: seq<T>, f: T -> int): int {
    if s == [] then 0 else f(s[0]) + Total(s[1..], f)
  }

  lemma {:induction false} TotalUpdate<T>(s: seq<T>, i: nat, v: T, f: T -> int)
    requires i < |s|
    ensures Total(s[i := v], f) == Total(s, f) - f(s[i]) + f(v)
  {
    if i == 0 {
      assert s[0 := v][1..] == s[1..];
    } else {
      assert s[i := v][1..] == s[1..][i - 1 := v];
      TotalUpdate(s[1..], i - 1, v, f);
    }
  }

  lemma {:induction false} TotalAppend<T>(s: seq<T>, v: T, f: T -> int)
    ensures Total(s + [v], f) == Total(s, f) + f(v)
  {
    if s == [] {
      assert [v][1..] == [];
    } else {
      assert (s + [v])[1..] == s[1..] + [v];
      TotalAppend(s[1..], v, f);
    }
  }

  // A total of non-negative contributions bounds each of them.
  lemma {:induction false} TotalBounds<T>(s: seq<T>, f: T -> int)
    requires forall x :: x in s ==> f(x) >= 0
    ensures Total(s, f) >= 0
    ensures forall i :: 0 <= i < |s| ==> f(s[i]) <= Total(s, f)
  {
    if s != [] {
      forall x | x in s[1..] ensures f(x) >= 0 {
        assert x in s;
      }
      TotalBounds(s[1..], f);
      forall i | 0 <= i < |s| ensures f(s[i]) <= Total(s, f) {
        if i > 0 {
          assert s[i] == s[1..][i - 1];
        }
      }
    }
  }

  lemma {:induction false} TotalWitness<T>(s: seq<T>, f: T -> int) returns (i: nat)
    requires Total(s, f) > 0
    ensures i < |s| && f(s[i]) > 0
  {
    if f(s[0]) > 0 {
      i := 0;
    } else {
      i := TotalWitness(s[1..], f);
      i := i + 1;
    }
  }

  lemma {:induction false} TotalConstant<T>(s: seq<T>, f: T -> int, c: int)
    requires forall x :: x in s ==> f(x) == c
    ensures Total(s, f) == c * |s|
  {
    if s != [] {
      forall x | x in s[1..] ensures f(x) == c {
        assert x in s;
      }
      TotalConstant(s[1..], f, c);
    }
  }

  lemma {:induction false} TotalAtMost<T>(s: seq<T>, f: T -> int, g: T -> int)
    requires forall x :: x in s ==> f(x) <= g(x)
    ensures Total(s, f) <= Total(s, g)
  {
    if s != [] {
      forall x | x in s[1..] ensures f(x) <= g(x) {
        assert x in s;
      }
      TotalAtMost(s[1..], f, g);
    }
  }
}
