/**
  What std::sort does to distinct or equal elements under a strict total order:
  the sorted permutation, of which there is only one.
 */
module Sorting {

  ghost predicate StrictTotal<T(!new)>(less: (T, T) -> bool) {
    && (forall x :: !less(x, x))
    && (forall x, y :: less(x, y) || x == y || less(y, x))
    && (forall x, y, z :: less(x, y) && less(y, z) ==> less(x, z))
  }

  ghost predicate SortedBy<T>(less: (T, T) -> bool, s: seq<T>) {
    forall i, j :: 0 <= i < j < |s| ==> !less(s[j], s[i])
  }

  function Insert<T>(less: (T, T) -> bool, x: T, s: seq<T>): seq<T> {
    if s == [] || !less(s[0], x) then [x] + s else [s[0]] + Insert(less, x, s[1..])
  }

  function Sort<T>(less: (T, T) -> bool, s: seq<T>): seq<T> {
    if s == [] then [] else Insert(less, s[0], Sort(less, s[1..]))
  }

  lemma LessSwap<T(!new)>(less: (T, T) -> bool, x: T, y: T, z: T)
    requires StrictTotal(less) && less(x, y) && !less(z, y)
    ensures !less(z, x) && !less(y, x)
  {
    assert less(z, x) ==> less(z, y);
    assert less(y, x) ==> less(x, x);
  }

  lemma {:induction false} InsertPermutes<T>(less: (T, T) -> bool, x: T, s: seq<T>)
    ensures multiset(Insert(less, x, s)) == multiset(s) + multiset{x}
  {
    if s != [] && less(s[0], x) {
      InsertPermutes(less, x, s[1..]);
      assert s == [s[0]] + s[1..];
    }
  }

  lemma {:induction false} InsertSorts<T(!new)>(less: (T, T) -> bool, x: T, s: seq<T>)
    requires StrictTotal(less) && SortedBy(less, s)
    ensures SortedBy(less, Insert(less, x, s))
  {
    hide StrictTotal;
    if s != [] && less(s[0], x) {
      var r := Insert(less, x, s[1..]);
      InsertSorts(less, x, s[1..]);
      InsertPermutes(less, x, s[1..]);
      Irreflexive(less, s[0]);
      forall y | y in r ensures !less(y, s[0]) {
        assert y in multiset(r);
        if y == x {
          LessSwap(less, s[0], x, x) by { Irreflexive(less, x); }
        } else {
          assert y in s[1..];
        }
      }
    } else if s != [] {
      forall y | y in s ensures !less(y, x) {
        if less(y, x) {
          Transitive(less, s[0], y, x);
        }
      }
    }
  }

  lemma Irreflexive<T(!new)>(less: (T, T) -> bool, x: T)
    requires StrictTotal(less)
    ensures !less(x, x)
  {
  }

  // If y < x but s0 is not, then y < s0.
  lemma Transitive<T(!new)>(less: (T, T) -> bool, s0: T, y: T, x: T)
    requires StrictTotal(less) && less(y, x) && !less(s0, x)
    ensures less(y, s0)
  {
    assert less(y, s0) || y == s0 || less(s0, y);
  }

  /** Sorting yields a sorted permutation. */
  lemma {:induction false} SortSorts<T(!new)>(less: (T, T) -> bool, s: seq<T>)
    requires StrictTotal(less)
    ensures SortedBy(less, Sort(less, s)) && multiset(Sort(less, s)) == multiset(s)
  {
    hide StrictTotal;
    if s != [] {
      SortSorts(less, s[1..]);
      InsertSorts(less, s[0], Sort(less, s[1..]));
      InsertPermutes(less, s[0], Sort(less, s[1..]));
      assert s == [s[0]] + s[1..];
    }
  }

  lemma SameHead<T(!new)>(less: (T, T) -> bool, a: seq<T>, b: seq<T>)
    requires StrictTotal(less) && SortedBy(less, a) && SortedBy(less, b) && multiset(a) == multiset(b)
    requires a != [] && b != []
    ensures a[0] == b[0]
  {
    assert a[0] in multiset(b) && b[0] in multiset(a);
    var i :| 0 <= i < |b| && b[i] == a[0];
    var j :| 0 <= j < |a| && a[j] == b[0];
    assert !less(b[i], b[0]) || i == 0;
    assert !less(a[j], a[0]) || j == 0;
  }

  lemma SameTail<T>(a: seq<T>, b: seq<T>)
    requires a != [] && b != [] && a[0] == b[0] && multiset(a) == multiset(b)
    ensures multiset(a[1..]) == multiset(b[1..])
  {
    assert a == [a[0]] + a[1..] && b == [b[0]] + b[1..];
    assert multiset(a[1..]) == multiset(a) - multiset{a[0]};
    assert multiset(b[1..]) == multiset(b) - multiset{b[0]};
  }

  /** Only one permutation is sorted, so the sorting algorithm does not matter. */
  lemma {:induction false} SortedIsUnique<T(!new)>(less: (T, T) -> bool, a: seq<T>, b: seq<T>)
    requires StrictTotal(less) && SortedBy(less, a) && SortedBy(less, b) && multiset(a) == multiset(b)
    ensures a == b
  {
    hide StrictTotal;
    assert |b| == |multiset(b)| == |multiset(a)| == |a|;
    if a != [] {
      SameHead(less, a, b);
      SameTail(a, b);
      SortedIsUnique(less, a[1..], b[1..]);
      assert a == [a[0]] + a[1..] && b == [b[0]] + b[1..];
    }
  }

  lemma SortedStays<T(!new)>(less: (T, T) -> bool, s: seq<T>)
    requires StrictTotal(less) && SortedBy(less, s)
    ensures Sort(less, s) == s
  {
    SortSorts(less, s);
    SortedIsUnique(less, Sort(less, s), s);
  }
}
