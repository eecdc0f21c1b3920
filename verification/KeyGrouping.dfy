/**
  When does sorting whole lines bring records with equal keys together?
  Always when every record has a tab, and exactly when no short record splits its key.
 */
module KeyGrouping {
  import opened Bytes
  import opened Text
  import opened Sorting
  import opened MapReduce
  import opened WordCount

  lemma {:induction false} Squeeze(p: Str, a: Str, b: Str, c: Str)
    requires p <= a && p <= c && !Less(b, a) && !Less(c, b)
    ensures p <= b
  {
    if p != [] {
      assert p[0] == a[0] == c[0];
      assert b != [] && b[0] == p[0];
      Squeeze(p[1..], a[1..], b[1..], c[1..]);
      assert p == [p[0]] + p[1..] && b == [b[0]] + b[1..];
    }
  }

  lemma {:induction false} PrefixIsLess(a: Str, b: Str)
    requires a < b
    ensures Less(a, b)
  {
    if a != [] {
      PrefixIsLess(a[1..], b[1..]);
    }
  }

  // The first difference decides.
  lemma {:induction false} FirstDifference(p: Str, b: Str, c: Str)
    requires p < b && p < c && b[|p|] < c[|p|]
    ensures Less(b, c)
  {
    if p != [] {
      FirstDifference(p[1..], b[1..], c[1..]);
    }
  }

  lemma KeyShape(rec: Str)
    ensures TAB !in Key(rec) && Key(rec) <= rec
    ensures rec == Key(rec) || Key(rec) + [TAB] <= rec
  {
    var k := Find(rec, TAB, 0);
    if k < |rec| {
      assert rec[..k] + [TAB] == rec[..k + 1];
    }
  }

  lemma KeyOf(k: Str, rec: Str)
    requires TAB !in k && (rec == k || k + [TAB] <= rec)
    ensures Key(rec) == k
  {
    if rec == k {
      FindNone(rec, TAB);
    } else {
      assert forall i :: 0 <= i < |k| ==> rec[i] == k[i];
      assert rec[|k|] == (k + [TAB])[|k|];
      FindIs(rec, TAB, 0, |k|);
    }
  }

  // a is a bare key, c a record of that key, and b starts like a but goes on with a
  // character below the tab: b sorts between the two.
  predicate Split(a: Str, b: Str, c: Str) {
    TAB !in a && a + [TAB] <= c && a < b && b[|a|] < TAB
  }

  lemma Between(a: Str, b: Str, c: Str)
    requires !Less(b, a) && !Less(c, b) && Key(a) == Key(c) && !Split(a, b, c) && !Less(c, a)
    ensures Key(b) == Key(a)
  {
    hide Less, Key;
    var k := Key(a);
    KeyShape(a);
    KeyShape(c);
    Squeeze(k, a, b, c);
    if c == k {
      if a != k {
        assert k < a;
        PrefixIsLess(c, a);
      }
      Equal(a, b);
    } else if a != k {
      Squeeze(k + [TAB], a, b, c);
      KeyOf(k, b);
    } else if b != k {
      if TAB < b[|k|] {
        FirstDifference(k, c, b);
      }
      assert b[|k|] == TAB;
      assert k + [TAB] == b[..|k| + 1];
      KeyOf(k, b);
    }
  }

  lemma Equal(a: Str, b: Str)
    requires !Less(a, b) && !Less(b, a)
    ensures a == b
  {
    LessTotal(a, b);
  }

  lemma SplitOrder(a: Str, b: Str, c: Str)
    requires Split(a, b, c)
    ensures Less(a, b) && Less(b, c) && Key(a) == Key(c) != Key(b)
  {
    hide Less;
    assert c[|a|] == (a + [TAB])[|a|];
    assert forall i :: 0 <= i < |a| ==> c[i] == (a + [TAB])[i];
    assert a < c;
    PrefixIsLess(a, b);
    FirstDifference(a, b, c);
    KeyOf(a, a);
    KeyOf(a, c);
  }

  ghost predicate Splits(recs: seq<Str>) {
    exists a, b, c :: a in recs && b in recs && c in recs && Split(a, b, c)
  }

  lemma InSorted(recs: seq<Str>, rec: Str)
    ensures rec in Sort(Less, recs) <==> rec in recs
  {
    hide Less, Sort;
    LessIsTotal();
    SortSorts(Less, recs);
    assert rec in Sort(Less, recs) <==> rec in multiset(Sort(Less, recs));
    assert rec in recs <==> rec in multiset(recs);
  }

  /** Sorting whole lines groups equal keys if and only if no three records split a key. */
  lemma SortGroupsUnlessSplit(recs: seq<Str>)
    ensures Grouped(Sort(Less, recs)) <==> !Splits(recs)
  {
    hide Less, Key, Sort, Split, StrictTotal;
    var s := Sort(Less, recs);
    LessIsTotal();
    SortSorts(Less, recs);
    if Splits(recs) {
      var a, b, c :| a in recs && b in recs && c in recs && Split(a, b, c);
      InSorted(recs, a);
      InSorted(recs, b);
      InSorted(recs, c);
      SplitOrder(a, b, c);
      var i, j, l :| 0 <= i < |s| && 0 <= j < |s| && 0 <= l < |s| && s[i] == a && s[j] == b && s[l] == c;
      LessTotal(a, b);
      LessTotal(b, c);
      assert i < j < l;
    } else {
      forall i, j, l | 0 <= i < j < l < |s| && Key(s[i]) == Key(s[l]) ensures Key(s[j]) == Key(s[i]) {
        InSorted(recs, s[i]);
        InSorted(recs, s[j]);
        InSorted(recs, s[l]);
        Between(s[i], s[j], s[l]);
      }
    }
  }

  /** Records that all have a tab are grouped by sorting whole lines. */
  lemma TabsSortGrouped(recs: seq<Str>)
    requires forall rec :: rec in recs ==> TAB in rec
    ensures Grouped(Sort(Less, recs))
  {
    SortGroupsUnlessSplit(recs);
  }

  /** The comment at the sort promises grouping for any records; three short lines break it. */
  lemma SortCanSplitAKey()
    ensures var recs: seq<Str> := [[97], [97, 1], [97, TAB, 49]]; !Grouped(Sort(Less, recs))
  {
    var recs: seq<Str> := [[97], [97, 1], [97, TAB, 49]];
    var a: Str, b: Str, c: Str := [97], [97, 1], [97, TAB, 49];
    assert a + [TAB] <= c && b[|a|] == 1;
    assert a in recs && b in recs && c in recs && Split(a, b, c);
    SortGroupsUnlessSplit(recs);
  }
}
