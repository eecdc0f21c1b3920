/**
  The keyword index: an ordered map from each word to the places where it occurs,
  written as a file of sorted entries and found again by binary search.
 */
module AmazonIndex {
  import opened Bytes
  import opened Words
  import opened TableFile
  import opened AmazonDatabase
  import opened Sorting

  const SHIFT: nat := 16777216

  // A review number with the packed location (field << 24) | offset.
  type Place = (nat, nat)

  datatype Entry = Entry(word: Str, occ: seq<Place>)

  datatype Occurrence = Occurrence(review: nat, field: nat, offset: nat)

  function FieldText(r: Rec, f: nat): Str {
    match f
    case 0 => r.title
    case 1 => r.category
    case 2 => r.headline
    case _ => r.body
  }

  predicate OccursIn(r: Rec, w: Str, f: nat, o: nat) {
    f < 4 && o < |WordsOf(FieldText(r, f))| && WordsOf(FieldText(r, f))[o] == w
  }

  predicate OccursAt(recs: seq<Rec>, w: Str, x: Place) {
    x.0 < |recs| && OccursIn(recs[x.0], w, x.1 / SHIFT, x.1 % SHIFT)
  }

  predicate PlaceLess(x: Place, y: Place) {
    x.0 < y.0 || (x.0 == y.0 && x.1 < y.1)
  }

  predicate Ascending(occ: seq<Place>) {
    forall i, j :: 0 <= i < j < |occ| ==> PlaceLess(occ[i], occ[j])
  }

  // Fewer than 2^24 words in every field, so that no word offset is truncated.
  predicate ShortFields(recs: seq<Rec>) {
    forall r, f :: r in recs && 0 <= f < 4 ==> |WordsOf(FieldText(r, f))| < SHIFT
  }

  // ------------------------------------------------------------ the ordered map

  predicate SortedKeys(kw: seq<Entry>) {
    forall i, j :: 0 <= i < j < |kw| ==> Less(kw[i].word, kw[j].word)
  }

  function Lookup(kw: seq<Entry>, w: Str): seq<Place> {
    if kw == [] then [] else if kw[0].word == w then kw[0].occ else Lookup(kw[1..], w)
  }

  predicate HasKey(kw: seq<Entry>, w: Str) {
    exists k :: 0 <= k < |kw| && kw[k].word == w
  }

  lemma {:induction false} LookupIs(kw: seq<Entry>, k: nat)
    requires SortedKeys(kw) && k < |kw|
    ensures Lookup(kw, kw[k].word) == kw[k].occ
  {
    if k > 0 {
      LessTotal(kw[0].word, kw[k].word);
      LookupIs(kw[1..], k - 1);
    }
  }

  lemma {:induction false} LookupAbsent(kw: seq<Entry>, w: Str)
    requires !HasKey(kw, w)
    ensures Lookup(kw, w) == []
  {
    if kw != [] {
      assert forall k :: 0 <= k < |kw[1..]| ==> kw[1..][k] == kw[k + 1];
      LookupAbsent(kw[1..], w);
    }
  }

  // kw[w].push_back(x) on a std::map.
  method AddPlace(kw: seq<Entry>, w: Str, x: Place) returns (r: seq<Entry>)
    requires SortedKeys(kw)
    ensures SortedKeys(r)
    ensures forall v :: HasKey(r, v) <==> v == w || HasKey(kw, v)
    ensures forall v :: Lookup(r, v) == if v == w then Lookup(kw, w) + [x] else Lookup(kw, v)
  {
    hide Lookup, Less;
    var k := 0;
    while k < |kw| && Less(kw[k].word, w)
      invariant 0 <= k <= |kw| && forall j :: 0 <= j < k ==> Less(kw[j].word, w)
    {
      k := k + 1;
    }
    if k < |kw| && kw[k].word == w {
      r := kw[k := Entry(w, kw[k].occ + [x])];
      KeyReplaced(kw, k, kw[k].occ + [x]);
      LookupIs(kw, k);
    } else {
      r := Inserted(kw, k, Entry(w, [x]));
      FoundPlace(kw, k, w);
      KeyInserted(kw, k, w, [x]);
    }
  }

  lemma KeyReplaced(kw: seq<Entry>, k: nat, occ: seq<Place>)
    requires SortedKeys(kw) && k < |kw|
    ensures var r := kw[k := Entry(kw[k].word, occ)];
      SortedKeys(r) &&
      (forall v :: HasKey(r, v) <==> HasKey(kw, v)) &&
      (forall v :: Lookup(r, v) == if v == kw[k].word then occ else Lookup(kw, v))
  {
    hide Lookup, Less;
    var r := kw[k := Entry(kw[k].word, occ)];
    assert forall j :: 0 <= j < |kw| ==> r[j].word == kw[j].word;
    assert SortedKeys(r);
    forall v ensures HasKey(r, v) <==> HasKey(kw, v) {
      if j :| 0 <= j < |kw| && kw[j].word == v { assert r[j].word == v; }
      if j :| 0 <= j < |r| && r[j].word == v { assert kw[j].word == v; }
    }
    forall v ensures Lookup(r, v) == if v == kw[k].word then occ else Lookup(kw, v) {
      LookupTransfer(kw, r, v);
      LookupIs(r, k);
      LessDistinct(kw);
    }
  }

  lemma LessDistinct(kw: seq<Entry>)
    requires SortedKeys(kw)
    ensures forall i, j :: 0 <= i < j < |kw| ==> kw[i].word != kw[j].word
  {
    forall i, j | 0 <= i < j < |kw| ensures kw[i].word != kw[j].word {
      LessTotal(kw[i].word, kw[j].word);
    }
  }

  // Lookup in both maps, through the positions of v.
  lemma LookupTransfer(a: seq<Entry>, b: seq<Entry>, v: Str)
    requires SortedKeys(a) && SortedKeys(b)
    ensures forall i :: 0 <= i < |a| && a[i].word == v ==> Lookup(a, v) == a[i].occ
    ensures forall i :: 0 <= i < |b| && b[i].word == v ==> Lookup(b, v) == b[i].occ
    ensures !HasKey(a, v) ==> Lookup(a, v) == []
    ensures !HasKey(b, v) ==> Lookup(b, v) == []
  {
    hide Lookup, Less;
    forall i | 0 <= i < |a| && a[i].word == v ensures Lookup(a, v) == a[i].occ {
      LookupIs(a, i);
    }
    forall i | 0 <= i < |b| && b[i].word == v ensures Lookup(b, v) == b[i].occ {
      LookupIs(b, i);
    }
    if !HasKey(a, v) { LookupAbsent(a, v); }
    if !HasKey(b, v) { LookupAbsent(b, v); }
  }

  function Inserted(kw: seq<Entry>, k: nat, e: Entry): (r: seq<Entry>)
    requires k <= |kw|
    ensures |r| == |kw| + 1
    ensures forall j :: 0 <= j < |r| ==> r[j] == if j < k then kw[j] else if j == k then e else kw[j - 1]
  {
    kw[..k] + [e] + kw[k..]
  }

  predicate BelongsAt(kw: seq<Entry>, k: nat, w: Str) {
    k <= |kw| && (forall j :: 0 <= j < k ==> Less(kw[j].word, w)) &&
    (forall j :: k <= j < |kw| ==> Less(w, kw[j].word))
  }

  lemma FoundPlace(kw: seq<Entry>, k: nat, w: Str)
    requires SortedKeys(kw) && k <= |kw| && (forall j :: 0 <= j < k ==> Less(kw[j].word, w))
    requires k < |kw| ==> !Less(kw[k].word, w) && kw[k].word != w
    ensures BelongsAt(kw, k, w) && !HasKey(kw, w)
  {
    hide Less;
    forall j | k <= j < |kw| ensures Less(w, kw[j].word) {
      LessTotal(w, kw[k].word);
      if j > k {
        LessTransitive(w, kw[k].word, kw[j].word);
      }
    }
    forall j | 0 <= j < |kw| ensures kw[j].word != w {
      LessTotal(w, kw[j].word);
    }
  }

  lemma InsertedSorted(kw: seq<Entry>, k: nat, e: Entry)
    requires SortedKeys(kw) && k <= |kw| && BelongsAt(kw, k, e.word)
    ensures SortedKeys(Inserted(kw, k, e))
    ensures forall v :: HasKey(Inserted(kw, k, e), v) <==> v == e.word || HasKey(kw, v)
  {
    hide Less;
    var r := Inserted(kw, k, e);
    forall v ensures HasKey(r, v) <==> v == e.word || HasKey(kw, v) {
      if j :| 0 <= j < |kw| && kw[j].word == v { assert r[if j < k then j else j + 1].word == v; }
      if v == e.word { assert r[k].word == v; }
    }
  }

  lemma KeyInserted(kw: seq<Entry>, k: nat, w: Str, occ: seq<Place>)
    requires SortedKeys(kw) && k <= |kw| && BelongsAt(kw, k, w) && !HasKey(kw, w)
    ensures var r := Inserted(kw, k, Entry(w, occ));
      SortedKeys(r) &&
      (forall v :: HasKey(r, v) <==> v == w || HasKey(kw, v)) &&
      (forall v :: Lookup(r, v) == if v == w then occ else Lookup(kw, v)) &&
      Lookup(kw, w) == []
  {
    hide Lookup, Less, BelongsAt, SortedKeys, HasKey;
    var r := Inserted(kw, k, Entry(w, occ));
    InsertedSorted(kw, k, Entry(w, occ));
    forall v ensures Lookup(r, v) == if v == w then occ else Lookup(kw, v) {
      LookupTransfer(kw, r, v);
      assert r[k].word == w && r[k].occ == occ;
      if v != w && HasKey(kw, v) {
        var j := KeyPosition(kw, v);
        assert r[if j < k then j else j + 1] == kw[j];
      }
    }
    LookupAbsent(kw, w);
  }

  lemma KeyPosition(kw: seq<Entry>, v: Str) returns (j: nat)
    requires HasKey(kw, v)
    ensures j < |kw| && kw[j].word == v
  {
    j :| 0 <= j < |kw| && kw[j].word == v;
  }

  // ------------------------------------------------------------ building the map

  // kw holds exactly the occurrences before place p, each list ascending.
  ghost predicate Indexed(recs: seq<Rec>, kw: seq<Entry>, p: Place) {
    && SortedKeys(kw)
    && (forall w :: HasKey(kw, w) <==> Lookup(kw, w) != [])
    && (forall w :: Ascending(Lookup(kw, w)))
    && (forall w, x :: x in Lookup(kw, w) <==> OccursAt(recs, w, x) && PlaceLess(x, p))
  }

  lemma IndexedNothing(recs: seq<Rec>)
    ensures Indexed(recs, [], (0, 0))
  {
  }

  // A place at which no word occurs adds nothing.
  lemma IndexedSkip(recs: seq<Rec>, kw: seq<Entry>, p: Place, q: Place)
    requires Indexed(recs, kw, p)
    requires forall w, x :: OccursAt(recs, w, x) ==> (PlaceLess(x, p) <==> PlaceLess(x, q))
    ensures Indexed(recs, kw, q)
  {
    hide Lookup, OccursAt, SortedKeys, HasKey, Ascending;
    forall w, x ensures x in Lookup(kw, w) <==> OccursAt(recs, w, x) && PlaceLess(x, q) {
      assert x in Lookup(kw, w) <==> OccursAt(recs, w, x) && PlaceLess(x, p);
    }
  }

  lemma AscendingAppend(occ: seq<Place>, p: Place)
    requires Ascending(occ) && forall x :: x in occ ==> PlaceLess(x, p)
    ensures Ascending(occ + [p])
  {
    forall i | 0 <= i < |occ| ensures PlaceLess(occ[i], p) {
      assert occ[i] in occ;
    }
  }

  lemma NextPlace(p: Place)
    ensures forall x: Place :: PlaceLess(x, (p.0, p.1 + 1)) <==> PlaceLess(x, p) || x == p
    ensures !PlaceLess(p, p)
  {
  }

  lemma IndexedAdd(recs: seq<Rec>, kw: seq<Entry>, p: Place, w: Str, r: seq<Entry>)
    requires Indexed(recs, kw, p) && OccursAt(recs, w, p)
    requires forall v :: OccursAt(recs, v, p) ==> v == w
    requires SortedKeys(r)
    requires forall v :: HasKey(r, v) <==> v == w || HasKey(kw, v)
    requires forall v :: Lookup(r, v) == if v == w then Lookup(kw, w) + [p] else Lookup(kw, v)
    ensures Indexed(recs, r, (p.0, p.1 + 1))
  {
    hide Lookup, OccursAt, SortedKeys, HasKey, Ascending, PlaceLess;
    var q: Place := (p.0, p.1 + 1);
    NextPlace(p);
    IndexedLists(recs, kw, p, w);
    AscendingAppend(Lookup(kw, w), p);
    forall v, x ensures x in Lookup(r, v) <==> OccursAt(recs, v, x) && PlaceLess(x, q) {
      IndexedLists(recs, kw, p, v);
      assert x in Lookup(kw, v) <==> OccursAt(recs, v, x) && PlaceLess(x, p);
    }
    forall v ensures HasKey(r, v) <==> Lookup(r, v) != [] {
      IndexedLists(recs, kw, p, v);
    }
  }

  lemma IndexedLists(recs: seq<Rec>, kw: seq<Entry>, p: Place, v: Str)
    requires Indexed(recs, kw, p)
    ensures HasKey(kw, v) <==> Lookup(kw, v) != []
    ensures Ascending(Lookup(kw, v))
    ensures forall x :: x in Lookup(kw, v) <==> OccursAt(recs, v, x) && PlaceLess(x, p)
  {
    hide Lookup, OccursAt, SortedKeys, HasKey, Ascending, PlaceLess;
  }

  lemma WordHere(recs: seq<Rec>, i: nat, f: nat, o: nat, p: Place)
    requires i < |recs| && f < 4 && o < |WordsOf(FieldText(recs[i], f))| && o < SHIFT && p == (i, f * SHIFT + o)
    ensures OccursAt(recs, WordsOf(FieldText(recs[i], f))[o], p)
    ensures forall v :: OccursAt(recs, v, p) ==> v == WordsOf(FieldText(recs[i], f))[o]
  {
    hide WordsOf;
    assert (f * SHIFT + o) / SHIFT == f && (f * SHIFT + o) % SHIFT == o;
  }

  lemma FieldEnds(recs: seq<Rec>, i: nat, f: nat)
    requires ShortFields(recs) && i < |recs| && f < 4
    ensures forall w, x :: OccursAt(recs, w, x) ==>
      (PlaceLess(x, (i, f * SHIFT + |WordsOf(FieldText(recs[i], f))|)) <==> PlaceLess(x, (i, (f + 1) * SHIFT)))
  {
    hide WordsOf;
    assert recs[i] in recs;
  }

  lemma ReviewEnds(recs: seq<Rec>, i: nat)
    requires i < |recs|
    ensures forall w, x :: OccursAt(recs, w, x) ==> (PlaceLess(x, (i, 4 * SHIFT)) <==> PlaceLess(x, (i + 1, 0)))
  {
    hide WordsOf;
  }

  function Location(f: nat, o: nat): nat {
    f * SHIFT + o % SHIFT
  }

  method IndexField(recs: seq<Rec>, kw: seq<Entry>, i: nat, f: nat) returns (r: seq<Entry>)
    requires ShortFields(recs) && i < |recs| && f < 4 && Indexed(recs, kw, (i, f * SHIFT))
    ensures Indexed(recs, r, (i, (f + 1) * SHIFT))
  {
    hide Indexed, WordsOf, OccursAt, Lookup, HasKey;
    var words := SplitWords(FieldText(recs[i], f));
    assert recs[i] in recs;
    r := kw;
    var o := 0;
    while o < |words|
      invariant 0 <= o <= |words| && Indexed(recs, r, (i, f * SHIFT + o))
    {
      IndexedSorted(recs, r, (i, f * SHIFT + o));
      WordHere(recs, i, f, o, (i, f * SHIFT + o));
      var s := AddPlace(r, words[o], (i, Location(f, o)));
      IndexedAdd(recs, r, (i, f * SHIFT + o), words[o], s);
      r := s;
      o := o + 1;
    }
    FieldEnds(recs, i, f);
    IndexedSkip(recs, r, (i, f * SHIFT + o), (i, (f + 1) * SHIFT));
  }

  lemma IndexedSorted(recs: seq<Rec>, kw: seq<Entry>, p: Place)
    requires Indexed(recs, kw, p)
    ensures SortedKeys(kw)
  {
  }

  /** The nested loops gather, for every word, its occurrences in ascending order, and nothing else. */
  method GatherKeywords(recs: seq<Rec>) returns (kw: seq<Entry>)
    requires ShortFields(recs)
    ensures Indexed(recs, kw, (|recs|, 0))
  {
    hide Indexed, OccursAt, WordsOf;
    kw := [];
    IndexedNothing(recs);
    for i := 0 to |recs|
      invariant Indexed(recs, kw, (i, 0))
    {
      for f := 0 to 4
        invariant Indexed(recs, kw, (i, f * SHIFT))
      {
        kw := IndexField(recs, kw, i, f);
      }
      ReviewEnds(recs, i);
      IndexedSkip(recs, kw, (i, 4 * SHIFT), (i + 1, 0));
    }
  }

  // ------------------------------------------------------------ writing the map

  function PlaceBytes(occ: seq<Place>): Str {
    if occ == [] then [] else U32(occ[0].0) + (U32(occ[0].1) + PlaceBytes(occ[1..]))
  }

  function EntryBytes(e: Entry, cur: nat): Str {
    (e.word + [0]) + (Pad(cur + |e.word| + 1) + (U32(|e.occ|) + PlaceBytes(e.occ)))
  }

  ghost predicate EntryChunks(kw: seq<Entry>, n: nat, chunks: seq<Str>) {
    |chunks| == |kw| && forall k :: 0 <= k < |kw| ==> chunks[k] == EntryBytes(kw[k], Offset(n, chunks, k))
  }

  ghost predicate IsIndex(file: Str, recs: seq<Rec>) {
    exists kw, chunks :: Indexed(recs, kw, (|recs|, 0)) && EntryChunks(kw, |kw|, chunks) && file == FileOf(chunks)
  }

  lemma PlaceLessTotal()
    ensures StrictTotal(PlaceLess)
  {
  }

  lemma {:induction false} PlaceBytesAppend(occ: seq<Place>, x: Place)
    ensures PlaceBytes(occ + [x]) == PlaceBytes(occ) + (U32(x.0) + U32(x.1))
  {
    if occ == [] {
      assert [x][1..] == [];
      assert U32(x.1) + [] == U32(x.1);
    } else {
      assert (occ + [x])[1..] == occ[1..] + [x];
      PlaceBytesAppend(occ[1..], x);
      AssocFour(U32(occ[0].0), U32(occ[0].1), PlaceBytes(occ[1..]), U32(x.0) + U32(x.1));
    }
  }

  lemma AssocFour(a: Str, b: Str, c: Str, d: Str)
    ensures a + (b + (c + d)) == (a + (b + c)) + d
  {
  }

  method WritePlaces(occ: seq<Place>) returns (bytes: Str)
    requires Ascending(occ)
    ensures bytes == PlaceBytes(occ)
  {
    hide U32, PlaceBytes, PlaceLess, Sort;
    PlaceLessTotal();
    SortedStays(PlaceLess, occ) by {
      PlacesSorted(occ);
    }
    var sorted := Sort(PlaceLess, occ);
    PlaceBytesNone();
    bytes := [];
    for k := 0 to |sorted|
      invariant bytes == PlaceBytes(sorted[..k])
    {
      PlaceBytesAppend(sorted[..k], sorted[k]);
      assert sorted[..k + 1] == sorted[..k] + [sorted[k]];
      bytes := bytes + U32(sorted[k].0);
      bytes := bytes + U32(sorted[k].1);
    }
    assert sorted[..|sorted|] == sorted;
  }

  lemma PlacesSorted(occ: seq<Place>)
    requires Ascending(occ)
    ensures SortedBy(PlaceLess, occ)
  {
  }

  method WriteEntry(e: Entry, cur: nat) returns (bytes: Str)
    requires Ascending(e.occ)
    ensures bytes == EntryBytes(e, cur)
  {
    hide U32, PlaceBytes, Pad;
    bytes := e.word + [0];
    PadIs(cur + |e.word| + 1);
    if (cur + |bytes|) % 2 != 0 {
      bytes := bytes + [0];
    }
    bytes := bytes + U32(|e.occ|);
    var places := WritePlaces(e.occ);
    bytes := bytes + places;
  }

  lemma PadIs(n: nat)
    ensures Pad(n) == if n % 2 != 0 then [0] else []
  {
  }

  lemma PlaceBytesNone()
    ensures PlaceBytes([]) == []
  {
  }

  method BuildIndex(recs: seq<Rec>) returns (file: Str)
    requires ShortFields(recs)
    ensures IsIndex(file, recs)
  {
    hide Join, EntryBytes, FileOf, Indexed;
    JoinNone();
    var kw := GatherKeywords(recs);
    var offsets: seq<nat>, blob: Str := [], [];
    var cur := 4 + 4 * |kw|;
    ghost var chunks: seq<Str> := [];
    for k := 0 to |kw|
      invariant |offsets| == |chunks| == k && blob == Join(chunks) && cur == Offset(|kw|, chunks, k)
      invariant forall j :: 0 <= j < k ==> offsets[j] == Offset(|kw|, chunks, j)
      invariant forall j :: 0 <= j < k ==> chunks[j] == EntryBytes(kw[j], Offset(|kw|, chunks, j))
    {
      offsets := offsets + [cur];
      EntryOf(recs, kw, (|recs|, 0), k);
      var e := WriteEntry(kw[k], cur);
      blob := blob + e;
      cur := cur + |e|;
      OffsetsGrow(|kw|, chunks, e);
      chunks := chunks + [e];
    }
    assert offsets == Offsets(chunks);
    file := Assemble(offsets, blob, chunks);
    assert EntryChunks(kw, |kw|, chunks);
  }

  lemma EntryOf(recs: seq<Rec>, kw: seq<Entry>, p: Place, k: nat)
    requires Indexed(recs, kw, p) && k < |kw|
    ensures Lookup(kw, kw[k].word) == kw[k].occ && Ascending(kw[k].occ) && kw[k].occ != []
    ensures IsWord(kw[k].word)
  {
    hide Lookup, OccursAt;
    LookupIs(kw, k);
    assert HasKey(kw, kw[k].word);
    assert kw[k].occ[0] in Lookup(kw, kw[k].word);
    OccurringIsWord(recs, kw[k].word, kw[k].occ[0]);
  }

  /** A place of a word is a review, its field in the high byte and the word's number in the low 24 bits. */
  lemma PlacesArePacked(recs: seq<Rec>, kw: seq<Entry>, k: nat, x: Place)
    requires Indexed(recs, kw, (|recs|, 0)) && k < |kw| && x in kw[k].occ
    ensures x.0 < |recs| && x.1 < 4 * 16777216
    ensures var r := recs[x.0];
      var words := WordsOf([r.title, r.category, r.headline, r.body][x.1 / 16777216]);
      x.1 % 16777216 < |words| && words[x.1 % 16777216] == kw[k].word
  {
    hide Lookup, WordsOf;
    EntryOf(recs, kw, (|recs|, 0), k);
    assert x in Lookup(kw, kw[k].word);
    assert OccursAt(recs, kw[k].word, x);
  }

  lemma OccurringIsWord(recs: seq<Rec>, w: Str, x: Place)
    requires OccursAt(recs, w, x)
    ensures IsWord(w)
  {
    WordsAreWords(FieldText(recs[x.0], x.1 / SHIFT), 0);
  }

  // ------------------------------------------------------------ finding a word

  function Unpack(x: Place): Occurrence {
    Occurrence(x.0, x.1 / SHIFT % 256, x.1 % SHIFT)
  }

  lemma {:induction false} PlaceBytesAt(b: Str, p: nat, occ: seq<Place>, k: nat)
    requires Has(b, p, PlaceBytes(occ)) && k < |occ|
    ensures Has(b, p + 8 * k, U32(occ[k].0)) && Has(b, p + 8 * k + 4, U32(occ[k].1))
    decreases k
  {
    hide Has, U32;
    HasConcat(b, p, U32(occ[0].0), U32(occ[0].1) + PlaceBytes(occ[1..]));
    HasConcat(b, p + 4, U32(occ[0].1), PlaceBytes(occ[1..]));
    if k > 0 {
      PlaceBytesAt(b, p + 8, occ[1..], k - 1);
    }
  }

  // The word of the entry at p, its length and the packed list behind it.
  lemma EntryAtOffset(b: Str, p: nat, e: Entry)
    requires Has(b, p, EntryBytes(e, p)) && NoNul(e.word)
    ensures CStr(b, p) == e.word && Strlen(b, p) == |e.word|
    ensures var q := p + |e.word| + 1 + (p + |e.word| + 1) % 2;
      ReadU32(b, q) == |e.occ| % 4294967296 && Has(b, q + 4, PlaceBytes(e.occ))
  {
    hide Has, CStr, Strlen, U32, ReadU32, PlaceBytes, Pad, NoNul;
    var body := U32(|e.occ|) + PlaceBytes(e.occ);
    var pad := Pad(p + |e.word| + 1);
    StringAt(b, p, e.word, pad + body);
    HasConcat(b, p + |e.word| + 1, pad, body);
    var q := p + |e.word| + 1 + |pad|;
    HasConcat(b, q, U32(|e.occ|), PlaceBytes(e.occ));
    ReadBackU32(b, q, |e.occ|);
  }

  lemma {:induction false} PlaceBytesLength(occ: seq<Place>)
    ensures |PlaceBytes(occ)| == 8 * |occ|
  {
    if occ != [] {
      PlaceBytesLength(occ[1..]);
    }
  }
}
