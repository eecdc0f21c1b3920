/**
  The search engine over the two files: keyword lookup, phrase matching and the
  conjunction of terms, which together equal a brute-force scan of the reviews.
 */
module AmazonSearch {
  import opened Bytes
  import opened Words
  import opened TableFile
  import opened AmazonDatabase
  import opened AmazonIndex
  import opened AmazonQuery

  const WRAP: nat := 4294967296

  datatype Option<T> = None | Some(value: T)

  // ------------------------------------------------------------ what a search should return

  // The term occurs as consecutive words of field f, from word o on.
  predicate PhraseAt(r: Rec, term: Term, f: nat, o: nat) {
    var words := WordsOf(FieldText(r, f));
    f < 4 && o + |term| <= |words| && words[o..o + |term|] == term
  }

  ghost predicate TermMatches(r: Rec, term: Term) {
    exists f, o :: PhraseAt(r, term, f, o)
  }

  ghost predicate Matches(r: Rec, terms: seq<Term>) {
    forall t :: t in terms ==> TermMatches(r, t)
  }

  // The term is a slice of the words.
  predicate SliceAt(words: seq<Str>, o: nat, term: Term) {
    o + |term| <= |words| && words[o..o + |term|] == term
  }

  ghost predicate Consecutive(text: Str, term: Term) {
    exists o :: SliceAt(WordsOf(text), o, term)
  }

  /** A term matches a review through its title, category, headline or body, and through nothing else. */
  lemma MatchesSomeText(r: Rec, term: Term)
    ensures TermMatches(r, term) <==>
      (Consecutive(r.title, term) || Consecutive(r.category, term) ||
       Consecutive(r.headline, term) || Consecutive(r.body, term))
  {
    hide WordsOf;
    if TermMatches(r, term) {
      var f, o :| PhraseAt(r, term, f, o);
      TextHas(r, term, f, o);
    }
    if Consecutive(r.title, term) {
      PhraseIn(r, term, 0);
    } else if Consecutive(r.category, term) {
      PhraseIn(r, term, 1);
    } else if Consecutive(r.headline, term) {
      PhraseIn(r, term, 2);
    } else if Consecutive(r.body, term) {
      PhraseIn(r, term, 3);
    }
  }

  lemma TextHas(r: Rec, term: Term, f: nat, o: nat)
    requires PhraseAt(r, term, f, o)
    ensures f < 4 && Consecutive([r.title, r.category, r.headline, r.body][f], term)
  {
    hide WordsOf;
    assert SliceAt(WordsOf([r.title, r.category, r.headline, r.body][f]), o, term);
  }

  lemma PhraseIn(r: Rec, term: Term, f: nat)
    requires f < 4 && Consecutive([r.title, r.category, r.headline, r.body][f], term)
    ensures TermMatches(r, term)
  {
    hide WordsOf;
    var text := [r.title, r.category, r.headline, r.body][f];
    var o :| SliceAt(WordsOf(text), o, term);
    assert PhraseAt(r, term, f, o);
  }

  // ------------------------------------------------------------ review numbers as int

  const INT_LIMIT := 2147483648

  // static_cast<int> of a 32-bit review number.
  function ToInt(i: nat): int {
    if i < INT_LIMIT then i else i - WRAP
  }

  predicate IsInt(j: int) {
    -INT_LIMIT <= j < INT_LIMIT
  }

  // j is what the cast makes of the number of a review that matches the term.
  ghost predicate Hit(recs: seq<Rec>, term: Term, j: int) {
    IsInt(j) && j % WRAP < |recs| && TermMatches(recs[j % WRAP], term)
  }

  lemma CastBack(i: nat)
    requires i < WRAP
    ensures IsInt(ToInt(i)) && ToInt(i) % WRAP == i
  {
  }

  lemma CastForth(j: int)
    requires IsInt(j)
    ensures ToInt(j % WRAP) == j
  {
  }

  // ------------------------------------------------------------ occurrence lists

  predicate Listed(recs: seq<Rec>, w: Str, o: Occurrence) {
    o.review < |recs| && OccursIn(recs[o.review], w, o.field, o.offset)
  }

  ghost predicate Nowhere(recs: seq<Rec>, w: Str) {
    forall o :: !Listed(recs, w, o)
  }

  predicate OccurrenceLess(a: Occurrence, b: Occurrence) {
    a.review < b.review || (a.review == b.review && (a.field < b.field || (a.field == b.field && a.offset < b.offset)))
  }

  ghost predicate ListsAll(recs: seq<Rec>, w: Str, occ: seq<Occurrence>) {
    && (forall o :: o in occ <==> Listed(recs, w, o))
    && (forall i, j :: 0 <= i < j < |occ| ==> OccurrenceLess(occ[i], occ[j]))
  }

  // Fields 0 to 3 are title, category, headline and body.
  lemma ListedInText(recs: seq<Rec>, w: Str, o: Occurrence)
    ensures Listed(recs, w, o) <==>
      o.review < |recs| && o.field < 4 &&
      var r := recs[o.review];
      var words := WordsOf([r.title, r.category, r.headline, r.body][o.field]);
      o.offset < |words| && words[o.offset] == w
  {
    hide WordsOf;
  }

  lemma ListsAllInText(recs: seq<Rec>, w: Str, occ: seq<Occurrence>)
    requires ListsAll(recs, w, occ)
    ensures forall o :: o in occ <==>
      o.review < |recs| && o.field < 4 &&
      var r := recs[o.review];
      var words := WordsOf([r.title, r.category, r.headline, r.body][o.field]);
      o.offset < |words| && words[o.offset] == w
  {
    hide Listed, WordsOf;
    forall o ensures o in occ <==>
      o.review < |recs| && o.field < 4 &&
      var r := recs[o.review];
      var words := WordsOf([r.title, r.category, r.headline, r.body][o.field]);
      o.offset < |words| && words[o.offset] == w
    {
      ListedInText(recs, w, o);
    }
  }

  function Pack(o: Occurrence): Place {
    (o.review, o.field * SHIFT + o.offset)
  }

  lemma PackUnpack(recs: seq<Rec>, w: Str, o: Occurrence)
    requires ShortFields(recs) && Listed(recs, w, o)
    ensures OccursAt(recs, w, Pack(o)) && Unpack(Pack(o)) == o
  {
    hide WordsOf;
    assert recs[o.review] in recs;
    assert (o.field * SHIFT + o.offset) / SHIFT == o.field && (o.field * SHIFT + o.offset) % SHIFT == o.offset;
  }

  lemma UnpackListed(recs: seq<Rec>, w: Str, x: Place)
    requires OccursAt(recs, w, x)
    ensures Listed(recs, w, Unpack(x))
  {
    hide WordsOf;
  }

  lemma UnpackMonotone(recs: seq<Rec>, w: Str, x: Place, y: Place)
    requires OccursAt(recs, w, x) && OccursAt(recs, w, y) && PlaceLess(x, y)
    ensures OccurrenceLess(Unpack(x), Unpack(y))
  {
    hide WordsOf;
    assert x.1 == x.1 / SHIFT * SHIFT + x.1 % SHIFT;
    assert y.1 == y.1 / SHIFT * SHIFT + y.1 % SHIFT;
  }

  lemma PlacesListAll(recs: seq<Rec>, kw: seq<Entry>, k: nat, occ: seq<Occurrence>)
    requires ShortFields(recs) && Indexed(recs, kw, (|recs|, 0)) && k < |kw|
    requires |occ| == |kw[k].occ| && forall i: nat :: 0 <= i < |occ| ==> occ[i] == Unpack(kw[k].occ[i])
    ensures ListsAll(recs, kw[k].word, occ)
  {
    hide Lookup, OccursAt, Listed, OccurrenceLess, Unpack, ShortFields, SortedKeys;
    var w, places := kw[k].word, kw[k].occ;
    EntryOf(recs, kw, (|recs|, 0), k);
    assert forall x :: x in places <==> OccursAt(recs, w, x) && PlaceLess(x, (|recs|, 0));
    forall o ensures o in occ <==> Listed(recs, w, o) {
      if o in occ {
        var i :| 0 <= i < |occ| && occ[i] == o;
        assert places[i] in places;
        UnpackListed(recs, w, places[i]);
      }
      if Listed(recs, w, o) {
        PackUnpack(recs, w, o);
        InRange(recs, w, Pack(o));
        var i :| 0 <= i < |places| && places[i] == Pack(o);
        assert occ[i] == o;
      }
    }
    forall i, j | 0 <= i < j < |occ| ensures OccurrenceLess(occ[i], occ[j]) {
      assert places[i] in places && places[j] in places;
      UnpackMonotone(recs, w, places[i], places[j]);
    }
  }

  lemma InRange(recs: seq<Rec>, w: Str, x: Place)
    requires OccursAt(recs, w, x)
    ensures PlaceLess(x, (|recs|, 0))
  {
  }

  lemma OccurrenceHasKey(recs: seq<Rec>, kw: seq<Entry>, w: Str, x: Place)
    requires Indexed(recs, kw, (|recs|, 0)) && OccursAt(recs, w, x)
    ensures HasKey(kw, w)
  {
    hide Lookup, OccursAt, SortedKeys;
    InRange(recs, w, x);
    assert x in Lookup(kw, w);
  }

  // A word without a key occurs nowhere.
  lemma NoKeyNoOccurrence(recs: seq<Rec>, kw: seq<Entry>, w: Str, o: Occurrence)
    requires ShortFields(recs) && Indexed(recs, kw, (|recs|, 0)) && !HasKey(kw, w)
    ensures !Listed(recs, w, o)
  {
    hide Lookup, OccursAt, Listed, ShortFields, SortedKeys;
    if Listed(recs, w, o) {
      PackUnpack(recs, w, o);
      OccurrenceHasKey(recs, kw, w, Pack(o));
    }
  }

  // ------------------------------------------------------------ the entry table

  lemma KeyAt(recs: seq<Rec>, kw: seq<Entry>, chunks: seq<Str>, k: nat)
    requires Indexed(recs, kw, (|recs|, 0)) && EntryChunks(kw, |kw|, chunks) && |FileOf(chunks)| < WRAP && k < |kw|
    ensures var b := FileOf(chunks);
      var p := ReadU32(b, 4 + 4 * k);
      && CStr(b, p) == kw[k].word && Strlen(b, p) == |kw[k].word|
      && var q := p + |kw[k].word| + 1 + (p + |kw[k].word| + 1) % 2;
         ReadU32(b, q) == |kw[k].occ| % WRAP && Has(b, q + 4, PlaceBytes(kw[k].occ))
  {
    hide FileOf, CStr, Strlen, ReadU32, PlaceBytes, Has, EntryBytes, Lookup, IsWord, Indexed;
    EntryAt(chunks, k);
    EntryOf(recs, kw, (|recs|, 0), k);
    WordHasNoNul(kw[k].word);
    EntryAtOffset(FileOf(chunks), Offset(|kw|, chunks, k), kw[k]);
  }

  lemma WordHasNoNul(w: Str)
    requires IsWord(w)
    ensures NoNul(w)
  {
  }

  lemma CountFits(b: Str, p: nat, occ: seq<Place>)
    requires Has(b, p, PlaceBytes(occ)) && |b| < WRAP
    ensures |occ| < WRAP
  {
    PlaceBytesLength(occ);
  }

  // Everything below the lower bound is smaller, everything from it on is not.
  predicate Splits(kw: seq<Entry>, w: Str, k: nat) {
    && k <= |kw|
    && (forall j :: 0 <= j < k ==> Less(kw[j].word, w))
    && (forall j :: k <= j < |kw| ==> !Less(kw[j].word, w))
  }

  lemma SplitFindsKey(kw: seq<Entry>, w: Str, k: nat)
    requires Splits(kw, w, k) && SortedKeys(kw)
    ensures HasKey(kw, w) <==> k < |kw| && kw[k].word == w
  {
    hide Less;
    if j :| 0 <= j < |kw| && kw[j].word == w {
      LessTotal(w, w);
    }
  }

  lemma HalfBelow(kw: seq<Entry>, w: Str, mid: nat)
    requires SortedKeys(kw) && mid < |kw|
    ensures Less(kw[mid].word, w) ==> forall j :: 0 <= j <= mid ==> Less(kw[j].word, w)
    ensures !Less(kw[mid].word, w) ==> forall j :: mid <= j < |kw| ==> !Less(kw[j].word, w)
  {
    hide Less;
    forall j | 0 <= j < mid && Less(kw[mid].word, w) ensures Less(kw[j].word, w) {
      LessTransitive(kw[j].word, kw[mid].word, w);
    }
    forall j | mid < j < |kw| && !Less(kw[mid].word, w) ensures !Less(kw[j].word, w) {
      if Less(kw[j].word, w) {
        LessTransitive(kw[mid].word, kw[j].word, w);
      }
    }
  }

  // std::lower_bound over the offset table, comparing with strcmp.
  method LowerBound(file: Str, numKeywords: nat, w: Str, ghost recs: seq<Rec>, ghost kw: seq<Entry>,
      ghost chunks: seq<Str>)
    returns (first: nat)
    requires Indexed(recs, kw, (|recs|, 0)) && EntryChunks(kw, |kw|, chunks)
    requires file == FileOf(chunks) && |file| < WRAP && numKeywords == |kw|
    ensures Splits(kw, w, first)
  {
    hide Less, FileOf, CStr, Strlen, ReadU32, Has, PlaceBytes, Indexed, EntryChunks, SortedKeys;
    first := 0;
    var len := numKeywords;
    IndexedSorted(recs, kw, (|recs|, 0));
    while len > 0
      invariant first + len <= |kw|
      invariant forall j :: 0 <= j < first ==> Less(kw[j].word, w)
      invariant forall j :: first + len <= j < |kw| ==> !Less(kw[j].word, w)
    {
      var half := len / 2;
      var mid := first + half;
      KeyAt(recs, kw, chunks, mid);
      HalfBelow(kw, w, mid);
      if Less(CStr(file, ReadU32(file, 4 + 4 * mid)), w) {
        first := mid + 1;
        len := len - half - 1;
      } else {
        len := half;
      }
    }
  }

  method ReadOccurrences(file: Str, at: nat, count: nat, ghost places: seq<Place>) returns (occ: seq<Occurrence>)
    requires Has(file, at, PlaceBytes(places)) && count == |places|
    requires forall x :: x in places ==> x.0 < WRAP && x.1 < WRAP
    ensures |occ| == |places| && forall i: nat :: 0 <= i < |occ| ==> occ[i] == Unpack(places[i])
  {
    hide Has, PlaceBytes, ReadU32, U32;
    occ := [];
    var p := at;
    for i := 0 to count
      invariant |occ| == i && p == at + 8 * i
      invariant forall j :: 0 <= j < i ==> occ[j] == Unpack(places[j])
    {
      PlaceBytesAt(file, at, places, i);
      assert places[i] in places;
      ReadBackU32(file, p, places[i].0);
      ReadBackU32(file, p + 4, places[i].1);
      var review := ReadU32(file, p);
      var location := ReadU32(file, p + 4);
      p := p + 8;
      occ := occ + [Occurrence(review, location / SHIFT % 256, location % SHIFT)];
    }
  }

  lemma PlacesFit(recs: seq<Rec>, kw: seq<Entry>, k: nat)
    requires ShortFields(recs) && |recs| < WRAP && Indexed(recs, kw, (|recs|, 0)) && k < |kw|
    ensures forall x :: x in kw[k].occ ==> x.0 < WRAP && x.1 < WRAP
  {
    hide WordsOf, Lookup, SortedKeys;
    EntryOf(recs, kw, (|recs|, 0), k);
    forall x | x in kw[k].occ ensures x.0 < WRAP && x.1 < WRAP {
      assert x in Lookup(kw, kw[k].word);
      assert OccursAt(recs, kw[k].word, x);
    }
  }

  // ------------------------------------------------------------ phrases

  // Every word of the term occurs at its own offset from the anchor.
  predicate Aligned(r: Rec, term: Term, f: nat, o: nat) {
    forall k :: 0 <= k < |term| ==> OccursIn(r, term[k], f, o + k)
  }

  lemma AlignedIsPhrase(r: Rec, term: Term, f: nat, o: nat)
    requires term != []
    ensures Aligned(r, term, f, o) <==> PhraseAt(r, term, f, o)
  {
    hide WordsOf;
    var words := WordsOf(FieldText(r, f));
    if Aligned(r, term, f, o) {
      assert OccursIn(r, term[|term| - 1], f, o + (|term| - 1));
      assert forall k :: 0 <= k < |term| ==> OccursIn(r, term[k], f, o + k);
      assert words[o..o + |term|] == term;
    }
    if PhraseAt(r, term, f, o) {
      forall k | 0 <= k < |term| ensures OccursIn(r, term[k], f, o + k) {
        assert words[o..o + |term|][k] == words[o + k];
      }
    }
  }

  lemma OffsetInField(recs: seq<Rec>, i: nat, w: Str, f: nat, o: nat)
    requires ShortFields(recs) && i < |recs| && OccursIn(recs[i], w, f, o)
    ensures o < SHIFT
  {
    hide WordsOf;
    assert recs[i] in recs;
  }

  // The 32-bit sum of the anchor's offset and k reaches 2^24 before it can wrap around.
  lemma NoWrap(recs: seq<Rec>, i: nat, term: Term, f: nat, o: nat, n: nat)
    requires ShortFields(recs) && i < |recs| && o < SHIFT && n <= |term|
    requires forall k :: 0 <= k < n ==> OccursIn(recs[i], term[k], f, (o + k) % WRAP)
    ensures o + n <= SHIFT
  {
    hide OccursIn, ShortFields;
    if o + n > SHIFT {
      OffsetInField(recs, i, term[SHIFT - o], f, (o + (SHIFT - o)) % WRAP);
    }
  }

  // Membership of the wrapped position for every k is the phrase itself.
  lemma WrappedIsPhrase(recs: seq<Rec>, i: nat, term: Term, f: nat, o: nat)
    requires ShortFields(recs) && i < |recs| && term != [] && o < SHIFT
    ensures (forall k :: 0 <= k < |term| ==> OccursIn(recs[i], term[k], f, (o + k) % WRAP)) <==>
      PhraseAt(recs[i], term, f, o)
  {
    hide OccursIn, ShortFields, PhraseAt;
    AlignedIsPhrase(recs[i], term, f, o);
    if forall k :: 0 <= k < |term| ==> OccursIn(recs[i], term[k], f, (o + k) % WRAP) {
      NoWrap(recs, i, term, f, o, |term|);
      forall k | 0 <= k < |term| ensures OccursIn(recs[i], term[k], f, o + k) {
        assert (o + k) % WRAP == o + k;
      }
    }
    if Aligned(recs[i], term, f, o) {
      forall k | 0 <= k < |term| ensures OccursIn(recs[i], term[k], f, (o + k) % WRAP) {
        OffsetInField(recs, i, term[k], f, o + k);
      }
    }
  }

  // ------------------------------------------------------------ the engine

  class Amazon {
    const databaseFile: Option<Str>
    const keywordIndexFile: Option<Str>
    var numReviews: nat
    var numKeywords: nat
    // The reviews both files were built from.
    ghost const recs: seq<Rec>

    ghost predicate Valid()
      reads this
    {
      && ShortFields(recs) && |recs| < WRAP && (forall r :: r in recs ==> CleanStrings(r))
      && (databaseFile.Some? ==>
            IsDatabase(databaseFile.value, recs) && |databaseFile.value| < WRAP && numReviews == |recs|)
      && (keywordIndexFile.Some? ==> |keywordIndexFile.value| < WRAP && HoldsIndex(keywordIndexFile.value, numKeywords))
    }

    ghost predicate HoldsIndex(file: Str, n: nat)
      reads this
    {
      exists kw, chunks ::
        Indexed(recs, kw, (|recs|, 0)) && EntryChunks(kw, |kw|, chunks) && file == FileOf(chunks) && n == |kw|
    }

    constructor (db: Option<Str>, index: Option<Str>, ghost reviews: seq<Rec>)
      requires ShortFields(reviews) && |reviews| < WRAP && (forall r :: r in reviews ==> CleanStrings(r))
      requires db.Some? ==> IsDatabase(db.value, reviews) && |db.value| < WRAP
      requires index.Some? ==> IsIndex(index.value, reviews) && |index.value| < WRAP
      ensures Valid() && databaseFile == db && keywordIndexFile == index && recs == reviews
    {
      hide FileOf, ReadU32, EntryChunks, Indexed, ShortFields, CleanStrings;
      databaseFile := db;
      keywordIndexFile := index;
      recs := reviews;
      numReviews := if db.Some? then ReadU32(db.value, 0) else 0;
      numKeywords := if index.Some? then ReadU32(index.value, 0) else 0;
      new;
      if db.Some? {
        CountOfDatabase(db.value, reviews);
      }
      if index.Some? {
        CountOfIndex(index.value, reviews);
      }
    }

    static lemma CountOfDatabase(file: Str, reviews: seq<Rec>)
      requires IsDatabase(file, reviews) && |file| < WRAP
      ensures ReadU32(file, 0) == |reviews|
    {
      hide FileOf, ReadU32, RecBytes;
      var chunks :| file == FileOf(chunks) && ChunksOf(reviews, |reviews|, chunks);
      CountAt(chunks);
    }

    static lemma CountOfIndex(file: Str, reviews: seq<Rec>)
      requires IsIndex(file, reviews) && |file| < WRAP
      ensures exists kw, chunks ::
        && Indexed(reviews, kw, (|reviews|, 0)) && EntryChunks(kw, |kw|, chunks) && file == FileOf(chunks)
                && ReadU32(file, 0) == |kw|
    {
      hide FileOf, ReadU32, EntryBytes, Indexed;
      var kw, chunks :| Indexed(reviews, kw, (|reviews|, 0)) && EntryChunks(kw, |kw|, chunks) && file == FileOf(chunks);
      CountAt(chunks);
    }

    /** Review i of the built database, or false past its end or without a file. */
    method GetReview(index: nat) returns (ok: bool, review: Review)
      requires Valid()
      ensures ok <==> databaseFile.Some? && index < |recs|
      ensures ok ==> var r := recs[index];
        && review.index == index && review.title == r.title && review.category == r.category
        && review.headline == r.headline && review.body == r.body
      ensures ok ==> var r := recs[index];
        && review.rating == r.rating % 256 && review.month == r.month % 256 && review.day == r.day % 256
        && review.year == r.year % 65536
    {
      hide IsDatabase, ShortFields, CleanStrings;
      review := Review(0, [], [], 0, [], [], 0, 0, 0);
      if databaseFile.None? {
        ok := false;
      } else {
        ok, review := AmazonDatabase.GetReview(databaseFile.value, numReviews, index, recs);
      }
    }

    /**
      The sorted list of all occurrences of the word, as far as its first NUL since strcmp looks no
      further; false exactly when there is none.
     */
    method FindKeyword(word: Str) returns (ok: bool, occ: seq<Occurrence>)
      requires Valid()
      ensures keywordIndexFile.Some? ==> ListsAll(recs, CStr(word, 0), occ) && (ok <==> occ != [])
      ensures keywordIndexFile.Some? ==> forall o :: o in occ <==>
        o.review < |recs| && o.field < 4 &&
        var r := recs[o.review];
        var words := WordsOf([r.title, r.category, r.headline, r.body][o.field]);
        o.offset < |words| && words[o.offset] == CStr(word, 0)
      ensures keywordIndexFile.None? ==> !ok
    {
      hide Indexed, EntryChunks, FileOf, CStr, Strlen, ReadU32, Has, PlaceBytes, ShortFields;
      hide IsDatabase, CleanStrings, Lookup, IsWord, Listed;
      ok, occ := false, [];
      if keywordIndexFile.None? {
        return;
      }
      var file := keywordIndexFile.value;
      var w := CStr(word, 0);
      ghost var kw: seq<Entry>, chunks: seq<Str> :|
        && Indexed(recs, kw, (|recs|, 0)) && EntryChunks(kw, |kw|, chunks)
        && file == FileOf(chunks) && numKeywords == |kw|;
      IndexedSorted(recs, kw, (|recs|, 0));
      var k := LowerBound(file, numKeywords, w, recs, kw, chunks);
      SplitFindsKey(kw, w, k);
      if k == numKeywords {
        NothingListed(recs, kw, w);
        ListsAllInText(recs, w, []);
        return;
      }
      KeyAt(recs, kw, chunks, k);
      var p := ReadU32(file, 4 + 4 * k);
      if CStr(file, p) != w {
        NothingListed(recs, kw, w);
        ListsAllInText(recs, w, []);
        return;
      }
      p := p + Strlen(file, p) + 1;
      if p % 2 != 0 {
        p := p + 1;
      }
      var count := ReadU32(file, p);
      p := p + 4;
      CountFits(file, p, kw[k].occ);
      PlacesFit(recs, kw, k);
      EntryOf(recs, kw, (|recs|, 0), k);
      occ := ReadOccurrences(file, p, count, kw[k].occ);
      PlacesListAll(recs, kw, k, occ);
      ok := true;
      ListsAllInText(recs, w, occ);
    }

    static lemma NothingListed(reviews: seq<Rec>, kw: seq<Entry>, w: Str)
      requires ShortFields(reviews) && Indexed(reviews, kw, (|reviews|, 0)) && !HasKey(kw, w)
      ensures ListsAll(reviews, w, [])
    {
      hide Indexed, ShortFields, Listed;
      forall o ensures !Listed(reviews, w, o) {
        NoKeyNoOccurrence(reviews, kw, w, o);
      }
    }

    method MatchWord(word: Str) returns (matches: set<int>)
      requires Valid() && keywordIndexFile.Some? && IsWord(word)
      ensures forall j: int :: j in matches <==> Hit(recs, [word], j)
    {
      hide OccursIn, Valid, PhraseAt, CStr, ToInt, IsInt;
      FewReviews();
      WholeWord(word);
      var ok, occ := FindKeyword(word);
      matches := {};
      for k := 0 to |occ|
        invariant forall j: int :: j in matches <==> exists n :: 0 <= n < k && ToInt(occ[n].review) == j
      {
        matches := matches + {ToInt(occ[k].review)};
      }
      forall j: int ensures j in matches <==> Hit(recs, [word], j) {
        if j in matches {
          var n :| 0 <= n < |occ| && ToInt(occ[n].review) == j;
          assert Listed(recs, word, occ[n]);
          CastBack(occ[n].review);
          WordIsPhrase(recs[occ[n].review], word, occ[n].field, occ[n].offset);
        }
        if Hit(recs, [word], j) {
          var i := j % WRAP;
          var f, o :| PhraseAt(recs[i], [word], f, o);
          WordIsPhrase(recs[i], word, f, o);
          assert Listed(recs, word, Occurrence(i, f, o));
          var n :| 0 <= n < |occ| && occ[n] == Occurrence(i, f, o);
          CastForth(j);
        }
      }
    }

    lemma FewReviews()
      requires Valid()
      ensures |recs| < WRAP && ShortFields(recs) && (databaseFile.Some? ==> |recs| < INT_LIMIT)
    {
      hide ShortFields, RecBytes, FileOf, HoldsIndex;
      if databaseFile.Some? {
        var chunks :| databaseFile.value == FileOf(chunks) && ChunksOf(recs, |recs|, chunks);
        FileHoldsTable(chunks);
      }
    }

    static lemma WordIsPhrase(r: Rec, w: Str, f: nat, o: nat)
      ensures OccursIn(r, w, f, o) <==> PhraseAt(r, [w], f, o)
    {
      hide OccursIn, PhraseAt;
      AlignedIsPhrase(r, [w], f, o);
      assert [w][0] == w && o + 0 == o;
      assert Aligned(r, [w], f, o) <==> OccursIn(r, [w][0], f, o + 0);
    }

    // positions[k]: every place of word k of the phrase; none at all when some word is unknown.
    method PhrasePositions(term: Term) returns (anyEmpty: bool, positions: seq<set<Occurrence>>)
      requires Valid() && keywordIndexFile.Some? && forall w :: w in term ==> IsWord(w)
      ensures anyEmpty ==> exists k :: 0 <= k < |term| && Nowhere(recs, term[k])
      ensures !anyEmpty ==> |positions| == |term|
      ensures !anyEmpty ==> forall k, o :: 0 <= k < |term| ==> (o in positions[k] <==> Listed(recs, term[k], o))
    {
      hide Valid, IsWord, Listed, OccurrenceLess, CStr;
      anyEmpty, positions := false, [];
      var k := 0;
      while k < |term|
        invariant 0 <= k <= |term| && |positions| == k
        invariant forall j, o :: 0 <= j < k ==> (o in positions[j] <==> Listed(recs, term[j], o))
      {
        assert term[k] in term;
        WholeWord(term[k]);
        var ok, occ := FindKeyword(term[k]);
        if !ok {
          assert forall o :: o in occ <==> Listed(recs, term[k], o);
          assert Nowhere(recs, term[k]);
          anyEmpty := true;
          return;
        }
        positions := positions + [set o | o in occ];
        k := k + 1;
      }
    }

    method MatchPhrase(term: Term) returns (matches: set<int>)
      requires Valid() && keywordIndexFile.Some? && term != [] && forall w :: w in term ==> IsWord(w)
      ensures forall j: int :: j in matches <==> Hit(recs, term, j)
    {
      hide Valid, IsWord, PhraseAt, OccursIn, ShortFields, ToInt, IsInt;
      FewReviews();
      var anyEmpty, positions := PhrasePositions(term);
      matches := {};
      if anyEmpty {
        ghost var k :| 0 <= k < |term| && Nowhere(recs, term[k]);
        forall j: int ensures !Hit(recs, term, j) {
          NoPhraseWithout(recs, j % WRAP, term, k);
        }
      } else {
        var rest := positions[0];
        while rest != {}
          invariant rest <= positions[0]
          invariant forall j: int ::
            j in matches <==> IsInt(j) && Anchored(positions, positions[0] - rest, term, j % WRAP)
          decreases rest
        {
          var anchor :| anchor in rest;
          var ok := true;
          var k := 1;
          while k < |term| && ok
            invariant 1 <= k <= |term|
            invariant ok <==> forall j :: 1 <= j < k ==> Needed(anchor, j) in positions[j]
          {
            ok := Needed(anchor, k) in positions[k];
            k := k + 1;
          }
          AnchoredNext(positions, positions[0] - rest, term, anchor);
          assert Listed(recs, term[0], anchor);
          OnlyCast(anchor.review);
          if ok {
            matches := matches + {ToInt(anchor.review)};
          }
          rest := rest - {anchor};
          assert positions[0] - rest == positions[0] - (rest + {anchor}) + {anchor};
        }
        assert positions[0] - {} == positions[0];
        forall j: int ensures j in matches <==> Hit(recs, term, j) {
          AnchoredIsMatch(recs, term, positions, j % WRAP);
        }
      }
    }

    /**
      The conjunction of all terms: the casts of exactly the review numbers that a brute-force scan
      would return, in order. These are the numbers themselves if and only if no review from number
      2^31 on matches, and so always when there is a database file, which cannot hold that many.
     */
    method SearchKeywordIndex(query: Str) returns (found: bool, indexes: seq<int>)
      requires Valid()
      ensures found <==> indexes != []
      ensures forall j, k :: 0 <= j < k < |indexes| ==> indexes[j] < indexes[k]
      ensures keywordIndexFile.Some? ==> forall j: int :: j in indexes <==> HitsAll(recs, Terms(query), j)
      ensures keywordIndexFile.Some? ==>
        ((forall i: int :: i in indexes <==> BruteForce(recs, Terms(query), i)) <==>
         forall i :: INT_LIMIT <= i < |recs| ==> !BruteForce(recs, Terms(query), i))
      ensures keywordIndexFile.Some? && databaseFile.Some? ==>
        forall i: int :: i in indexes <==> BruteForce(recs, Terms(query), i)
      ensures keywordIndexFile.None? ==> indexes == []
    {
      hide Valid, IsWord, TermMatches, Terms, Hit, IsInt, HitsAll, Matches, BruteForce;
      found, indexes := false, [];
      var terms := ConvertQuery(query);
      TermsOf(query);
      NothingHit(recs);
      FewReviews();
      if terms == [] {
        return;
      }
      var result: set<int> := {};
      var first := true;
      var t := 0;
      while t < |terms|
        invariant 0 <= t <= |terms| && (first <==> t == 0) && (first ==> result == {})
        invariant !first ==> forall j: int :: j in result <==> keywordIndexFile.Some? && HitsAll(recs, terms[..t], j)
      {
        assert terms[t] in terms;
        var matches := MatchTerm(terms[t]);
        HitsNext(recs, terms, t);
        if first {
          result := matches;
          first := false;
        } else {
          result := result * matches;
        }
        t := t + 1;
        if result == {} {
          break;
        }
      }
      HitsPrefix(recs, terms, t);
      HitsAreInts(recs, terms[..t]);
      indexes := Ascend(result);
      assert indexes != [] ==> indexes[0] in indexes;
      assert terms[..|terms|] == terms;
      found := indexes != [];
      if keywordIndexFile.Some? {
        CastsAreNumbers(recs, terms, indexes);
      }
    }

    method MatchTerm(term: Term) returns (matches: set<int>)
      requires Valid() && term != [] && forall w :: w in term ==> IsWord(w)
      ensures forall j: int :: j in matches <==> keywordIndexFile.Some? && Hit(recs, term, j)
    {
      hide Valid, IsWord, PhraseAt, Hit;
      if keywordIndexFile.None? {
        matches := {};
      } else if |term| == 1 {
        assert term == [term[0]] && term[0] in term;
        matches := MatchWord(term[0]);
      } else {
        matches := MatchPhrase(term);
      }
    }
  }

  lemma TermsOf(q: Str)
    ensures forall t :: t in Terms(q) ==> t != [] && forall w :: w in t ==> IsWord(w)
  {
    TermsAreTerms(q, 0);
  }

  lemma WholeWord(w: Str)
    requires IsWord(w)
    ensures CStr(w, 0) == w
  {
    CStrWhole(w, 0);
    assert w[0..] == w;
  }

  lemma {:induction false} CStrWhole(w: Str, p: nat)
    requires p <= |w| && IsWord(w)
    ensures CStr(w, p) == w[p..]
    decreases |w| - p
  {
    if p < |w| {
      CStrWhole(w, p + 1);
    }
  }

  // The one integer that stands for review i.
  lemma OnlyCast(i: nat)
    requires i < WRAP
    ensures forall j: int :: j == ToInt(i) <==> IsInt(j) && j % WRAP == i
  {
    CastBack(i);
    forall j: int | IsInt(j) ensures ToInt(j % WRAP) == j {
      CastForth(j);
    }
  }

  // What a scan of the original reviews returns.
  ghost predicate BruteForce(recs: seq<Rec>, terms: seq<Term>, i: int) {
    terms != [] && 0 <= i < |recs| && Matches(recs[i], terms)
  }

  /** The search finds the reviews that have every term, word for word, in one of their four texts. */
  lemma FoundInTexts(recs: seq<Rec>, query: Str, i: int)
    ensures BruteForce(recs, Terms(query), i) <==>
      Terms(query) != [] && 0 <= i < |recs| &&
      forall t :: t in Terms(query) ==>
        exists text :: text in [recs[i].title, recs[i].category, recs[i].headline, recs[i].body] && Consecutive(text, t)
  {
    hide TermMatches, Consecutive, Terms;
    if 0 <= i < |recs| {
      var r := recs[i];
      forall t | t in Terms(query)
        ensures TermMatches(r, t) <==>
          exists text :: text in [r.title, r.category, r.headline, r.body] && Consecutive(text, t)
      {
        MatchesSomeText(r, t);
        var texts := [r.title, r.category, r.headline, r.body];
        assert r.title in texts && r.category in texts && r.headline in texts && r.body in texts;
      }
    }
  }

  lemma FileHoldsTable(chunks: seq<Str>)
    ensures |FileOf(chunks)| >= 4 + 4 * |chunks|
  {
    TableLength(Offsets(chunks));
  }

  // j is the cast of a review that matches all terms, of which there is at least one.
  ghost predicate HitsAll(recs: seq<Rec>, terms: seq<Term>, j: int) {
    terms != [] && IsInt(j) && j % WRAP < |recs| && Matches(recs[j % WRAP], terms)
  }

  /** The integers found are the numbers of the matching reviews as 32-bit signed integers. */
  lemma HitsAreCasts(recs: seq<Rec>, terms: seq<Term>, j: int)
    requires |recs| < WRAP
    ensures HitsAll(recs, terms, j) <==>
      exists i: int :: BruteForce(recs, terms, i) && j == if i < 2147483648 then i else i - 4294967296
  {
    hide Matches;
    if HitsAll(recs, terms, j) {
      assert BruteForce(recs, terms, j % WRAP);
    }
  }

  lemma NothingHit(recs: seq<Rec>)
    ensures forall j: int :: !HitsAll(recs, [], j) && !BruteForce(recs, [], j)
  {
  }

  lemma HitsNext(recs: seq<Rec>, terms: seq<Term>, t: nat)
    requires t < |terms|
    ensures forall j: int :: HitsAll(recs, terms[..t + 1], j) <==>
      (t == 0 || HitsAll(recs, terms[..t], j)) && Hit(recs, terms[t], j)
  {
    hide TermMatches;
    assert terms[..t + 1] == terms[..t] + [terms[t]];
  }

  lemma HitsPrefix(recs: seq<Rec>, terms: seq<Term>, t: nat)
    requires 0 < t <= |terms|
    ensures forall j: int :: HitsAll(recs, terms, j) ==> HitsAll(recs, terms[..t], j)
  {
    hide TermMatches;
    assert forall x :: x in terms[..t] ==> x in terms;
  }

  lemma HitsAreInts(recs: seq<Rec>, terms: seq<Term>)
    ensures forall j: int :: HitsAll(recs, terms, j) ==> IsInt(j)
  {
  }

  // The casts returned are the matching review numbers unless a number does not fit an int.
  lemma CastsAreNumbers(recs: seq<Rec>, terms: seq<Term>, indexes: seq<int>)
    requires |recs| < WRAP && forall j: int :: j in indexes <==> HitsAll(recs, terms, j)
    ensures (forall i: int :: i in indexes <==> BruteForce(recs, terms, i)) <==>
      forall i :: INT_LIMIT <= i < |recs| ==> !BruteForce(recs, terms, i)
  {
    hide Matches;
    if i :| INT_LIMIT <= i < |recs| && BruteForce(recs, terms, i) {
      assert !HitsAll(recs, terms, i);
      assert i !in indexes;
    }
    forall j: int | HitsAll(recs, terms, j) && j < 0
      ensures INT_LIMIT <= j % WRAP < |recs| && BruteForce(recs, terms, j % WRAP)
    {
    }
  }

  // The position word k of a phrase must take, in 32-bit arithmetic.
  function Needed(anchor: Occurrence, k: nat): Occurrence {
    anchor.(offset := (anchor.offset + k) % WRAP)
  }

  predicate AnchorOk(positions: seq<set<Occurrence>>, term: Term, a: Occurrence)
    requires |positions| == |term|
  {
    forall k :: 1 <= k < |term| ==> Needed(a, k) in positions[k]
  }

  lemma AnchorIsPhrase(recs: seq<Rec>, term: Term, positions: seq<set<Occurrence>>, a: Occurrence)
    requires ShortFields(recs) && term != [] && |positions| == |term|
    requires forall k, o :: 0 <= k < |term| ==> (o in positions[k] <==> Listed(recs, term[k], o))
    ensures a in positions[0] && AnchorOk(positions, term, a) <==>
      a.review < |recs| && a.offset < SHIFT && PhraseAt(recs[a.review], term, a.field, a.offset)
  {
    hide OccursIn, ShortFields, PhraseAt;
    if a.review < |recs| && a.offset < SHIFT {
      WrappedIsPhrase(recs, a.review, term, a.field, a.offset);
      assert Needed(a, 0) == a;
      assert forall k :: 0 <= k < |term| ==>
        (Needed(a, k) in positions[k] <==> OccursIn(recs[a.review], term[k], a.field, (a.offset + k) % WRAP));
      assert a in positions[0] <==> Needed(a, 0) in positions[0];
    }
    if a in positions[0] {
      assert Listed(recs, term[0], a);
      OffsetInField(recs, a.review, term[0], a.field, a.offset);
    }
  }

  lemma PhraseOffset(recs: seq<Rec>, i: nat, term: Term, f: nat, o: nat)
    requires ShortFields(recs) && i < |recs| && term != [] && PhraseAt(recs[i], term, f, o)
    ensures o < SHIFT
  {
    hide OccursIn, ShortFields, PhraseAt;
    AlignedIsPhrase(recs[i], term, f, o);
    assert OccursIn(recs[i], term[0], f, o + 0);
    OffsetInField(recs, i, term[0], f, o);
  }

  ghost predicate Anchored(positions: seq<set<Occurrence>>, from: set<Occurrence>, term: Term, i: nat)
    requires |positions| == |term|
  {
    exists a :: a in from && a.review == i && AnchorOk(positions, term, a)
  }

  lemma AnchoredNext(positions: seq<set<Occurrence>>, seen: set<Occurrence>, term: Term, anchor: Occurrence)
    requires |positions| == |term|
    ensures forall i: nat :: Anchored(positions, seen + {anchor}, term, i) <==>
      Anchored(positions, seen, term, i) || (i == anchor.review && AnchorOk(positions, term, anchor))
  {
    hide AnchorOk;
    forall i: nat | Anchored(positions, seen, term, i) ensures Anchored(positions, seen + {anchor}, term, i) {
      var a :| a in seen && a.review == i && AnchorOk(positions, term, a);
      assert a in seen + {anchor};
    }
    assert anchor in seen + {anchor};
  }

  lemma AnchoredIsMatch(recs: seq<Rec>, term: Term, positions: seq<set<Occurrence>>, i: nat)
    requires ShortFields(recs) && term != [] && |positions| == |term|
    requires forall k, o :: 0 <= k < |term| ==> (o in positions[k] <==> Listed(recs, term[k], o))
    ensures Anchored(positions, positions[0], term, i) <==> i < |recs| && TermMatches(recs[i], term)
  {
    hide OccursIn, ShortFields, PhraseAt, Listed, AnchorOk;
    if Anchored(positions, positions[0], term, i) {
      var a :| a in positions[0] && a.review == i && AnchorOk(positions, term, a);
      AnchorIsPhrase(recs, term, positions, a);
      assert PhraseAt(recs[i], term, a.field, a.offset);
    }
    if i < |recs| && TermMatches(recs[i], term) {
      var f, o :| PhraseAt(recs[i], term, f, o);
      PhraseOffset(recs, i, term, f, o);
      var a := Occurrence(i, f, o);
      AnchorIsPhrase(recs, term, positions, a);
      assert a in positions[0] && a.review == i && AnchorOk(positions, term, a);
    }
  }

  lemma NoPhraseWithout(recs: seq<Rec>, i: nat, term: Term, k: nat)
    requires k < |term| && Nowhere(recs, term[k])
    ensures !(i < |recs| && TermMatches(recs[i], term))
  {
    hide OccursIn, PhraseAt;
    if i < |recs| && TermMatches(recs[i], term) {
      var f, o :| PhraseAt(recs[i], term, f, o);
      AlignedIsPhrase(recs[i], term, f, o);
      ListedAligned(recs, i, term, f, o, k);
    }
  }

  lemma ListedAligned(recs: seq<Rec>, i: nat, term: Term, f: nat, o: nat, k: nat)
    requires i < |recs| && Aligned(recs[i], term, f, o) && k < |term|
    ensures Listed(recs, term[k], Occurrence(i, f, o + k))
  {
  }

  // Iterating over a std::set<int>.
  method Ascend(s: set<int>) returns (r: seq<int>)
    requires forall x :: x in s ==> IsInt(x)
    ensures forall x :: x in r <==> x in s
    ensures forall j, k :: 0 <= j < k < |r| ==> r[j] < r[k]
  {
    r := [];
    var rest := s;
    var i := -INT_LIMIT;
    while rest != {}
      invariant rest <= s && i <= INT_LIMIT && (forall x :: x in rest ==> i <= x < INT_LIMIT)
      invariant forall x :: x in r <==> x in s - rest
      invariant forall k :: 0 <= k < |r| ==> r[k] < i
      invariant forall j, k :: 0 <= j < k < |r| ==> r[j] < r[k]
      decreases INT_LIMIT - i
    {
      if i in rest {
        r := r + [i];
        rest := rest - {i};
      }
      i := i + 1;
    }
  }
}
