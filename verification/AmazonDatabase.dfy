/**
  The review database: writing every review with its year aligned to an even
  absolute offset, and reading review i back.
 */
module AmazonDatabase {
  import opened Bytes
  import opened TableFile

  datatype Rec = Rec(title: Str, category: Str, headline: Str, body: Str, rating: int, year: int, month: int, day: int)

  datatype Review = Review(index: nat, title: Str, category: Str, rating: nat, headline: Str, body: Str,
                           year: nat, month: nat, day: nat)

  function Low(v: int): Byte {
    v % 256
  }

  function Pad(n: nat): (p: Str)
    ensures |p| == n % 2
  {
    if n % 2 != 0 then [0] else []
  }

  function Head(r: Rec): Str {
    (r.title + [0]) + ((r.category + [0]) + ([Low(r.rating)] + ((r.headline + [0]) + (r.body + [0]))))
  }

  function Tail(r: Rec): Str {
    U16(r.year) + [Low(r.month), Low(r.day)]
  }

  // The bytes of a record written at offset cur.
  function RecBytes(r: Rec, cur: nat): Str {
    Head(r) + (Pad(cur + |Head(r)|) + Tail(r))
  }

  predicate CleanStrings(r: Rec) {
    NoNul(r.title) && NoNul(r.category) && NoNul(r.headline) && NoNul(r.body)
  }

  ghost predicate ChunksOf(recs: seq<Rec>, n: nat, chunks: seq<Str>) {
    |chunks| == |recs| && forall i :: 0 <= i < |recs| ==> chunks[i] == RecBytes(recs[i], Offset(n, chunks, i))
  }

  ghost predicate IsDatabase(file: Str, recs: seq<Rec>) {
    exists chunks :: file == FileOf(chunks) && ChunksOf(recs, |recs|, chunks)
  }

  // ------------------------------------------------------------ writing

  method WriteRecord(r: Rec, cur: nat) returns (rec: Str)
    ensures rec == RecBytes(r, cur)
  {
    rec := r.title + [0];
    rec := rec + r.category + [0];
    rec := rec + [Low(r.rating)];
    rec := rec + r.headline + [0];
    rec := rec + r.body + [0];
    assert rec == Head(r);
    if (cur + |rec|) % 2 != 0 {
      rec := rec + [0];
    }
    assert rec == Head(r) + Pad(cur + |Head(r)|);
    rec := rec + U16(r.year);
    rec := rec + [Low(r.month)];
    rec := rec + [Low(r.day)];
  }

  method BuildDatabase(recs: seq<Rec>) returns (file: Str)
    ensures IsDatabase(file, recs)
  {
    hide Join, RecBytes, FileOf;
    JoinNone();
    var offsets: seq<nat>, blob: Str := [], [];
    var cur := 4 + 4 * |recs|;
    ghost var chunks: seq<Str> := [];
    for i := 0 to |recs|
      invariant |offsets| == |chunks| == i && blob == Join(chunks) && cur == Offset(|recs|, chunks, i)
      invariant forall k :: 0 <= k < i ==> offsets[k] == Offset(|recs|, chunks, k)
      invariant forall k :: 0 <= k < i ==> chunks[k] == RecBytes(recs[k], Offset(|recs|, chunks, k))
    {
      offsets := offsets + [cur];
      var rec := WriteRecord(recs[i], cur);
      blob := blob + rec;
      cur := cur + |rec|;
      OffsetsGrow(|recs|, chunks, rec);
      chunks := chunks + [rec];
    }
    assert offsets == Offsets(chunks);
    file := Assemble(offsets, blob, chunks);
    assert ChunksOf(recs, |recs|, chunks);
  }

  // ------------------------------------------------------------ reading

  lemma StringAt(b: Str, p: nat, s: Str, rest: Str)
    requires NoNul(s) && Has(b, p, (s + [0]) + rest)
    ensures CStr(b, p) == s && Strlen(b, p) == |s| && Has(b, p + |s| + 1, rest)
  {
    HasConcat(b, p, s + [0], rest);
    ReadBackCStr(b, p, s);
  }

  lemma ByteAt(b: Str, p: nat, v: Byte, rest: Str)
    requires Has(b, p, [v] + rest)
    ensures At(b, p) == v && Has(b, p + 1, rest)
  {
    HasConcat(b, p, [v], rest);
    HasIn(b, p, [v], 0);
  }

  // What the reader's cursor meets at each part of the record at p.
  predicate RecordLayout(b: Str, p: nat, r: Rec) {
    var p1 := p + |r.title| + 1;
    var p2 := p1 + |r.category| + 1;
    var p3 := p2 + 1 + |r.headline| + 1;
    var p4 := p3 + |r.body| + 1;
    var p5 := p4 + p4 % 2;
    && CStr(b, p) == r.title && Strlen(b, p) == |r.title|
    && CStr(b, p1) == r.category && Strlen(b, p1) == |r.category|
    && At(b, p2) == Low(r.rating)
    && CStr(b, p2 + 1) == r.headline && Strlen(b, p2 + 1) == |r.headline|
    && CStr(b, p3) == r.body && Strlen(b, p3) == |r.body|
    && ReadU16(b, p5) == r.year % 65536 && At(b, p5 + 2) == Low(r.month) && At(b, p5 + 3) == Low(r.day)
  }

  lemma RecordAt(b: Str, p: nat, r: Rec)
    requires Has(b, p, RecBytes(r, p)) && CleanStrings(r)
    ensures RecordLayout(b, p, r)
  {
    hide CStr, Strlen, Has, U16, ReadU16, At, Low, Tail, NoNul, Pad, CleanStrings;
    var p1 := p + |r.title| + 1;
    var p2 := p1 + |r.category| + 1;
    var p3 := p2 + 1 + |r.headline| + 1;
    var p4 := p3 + |r.body| + 1;
    HasConcat(b, p, Head(r), Pad(p4) + Tail(r));
    HasConcat(b, p4, Pad(p4), Tail(r));
    HeadAt(b, p, r);
    TailAt(b, p4 + p4 % 2, r);
  }

  lemma HeadAt(b: Str, p: nat, r: Rec)
    requires Has(b, p, Head(r)) && CleanStrings(r)
    ensures var p1 := p + |r.title| + 1;
      var p2 := p1 + |r.category| + 1;
      var p3 := p2 + 1 + |r.headline| + 1;
      && CStr(b, p) == r.title && Strlen(b, p) == |r.title|
      && CStr(b, p1) == r.category && Strlen(b, p1) == |r.category|
      && At(b, p2) == Low(r.rating)
      && CStr(b, p2 + 1) == r.headline && Strlen(b, p2 + 1) == |r.headline|
      && CStr(b, p3) == r.body && Strlen(b, p3) == |r.body|
  {
    hide CStr, Strlen, Has, At, Low, NoNul;
    var p1 := p + |r.title| + 1;
    var p2 := p1 + |r.category| + 1;
    var p3 := p2 + 1 + |r.headline| + 1;
    var tail := (r.headline + [0]) + (r.body + [0]);
    StringAt(b, p, r.title, (r.category + [0]) + ([Low(r.rating)] + tail));
    StringAt(b, p1, r.category, [Low(r.rating)] + tail);
    ByteAt(b, p2, Low(r.rating), tail);
    StringAt(b, p2 + 1, r.headline, r.body + [0]);
    ReadBackCStr(b, p3, r.body);
  }

  lemma TailAt(b: Str, p: nat, r: Rec)
    requires Has(b, p, Tail(r))
    ensures ReadU16(b, p) == r.year % 65536 && At(b, p + 2) == Low(r.month) && At(b, p + 3) == Low(r.day)
  {
    HasConcat(b, p, U16(r.year), [Low(r.month), Low(r.day)]);
    ReadBackU16(b, p, r.year);
    HasIn(b, p + 2, [Low(r.month), Low(r.day)], 0);
    HasIn(b, p + 2, [Low(r.month), Low(r.day)], 1);
  }

  function ReviewOf(i: nat, r: Rec): Review {
    Review(i, r.title, r.category, Low(r.rating), r.headline, r.body, r.year % 65536, Low(r.month), Low(r.day))
  }

  /** Texts come back as they were, numbers reduced to the one or two bytes of their fields. */
  lemma ReviewFields(i: nat, r: Rec)
    ensures var v := ReviewOf(i, r);
      && v.index == i && v.title == r.title && v.category == r.category
      && v.headline == r.headline && v.body == r.body
      && v.rating == r.rating % 256 && v.month == r.month % 256 && v.day == r.day % 256 && v.year == r.year % 65536
  {
  }

  /** Walking the bytes of a built database gives review i back, and nothing past the last one. */
  method GetReview(file: Str, numReviews: nat, index: nat, ghost recs: seq<Rec>) returns (ok: bool, review: Review)
    requires IsDatabase(file, recs) && |file| < 4294967296 && numReviews == |recs|
    requires forall r :: r in recs ==> CleanStrings(r)
    ensures ok <==> index < |recs|
    ensures ok ==> var r := recs[index];
      && review.index == index && review.title == r.title && review.category == r.category
      && review.headline == r.headline && review.body == r.body
    ensures ok ==> var r := recs[index];
      && review.rating == r.rating % 256 && review.month == r.month % 256 && review.day == r.day % 256
      && review.year == r.year % 65536
  {
    hide ReviewOf, RecordLayout, FileOf, RecBytes, CleanStrings;
    review := Review(0, [], [], 0, [], [], 0, 0, 0);
    if index >= numReviews {
      ok := false;
      return;
    }
    ghost var chunks :| file == FileOf(chunks) && ChunksOf(recs, |recs|, chunks);
    EntryAt(chunks, index);
    var p := ReadU32(file, 4 + 4 * index);
    RecordAt(file, p, recs[index]);
    review := ReadRecord(file, p, index, recs[index]);
    ReviewFields(index, recs[index]);
    ok := true;
  }

  method ReadRecord(file: Str, at: nat, index: nat, ghost r: Rec) returns (review: Review)
    requires RecordLayout(file, at, r)
    ensures review == ReviewOf(index, r)
  {
    var p := at;
    var title := CStr(file, p);
    p := p + Strlen(file, p) + 1;
    var category := CStr(file, p);
    p := p + Strlen(file, p) + 1;
    var rating := At(file, p);
    p := p + 1;
    var headline := CStr(file, p);
    p := p + Strlen(file, p) + 1;
    var body := CStr(file, p);
    p := p + Strlen(file, p) + 1;
    if p % 2 != 0 {
      p := p + 1;
    }
    var year := ReadU16(file, p);
    p := p + 2;
    var month := At(file, p);
    p := p + 1;
    var day := At(file, p);
    review := Review(index, title, category, rating, headline, body, year, month, day);
  }
}
