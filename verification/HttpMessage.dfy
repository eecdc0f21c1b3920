/**
  HTTP header blocks and responses: parsing from the buffered reader, printing, and the round
  trip between the two.
 */
module HttpMessage {
  import opened Bytes
  import opened Text
  import opened Words
  import opened SocketReading

  const SPACE: Byte := 32
  const COLON: Byte := 58
  const MINUS: Byte := 45
  const PLUS: Byte := 43
  const INT_MAX := 2147483647
  const INT_MIN := -2147483648
  const ULONG_MAX := 18446744073709551615

  // "Content-Length"
  const CONTENT_LENGTH: Str := [67, 111, 110, 116, 101, 110, 116, 45, 76, 101, 110, 103, 116, 104]
  const CRLF: Str := [CR, NEWLINE]

  datatype Header = Header(name: Str, value: Str)

  datatype Response = Response(protocol: Str, code: int, reason: Str, headers: seq<Header>, body: Str)

  // ------------------------------------------------------------ the header collection

  predicate SameName(a: Str, b: Str) {
    Lower(a) == Lower(b)
  }

  function Without(hs: seq<Header>, name: Str): seq<Header> {
    if hs == [] then [] else (if SameName(hs[0].name, name) then [] else [hs[0]]) + Without(hs[1..], name)
  }

  predicate HasHeader(hs: seq<Header>, name: Str) {
    exists i :: 0 <= i < |hs| && SameName(hs[i].name, name)
  }

  function Get(hs: seq<Header>, name: Str): Str {
    if hs == [] then [] else if SameName(hs[0].name, name) then hs[0].value else Get(hs[1..], name)
  }

  function HeaderLine(h: Header): Str {
    h.name + [COLON, SPACE] + h.value + CRLF
  }

  function SerializeHeaders(hs: seq<Header>): Str {
    if hs == [] then [] else HeaderLine(hs[0]) + SerializeHeaders(hs[1..])
  }

  function SkipBlanks(s: Str): Str {
    if s != [] && (s[0] == SPACE || s[0] == TAB) then SkipBlanks(s[1..]) else s
  }

  // A line without colon is skipped.
  function HeaderOf(line: Str): seq<Header> {
    var colon := Find(line, COLON, 0);
    if colon == |line| then [] else [Header(line[..colon], SkipBlanks(line[colon + 1..]))]
  }

  // The header block at the start of s, up to a blank line or the end, and what follows it.
  function ParseHeaders(s: Str): (seq<Header>, Str)
    decreases |s|
  {
    match LineOf(s)
    case Eof => ([], s)
    case Line(text, rest) =>
      if text == [] then ([], rest)
      else
        var (hs, after) := ParseHeaders(rest);
        (HeaderOf(text) + hs, after)
  }

  lemma {:induction false} WithoutConcat(a: seq<Header>, b: seq<Header>, name: Str)
    ensures Without(a + b, name) == Without(a, name) + Without(b, name)
  {
    hide Lower;
    if a == [] {
      assert a + b == b;
    } else {
      assert (a + b)[1..] == a[1..] + b;
      WithoutConcat(a[1..], b, name);
    }
  }

  lemma {:induction false} SerializeConcat(a: seq<Header>, b: seq<Header>)
    ensures SerializeHeaders(a + b) == SerializeHeaders(a) + SerializeHeaders(b)
  {
    hide HeaderLine;
    if a == [] {
      assert a + b == b;
    } else {
      assert (a + b)[1..] == a[1..] + b;
      SerializeConcat(a[1..], b);
    }
  }

  /** Removing a name leaves no header of that name, in any case, and keeps all others in order. */
  lemma {:induction false} WithoutRemoves(hs: seq<Header>, name: Str)
    ensures !HasHeader(Without(hs, name), name)
    ensures forall other :: !SameName(other, name) ==> Get(Without(hs, name), other) == Get(hs, other)
  {
    hide Lower;
    if hs != [] {
      WithoutRemoves(hs[1..], name);
      var rest := Without(hs[1..], name);
      assert [] + rest == rest;
      if !SameName(hs[0].name, name) {
        var all := [hs[0]] + rest;
        assert all[1..] == rest;
        assert forall i :: 1 <= i < |all| ==> all[i] == rest[i - 1];
      }
    }
  }

  /** A name added where none was is what a lookup in any letter case finds. */
  lemma {:induction false} GetAdded(hs: seq<Header>, name: Str, value: Str)
    requires !HasHeader(hs, name)
    ensures Get(hs + [Header(name, value)], name) == value && HasHeader(hs + [Header(name, value)], name)
  {
    hide Lower;
    var all := hs + [Header(name, value)];
    assert all[|hs|].name == name;
    if hs != [] {
      assert !SameName(hs[0].name, name) && all[0] == hs[0];
      assert all[1..] == hs[1..] + [Header(name, value)];
      forall i | 0 <= i < |hs[1..]| ensures !SameName(hs[1..][i].name, name) {
        assert hs[1..][i] == hs[i + 1];
      }
      GetAdded(hs[1..], name, value);
    }
  }

  class HTTPHeader {
    var headers: seq<Header>

    constructor ()
      ensures headers == []
    {
      headers := [];
    }

    method Add(name: Str, value: Str)
      modifies this
      ensures headers == old(headers) + [Header(name, value)]
    {
      headers := headers + [Header(name, value)];
    }

    method Remove(name: Str)
      modifies this
      ensures headers == Without(old(headers), name)
    {
      hide Lower, Without;
      var kept: seq<Header> := [];
      WithoutNone(name);
      for i := 0 to |headers|
        invariant headers == old(headers) && kept == Without(headers[..i], name)
      {
        assert headers[..i + 1] == headers[..i] + [headers[i]];
        WithoutConcat(headers[..i], [headers[i]], name);
        WithoutOne(headers[i], name);
        if Lower(headers[i].name) != Lower(name) {
          kept := kept + [headers[i]];
        }
      }
      assert headers[..|headers|] == headers;
      headers := kept;
    }

    method HasName(name: Str) returns (found: bool)
      ensures found == HasHeader(headers, name)
    {
      hide Lower;
      for i := 0 to |headers|
        invariant forall k :: 0 <= k < i ==> !SameName(headers[k].name, name)
      {
        if Lower(headers[i].name) == Lower(name) {
          return true;
        }
      }
      found := false;
    }

    method GetValue(name: Str) returns (value: Str)
      ensures value == Get(headers, name)
    {
      hide Lower;
      for i := 0 to |headers|
        invariant Get(headers, name) == Get(headers[i..], name)
      {
        if Lower(headers[i].name) == Lower(name) {
          return headers[i].value;
        }
        assert headers[i..][1..] == headers[i + 1..];
      }
      assert headers[|headers|..] == [];
      value := [];
    }

    method Serialize() returns (out: Str)
      ensures out == SerializeHeaders(headers)
    {
      hide SerializeHeaders;
      out := [];
      SerializeNone();
      for i := 0 to |headers|
        invariant out == SerializeHeaders(headers[..i])
      {
        assert headers[..i + 1] == headers[..i] + [headers[i]];
        SerializeConcat(headers[..i], [headers[i]]);
        SerializeOne(headers[i]);
        out := out + (headers[i].name + [COLON, SPACE] + headers[i].value + CRLF);
      }
      assert headers[..|headers|] == headers;
    }

    // Reads header lines until the blank line, adding to what is there.
    method Parse(reader: SockReader)
      requires reader.Valid()
      modifies this, reader
      ensures reader.Valid()
      ensures (headers, reader.Rest()) ==
        (old(headers) + ParseHeaders(old(reader.Rest())).0, ParseHeaders(old(reader.Rest())).1)
    {
      hide LineOf, HeaderOf;
      assert headers + ParseHeaders(reader.Rest()).0 == old(headers) + ParseHeaders(old(reader.Rest())).0;
      while true
        invariant reader.Valid()
        invariant headers + ParseHeaders(reader.Rest()).0 == old(headers) + ParseHeaders(old(reader.Rest())).0
        invariant ParseHeaders(reader.Rest()).1 == ParseHeaders(old(reader.Rest())).1
        decreases |reader.Rest()|
      {
        ghost var rest := reader.Rest();
        var ok, line := reader.ReadLine();
        NextHeader(rest);
        if !ok || line == [] {
          assert headers + [] == headers;
          break;
        }
        HeaderOfIs(line);
        var colon := Find(line, COLON, 0);
        if colon == |line| {
          continue;
        }
        Add(line[..colon], SkipBlanks(line[colon + 1..]));
      }
    }
  }

  /** A lookup gives the value of the first header of that name, in any letter case. */
  lemma {:induction false} GetIsFirst(hs: seq<Header>, name: Str, k: nat)
    requires k < |hs| && Lower(hs[k].name) == Lower(name)
    requires forall i :: 0 <= i < k ==> Lower(hs[i].name) != Lower(name)
    ensures Get(hs, name) == hs[k].value && HasHeader(hs, name)
  {
    hide Lower;
    assert SameName(hs[k].name, name);
    if k > 0 {
      assert forall i :: 0 <= i < |hs| - 1 ==> hs[1..][i] == hs[i + 1];
      GetIsFirst(hs[1..], name, k - 1);
    }
  }

  lemma {:induction false} GetMissing(hs: seq<Header>, name: Str)
    requires forall i :: 0 <= i < |hs| ==> Lower(hs[i].name) != Lower(name)
    ensures Get(hs, name) == [] && !HasHeader(hs, name)
  {
    hide Lower;
    if hs != [] {
      assert forall i :: 0 <= i < |hs| - 1 ==> hs[1..][i] == hs[i + 1];
      GetMissing(hs[1..], name);
    }
  }

  lemma WithoutNone(name: Str)
    ensures Without([], name) == []
  {
  }

  lemma WithoutOne(h: Header, name: Str)
    ensures Without([h], name) == if Lower(h.name) == Lower(name) then [] else [h]
  {
    assert [h][1..] == [];
    assert Without([], name) == [];
  }

  lemma SerializeNone()
    ensures SerializeHeaders([]) == []
  {
  }

  lemma SerializeOne(h: Header)
    ensures SerializeHeaders([h]) == h.name + [COLON, SPACE] + h.value + CRLF
  {
    assert [h][1..] == [];
    assert SerializeHeaders([]) == [];
  }

  lemma NextHeader(s: Str)
    ensures match LineOf(s)
      case Eof => ParseHeaders(s) == ([], []) && s == []
      case Line(text, rest) =>
        |rest| < |s| &&
        ParseHeaders(s) ==
          if text == [] then ([], rest) else (HeaderOf(text) + ParseHeaders(rest).0, ParseHeaders(rest).1)
  {
  }

  lemma HeaderOfIs(line: Str)
    ensures HeaderOf(line) == var colon := Find(line, COLON, 0);
      if colon == |line| then [] else [Header(line[..colon], SkipBlanks(line[colon + 1..]))]
  {
  }

  // ------------------------------------------------------------ blanks around a value

  predicate IsBlank(c: Byte) {
    c == SPACE || c == TAB
  }

  // A field value as section 5.1 of RFC 9112 wants it: the blanks around it do not belong to it.
  predicate Trimmed(value: Str) {
    value == [] || (!IsBlank(value[0]) && !IsBlank(value[|value| - 1]))
  }

  lemma {:induction false} SkipBlanksIs(s: Str)
    ensures SkipBlanks(s) == [] <==> forall k :: 0 <= k < |s| ==> IsBlank(s[k])
    ensures SkipBlanks(s) != [] ==> !IsBlank(SkipBlanks(s)[0])
    ensures |SkipBlanks(s)| <= |s| && SkipBlanks(s) == s[|s| - |SkipBlanks(s)|..]
  {
    if s != [] && IsBlank(s[0]) {
      SkipBlanksIs(s[1..]);
      assert forall k :: 1 <= k < |s| ==> s[k] == s[1..][k - 1];
    }
  }

  /**
    The parser strips blanks in front of a value only. The value it stores is the field value of the
    standard if and only if the line does not end in a blank or has only blanks behind the colon.
   */
  lemma ValueIsTrimmed(line: Str)
    requires HeaderOf(line) != []
    ensures Trimmed(HeaderOf(line)[0].value) <==>
      !IsBlank(line[|line| - 1]) || forall k :: Find(line, COLON, 0) < k < |line| ==> IsBlank(line[k])
  {
    hide SkipBlanks, Find, IsBlank, Trimmed;
    var colon := Find(line, COLON, 0);
    var rest := line[colon + 1..];
    ColonIsNoBlank();
    BlankTail(line, colon, rest);
    TrimmedValue(rest);
  }

  lemma ColonIsNoBlank()
    ensures !IsBlank(COLON)
  {
  }

  lemma BlankTail(line: Str, colon: nat, rest: Str)
    requires colon < |line| && rest == line[colon + 1..] && !IsBlank(line[colon])
    ensures (forall k :: colon < k < |line| ==> IsBlank(line[k])) <==> forall k :: 0 <= k < |rest| ==> IsBlank(rest[k])
    ensures IsBlank(line[|line| - 1]) <==> rest != [] && IsBlank(rest[|rest| - 1])
  {
    hide IsBlank;
    assert forall k :: 0 <= k < |rest| ==> rest[k] == line[colon + 1 + k];
    assert forall k :: colon < k < |line| ==> line[k] == rest[k - colon - 1];
  }

  lemma TrimmedValue(rest: Str)
    ensures Trimmed(SkipBlanks(rest)) <==>
      !(rest != [] && IsBlank(rest[|rest| - 1])) || forall k :: 0 <= k < |rest| ==> IsBlank(rest[k])
  {
    hide SkipBlanks, IsBlank;
    SkipBlanksIs(rest);
    var v := SkipBlanks(rest);
    assert v != [] ==> v[|v| - 1] == rest[|rest| - 1];
  }

  /** The line `a:b` with a blank behind it is stored with the blank. */
  lemma TrailingBlankKept()
    ensures var line: Str := [97, COLON, 98, SPACE];
      HeaderOf(line) == [Header([97], [98, SPACE])] && !Trimmed(HeaderOf(line)[0].value)
  {
    var line: Str := [97, COLON, 98, SPACE];
    FindIs(line, COLON, 0, 1);
    assert line[..1] == [97] && line[2..] == [98, SPACE];
  }

  // ------------------------------------------------------------ numbers in text

  function SkipSpace(s: Str, i: nat): (j: nat)
    requires i <= |s|
    ensures i <= j <= |s| && (j < |s| ==> !IsSpace(s[j]))
    decreases |s| - i
  {
    if i < |s| && IsSpace(s[i]) then SkipSpace(s, i + 1) else i
  }

  function WordEnd(s: Str, i: nat): (j: nat)
    requires i <= |s|
    ensures i <= j <= |s| && forall k :: i <= k < j ==> !IsSpace(s[k])
    decreases |s| - i
  {
    if i < |s| && !IsSpace(s[i]) then WordEnd(s, i + 1) else i
  }

  function DigitsEnd(s: Str, i: nat): (j: nat)
    requires i <= |s|
    ensures i <= j <= |s|
    decreases |s| - i
  {
    if i < |s| && Digit(s[i]) then DigitsEnd(s, i + 1) else i
  }

  predicate IsSign(c: Byte) {
    c == PLUS || c == MINUS
  }

  // A number an input stream extracts: its value, whether that succeeded, and where it stopped.
  datatype Extracted = Extracted(value: int, ok: bool, end: nat)

  function ExtractInt(s: Str, i: nat): (r: Extracted)
    requires i < |s|
    ensures i <= r.end <= |s|
  {
    var from := if IsSign(s[i]) then i + 1 else i;
    var end := DigitsEnd(s, from);
    var n: int := Digits(s[from..], 0);
    var v := if s[i] == MINUS then -n else n;
    if end == from then Extracted(0, false, end)
    else if v > INT_MAX then Extracted(INT_MAX, false, end)
    else if v < INT_MIN then Extracted(INT_MIN, false, end)
    else Extracted(v, true, end)
  }

  // strtoul in base 10, saturating, a minus sign negating modulo 2^64.
  function Strtoul(s: Str): nat {
    var i := SkipSpace(s, 0);
    if i == |s| then 0
    else
      var n := Digits(s[if IsSign(s[i]) then i + 1 else i..], 0);
      if n > ULONG_MAX then ULONG_MAX else if s[i] == MINUS then (ULONG_MAX + 1 - n) % (ULONG_MAX + 1) else n
  }

  lemma StrtoulOfDec(n: nat)
    requires n <= ULONG_MAX
    ensures Strtoul(Dec(n)) == n
  {
    hide Digits, Dec;
    var d := Dec(n);
    DecIsDigits(n);
    assert Digit(d[0]);
    assert SkipSpace(d, 0) == 0;
    assert d[0..] == d;
    DigitsOfDec(n);
  }

  predicate AllSpace(s: Str) {
    forall k :: 0 <= k < |s| ==> IsSpace(s[k])
  }

  // A sign, or none.
  predicate SignText(s: Str) {
    s == [] || s == [PLUS] || s == [MINUS]
  }

  lemma {:induction false} SkipSpaceIs(s: Str, i: nat, j: nat)
    requires i <= j <= |s| && (forall k :: i <= k < j ==> IsSpace(s[k])) && (j < |s| ==> !IsSpace(s[j]))
    ensures SkipSpace(s, i) == j
    decreases j - i
  {
    if i < j {
      SkipSpaceIs(s, i + 1, j);
    }
  }

  lemma {:induction false} DigitsEndIs(s: Str, i: nat, j: nat)
    requires i <= j <= |s| && (forall k :: i <= k < j ==> Digit(s[k])) && (j < |s| ==> !Digit(s[j]))
    ensures DigitsEnd(s, i) == j
    decreases j - i
  {
    if i < j {
      DigitsEndIs(s, i + 1, j);
    }
  }

  lemma DigitsEndOf(pre: Str, n: nat, rest: Str)
    requires rest == [] || !Digit(rest[0])
    ensures DigitsEnd(pre + Dec(n) + rest, |pre|) == |pre| + |Dec(n)|
    ensures (pre + Dec(n) + rest)[|pre|..] == Dec(n) + rest && Digits((pre + Dec(n) + rest)[|pre|..], 0) == n
  {
    hide Dec, Digits, DigitsEnd, Digit;
    var s, d := pre + Dec(n) + rest, Dec(n);
    DecIsDigits(n);
    Middle(pre, d, rest);
    DigitsEndIs(s, |pre|, |pre| + |d|);
    DecReadsBack(n, rest);
  }

  lemma Middle(a: Str, b: Str, c: Str)
    ensures (a + b + c)[|a|..] == b + c && |a + b + c| == |a| + |b| + |c|
    ensures forall k :: |a| <= k < |a| + |b| ==> (a + b + c)[k] == b[k - |a|]
    ensures c != [] ==> (a + b + c)[|a| + |b|] == c[0]
  {
  }

  /** A number is extracted up to its last digit and clamped to the range of int, in which case it fails. */
  lemma ExtractReads(pre: Str, sign: Str, n: nat, rest: Str)
    requires SignText(sign) && (rest == [] || !Digit(rest[0]))
    ensures var m: int := n;
      var v, end := (if sign == [MINUS] then -m else m), |pre| + |sign| + |Dec(n)|;
      var r := ExtractInt(pre + sign + Dec(n) + rest, |pre|);
      && r.end == end && (r.ok <==> -2147483648 <= v <= 2147483647)
      && r.value == if v > 2147483647 then 2147483647 else if v < -2147483648 then -2147483648 else v
  {
    hide Dec, Digits, DigitsEnd;
    var s := pre + sign + Dec(n) + rest;
    DecIsDigits(n);
    DigitsEndOf(pre + sign, n, rest);
    assert s[|pre|] == if sign == [] then Dec(n)[0] else sign[0];
    SignsAreNoDigits();
  }

  lemma SignsAreNoDigits()
    ensures !Digit(PLUS) && !Digit(MINUS) && !IsSpace(PLUS) && !IsSpace(MINUS)
    ensures forall c: Byte :: Digit(c) ==> !IsSpace(c) && !IsSign(c)
  {
  }

  /** strtoul: blanks, sign, digits, anything; values past 64 bits saturate and a minus sign wraps around. */
  lemma StrtoulReads(blanks: Str, sign: Str, n: nat, rest: Str)
    requires AllSpace(blanks) && SignText(sign) && (rest == [] || !Digit(rest[0]))
    ensures Strtoul(blanks + sign + Dec(n) + rest) ==
      if n > 18446744073709551615 then 18446744073709551615
      else if sign == [MINUS] && n > 0 then 18446744073709551616 - n else n
  {
    hide Dec, Digits, DigitsEnd, SkipSpace, IsSpace, Digit, IsSign;
    var s := blanks + sign + Dec(n) + rest;
    var i := |blanks|;
    DecIsDigits(n);
    DigitsEndOf(blanks + sign, n, rest);
    assert s[i] == if sign == [] then Dec(n)[0] else sign[0];
    SignsAreNoDigits();
    assert IsSign(PLUS) && IsSign(MINUS) by { SignsAreSigns(); }
    SkipSpaceIs(s, 0, i);
  }

  lemma SignsAreSigns()
    ensures IsSign(PLUS) && IsSign(MINUS)
  {
  }

  // ------------------------------------------------------------ responses

  function WithoutOneBlank(reason: Str): Str {
    if reason != [] && reason[0] == SPACE then reason[1..] else reason
  }

  // Reading protocol, code and reason from the status line; a step that fails leaves the rest alone.
  function ParseStatus(line: Str, r: Response): Response {
    var i := SkipSpace(line, 0);
    var j := WordEnd(line, i);
    var k := SkipSpace(line, j);
    var stripped := r.(reason := WithoutOneBlank(r.reason));
    if i == |line| then stripped
    else if k == |line| then stripped.(protocol := line[i..j])
    else
      var number := ExtractInt(line, k);
      var reason := if number.ok && number.end < |line| then line[number.end..] else r.reason;
      Response(line[i..j], number.value, WithoutOneBlank(reason), r.headers, r.body)
  }

  // Reading one response from s into r, and the bytes left.
  function Ingest(r: Response, s: Str): (Response, Str) {
    var (r1, s1) := match LineOf(s)
      case Eof => (r, [])
      case Line(text, rest) => (ParseStatus(text, r), rest);
    var (parsed, s2) := ParseHeaders(s1);
    var hs := r1.headers + parsed;
    if HasHeader(hs, CONTENT_LENGTH) then
      var take := Min(Strtoul(Get(hs, CONTENT_LENGTH)), |s2|);
      (r1.(headers := hs, body := r1.body + s2[..take]), s2[take..])
    else (r1.(headers := hs, body := r1.body + s2), [])
  }

  function StatusLine(r: Response): Str {
    r.protocol + [SPACE] + DecInt(r.code) + [SPACE] + r.reason
  }

  function Serialize(r: Response): Str {
    StatusLine(r) + CRLF + SerializeHeaders(r.headers) + CRLF + r.body
  }

  function WithBody(r: Response, b: Str): Response {
    r.(body := b, headers := Without(r.headers, CONTENT_LENGTH) + [Header(CONTENT_LENGTH, Dec(|b|))])
  }

  class HTTPResponse {
    var protocol: Str
    var code: int
    var reason: Str
    const headers: HTTPHeader
    var body: Str

    constructor (defaultProtocol: Str)
      ensures fresh(headers) && View() == Response(defaultProtocol, 0, [], [], [])
    {
      protocol, code, reason, body := defaultProtocol, 0, [], [];
      headers := new HTTPHeader();
    }

    ghost function View(): Response
      reads this, headers
    {
      Response(protocol, code, reason, headers.headers, body)
    }

    method SetBody(b: Str)
      modifies this, headers
      ensures View() == WithBody(old(View()), b)
    {
      hide Without, Dec;
      body := b;
      headers.Remove(CONTENT_LENGTH);
      headers.Add(CONTENT_LENGTH, Dec(|b|));
    }

    method SerializeResponse() returns (out: Str)
      ensures out == Serialize(View())
    {
      hide SerializeHeaders, DecInt;
      var block := headers.Serialize();
      out := protocol + [SPACE] + DecInt(code) + [SPACE] + reason + CRLF;
      out := out + block;
      out := out + CRLF;
      out := out + body;
    }

    // The words and number of the status line, taken from left to right.
    method TakeStatus(line: Str)
      modifies this
      ensures View() == ParseStatus(line, old(View()))
    {
      hide ExtractInt;
      var i := SkipSpace(line, 0);
      if i < |line| {
        var j := WordEnd(line, i);
        protocol := line[i..j];
        var k := SkipSpace(line, j);
        if k < |line| {
          var number := ExtractInt(line, k);
          code := number.value;
          ExtractStops(line, k);
          if number.ok && number.end < |line| {
            reason := line[number.end..];
          }
        }
      }
      if reason != [] && reason[0] == SPACE {
        reason := reason[1..];
      }
    }

    /** ingestFrom: what it stores and leaves depends only on the bytes of the stream. */
    method IngestFrom(reader: SockReader)
      requires reader.Valid()
      modifies this, headers, reader
      ensures reader.Valid() && (View(), reader.Rest()) == Ingest(old(View()), old(reader.Rest()))
    {
      hide ParseStatus, ParseHeaders, LineOf, Get, Strtoul, HasHeader;
      var ok, line := reader.ReadLine();
      if ok {
        TakeStatus(line);
      }
      headers.Parse(reader);
      var has := headers.HasName(CONTENT_LENGTH);
      if has {
        var value := headers.GetValue(CONTENT_LENGTH);
        body := reader.ReadExactly(Strtoul(value), body);
      } else {
        body := reader.ReadUntilEOF(body);
      }
    }
  }

  lemma ExtractStops(s: Str, i: nat)
    requires i < |s|
    ensures i <= ExtractInt(s, i).end <= |s|
  {
  }

  // ------------------------------------------------------------ the round trip

  predicate IsWordText(s: Str) {
    s != [] && forall k :: 0 <= k < |s| ==> !IsSpace(s[k])
  }

  predicate WellFormedHeader(h: Header) {
    && COLON !in h.name && NEWLINE !in h.name && NEWLINE !in h.value
    && (h.value == [] || (h.value[0] != SPACE && h.value[0] != TAB))
  }

  // What the status line and header lines can carry.
  predicate WellFormed(r: Response) {
    && IsWordText(r.protocol)
    && INT_MIN <= r.code <= INT_MAX && NEWLINE !in r.reason
    && (forall i :: 0 <= i < |r.headers| ==> WellFormedHeader(r.headers[i]))
  }

  lemma HeaderBack(h: Header)
    requires WellFormedHeader(h)
    ensures var l := h.name + [COLON, SPACE] + h.value; NEWLINE !in l && l != [] && HeaderOf(l) == [h]
  {
    var l := h.name + [COLON, SPACE] + h.value;
    var k := |h.name|;
    assert forall i :: 0 <= i < k ==> l[i] == h.name[i];
    FindIs(l, COLON, 0, k);
    assert l[..k] == h.name && l[k + 1..] == [SPACE] + h.value;
    assert ([SPACE] + h.value)[1..] == h.value;
    assert SkipBlanks(h.value) == h.value;
  }

  lemma {:induction false} HeadersBack(hs: seq<Header>, rest: Str)
    requires forall i :: 0 <= i < |hs| ==> WellFormedHeader(hs[i])
    ensures ParseHeaders(SerializeHeaders(hs) + CRLF + rest) == (hs, rest)
  {
    hide LineOf, ParseHeaders, WellFormedHeader, HeaderOf;
    if hs == [] {
      assert SerializeHeaders([]) + CRLF + rest == [] + CRLF + rest;
      CrlfLine([], rest);
      NextHeader([] + CRLF + rest);
    } else {
      var l := hs[0].name + [COLON, SPACE] + hs[0].value;
      var more := SerializeHeaders(hs[1..]) + CRLF + rest;
      HeaderBack(hs[0]);
      CrlfLine(l, more);
      assert SerializeHeaders(hs) + CRLF + rest == l + CRLF + more;
      NextHeader(l + CRLF + more);
      HeadersBack(hs[1..], rest);
      assert hs == [hs[0]] + hs[1..];
    }
  }

  lemma {:induction false} WordEndIs(s: Str, i: nat, j: nat)
    requires i <= j <= |s| && (forall k :: i <= k < j ==> !IsSpace(s[k])) && (j < |s| ==> IsSpace(s[j]))
    ensures WordEnd(s, i) == j
    decreases j - i
  {
    if i < j {
      WordEndIs(s, i + 1, j);
    }
  }

  // The two words of a status line and what follows them.
  lemma StatusParts(b1: Str, protocol: Str, b2: Str, tail: Str)
    requires AllSpace(b1) && AllSpace(b2) && IsWordText(protocol) && (tail != [] ==> b2 != [] && !IsSpace(tail[0]))
    ensures var line := b1 + protocol + b2 + tail;
      && |line| == |b1| + |protocol| + |b2| + |tail|
      && SkipSpace(line, 0) == |b1| && WordEnd(line, |b1|) == |b1| + |protocol|
      && SkipSpace(line, |b1| + |protocol|) == |b1| + |protocol| + |b2|
      && line[|b1|..|b1| + |protocol|] == protocol
  {
    hide IsSpace, SkipSpace, WordEnd;
    var line := b1 + protocol + b2 + tail;
    var i, j, k := |b1|, |b1| + |protocol|, |b1| + |protocol| + |b2|;
    assert forall x :: 0 <= x < i ==> line[x] == b1[x];
    assert forall x :: i <= x < j ==> line[x] == protocol[x - i];
    assert forall x :: j <= x < k ==> line[x] == b2[x - j];
    assert tail != [] ==> line[k] == tail[0];
    assert line[i] == protocol[0];
    SkipSpaceIs(line, 0, i);
    assert j < |line| ==> b2 != [] && line[j] == b2[0];
    WordEndIs(line, i, j);
    SkipSpaceIs(line, j, k);
  }

  /**
    Protocol and code of a status line, however they are spaced. The code is clamped to int. What
    follows it, if anything does and the code fits, is the reason; one blank in front of it is dropped.
   */
  lemma StatusReads(b1: Str, protocol: Str, b2: Str, sign: Str, n: nat, rest: Str, into: Response)
    requires AllSpace(b1) && IsWordText(protocol) && AllSpace(b2) && b2 != [] && SignText(sign)
    requires rest == [] || !Digit(rest[0])
    ensures var m: int := n;
      var v := if sign == [MINUS] then -m else m;
      var code := if v > 2147483647 then 2147483647 else if v < -2147483648 then -2147483648 else v;
      var reason := if code == v && rest != [] then rest else into.reason;
      ParseStatus(b1 + protocol + b2 + sign + Dec(n) + rest, into) ==
        Response(protocol, code, if reason != [] && reason[0] == SPACE then reason[1..] else reason,
          into.headers, into.body)
  {
    hide Dec, ExtractInt, SkipSpace, WordEnd, IsSpace, Digit, AllSpace;
    var tail := sign + Dec(n) + rest;
    var line, pre := b1 + protocol + b2 + sign + Dec(n) + rest, b1 + protocol + b2;
    DecIsDigits(n);
    SignsAreNoDigits();
    assert tail[0] == if sign == [] then Dec(n)[0] else sign[0];
    assert line == pre + tail;
    StatusParts(b1, protocol, b2, tail);
    StatusNumber(line, protocol, |b1|, |b1| + |protocol|, |pre|, into);
    hide ParseStatus, WithoutOneBlank;
    ExtractReads(pre, sign, n, rest);
    var end := |pre| + |sign| + |Dec(n)|;
    assert line[end..] == rest;
  }

  lemma StatusNumber(line: Str, protocol: Str, i: nat, j: nat, k: nat, into: Response)
    requires i < j <= k < |line| && SkipSpace(line, 0) == i && WordEnd(line, i) == j && SkipSpace(line, j) == k
    requires line[i..j] == protocol
    ensures var number := ExtractInt(line, k);
      var reason := if number.ok && number.end < |line| then line[number.end..] else into.reason;
      ParseStatus(line, into) ==
        Response(protocol, number.value, if reason != [] && reason[0] == SPACE then reason[1..] else reason,
          into.headers, into.body)
  {
    hide ExtractInt, SkipSpace, WordEnd;
  }

  /** Without a number the code is 0 or kept, without a word the protocol is kept, and so is the reason. */
  lemma StatusStops(b1: Str, protocol: Str, b2: Str, tail: Str, into: Response)
    requires AllSpace(b1) && IsWordText(protocol) && AllSpace(b2)
    requires tail != [] ==>
      b2 != [] && !IsSpace(tail[0]) && !Digit(tail[0]) && (IsSign(tail[0]) && |tail| > 1 ==> !Digit(tail[1]))
    ensures var reason := if into.reason != [] && into.reason[0] == SPACE then into.reason[1..] else into.reason;
      && ParseStatus(b1, into) == into.(reason := reason)
      && ParseStatus(b1 + protocol + b2 + tail, into) ==
        into.(protocol := protocol, code := if tail == [] then into.code else 0, reason := reason)
  {
    hide SkipSpace, WordEnd, IsSpace, Digits;
    SkipSpaceIs(b1, 0, |b1|);
    var line, k := b1 + protocol + b2 + tail, |b1| + |protocol| + |b2|;
    StatusParts(b1, protocol, b2, tail);
    if tail != [] {
      assert line[k] == tail[0] && (|tail| > 1 ==> line[k + 1] == tail[1]);
      NoNumber(line, k);
    }
  }

  lemma NoNumber(s: Str, i: nat)
    requires i < |s| && !Digit(s[i]) && (IsSign(s[i]) && i + 1 < |s| ==> !Digit(s[i + 1]))
    ensures ExtractInt(s, i).value == 0 && !ExtractInt(s, i).ok
  {
    hide Digits;
  }

  lemma StatusBack(r: Response, into: Response)
    requires WellFormed(r)
    ensures ParseStatus(StatusLine(r), into) == Response(r.protocol, r.code, r.reason, into.headers, into.body)
    ensures NEWLINE !in StatusLine(r)
  {
    hide Dec, ParseStatus;
    var sign, n := if r.code < 0 then [MINUS] else [], if r.code < 0 then -r.code else r.code;
    SpaceIsSpace();
    assert StatusLine(r) == [] + r.protocol + [SPACE] + sign + Dec(n) + ([SPACE] + r.reason);
    assert ([SPACE] + r.reason)[1..] == r.reason;
    StatusReads([], r.protocol, [SPACE], sign, n, [SPACE] + r.reason, into);
    NoBreakInNumber(r.code);
    NoBreakInWord(r.protocol);
  }

  lemma NoBreakInWord(s: Str)
    requires IsWordText(s)
    ensures NEWLINE !in s
  {
    assert IsSpace(NEWLINE);
  }

  lemma SpaceIsSpace()
    ensures IsSpace(SPACE) && !Digit(SPACE) && IsSpace(NEWLINE)
  {
  }

  lemma NoBreakInNumber(code: int)
    ensures NEWLINE !in DecInt(code)
  {
    DecIsDigits(if code < 0 then -code else code);
  }

  lemma {:induction false} WithoutWellFormed(hs: seq<Header>, name: Str)
    requires forall i :: 0 <= i < |hs| ==> WellFormedHeader(hs[i])
    ensures forall h :: h in Without(hs, name) ==> WellFormedHeader(h)
  {
    hide WellFormedHeader, Lower;
    if hs != [] {
      WithoutWellFormed(hs[1..], name);
    }
  }

  lemma LengthHeader(n: nat)
    ensures WellFormedHeader(Header(CONTENT_LENGTH, Dec(n)))
  {
    DecIsDigits(n);
  }

  /** The header block that setBody leaves has one Content-Length, the body's. */
  lemma BodyLength(r: Response, b: Str)
    requires WellFormed(r) && |b| <= ULONG_MAX
    ensures var hs := WithBody(r, b).headers;
      && WellFormed(WithBody(r, b))
      && HasHeader(hs, CONTENT_LENGTH) && Strtoul(Get(hs, CONTENT_LENGTH)) == |b|
  {
    hide Without, Get, HasHeader, Dec, WellFormedHeader;
    WithoutRemoves(r.headers, CONTENT_LENGTH);
    GetAdded(Without(r.headers, CONTENT_LENGTH), CONTENT_LENGTH, Dec(|b|));
    StrtoulOfDec(|b|);
    WithoutWellFormed(r.headers, CONTENT_LENGTH);
    LengthHeader(|b|);
    var hs := WithBody(r, b).headers;
    forall i | 0 <= i < |hs| ensures WellFormedHeader(hs[i]) {
      assert hs[i] in hs;
    }
  }

  /**
    Reading back what serialize wrote restores the response whose body was set with setBody, and
    leaves the bytes that follow it unread.
   */
  lemma ResponseRoundTrip(r: Response, b: Str, into: Response, following: Str)
    requires WellFormed(r) && |b| <= ULONG_MAX && into.headers == [] && into.body == []
    ensures Ingest(into, Serialize(WithBody(r, b)) + following) == (WithBody(r, b), following)
  {
    hide LineOf, ParseHeaders, ParseStatus, StatusLine, WithBody, WellFormed, Get, HasHeader, Strtoul, SerializeHeaders;
    var w := WithBody(r, b);
    BodyLength(r, b);
    StatusBack(w, into);
    SameButBody(r, b);
    var block := SerializeHeaders(w.headers) + CRLF + (b + following);
    assert Serialize(w) + following == StatusLine(w) + CRLF + block;
    CrlfLine(StatusLine(w), block);
    HeaderShapes(w);
    HeadersBack(w.headers, b + following);
    assert (b + following)[..|b|] == b && (b + following)[|b|..] == following;
    assert [] + w.headers == w.headers && [] + b == b;
  }

  lemma SameButBody(r: Response, b: Str)
    ensures WithBody(r, b).body == b
  {
  }

  lemma HeaderShapes(r: Response)
    requires WellFormed(r)
    ensures forall i :: 0 <= i < |r.headers| ==> WellFormedHeader(r.headers[i])
  {
  }

  /** Without a Content-Length the body is everything up to the end of the stream. */
  lemma {:induction false} NoLengthReadsAll(r: Response, into: Response, rest: Str)
    requires WellFormed(r) && !HasHeader(r.headers, CONTENT_LENGTH) && into.headers == [] && into.body == []
    ensures Ingest(into, Serialize(r) + rest) == (r.(body := r.body + rest), [])
  {
    hide LineOf, ParseHeaders, ParseStatus, StatusLine, WellFormed, HasHeader, SerializeHeaders;
    StatusBack(r, into);
    var block := SerializeHeaders(r.headers) + CRLF + (r.body + rest);
    assert Serialize(r) + rest == StatusLine(r) + CRLF + block;
    CrlfLine(StatusLine(r), block);
    HeaderShapes(r);
    HeadersBack(r.headers, r.body + rest);
    assert [] + r.headers == r.headers && [] + (r.body + rest) == r.body + rest;
  }

  // ------------------------------------------------------------ messages as peers send them

  // A header line, or a line without a colon; each is ended by a bare newline or by CRLF.
  datatype Sent =
    | Field(name: Str, blanks: Str, value: Str, crlf: bool)
    | Stray(text: Str, crlf: bool)

  function EndOf(crlf: bool): Str {
    if crlf then [CR, NEWLINE] else [NEWLINE]
  }

  function TextOf(x: Sent): Str {
    match x
    case Field(name, blanks, value, _) => name + [COLON] + blanks + value
    case Stray(text, _) => text
  }

  // A text that a line ended in this way can hold.
  predicate CanEnd(text: Str, crlf: bool) {
    NEWLINE !in text && (crlf || text == [] || text[|text| - 1] != CR)
  }

  predicate SentOk(x: Sent) {
    && CanEnd(TextOf(x), x.crlf) && TextOf(x) != []
    && match x
       case Field(name, blanks, value, _) =>
         COLON !in name && (forall k :: 0 <= k < |blanks| ==> IsBlank(blanks[k])) && (value == [] || !IsBlank(value[0]))
       case Stray(text, _) => COLON !in text
  }

  function BlockOf(xs: seq<Sent>): Str {
    if xs == [] then [] else TextOf(xs[0]) + EndOf(xs[0].crlf) + BlockOf(xs[1..])
  }

  function Fields(xs: seq<Sent>): seq<Header> {
    if xs == [] then []
    else (if xs[0].Field? then [Header(xs[0].name, xs[0].value)] else []) + Fields(xs[1..])
  }

  lemma SentLine(text: Str, crlf: bool, rest: Str)
    requires CanEnd(text, crlf)
    ensures LineOf(text + EndOf(crlf) + rest) == Line(text, rest)
  {
    hide LineOf;
    if crlf {
      CrlfLine(text, rest);
    } else {
      BareLine(text, rest);
    }
  }

  lemma {:induction false} BlanksSkipped(blanks: Str, value: Str)
    requires (forall k :: 0 <= k < |blanks| ==> IsBlank(blanks[k])) && (value == [] || !IsBlank(value[0]))
    ensures SkipBlanks(blanks + value) == value
  {
    if blanks == [] {
      assert blanks + value == value;
    } else {
      assert (blanks + value)[1..] == blanks[1..] + value;
      BlanksSkipped(blanks[1..], value);
    }
  }

  lemma FieldOf(x: Sent)
    requires SentOk(x)
    ensures HeaderOf(TextOf(x)) == if x.Field? then [Header(x.name, x.value)] else []
  {
    hide SkipBlanks, Find, IsBlank;
    match x
    case Field(name, blanks, value, _) =>
      var l := TextOf(x);
      assert forall i :: 0 <= i < |name| ==> l[i] == name[i];
      FindIs(l, COLON, 0, |name|);
      assert l[..|name|] == name && l[|name| + 1..] == blanks + value;
      BlanksSkipped(blanks, value);
    case Stray(text, _) =>
      FindNone(text, COLON);
  }

  /**
    A header block with lines ended either way, any blanks in front of values and stray lines among
    them: the fields come out in order, stray lines are skipped, and what follows is left unread.
   */
  lemma {:induction false} BlockParses(xs: seq<Sent>, crlf: bool, rest: Str)
    requires forall i :: 0 <= i < |xs| ==> SentOk(xs[i])
    ensures ParseHeaders(BlockOf(xs) + EndOf(crlf) + rest) == (Fields(xs), rest)
  {
    hide LineOf, ParseHeaders, SentOk, HeaderOf, TextOf, EndOf;
    if xs == [] {
      assert BlockOf([]) + EndOf(crlf) + rest == [] + EndOf(crlf) + rest;
      SentLine([], crlf, rest);
      NextHeader([] + EndOf(crlf) + rest);
    } else {
      var more := BlockOf(xs[1..]) + EndOf(crlf) + rest;
      var l, e := TextOf(xs[0]), EndOf(xs[0].crlf);
      SentCanEnd(xs[0]);
      SentLine(l, xs[0].crlf, more);
      FieldOf(xs[0]);
      assert BlockOf(xs) + EndOf(crlf) + rest == l + e + more;
      NextHeader(l + e + more);
      BlockParses(xs[1..], crlf, rest);
    }
  }

  /** A stream that ends without a blank line: the fields sent so far are kept. */
  lemma {:induction false} BlockCutOff(xs: seq<Sent>)
    requires forall i :: 0 <= i < |xs| ==> SentOk(xs[i])
    ensures ParseHeaders(BlockOf(xs)) == (Fields(xs), [])
  {
    hide LineOf, ParseHeaders, SentOk, HeaderOf, TextOf, EndOf;
    if xs == [] {
      UnendedLine([]);
      NextHeader([]);
    } else {
      var l, e := TextOf(xs[0]), EndOf(xs[0].crlf);
      SentCanEnd(xs[0]);
      SentLine(l, xs[0].crlf, BlockOf(xs[1..]));
      FieldOf(xs[0]);
      NextHeader(l + e + BlockOf(xs[1..]));
      BlockCutOff(xs[1..]);
    }
  }

  lemma SentCanEnd(x: Sent)
    requires SentOk(x)
    ensures CanEnd(TextOf(x), x.crlf) && TextOf(x) != []
  {
  }

  /**
    Reading a response with lines ended either way: the status, the fields behind those already there,
    and as much body as Content-Length says and the stream has, or all of it without one.
   */
  lemma IngestReads(r: Response, xs: seq<Sent>, first: bool, last: bool, into: Response, rest: Str)
    requires WellFormed(r) && CanEnd(StatusLine(r), first) && forall i :: 0 <= i < |xs| ==> SentOk(xs[i])
    ensures var hs := into.headers + Fields(xs);
      var length := Strtoul(Get(hs, CONTENT_LENGTH));
      var take := if HasHeader(hs, CONTENT_LENGTH) && length < |rest| then length else |rest|;
      Ingest(into, StatusLine(r) + EndOf(first) + (BlockOf(xs) + EndOf(last) + rest)) ==
        (Response(r.protocol, r.code, r.reason, hs, into.body + rest[..take]), rest[take..])
  {
    hide LineOf, ParseHeaders, ParseStatus, StatusLine, WellFormed, SentOk, HasHeader, Get, Strtoul, Fields;
    hide BlockOf, EndOf;
    StatusBack(r, into);
    SentLine(StatusLine(r), first, BlockOf(xs) + EndOf(last) + rest);
    BlockParses(xs, last, rest);
    assert rest[..|rest|] == rest && rest[|rest|..] == [];
  }
}
