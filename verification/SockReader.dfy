/**
  The buffered socket reader. What it returns depends only on the bytes still to come, buffered
  or not, and not on how the network cut them into reads.
 */
module SocketReading {
  import opened Bytes
  import opened Text

  const CR: Byte := 13

  function Concat(chunks: seq<Str>): Str {
    if chunks == [] then [] else chunks[0] + Concat(chunks[1..])
  }

  // ------------------------------------------------------------ reading a byte string

  datatype LineRead = Eof | Line(text: Str, rest: Str)

  function Chomp(s: Str): Str {
    if s != [] && s[|s| - 1] == CR then s[..|s| - 1] else s
  }

  // The first line of s; at the end of input a last line without newline counts, carriage return and all.
  function LineOf(s: Str): LineRead {
    var k := Find(s, NEWLINE, 0);
    if k < |s| then Line(Chomp(s[..k]), s[k + 1..]) else if s == [] then Eof else Line(s, [])
  }

  function Min(a: nat, b: nat): nat {
    if a < b then a else b
  }

  lemma LineIn(buf: Str, more: Str, k: nat)
    requires k < |buf| && buf[k] == NEWLINE && forall i :: 0 <= i < k ==> buf[i] != NEWLINE
    ensures LineOf(buf + more) == Line(Chomp(buf[..k]), buf[k + 1..] + more)
  {
    hide Chomp, Find;
    var s := buf + more;
    assert forall i :: 0 <= i <= k ==> s[i] == buf[i];
    FindIs(s, NEWLINE, 0, k);
    assert s[..k] == buf[..k] && s[k + 1..] == buf[k + 1..] + more;
  }

  /** A line ended by a bare newline is returned whole, unless it ends in a carriage return. */
  lemma BareLine(l: Str, rest: Str)
    requires NEWLINE !in l && (l == [] || l[|l| - 1] != CR)
    ensures LineOf(l + [NEWLINE] + rest) == Line(l, rest)
  {
    hide Find;
    assert (l + [NEWLINE])[..|l|] == l && (l + [NEWLINE])[|l| + 1..] + rest == rest;
    LineIn(l + [NEWLINE], rest, |l|);
  }

  /** A line ended by carriage return and newline is returned without the two, whatever its last byte. */
  lemma CrlfLine(l: Str, rest: Str)
    requires NEWLINE !in l
    ensures LineOf(l + [CR, NEWLINE] + rest) == Line(l, rest)
  {
    hide Find;
    var buf := l + [CR, NEWLINE];
    assert buf[..|l| + 1] == l + [CR] && buf[|l| + 2..] + rest == rest;
    LineIn(buf, rest, |l| + 1);
  }

  /** At the end of input a last line without newline is returned as it is, even with a carriage return. */
  lemma UnendedLine(l: Str)
    requires NEWLINE !in l
    ensures LineOf(l) == if l == [] then Eof else Line(l, [])
  {
    FindNone(l, NEWLINE);
  }

  class SockReader {
    var buf: Str
    var chunks: seq<Str> // what the coming calls of read deliver; then end of file for good

    constructor (stream: seq<Str>)
      requires forall c :: c in stream ==> c != []
      ensures Valid() && Rest() == Concat(stream)
    {
      buf, chunks := [], stream;
    }

    ghost predicate Valid()
      reads this
    {
      forall c :: c in chunks ==> c != []
    }

    // The bytes not yet handed out.
    ghost function Rest(): Str
      reads this
    {
      buf + Concat(chunks)
    }

    method Fill() returns (ok: bool)
      requires Valid()
      modifies this
      ensures Valid() && Rest() == old(Rest())
      ensures ok == (old(chunks) != []) && chunks == (if ok then old(chunks)[1..] else [])
      ensures ok ==> |buf| > |old(buf)|
      ensures !ok ==> buf == old(buf)
    {
      if chunks == [] {
        return false;
      }
      assert chunks[0] in chunks && forall c :: c in chunks[1..] ==> c in chunks;
      buf := buf + chunks[0];
      chunks := chunks[1..];
      ok := true;
    }

    method ReadLine() returns (ok: bool, line: Str)
      requires Valid()
      modifies this
      ensures Valid()
      ensures match LineOf(old(Rest()))
        case Eof => !ok && Rest() == []
        case Line(text, rest) => ok && line == text && Rest() == rest
    {
      hide LineOf;
      line := [];
      while true
        invariant Valid() && Rest() == old(Rest())
        decreases |chunks|
      {
        var nl := Find(buf, NEWLINE, 0);
        if nl < |buf| {
          LineIn(buf, Concat(chunks), nl);
          line := buf[..nl];
          if line != [] && line[|line| - 1] == CR {
            line := line[..|line| - 1];
          }
          buf := buf[nl + 1..];
          return true, line;
        }
        var more := Fill();
        if !more {
          assert Rest() == buf;
          LastLine(buf);
          if buf == [] {
            return false, line;
          }
          line := buf;
          buf := [];
          return true, line;
        }
      }
    }

    method ReadExactly(n: nat, out: Str) returns (got: Str)
      requires Valid()
      modifies this
      ensures Valid()
      ensures var take := Min(n, |old(Rest())|);
        got == out + old(Rest())[..take] && Rest() == old(Rest())[take..]
    {
      while |buf| < n
        invariant Valid() && Rest() == old(Rest())
        decreases |chunks|
      {
        var more := Fill();
        if !more {
          break;
        }
      }
      var take := Min(n, |buf|);
      assert take == Min(n, |Rest()|) by {
        if |buf| < n {
          assert chunks == [];
        }
      }
      got := out + buf[..take];
      buf := buf[take..];
    }

    method ReadUntilEOF(out: Str) returns (got: Str)
      requires Valid()
      modifies this
      ensures Valid() && got == out + old(Rest()) && Rest() == []
    {
      got := out + buf;
      buf := [];
      while true
        invariant Valid() && buf == [] && got + Concat(chunks) == out + old(Rest())
        decreases |chunks|
      {
        var more := Fill();
        if !more {
          break;
        }
        assert got + (buf + Concat(chunks)) == got + buf + Concat(chunks);
        got := got + buf;
        buf := [];
      }
    }
  }

  lemma LastLine(buf: Str)
    requires Find(buf, NEWLINE, 0) == |buf|
    ensures LineOf(buf) == if buf == [] then Eof else Line(buf, [])
  {
  }

  // ------------------------------------------------------------ any sequence of calls

  datatype Call = ReadLine | ReadExactly(n: nat) | ReadUntilEOF

  // What one call returns, and the bytes left.
  function Answer(rest: Str, call: Call): (Option<Str>, Str) {
    match call
    case ReadLine =>
      (match LineOf(rest)
       case Eof => (None, [])
       case Line(text, after) => (Some(text), after))
    case ReadExactly(n) => (Some(rest[..Min(n, |rest|)]), rest[Min(n, |rest|)..])
    case ReadUntilEOF => (Some(rest), [])
  }

  function Answers(rest: Str, calls: seq<Call>): seq<Option<Str>>
    decreases |calls|
  {
    if calls == [] then [] else [Answer(rest, calls[0]).0] + Answers(Answer(rest, calls[0]).1, calls[1..])
  }

  method Perform(reader: SockReader, call: Call) returns (answer: Option<Str>)
    requires reader.Valid()
    modifies reader
    ensures reader.Valid() && (answer, reader.Rest()) == Answer(old(reader.Rest()), call)
  {
    match call
    case ReadLine =>
      var ok, line := reader.ReadLine();
      assert reader.Rest() == Answer(old(reader.Rest()), call).1;
      answer := if ok then Some(line) else None;
    case ReadExactly(n) =>
      var got := reader.ReadExactly(n, []);
      ghost var taken := old(reader.Rest())[..Min(n, |old(reader.Rest())|)];
      assert [] + taken == taken;
      answer := Some(got);
    case ReadUntilEOF =>
      var got := reader.ReadUntilEOF([]);
      assert [] + old(reader.Rest()) == old(reader.Rest());
      answer := Some(got);
  }

  /** Two streams with the same bytes answer every sequence of calls alike, however they are cut. */
  method SameBytesSameAnswers(a: seq<Str>, b: seq<Str>, calls: seq<Call>)
    returns (x: seq<Option<Str>>, y: seq<Option<Str>>)
    requires (forall c :: c in a ==> c != []) && (forall c :: c in b ==> c != []) && Concat(a) == Concat(b)
    ensures x == y == Answers(Concat(a), calls)
  {
    hide Answer, Concat;
    var left := new SockReader(a);
    var right := new SockReader(b);
    x, y := [], [];
    for i := 0 to |calls|
      invariant left.Valid() && right.Valid() && left != right && left.Rest() == right.Rest()
      invariant x == y && Answers(Concat(a), calls) == x + Answers(left.Rest(), calls[i..])
    {
      assert calls[i..][0] == calls[i] && calls[i..][1..] == calls[i + 1..];
      var p := Perform(left, calls[i]);
      var q := Perform(right, calls[i]);
      x, y := x + [p], y + [q];
    }
    assert calls[|calls|..] == [];
  }
}
