/**
  Byte strings, C strings, little-endian integers and the order of strcmp.
 */
module Bytes {

  type Byte = x: int | 0 <= x < 256

  type Str = seq<Byte>

  // A read past the end yields 0, as in the zero-filled tail of a mapped page.
  function At(b: Str, p: nat): Byte {
    if p < |b| then b[p] else 0
  }

  predicate Has(b: Str, p: nat, s: Str) {
    p + |s| <= |b| && b[p..p + |s|] == s
  }

  lemma HasConcat(b: Str, p: nat, s: Str, t: Str)
    requires Has(b, p, s + t)
    ensures Has(b, p, s) && Has(b, p + |s|, t)
  {
    var u := b[p..p + |s| + |t|];
    assert u[..|s|] == s && u[|s|..] == t;
  }

  lemma HasIn(b: Str, p: nat, s: Str, i: nat)
    requires Has(b, p, s) && i < |s|
    ensures At(b, p + i) == s[i]
  {
    assert b[p..p + |s|][i] == b[p + i];
  }

  // std::string::find for one character: its first position from i on, or |s|.
  function Find(s: Str, c: Byte, i: nat): (j: nat)
    requires i <= |s|
    ensures i <= j <= |s| && (forall k :: i <= k < j ==> s[k] != c) && (j < |s| ==> s[j] == c)
    decreases |s| - i
  {
    if i == |s| || s[i] == c then i else Find(s, c, i + 1)
  }

  // ------------------------------------------------------------ integers

  function U16(v: int): (r: Str)
    ensures |r| == 2
  {
    [v % 256, v / 256 % 256]
  }

  function U32(v: int): (r: Str)
    ensures |r| == 4
  {
    [v % 256, v / 256 % 256, v / 256 / 256 % 256, v / 256 / 256 / 256 % 256]
  }

  function ReadU16(b: Str, p: nat): nat {
    At(b, p) + 256 * At(b, p + 1)
  }

  function ReadU32(b: Str, p: nat): nat {
    At(b, p) + 256 * At(b, p + 1) + 65536 * At(b, p + 2) + 16777216 * At(b, p + 3)
  }

  lemma ReadBackU16(b: Str, p: nat, v: int)
    requires Has(b, p, U16(v))
    ensures ReadU16(b, p) == v % 65536
  {
    HasIn(b, p, U16(v), 0);
    HasIn(b, p, U16(v), 1);
  }

  lemma ReadBackU32(b: Str, p: nat, v: int)
    requires Has(b, p, U32(v))
    ensures ReadU32(b, p) == v % 4294967296
  {
    HasIn(b, p, U32(v), 0);
    HasIn(b, p, U32(v), 1);
    HasIn(b, p, U32(v), 2);
    HasIn(b, p, U32(v), 3);
    RadixSum(v);
  }

  lemma RadixSum(v: int)
    ensures v % 256 + 256 * (v / 256 % 256) + 65536 * (v / 256 / 256 % 256) + 16777216 * (v / 256 / 256 / 256 % 256)
            == v % 4294967296
  {
    var q := v / 256;
    var r := q / 256;
    var t := r / 256;
    assert v == v % 256 + 256 * (q % 256) + 65536 * (r % 256) + 16777216 * (t % 256) + 4294967296 * (t / 256);
  }

  /** Integers are stored with their low byte first. */
  lemma LittleEndian(v: int)
    ensures var b: seq<int> := U16(v); b[0] + 256 * b[1] == v % 65536
    ensures var b: seq<int> := U32(v); b[0] + 256 * b[1] + 65536 * b[2] + 16777216 * b[3] == v % 4294967296
  {
    hide U16, U32;
    var two, four := U16(v), U32(v);
    assert Has(two, 0, two) && Has(four, 0, four);
    ReadBackU16(two, 0, v);
    ReadBackU32(four, 0, v);
  }

  // ------------------------------------------------------------ C strings

  function Strlen(b: Str, p: nat): nat
    decreases |b| - p
  {
    if At(b, p) == 0 then 0 else 1 + Strlen(b, p + 1)
  }

  function CStr(b: Str, p: nat): Str
    decreases |b| - p
  {
    if At(b, p) == 0 then [] else [b[p]] + CStr(b, p + 1)
  }

  predicate NoNul(s: Str) {
    0 !in s
  }

  lemma {:induction false} ReadBackCStr(b: Str, p: nat, s: Str)
    requires NoNul(s) && Has(b, p, s + [0])
    ensures CStr(b, p) == s && Strlen(b, p) == |s|
    decreases |s|
  {
    HasIn(b, p, s + [0], 0);
    if s != [] {
      assert s + [0] == [s[0]] + (s[1..] + [0]);
      HasConcat(b, p, [s[0]], s[1..] + [0]);
      ReadBackCStr(b, p + 1, s[1..]);
    }
  }

  // ------------------------------------------------------------ lexicographic order

  predicate Less(a: Str, b: Str) {
    if b == [] then false
    else if a == [] then true
    else a[0] < b[0] || (a[0] == b[0] && Less(a[1..], b[1..]))
  }

  lemma {:induction false} LessTotal(a: Str, b: Str)
    ensures Less(a, b) || a == b || Less(b, a)
    ensures !(Less(a, b) && Less(b, a)) && !Less(a, a)
  {
    if a != [] && b != [] {
      assert a == [a[0]] + a[1..] && b == [b[0]] + b[1..];
      LessTotal(a[1..], b[1..]);
    }
    if a != [] {
      LessTotal(a[1..], a[1..]);
    }
  }

  lemma {:induction false} LessTransitive(a: Str, b: Str, c: Str)
    requires Less(a, b) && Less(b, c)
    ensures Less(a, c)
  {
    if a != [] && b != [] && c != [] {
      if a[0] == b[0] == c[0] {
        LessTransitive(a[1..], b[1..], c[1..]);
      }
    }
  }
}
