// UTF-8 as laid out in RFC 3629: the encoding of section 3, the check on byte
// strings that the log helpers rely on, and how close to any position a valid
// prefix can end.

module Utf8 {

  import opened Prelude

  // ---- The encoding -------------------------------------------------------------

  /** A code point that has an encoding: at most U+10FFFF and not a surrogate. */
  predicate Scalar(cp: nat) {
    cp < 0xD800 || 0xDFFF < cp <= 0x10FFFF
  }

  /** Section 3 of RFC 3629: the bits of a code point spread over one to four bytes. */
  function EncodePoint(cp: nat): (r: seq<Byte>)
    requires Scalar(cp)
    ensures 1 <= |r| <= 4
  {
    if cp < 0x80 then [cp as Byte]
    else if cp < 0x800 then [(0xC0 + cp / 64) as Byte, Low(cp)]
    else if cp < 0x10000 then [(0xE0 + cp / 4096) as Byte, Low(cp / 64), Low(cp)]
    else [(0xF0 + cp / 262144) as Byte, Low(cp / 4096), Low(cp / 64), Low(cp)]
  }

  /** A continuation byte carrying the low six bits. */
  function Low(n: nat): Byte {
    (0x80 + n % 64) as Byte
  }

  predicate AllScalar(points: seq<nat>) {
    forall i :: 0 <= i < |points| ==> Scalar(points[i])
  }

  function Encode(points: seq<nat>): seq<Byte>
    requires AllScalar(points)
  {
    if points == [] then [] else EncodePoint(points[0]) + Encode(points[1..])
  }

  // ---- The check ----------------------------------------------------------------

  predicate Tail(b: Byte) {
    0x80 <= b <= 0xBF
  }

  /** First two bytes of a three-byte character, as in section 4 of RFC 3629. */
  predicate LeadsThree(a: Byte, b: Byte) {
    || (a == 0xE0 && 0xA0 <= b <= 0xBF)
    || ((0xE1 <= a <= 0xEC || 0xEE <= a <= 0xEF) && Tail(b))
    || (a == 0xED && 0x80 <= b <= 0x9F)
  }

  /** First two bytes of a four-byte character, as in section 4 of RFC 3629. */
  predicate LeadsFour(a: Byte, b: Byte) {
    || (a == 0xF0 && 0x90 <= b <= 0xBF)
    || (0xF1 <= a <= 0xF3 && Tail(b))
    || (a == 0xF4 && 0x80 <= b <= 0x8F)
  }

  /** How many bytes the first character takes; zero when no character starts here. */
  function FirstLength(s: seq<Byte>): (n: nat)
    ensures n <= 4 && n <= |s|
  {
    if |s| >= 1 && s[0] <= 0x7F then 1
    else if |s| >= 2 && 0xC2 <= s[0] <= 0xDF && Tail(s[1]) then 2
    else if |s| >= 3 && LeadsThree(s[0], s[1]) && Tail(s[2]) then 3
    else if |s| >= 4 && LeadsFour(s[0], s[1]) && Tail(s[2]) && Tail(s[3]) then 4
    else 0
  }

  predicate Valid(s: seq<Byte>) {
    s == [] || (FirstLength(s) > 0 && Valid(s[FirstLength(s)..]))
  }

  // ---- The check accepts exactly the encodings -----------------------------------

  lemma EncodedPointIsOne(cp: nat)
    requires Scalar(cp)
    ensures FirstLength(EncodePoint(cp)) == |EncodePoint(cp)|
  {
    if 0x800 <= cp < 0x10000 {
      LeadOfThree(cp);
    } else if 0x10000 <= cp {
      LeadOfFour(cp);
    }
  }

  lemma LeadOfThree(cp: nat)
    requires 0x800 <= cp < 0x10000 && Scalar(cp)
    ensures LeadsThree(EncodePoint(cp)[0], EncodePoint(cp)[1])
  {
    var high := cp / 64;
    assert cp / 4096 == high / 64;
    assert cp < 0xD800 ==> high < 0x360;
  }

  lemma LeadOfFour(cp: nat)
    requires 0x10000 <= cp <= 0x10FFFF
    ensures LeadsFour(EncodePoint(cp)[0], EncodePoint(cp)[1])
  {
    var high := cp / 4096;
    assert cp / 262144 == high / 64;
  }

  lemma EncodedPointStarts(cp: nat, rest: seq<Byte>)
    requires Scalar(cp)
    ensures FirstLength(EncodePoint(cp) + rest) == |EncodePoint(cp)|
  {
    EncodedPointIsOne(cp);
    FirstOfConcat(EncodePoint(cp), rest);
  }

  lemma DecodeTwo(a: Byte, b: Byte) returns (cp: nat)
    requires 0xC2 <= a <= 0xDF && Tail(b)
    ensures Scalar(cp) && EncodePoint(cp) == [a, b]
  {
    cp := (a as int - 0xC0) * 64 + (b as int - 0x80);
  }

  lemma DecodeThree(a: Byte, b: Byte, c: Byte) returns (cp: nat)
    requires LeadsThree(a, b) && Tail(c)
    ensures Scalar(cp) && EncodePoint(cp) == [a, b, c]
  {
    var high := (a as int - 0xE0) * 64 + (b as int - 0x80);
    cp := high * 64 + (c as int - 0x80);
    assert cp / 64 == high && cp / 4096 == a as int - 0xE0;
  }

  lemma DecodeFour(a: Byte, b: Byte, c: Byte, d: Byte) returns (cp: nat)
    requires LeadsFour(a, b) && Tail(c) && Tail(d)
    ensures Scalar(cp) && EncodePoint(cp) == [a, b, c, d]
  {
    var top := (a as int - 0xF0) * 64 + (b as int - 0x80);
    var high := top * 64 + (c as int - 0x80);
    cp := high * 64 + (d as int - 0x80);
    assert cp / 64 == high && cp / 4096 == top && cp / 262144 == a as int - 0xF0;
  }

  lemma DecodeFirst(s: seq<Byte>) returns (cp: nat)
    requires FirstLength(s) > 0
    ensures Scalar(cp) && EncodePoint(cp) == s[..FirstLength(s)]
  {
    var n := FirstLength(s);
    if n == 1 {
      cp := s[0] as int;
    } else if n == 2 {
      cp := DecodeTwo(s[0], s[1]);
    } else if n == 3 {
      cp := DecodeThree(s[0], s[1], s[2]);
    } else {
      cp := DecodeFour(s[0], s[1], s[2], s[3]);
    }
  }

  lemma {:induction false} EncodedIsValid(points: seq<nat>)
    requires AllScalar(points)
    ensures Valid(Encode(points))
  {
    if points != [] {
      var rest := Encode(points[1..]);
      EncodedPointStarts(points[0], rest);
      EncodedIsValid(points[1..]);
      assert Encode(points)[|EncodePoint(points[0])|..] == rest;
    }
  }

  lemma {:induction false} ValidIsEncoded(s: seq<Byte>) returns (points: seq<nat>)
    requires Valid(s)
    ensures AllScalar(points) && Encode(points) == s
  {
    if s == [] {
      points := [];
    } else {
      var n := FirstLength(s);
      var first := DecodeFirst(s);
      var rest := ValidIsEncoded(s[n..]);
      points := [first] + rest;
      assert points[1..] == rest;
      assert s == s[..n] + s[n..];
    }
  }

  /** A byte string passes the check exactly when it encodes some code points. */
  lemma ValidIffEncoded(s: seq<Byte>)
    ensures Valid(s) <==> exists points :: AllScalar(points) && Encode(points) == s
  {
    if Valid(s) {
      var points := ValidIsEncoded(s);
    }
    forall points | AllScalar(points) && Encode(points) == s
      ensures Valid(s)
    {
      EncodedIsValid(points);
    }
  }

  // ---- Prefixes and concatenations ------------------------------------------------

  lemma FirstOfPrefix(s: seq<Byte>, n: nat)
    requires FirstLength(s) <= n <= |s| && FirstLength(s) > 0
    ensures FirstLength(s[..n]) == FirstLength(s)
  {
  }

  lemma FirstIsValid(s: seq<Byte>)
    requires FirstLength(s) > 0
    ensures Valid(s[..FirstLength(s)])
  {
    var first := s[..FirstLength(s)];
    FirstOfPrefix(s, |first|);
    assert first[|first|..] == [];
  }

  lemma FirstOfConcat(a: seq<Byte>, b: seq<Byte>)
    requires FirstLength(a) > 0
    ensures FirstLength(a + b) == FirstLength(a)
  {
    var s := a + b;
    assert s[0] == a[0] && (|a| > 1 ==> s[1] == a[1]) && (|a| > 2 ==> s[2] == a[2]) && (|a| > 3 ==> s[3] == a[3]);
  }

  lemma ValidAfterFirst(a: seq<Byte>, b: seq<Byte>)
    requires FirstLength(a) > 0 && Valid(a[FirstLength(a)..] + b)
    ensures Valid(a + b)
  {
    FirstOfConcat(a, b);
    assert (a + b)[FirstLength(a)..] == a[FirstLength(a)..] + b;
  }

  lemma {:induction false} ValidConcat(a: seq<Byte>, b: seq<Byte>)
    requires Valid(a) && Valid(b)
    ensures Valid(a + b)
    decreases |a|
  {
    if a == [] {
      EmptyConcat(b);
    } else {
      ValidConcat(a[FirstLength(a)..], b);
      ValidAfterFirst(a, b);
    }
  }

  /** Below every position of a valid string, at most three bytes back, a character ends. */
  lemma {:induction false} BoundaryNear(s: seq<Byte>, n: nat) returns (m: nat)
    requires Valid(s) && n <= |s|
    ensures m <= n <= m + 3 && Valid(s[..m])
    decreases |s|
  {
    var first := FirstLength(s);
    if s == [] || n < first {
      m := 0;
    } else {
      var rest := BoundaryNear(s[first..], n - first);
      m := first + rest;
      FirstOfPrefix(s, m);
      assert s[..m][first..] == s[first..][..rest];
    }
  }
}
