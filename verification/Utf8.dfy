/** UTF-8, as RFC 3629 lays it out: what every Rust `str` holds. */
module Utf8 {
  import opened Bytes

  predicate IsContinuation(b: byte) {
    0x80 <= b < 0xC0
  }

  /** The length of the character at the start of `s`, or 0 when no character starts there (section 4). */
  function CharacterLength(s: seq<byte>): (n: nat)
    requires s != []
    ensures n <= |s|
  {
    if s[0] < 0x80 then 1
    else if 0xC2 <= s[0] < 0xE0 && |s| >= 2 && IsContinuation(s[1]) then 2
    else if 0xE0 <= s[0] < 0xF0 && |s| >= 3 && IsContinuation(s[1]) && IsContinuation(s[2])
            && (s[0] == 0xE0 ==> s[1] >= 0xA0) && (s[0] == 0xED ==> s[1] < 0xA0) then 3
    else if 0xF0 <= s[0] < 0xF5 && |s| >= 4
            && IsContinuation(s[1]) && IsContinuation(s[2]) && IsContinuation(s[3])
            && (s[0] == 0xF0 ==> s[1] >= 0x90) && (s[0] == 0xF4 ==> s[1] < 0x90) then 4
    else 0
  }

  predicate IsUtf8(s: seq<byte>)
    decreases |s|
  {
    s == [] || (var n := CharacterLength(s); n > 0 && IsUtf8(s[n..]))
  }

  lemma {:induction false} AsciiIsUtf8(s: seq<byte>)
    requires forall i :: 0 <= i < |s| ==> s[i] < 0x80
    ensures IsUtf8(s)
  {
    if s != [] {
      AsciiIsUtf8(s[1..]);
    }
  }

  // ----- code points

  /** The bytes of a code point up to 0x10FFFF, surrogates included. */
  function Encoded(point: nat): seq<byte>
    requires point < 0x110000
  {
    if point < 0x80 then [point]
    else if point < 0x800 then [0xC0 + point / 0x40, 0x80 + point % 0x40]
    else if point < 0x10000 then
      [0xE0 + point / 0x1000, 0x80 + point / 0x40 % 0x40, 0x80 + point % 0x40]
    else
      [0xF0 + point / 0x40000, 0x80 + point / 0x1000 % 0x40, 0x80 + point / 0x40 % 0x40, 0x80 + point % 0x40]
  }

  predicate IsSurrogate(point: nat) {
    0xD800 <= point < 0xE000
  }

  /** What a character may be: any code point but a surrogate. */
  predicate IsScalar(point: nat) {
    point < 0x110000 && !IsSurrogate(point)
  }

  /** The low bits of a byte, below the power of two `m`. */
  function Bits(b: byte, m: nat): nat
    requires m > 0
  {
    b % m
  }

  /**
   The number in the free bits of a character, by the table of section 3: 7, 5, 4 or 3 in the first byte,
   6 in every other.
   */
  function PointOf(c: seq<byte>): nat
    requires 1 <= |c| <= 4
  {
    match |c|
    case 1 => Bits(c[0], 0x80)
    case 2 => 0x40 * Bits(c[0], 0x20) + Bits(c[1], 0x40)
    case 3 => 0x40 * (0x40 * Bits(c[0], 0x10) + Bits(c[1], 0x40)) + Bits(c[2], 0x40)
    case _ => 0x40 * (0x40 * (0x40 * Bits(c[0], 0x08) + Bits(c[1], 0x40)) + Bits(c[2], 0x40)) + Bits(c[3], 0x40)
  }

  lemma FreeBits(r: nat)
    ensures r < 0x40 ==> Bits(0x80 + r, 0x40) == r
    ensures r < 0x20 ==> Bits(0xC0 + r, 0x20) == r
    ensures r < 0x10 ==> Bits(0xE0 + r, 0x10) == r
    ensures r < 0x08 ==> Bits(0xF0 + r, 0x08) == r
  {}

  /** A number is its sixes of bits, and these are the only ones. */
  lemma Sixes(p: nat)
    ensures p == 0x40 * (p / 0x40) + p % 0x40
    ensures p / 0x40 / 0x40 == p / 0x1000 && p / 0x1000 / 0x40 == p / 0x40000
  {}

  lemma OnlySix(q: nat, r: nat)
    requires r < 0x40
    ensures (0x40 * q + r) / 0x40 == q && (0x40 * q + r) % 0x40 == r
  {}

  /** The bits of every code point are where the table puts them. */
  lemma EncodedHoldsPoint(point: nat)
    requires point < 0x110000
    ensures PointOf(Encoded(point)) == point
  {
    hide Bits;
    Sixes(point);
    Sixes(point / 0x40);
    Sixes(point / 0x1000);
    FreeBits(point % 0x40);
    FreeBits(point / 0x40 % 0x40);
    FreeBits(point / 0x1000 % 0x40);
    if point < 0x80 {
      FreeBits7(point);
    } else if point < 0x800 {
      FreeBits(point / 0x40);
    } else if point < 0x10000 {
      FreeBits(point / 0x1000);
    } else {
      FreeBits(point / 0x40000);
    }
  }

  lemma FreeBits7(b: byte)
    requires b < 0x80
    ensures Bits(b, 0x80) == b
  {}

  lemma EncodedAlone(point: nat)
    requires IsScalar(point)
    ensures CharacterLength(Encoded(point)) == |Encoded(point)| > 0
  {
    var c := Encoded(point);
    if point >= 0x10000 {
      assert |c| == 4 && 0xF0 <= c[0] <= 0xF4;
    } else if point >= 0x800 {
      assert |c| == 3 && 0xE0 <= c[0] <= 0xEF;
    }
  }

  lemma CharacterInFront(c: seq<byte>, rest: seq<byte>)
    requires c != [] && CharacterLength(c) == |c|
    ensures CharacterLength(c + rest) == |c|
  {
    var s := c + rest;
    assert forall i :: 0 <= i < |c| ==> s[i] == c[i];
  }

  /** A scalar value is encoded as one character, whatever follows. */
  lemma EncodedIsACharacter(point: nat, rest: seq<byte>)
    requires IsScalar(point)
    ensures CharacterLength(Encoded(point) + rest) == |Encoded(point)|
  {
    hide Encoded, CharacterLength;
    EncodedAlone(point);
    CharacterInFront(Encoded(point), rest);
  }

  /** And every character encodes a scalar value: no overlong form, no surrogate, nothing too large. */
  lemma CharacterIsEncoded(s: seq<byte>)
    requires s != [] && CharacterLength(s) > 0
    ensures var c := s[..CharacterLength(s)];
            1 <= |c| <= 4 && IsScalar(PointOf(c)) && Encoded(PointOf(c)) == c
  {
    var n := CharacterLength(s);
    var c := s[..n];
    hide Bits;
    match n
    case 1 => FreeBits7(s[0]);
    case 2 =>
      var q: int, r: int := s[0] - 0xC0, s[1] - 0x80;
      FreeBits(q);
      FreeBits(r);
      OnlySix(q, r);
    case 3 => ThreeBytesAreEncoded(c);
    case _ => FourBytesAreEncoded(c);
  }

  lemma ThreeBytesAreEncoded(c: seq<byte>)
    requires |c| == 3 && CharacterLength(c) == 3
    ensures IsScalar(PointOf(c)) && Encoded(PointOf(c)) == c
  {
    var q: int, r: int, t: int := c[0] - 0xE0, c[1] - 0x80, c[2] - 0x80;
    FreeBits(q);
    FreeBits(r);
    FreeBits(t);
    hide Bits;
    OnlySix(q, r);
    OnlySix(0x40 * q + r, t);
    Sixes(PointOf(c));
  }

  lemma FourBytesAreEncoded(c: seq<byte>)
    requires |c| == 4 && CharacterLength(c) == 4
    ensures IsScalar(PointOf(c)) && Encoded(PointOf(c)) == c
  {
    var q: int, r: int, t: int, u: int := c[0] - 0xF0, c[1] - 0x80, c[2] - 0x80, c[3] - 0x80;
    FreeBits(q);
    FreeBits(r);
    FreeBits(t);
    FreeBits(u);
    hide Bits;
    OnlySix(q, r);
    OnlySix(0x40 * q + r, t);
    OnlySix(0x40 * (0x40 * q + r) + t, u);
    Sixes(PointOf(c));
  }

  function EncodedAll(points: seq<nat>): seq<byte>
    requires forall i :: 0 <= i < |points| ==> points[i] < 0x110000
  {
    if points == [] then [] else Encoded(points[0]) + EncodedAll(points[1..])
  }

  predicate AllScalar(points: seq<nat>) {
    forall i :: 0 <= i < |points| ==> IsScalar(points[i])
  }

  lemma {:induction false} EncodedAllIsUtf8(points: seq<nat>)
    requires AllScalar(points)
    ensures IsUtf8(EncodedAll(points))
  {
    if points != [] {
      EncodedAllIsUtf8(points[1..]);
      EncodedIsACharacter(points[0], EncodedAll(points[1..]));
      assert EncodedAll(points)[|Encoded(points[0])|..] == EncodedAll(points[1..]);
    }
  }

  lemma EncodedAllWithFirst(point: nat, points: seq<nat>)
    requires IsScalar(point) && AllScalar(points)
    ensures AllScalar([point] + points) && EncodedAll([point] + points) == Encoded(point) + EncodedAll(points)
  {
    hide Encoded, IsScalar;
    assert ([point] + points)[1..] == points;
  }

  lemma {:induction false} Utf8IsEncodedAll(s: seq<byte>) returns (points: seq<nat>)
    requires IsUtf8(s)
    ensures AllScalar(points) && EncodedAll(points) == s
    decreases |s|
  {
    if s == [] {
      points := [];
    } else {
      var n := CharacterLength(s);
      var rest := Utf8IsEncodedAll(s[n..]);
      CharacterIsEncoded(s);
      EncodedAllWithFirst(PointOf(s[..n]), rest);
      points := [PointOf(s[..n])] + rest;
      hide *;
      assert s == s[..n] + s[n..];
    }
  }

  /** Bytes are UTF-8 exactly when they are the encodings of scalar values, one after the other. */
  lemma Utf8IffScalars(s: seq<byte>)
    ensures IsUtf8(s) <==> exists points :: AllScalar(points) && EncodedAll(points) == s
  {
    if IsUtf8(s) {
      var points := Utf8IsEncodedAll(s);
    }
    if points :| AllScalar(points) && EncodedAll(points) == s {
      EncodedAllIsUtf8(points);
    }
  }

  /** Bytes with an encoded surrogate anywhere are never UTF-8. */
  lemma {:induction false} SurrogateIsNeverUtf8(before: seq<byte>, point: nat, rest: seq<byte>)
    requires IsSurrogate(point)
    ensures !IsUtf8(before + Encoded(point) + rest)
    decreases |before|
  {
    var s := before + Encoded(point) + rest;
    assert Encoded(point)[0] == 0xED && Encoded(point)[1] >= 0xA0;
    if before == [] {
      assert s[0] == 0xED && s[1] >= 0xA0;
    } else {
      var n := CharacterLength(s);
      assert s[|before|] == 0xED && !IsContinuation(s[|before|]);
      if 0 < n <= |before| {
        assert s[n..] == before[n..] + Encoded(point) + rest;
        SurrogateIsNeverUtf8(before[n..], point, rest);
      }
    }
  }
}
