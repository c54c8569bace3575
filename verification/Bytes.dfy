/** Byte slices, and the machine limits that bound them on a 64-bit target. */
module Bytes {

  type byte = b: int | 0 <= b < 0x100

  /** The largest number a `usize` holds. */
  const USIZE_MAX: nat := 0xFFFF_FFFF_FFFF_FFFF

  type usize = n: nat | n <= USIZE_MAX

  /** No slice and no vector is longer than this. */
  const ISIZE_MAX: nat := 0x7FFF_FFFF_FFFF_FFFF

  const NEWLINE: byte := 0x0A

  /** The bytes of a literal made of ASCII characters. */
  function Ascii(text: string): (b: seq<byte>)
    requires forall i :: 0 <= i < |text| ==> text[i] as int < 0x80
    ensures |b| == |text|
  {
    seq(|text|, i requires 0 <= i < |text| => text[i] as int)
  }

  /** The position of the first newline, or the length when there is none. */
  function LineEnd(s: seq<byte>): (n: nat)
    ensures n <= |s|
    ensures forall i :: 0 <= i < n ==> s[i] != NEWLINE
    ensures n < |s| ==> s[n] == NEWLINE
  {
    if s == [] || s[0] == NEWLINE then 0 else 1 + LineEnd(s[1..])
  }

  /** The first line of `line + [NEWLINE] + rest`, or of `line` alone, is `line`. */
  lemma {:induction false} LineEndOfLine(line: seq<byte>, rest: seq<byte>)
    requires NEWLINE !in line
    requires rest == [] || rest[0] == NEWLINE
    ensures LineEnd(line + rest) == |line|
  {
    if line == [] {
      assert line + rest == rest;
    } else {
      assert (line + rest)[0] == line[0];
      assert (line + rest)[1..] == line[1..] + rest;
      LineEndOfLine(line[1..], rest);
    }
  }
}
