/** Base 16 as in section 8 of RFC 4648, printed in lower case and read in either case. */
module Hex {
  import opened Wrappers
  import opened Bytes
  import opened Text

  function Digit(n: nat): (c: char)
    requires n < 16
    ensures '0' <= c <= '9' || 'a' <= c <= 'f'
  {
    if n < 10 then ('0' as int + n) as char else ('a' as int + n - 10) as char
  }

  function DigitValue(c: char): (n: Option<nat>)
    ensures n.Some? ==> n.value < 16
  {
    if '0' <= c <= '9' then Some(c as int - '0' as int)
    else if 'a' <= c <= 'f' then Some(c as int - 'a' as int + 10)
    else if 'A' <= c <= 'F' then Some(c as int - 'A' as int + 10)
    else None
  }

  function Encode(bytes: seq<byte>): (s: string)
    ensures |s| == 2 * |bytes|
    ensures forall i :: 0 <= i < |s| ==> '0' <= s[i] <= '9' || 'a' <= s[i] <= 'f'
  {
    if bytes == [] then "" else [Digit(bytes[0] / 16), Digit(bytes[0] % 16)] + Encode(bytes[1..])
  }

  function Decode(s: string): (r: Option<seq<byte>>)
    ensures r.Some? ==> 2 * |r.value| == |s|
  {
    if s == "" then Some([])
    else if |s| == 1 then None
    else
      var high, low, rest := DigitValue(s[0]), DigitValue(s[1]), Decode(s[2..]);
      if high.Some? && low.Some? && rest.Some? then Some([16 * high.value + low.value] + rest.value) else None
  }

  /** `hex::decode_to_slice` into a buffer of `n` bytes. */
  function DecodeExactly(s: string, n: nat): Option<seq<byte>> {
    if |s| == 2 * n then Decode(s) else None
  }

  lemma DigitsOfByte(b: byte)
    ensures DigitValue(Digit(b / 16)) == Some(b / 16) && DigitValue(Digit(b % 16)) == Some(b % 16)
    ensures 16 * (b / 16) + b % 16 == b
  {}

  lemma {:induction false} DecodeEncoded(bytes: seq<byte>)
    ensures Decode(Encode(bytes)) == Some(bytes)
  {
    if bytes != [] {
      hide Digit, DigitValue;
      DecodeEncoded(bytes[1..]);
      DigitsOfByte(bytes[0]);
      var s := Encode(bytes);
      assert s[0] == Digit(bytes[0] / 16) && s[1] == Digit(bytes[0] % 16);
      assert s[2..] == Encode(bytes[1..]);
      assert [bytes[0]] + bytes[1..] == bytes;
    }
  }

  lemma {:induction false} CaseDoesNotMatter(s: string)
    ensures Decode(Lower(s)) == Decode(s)
  {
    if |s| >= 2 {
      CaseDoesNotMatter(s[2..]);
      assert Lower(s)[2..] == Lower(s[2..]);
    }
  }

  lemma ByteOfDigits(high: char, low: char)
    requires DigitValue(high).Some? && DigitValue(low).Some?
    ensures var b := 16 * DigitValue(high).value + DigitValue(low).value;
            b / 16 < 16 && Digit(b / 16) == LowerChar(high) && Digit(b % 16) == LowerChar(low)
  {}

  lemma {:induction false} EncodeDecoded(s: string)
    requires Decode(s).Some?
    ensures Encode(Decode(s).value) == Lower(s)
  {
    if s != "" {
      hide Digit, DigitValue, LowerChar;
      EncodeDecoded(s[2..]);
      ByteOfDigits(s[0], s[1]);
      assert Lower(s) == [LowerChar(s[0]), LowerChar(s[1])] + Lower(s[2..]);
      assert Decode(s).value[1..] == Decode(s[2..]).value;
    }
  }

  /** Exactly the spellings of some bytes are read as these bytes. */
  lemma DecodesIffSpelled(s: string, bytes: seq<byte>)
    ensures Decode(s) == Some(bytes) <==> Lower(s) == Encode(bytes)
  {
    if Decode(s) == Some(bytes) {
      EncodeDecoded(s);
    }
    if Lower(s) == Encode(bytes) {
      CaseDoesNotMatter(s);
      DecodeEncoded(bytes);
    }
  }

  const DIGITS := "0123456789abcdef"

  /** The place of a digit among the sixteen. */
  function Place(c: char): (n: nat)
    requires c in DIGITS
    ensures n < 16 && DIGITS[n] == c
  {
    var n: nat :| n < 16 && DIGITS[n] == c;
    n
  }

  /** What text in base 16 is as a number, the most significant digit first. */
  function TextNumber(s: string): nat
    requires forall i :: 0 <= i < |s| ==> s[i] in DIGITS
  {
    if s == "" then 0 else 16 * TextNumber(s[..|s| - 1]) + Place(s[|s| - 1])
  }

  /** What bytes are as a number, the most significant byte first. */
  function BytesNumber(bytes: seq<byte>): nat {
    if bytes == [] then 0 else 256 * BytesNumber(bytes[..|bytes| - 1]) + bytes[|bytes| - 1]
  }

  lemma DigitIsInPlace(n: nat)
    requires n < 16
    ensures Digit(n) in DIGITS && Place(Digit(n)) == n
  {
    assert DIGITS[n] == Digit(n);
    assert forall i :: 0 <= i < 10 ==> DIGITS[i] as int == '0' as int + i;
    assert forall i :: 10 <= i < 16 ==> DIGITS[i] as int == 'a' as int + i - 10;
  }

  lemma {:induction false} EncodeLonger(bytes: seq<byte>)
    requires bytes != []
    ensures var n, b := |bytes| - 1, bytes[|bytes| - 1];
            Encode(bytes) == Encode(bytes[..n]) + [Digit(b / 16), Digit(b % 16)]
  {
    hide Digit;
    if |bytes| > 1 {
      EncodeLonger(bytes[1..]);
      assert bytes[1..][..|bytes| - 2] == bytes[..|bytes| - 1][1..];
    } else {
      assert bytes[1..] == [] == bytes[..0];
    }
  }

  /** The text that stands for some bytes is the same number in base 16 as they are in base 256. */
  lemma {:induction false} EncodeKeepsNumber(bytes: seq<byte>)
    ensures forall i :: 0 <= i < |Encode(bytes)| ==> Encode(bytes)[i] in DIGITS
    ensures TextNumber(Encode(bytes)) == BytesNumber(bytes)
  {
    hide Digit, Place;
    if bytes != [] {
      EncodeKeepsNumber(bytes[..|bytes| - 1]);
      EncodeLonger(bytes);
      hide Encode;
      ByteAppended(Encode(bytes[..|bytes| - 1]), bytes[|bytes| - 1]);
    }
  }

  lemma ByteAppended(s: string, b: byte)
    requires forall i :: 0 <= i < |s| ==> s[i] in DIGITS
    ensures var text := s + [Digit(b / 16), Digit(b % 16)];
            && (forall i :: 0 <= i < |text| ==> text[i] in DIGITS)
            && TextNumber(text) == 256 * TextNumber(s) + b
  {
    hide Digit, Place;
    DigitIsInPlace(b / 16);
    DigitIsInPlace(b % 16);
    var front, text := s + [Digit(b / 16)], s + [Digit(b / 16), Digit(b % 16)];
    assert text[..|text| - 1] == front && front[..|front| - 1] == s;
    hide DIGITS;
    assert TextNumber(front) == 16 * TextNumber(s) + b / 16;
    assert TextNumber(text) == 16 * TextNumber(front) + b % 16;
  }
}
