/**
 Every spelling of a JSON string (section 7 of RFC 8259), and proofs that the scanner accepts exactly these.

 A character is written plainly, by a short escape, or by `\u` escapes with or without a partner.
 */
module JsonStrings {
  import opened Wrappers
  import opened Bytes
  import opened Utf8
  import opened Json

  /** A hexadecimal digit, and the case it is written in. */
  datatype Digit = Digit(n: nat, upper: bool)

  predicate ValidDigits(ds: seq<Digit>) {
    |ds| == 4 && ds[0].n < 16 && ds[1].n < 16 && ds[2].n < 16 && ds[3].n < 16
  }

  function FlatDigit(d: Digit): byte
    requires d.n < 16
  {
    (if d.upper then "0123456789ABCDEF"[d.n] else "0123456789abcdef"[d.n]) as int
  }

  /** The most significant digit comes first. */
  function NumberOf(ds: seq<Digit>): (n: nat)
    requires ValidDigits(ds)
    ensures n < 0x10000
  {
    0x10 * (0x10 * (0x10 * ds[0].n + ds[1].n) + ds[2].n) + ds[3].n
  }

  function FlatDigits(ds: seq<Digit>): Text
    requires ValidDigits(ds)
  {
    [FlatDigit(ds[0]), FlatDigit(ds[1]), FlatDigit(ds[2]), FlatDigit(ds[3])]
  }

  predicate IsLead(point: nat) {
    0xD800 <= point < 0xDC00
  }

  predicate IsTrail(point: nat) {
    0xDC00 <= point < 0xE000
  }

  /** How a character of a string is written. */
  datatype Char =
    | Plain(b: byte)
    | Short(letter: char)
    | Unicode(digits: seq<Digit>)
    | Pair(lead: seq<Digit>, trail: seq<Digit>)

  /** The letter after a backslash, and the byte it stands for. */
  function ShortMeaning(letter: char): Option<byte> {
    match letter
    case '\"' => Some(0x22)
    case '\\' => Some(0x5C)
    case '/' => Some(0x2F)
    case 'b' => Some(0x08)
    case 'f' => Some(0x0C)
    case 'n' => Some(0x0A)
    case 'r' => Some(0x0D)
    case 't' => Some(0x09)
    case _ => None
  }

  predicate ValidChar(c: Char) {
    match c
    case Plain(b) => b >= 0x20 && b != QUOTE && b != BACKSLASH
    case Short(letter) => ShortMeaning(letter).Some?
    case Unicode(ds) => ValidDigits(ds)
    case Pair(ds, es) => ValidDigits(ds) && ValidDigits(es) && IsLead(NumberOf(ds)) && IsTrail(NumberOf(es))
  }

  /** The code point a surrogate pair stands for, ten bits in each half. */
  function Joined(lead: nat, trail: nat): (point: nat)
    requires IsLead(lead) && IsTrail(trail)
    ensures 0x10000 <= point < 0x110000
  {
    0x10000 + 0x400 * (lead % 0x400) + trail % 0x400
  }

  function FlatChar(c: Char): Text
    requires ValidChar(c)
  {
    match c
    case Plain(b) => [b]
    case Short(letter) => [BACKSLASH, letter as int]
    case Unicode(ds) => [BACKSLASH, LOWER_U] + FlatDigits(ds)
    case Pair(ds, es) => [BACKSLASH, LOWER_U] + FlatDigits(ds) + [BACKSLASH, LOWER_U] + FlatDigits(es)
  }

  function CharMeaning(c: Char): Text
    requires ValidChar(c)
  {
    match c
    case Plain(b) => [b]
    case Short(letter) => [ShortMeaning(letter).value]
    case Unicode(ds) => Encoded(NumberOf(ds))
    case Pair(ds, es) => Encoded(Joined(NumberOf(ds), NumberOf(es)))
  }

  /** The next character completes the escape of a lead surrogate. */
  predicate Completes(c: Char, next: Char)
    requires ValidChar(c) && ValidChar(next)
  {
    c.Unicode? && next.Unicode? && IsLead(NumberOf(c.digits)) && IsTrail(NumberOf(next.digits))
  }

  /** Two escapes that make a pair are one character. */
  predicate ValidChars(cs: seq<Char>) {
    cs == [] ||
    (ValidChar(cs[0]) && ValidChars(cs[1..]) && (|cs| > 1 ==> !Completes(cs[0], cs[1])))
  }

  function FlatChars(cs: seq<Char>): Text
    requires ValidChars(cs)
  {
    if cs == [] then [] else FlatChar(cs[0]) + FlatChars(cs[1..])
  }

  function Meaning(cs: seq<Char>): Text
    requires ValidChars(cs)
  {
    if cs == [] then [] else CharMeaning(cs[0]) + Meaning(cs[1..])
  }

  lemma ScanFlatDigit(d: Digit)
    requires d.n < 16
    ensures HexValue(FlatDigit(d)) == Some(d.n)
  {}

  lemma DigitOfByte(b: byte) returns (d: Digit)
    requires HexValue(b).Some?
    ensures d.n == HexValue(b).value && FlatDigit(d) == b
  {
    d := Digit(HexValue(b).value, b < 0x61);
  }

  /** The scanner reads four digits as the number they spell. */
  lemma ScanFlatDigits(ds: seq<Digit>, rest: Text)
    requires ValidDigits(ds)
    ensures ScanHex4(FlatDigits(ds) + rest) == Some(NumberOf(ds))
  {
    hide HexValue, FlatDigit;
    ScanFlatDigit(ds[0]);
    ScanFlatDigit(ds[1]);
    ScanFlatDigit(ds[2]);
    ScanFlatDigit(ds[3]);
    var s := FlatDigits(ds) + rest;
    assert s[0] == FlatDigit(ds[0]) && s[1] == FlatDigit(ds[1]) && s[2] == FlatDigit(ds[2]) && s[3] == FlatDigit(ds[3]);
  }

  lemma DigitsOfText(s: Text) returns (ds: seq<Digit>)
    requires ScanHex4(s).Some?
    ensures ValidDigits(ds) && s[..4] == FlatDigits(ds) && NumberOf(ds) == ScanHex4(s).value
  {
    hide HexValue, FlatDigit;
    var a := DigitOfByte(s[0]);
    var b := DigitOfByte(s[1]);
    var c := DigitOfByte(s[2]);
    var d := DigitOfByte(s[3]);
    ds := [a, b, c, d];
  }

  lemma ScanShort(letter: char, rest: Text)
    requires ShortMeaning(letter).Some?
    ensures ScanEscape([letter as int] + rest) == Some(([ShortMeaning(letter).value], 1))
  {}

  /** The text does not go on with an escape of a trail surrogate. */
  predicate NoTrailNext(rest: Text) {
    |rest| >= 2 && rest[0] == BACKSLASH && rest[1] == LOWER_U && ScanHex4(rest[2..]).Some? ==>
      !IsTrail(ScanHex4(rest[2..]).value)
  }

  /** An escape without a partner. */
  lemma ScanSingle(ds: seq<Digit>, rest: Text)
    requires ValidDigits(ds) && (IsLead(NumberOf(ds)) ==> NoTrailNext(rest))
    ensures ScanEscape([LOWER_U] + FlatDigits(ds) + rest) == Some((Encoded(NumberOf(ds)), 5))
  {
    hide ScanHex4, FlatDigits, NumberOf, Encoded;
    var s := FlatDigits(ds) + rest;
    ScanFlatDigits(ds, rest);
    assert ([LOWER_U] + FlatDigits(ds) + rest)[1..] == s;
    assert |FlatDigits(ds)| == 4 by { FourDigits(ds); }
    assert s[4..] == rest;
    if |s| >= 6 {
      assert s[6..] == rest[2..] && s[4] == rest[0] && s[5] == rest[1];
    }
  }

  lemma FourDigits(ds: seq<Digit>)
    requires ValidDigits(ds)
    ensures |FlatDigits(ds)| == 4
  {}

  lemma ScanPair(ds: seq<Digit>, es: seq<Digit>, rest: Text)
    requires ValidChar(Pair(ds, es))
    ensures ScanEscape([LOWER_U] + FlatDigits(ds) + [BACKSLASH, LOWER_U] + FlatDigits(es) + rest)
            == Some((Encoded(Joined(NumberOf(ds), NumberOf(es))), 11))
  {
    hide ScanHex4, FlatDigits, NumberOf, Encoded;
    var after := FlatDigits(es) + rest;
    var s := FlatDigits(ds) + ([BACKSLASH, LOWER_U] + after);
    var t := [LOWER_U] + FlatDigits(ds) + [BACKSLASH, LOWER_U] + FlatDigits(es) + rest;
    FourDigits(ds);
    FourDigits(es);
    ScanFlatDigits(ds, [BACKSLASH, LOWER_U] + after);
    ScanFlatDigits(es, rest);
    assert t[1..] == s && s[6..] == after && s[4] == BACKSLASH && s[5] == LOWER_U;
    JoinedIs(NumberOf(ds), NumberOf(es));
  }

  lemma JoinedIs(lead: nat, trail: nat)
    requires IsLead(lead) && IsTrail(trail)
    ensures Joined(lead, trail) == 0x10000 + (lead - 0xD800) * 0x400 + (trail - 0xDC00)
  {}

  lemma ScanChar(c: Char, tail: Text)
    requires ValidChar(c) && ScanString(tail).Some?
    requires c.Unicode? && IsLead(NumberOf(c.digits)) ==> NoTrailNext(tail)
    ensures ScanString(FlatChar(c) + tail) == Some((CharMeaning(c) + ScanString(tail).value.0, ScanString(tail).value.1))
  {
    hide ScanEscape, FlatDigits, Encoded, NumberOf, ShortMeaning;
    var s := FlatChar(c) + tail;
    match c
    case Plain(b) => assert s[1..] == tail;
    case Short(letter) =>
      ScanShort(letter, tail);
      assert s[1..] == [letter as int] + tail && s[2..] == tail;
    case Unicode(ds) =>
      ScanSingle(ds, tail);
      FourDigits(ds);
      assert s[1..] == [LOWER_U] + FlatDigits(ds) + tail && s[6..] == tail;
    case Pair(ds, es) =>
      ScanPair(ds, es, tail);
      FourDigits(ds);
      FourDigits(es);
      assert s[1..] == [LOWER_U] + FlatDigits(ds) + [BACKSLASH, LOWER_U] + FlatDigits(es) + tail && s[12..] == tail;
  }

  lemma UnicodeStart(ds: seq<Digit>, tail: Text)
    requires ValidDigits(ds)
    ensures NoTrailNext([BACKSLASH, LOWER_U] + FlatDigits(ds) + tail) <==> !IsTrail(NumberOf(ds))
  {
    hide FlatDigits, NumberOf, ScanHex4;
    var s := [BACKSLASH, LOWER_U] + FlatDigits(ds) + tail;
    ScanFlatDigits(ds, tail);
    assert s[2..] == FlatDigits(ds) + tail;
  }

  /** What follows a character completes it exactly when the next character does. */
  lemma NextCompletesOrNot(c: Char, tail: Text)
    requires ValidChar(c)
    ensures NoTrailNext(FlatChar(c) + tail) <==> !(c.Unicode? && IsTrail(NumberOf(c.digits)))
  {
    hide FlatDigits, NumberOf, ScanHex4;
    match c
    case Plain(_) =>
    case Short(_) =>
    case Unicode(ds) => UnicodeStart(ds, tail);
    case Pair(ds, es) =>
      var after := [BACKSLASH, LOWER_U] + FlatDigits(es) + tail;
      UnicodeStart(ds, after);
      assert FlatChar(c) + tail == [BACKSLASH, LOWER_U] + FlatDigits(ds) + after;
  }

  lemma FlatCharsFirst(cs: seq<Char>, rest: Text)
    requires ValidChars(cs) && cs != []
    ensures FlatChars(cs) + [QUOTE] + rest == FlatChar(cs[0]) + (FlatChars(cs[1..]) + [QUOTE] + rest)
  {
    hide FlatChar;
    assert FlatChars(cs) == FlatChar(cs[0]) + FlatChars(cs[1..]);
  }

  /** Valid characters in turn do not complete each other. */
  lemma FirstIsNotCompleted(cs: seq<Char>, rest: Text)
    requires ValidChars(cs) && cs != [] && cs[0].Unicode? && IsLead(NumberOf(cs[0].digits))
    ensures NoTrailNext(FlatChars(cs[1..]) + [QUOTE] + rest)
  {
    if |cs| > 1 {
      var next, tail := cs[1..][0], FlatChars(cs[1..][1..]) + [QUOTE] + rest;
      NextCompletesOrNot(next, tail);
      FlatCharsFirst(cs[1..], rest);
      hide FlatChar, FlatChars, NumberOf, NoTrailNext;
      assert !Completes(cs[0], cs[1]);
    } else {
      assert cs[1..] == [];
    }
  }

  /** However a string is spelled, the scanner reads what it means. */
  lemma {:induction false} ScanSpelledString(cs: seq<Char>, rest: Text)
    requires ValidChars(cs)
    ensures ScanString(FlatChars(cs) + [QUOTE] + rest) == Some((Meaning(cs), rest))
  {
    if cs == [] {
      assert FlatChars(cs) + [QUOTE] + rest == [QUOTE] + rest;
      ScanQuote(rest);
    } else {
      var tail := FlatChars(cs[1..]) + [QUOTE] + rest;
      ScanSpelledString(cs[1..], rest);
      FlatCharsFirst(cs, rest);
      if cs[0].Unicode? && IsLead(NumberOf(cs[0].digits)) {
        FirstIsNotCompleted(cs, rest);
      }
      hide FlatChar, FlatChars, CharMeaning, ScanString, NoTrailNext, NumberOf, ValidChar;
      ScanChar(cs[0], tail);
    }
  }

  lemma ScanQuote(rest: Text)
    ensures ScanString([QUOTE] + rest) == Some(([], rest))
  {
    assert ([QUOTE] + rest)[1..] == rest;
  }

  lemma ShortOfText(s: Text) returns (letter: char)
    requires ScanEscape(s).Some? && s[0] != LOWER_U
    ensures ShortMeaning(letter).Some? && s[0] == letter as int
    ensures ScanEscape(s) == Some(([ShortMeaning(letter).value], 1))
  {
    letter := s[0] as char;
  }

  lemma SingleOfText(s: Text) returns (ds: seq<Digit>)
    requires ScanEscape(s).Some? && s[0] == LOWER_U && ScanEscape(s).value.1 == 5
    ensures ValidDigits(ds) && Encoded(NumberOf(ds)) == ScanEscape(s).value.0
    ensures s == [LOWER_U] + FlatDigits(ds) + s[5..] && (IsLead(NumberOf(ds)) ==> NoTrailNext(s[5..]))
  {
    hide ScanHex4, FlatDigits, NumberOf, Encoded;
    var t := s[1..];
    ds := DigitsOfText(t);
    FourDigits(ds);
    assert t[4..] == s[5..] && t == t[..4] + t[4..] && s == [s[0]] + t;
    if |s[5..]| >= 2 {
      assert s[5..][2..] == t[6..] && s[5..][0] == t[4] && s[5..][1] == t[5];
    }
  }

  lemma PairOfText(s: Text) returns (ds: seq<Digit>, es: seq<Digit>)
    requires ScanEscape(s).Some? && s[0] == LOWER_U && ScanEscape(s).value.1 != 5
    ensures ScanEscape(s).value.1 == 11 && ValidChar(Pair(ds, es))
    ensures Encoded(Joined(NumberOf(ds), NumberOf(es))) == ScanEscape(s).value.0
    ensures s == [LOWER_U] + FlatDigits(ds) + [BACKSLASH, LOWER_U] + FlatDigits(es) + s[11..]
  {
    hide ScanHex4, FlatDigits, NumberOf, Encoded;
    var t := s[1..];
    var u := t[6..];
    ds := DigitsOfText(t);
    es := DigitsOfText(u);
    FourDigits(ds);
    FourDigits(es);
    JoinedIs(NumberOf(ds), NumberOf(es));
    hide Joined, ScanEscape;
    assert u[4..] == s[11..] && u == u[..4] + u[4..];
    assert t == t[..4] + [t[4], t[5]] + u && s == [s[0]] + t;
  }

  /** Every escape the scanner takes is the spelling of a character. */
  lemma EscapeOfText(s: Text) returns (c: Char)
    requires ScanEscape(s).Some?
    ensures ValidChar(c) && CharMeaning(c) == ScanEscape(s).value.0
    ensures [BACKSLASH] + s == FlatChar(c) + s[ScanEscape(s).value.1..]
    ensures c.Unicode? && IsLead(NumberOf(c.digits)) ==> NoTrailNext(s[ScanEscape(s).value.1..])
  {
    hide ScanEscape, FlatDigits, NumberOf, Encoded, Joined, NoTrailNext;
    if s[0] != LOWER_U {
      var letter := ShortOfText(s);
      c := Short(letter);
      assert [BACKSLASH] + s == [BACKSLASH, letter as int] + s[1..];
    } else if ScanEscape(s).value.1 == 5 {
      var ds := SingleOfText(s);
      c := Unicode(ds);
      assert [BACKSLASH] + ([LOWER_U] + FlatDigits(ds) + s[5..]) == FlatChar(c) + s[5..];
    } else {
      var ds, es := PairOfText(s);
      c := Pair(ds, es);
      assert [BACKSLASH] + ([LOWER_U] + FlatDigits(ds) + [BACKSLASH, LOWER_U] + FlatDigits(es) + s[11..])
             == FlatChar(c) + s[11..];
    }
  }

  /** A character more at the front, if the next one does not complete it. */
  lemma CharsWithFirst(c: Char, cs: seq<Char>, rest: Text)
    requires ValidChar(c) && ValidChars(cs)
    requires c.Unicode? && IsLead(NumberOf(c.digits)) ==> NoTrailNext(FlatChars(cs) + [QUOTE] + rest)
    ensures ValidChars([c] + cs) && Meaning([c] + cs) == CharMeaning(c) + Meaning(cs)
    ensures FlatChars([c] + cs) + [QUOTE] + rest == FlatChar(c) + (FlatChars(cs) + [QUOTE] + rest)
  {
    var all := [c] + cs;
    assert all[1..] == cs;
    if cs != [] {
      FlatCharsFirst(cs, rest);
      NextCompletesOrNot(cs[0], FlatChars(cs[1..]) + [QUOTE] + rest);
    }
    hide FlatChar, CharMeaning, NumberOf, NoTrailNext;
    assert ValidChars(all);
    FlatCharsFirst(all, rest);
  }

  lemma ScanPlain(s: Text)
    requires ScanString(s).Some? && s[0] != QUOTE && s[0] != BACKSLASH
    ensures ValidChar(Plain(s[0])) && ScanString(s[1..]).Some?
    ensures ScanString(s).value == ([s[0]] + ScanString(s[1..]).value.0, ScanString(s[1..]).value.1)
    ensures s == FlatChar(Plain(s[0])) + s[1..] && CharMeaning(Plain(s[0])) == [s[0]]
  {}

  lemma EscapedParts(s: Text)
    requires ScanString(s).Some? && s[0] == BACKSLASH
    ensures ScanEscape(s[1..]).Some?
    ensures var (bytes, length) := ScanEscape(s[1..]).value;
            && ScanString(s[1 + length..]).Some? && s[1..][length..] == s[1 + length..]
            && ScanString(s).value == (bytes + ScanString(s[1 + length..]).value.0, ScanString(s[1 + length..]).value.1)
  {
    hide ScanEscape;
  }

  /** And every string the scanner reads is spelled so. */
  lemma {:induction false} StringIsSpelled(s: Text) returns (cs: seq<Char>)
    requires ScanString(s).Some?
    ensures ValidChars(cs) && Meaning(cs) == ScanString(s).value.0
    ensures s == FlatChars(cs) + [QUOTE] + ScanString(s).value.1
    decreases |s|
  {
    if s[0] == QUOTE {
      cs := [];
      assert s == [QUOTE] + s[1..];
    } else {
      var c, length: nat;
      if s[0] == BACKSLASH {
        EscapedParts(s);
        c := EscapeOfText(s[1..]);
        length := 1 + ScanEscape(s[1..]).value.1;
        assert s == [BACKSLASH] + s[1..];
      } else {
        ScanPlain(s);
        c, length := Plain(s[0]), 1;
      }
      hide ScanString, ScanEscape, FlatChar, FlatChars, CharMeaning, ValidChar, Meaning, NoTrailNext, NumberOf;
      var rest := StringIsSpelled(s[length..]);
      CharsWithFirst(c, rest, ScanString(s).value.1);
      cs := [c] + rest;
    }
  }

  // ----- what escapes stand for

  lemma {:induction false} ScanPlainBytes(bytes: Text, rest: Text)
    requires forall i :: 0 <= i < |bytes| ==> bytes[i] >= 0x20 && bytes[i] != QUOTE && bytes[i] != BACKSLASH
    requires ScanString(rest).Some?
    ensures ScanString(bytes + rest) == Some((bytes + ScanString(rest).value.0, ScanString(rest).value.1))
  {
    if bytes == [] {
      assert bytes + rest == rest && bytes + ScanString(rest).value.0 == ScanString(rest).value.0;
    } else {
      ScanPlainBytes(bytes[1..], rest);
      assert (bytes + rest)[1..] == bytes[1..] + rest;
      assert [bytes[0]] + (bytes[1..] + ScanString(rest).value.0) == bytes + ScanString(rest).value.0;
    }
  }

  /** The code point an escape or a pair of escapes names. */
  function PointNamed(c: Char): (point: nat)
    requires ValidChar(c) && (c.Unicode? || c.Pair?)
    ensures point < 0x110000
  {
    if c.Unicode? then NumberOf(c.digits) else Joined(NumberOf(c.lead), NumberOf(c.trail))
  }

  /** A character escaped by its number reads as the bytes it would be written with plainly. */
  lemma EscapedReadsAsPlain(c: Char, rest: Text)
    requires ValidChar(c) && (c.Unicode? || c.Pair?) && ScanString(rest).Some?
    requires IsScalar(PointNamed(c)) && PointNamed(c) >= 0x20
    requires PointNamed(c) != QUOTE && PointNamed(c) != BACKSLASH
    ensures IsUtf8(Encoded(PointNamed(c)))
    ensures ScanString(FlatChar(c) + rest) == ScanString(Encoded(PointNamed(c)) + rest)
  {
    var bytes := Encoded(PointNamed(c));
    EncodedAllIsUtf8([PointNamed(c)]);
    assert EncodedAll([PointNamed(c)]) == bytes + [] == bytes;
    assert forall i :: 0 <= i < |bytes| ==> bytes[i] >= 0x20 && bytes[i] != QUOTE && bytes[i] != BACKSLASH;
    hide Encoded, ScanString;
    ScanPlainBytes(bytes, rest);
    ScanChar(c, rest);
  }

  /** The escape of a surrogate that is no pair with the next one. */
  predicate LoneSurrogate(c: Char) {
    c.Unicode? && ValidChar(c) && IsSurrogate(NumberOf(c.digits))
  }

  lemma FirstIsLone(cs: seq<Char>, before: Text)
    requires ValidChars(cs) && cs != [] && LoneSurrogate(cs[0])
    ensures !IsUtf8(before + Meaning(cs))
  {
    var point := NumberOf(cs[0].digits);
    assert Meaning(cs) == Encoded(point) + Meaning(cs[1..]);
    hide Meaning, ValidChars, IsUtf8, Encoded, NumberOf;
    SurrogateIsNeverUtf8(before, point, Meaning(cs[1..]));
    assert before + Encoded(point) + Meaning(cs[1..]) == before + (Encoded(point) + Meaning(cs[1..]));
  }

  lemma ValidTail(cs: seq<Char>)
    requires ValidChars(cs) && cs != []
    ensures ValidChar(cs[0]) && ValidChars(cs[1..]) && Meaning(cs) == CharMeaning(cs[0]) + Meaning(cs[1..])
  {}

  /** Text with such an escape is never UTF-8, wherever it stands. */
  lemma {:induction false} LoneSurrogateIsNotUtf8(cs: seq<Char>, i: nat, before: Text)
    requires ValidChars(cs) && i < |cs| && LoneSurrogate(cs[i])
    ensures !IsUtf8(before + Meaning(cs))
  {
    hide *;
    if i == 0 {
      FirstIsLone(cs, before);
    } else {
      ValidTail(cs);
      LoneSurrogateIsNotUtf8(cs[1..], i - 1, before + CharMeaning(cs[0]));
      assert before + CharMeaning(cs[0]) + Meaning(cs[1..]) == before + (CharMeaning(cs[0]) + Meaning(cs[1..]));
    }
  }
}
