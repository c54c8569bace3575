/** The text functions of Rust's standard library that the header and crontab code rests on. */
module Text {
  import opened Wrappers

  const U64_MAX: nat := 0xFFFF_FFFF_FFFF_FFFF

  /** Unicode's White_Space property. */
  predicate IsWhitespace(c: char) {
    var n := c as int;
    0x9 <= n <= 0xD || n == 0x20 || n == 0x85 || n == 0xA0 || n == 0x1680 || 0x2000 <= n <= 0x200A ||
    n == 0x2028 || n == 0x2029 || n == 0x202F || n == 0x205F || n == 0x3000
  }

  function TrimStart(s: string): (r: string)
    ensures |r| <= |s| && s[|s| - |r|..] == r
    ensures r != "" ==> !IsWhitespace(r[0])
    ensures forall i :: 0 <= i < |s| - |r| ==> IsWhitespace(s[i])
  {
    if s != "" && IsWhitespace(s[0]) then TrimStart(s[1..]) else s
  }

  function TrimEnd(s: string): (r: string)
    ensures r <= s
    ensures r != "" ==> !IsWhitespace(r[|r| - 1])
    ensures forall i :: |r| <= i < |s| ==> IsWhitespace(s[i])
  {
    if s != "" && IsWhitespace(s[|s| - 1]) then TrimEnd(s[..|s| - 1]) else s
  }

  function Trim(s: string): string {
    TrimEnd(TrimStart(s))
  }

  /** Text that neither begins nor ends in white space is what trimming leaves of it in any padding. */
  lemma {:induction false} TrimPadded(left: string, s: string, right: string)
    requires forall i :: 0 <= i < |left| ==> IsWhitespace(left[i])
    requires forall i :: 0 <= i < |right| ==> IsWhitespace(right[i])
    requires s != "" && !IsWhitespace(s[0]) && !IsWhitespace(s[|s| - 1])
    ensures Trim(left + s + right) == s
  {
    hide IsWhitespace, TrimStart, TrimEnd;
    assert (s + right)[0] == s[0];
    TrimStartPadded(left, s + right);
    assert left + s + right == left + (s + right);
    TrimEndPadded(s, right);
  }

  lemma {:induction false} TrimStartPadded(left: string, s: string)
    requires forall i :: 0 <= i < |left| ==> IsWhitespace(left[i])
    requires s != "" && !IsWhitespace(s[0])
    ensures TrimStart(left + s) == s
  {
    if left == "" {
      assert left + s == s;
    } else {
      assert (left + s)[1..] == left[1..] + s;
      TrimStartPadded(left[1..], s);
    }
  }

  lemma {:induction false} TrimEndPadded(s: string, right: string)
    requires forall i :: 0 <= i < |right| ==> IsWhitespace(right[i])
    requires s != "" && !IsWhitespace(s[|s| - 1])
    ensures TrimEnd(s + right) == s
  {
    if right == "" {
      assert s + right == s;
    } else {
      assert (s + right)[..|s + right| - 1] == s + right[..|right| - 1];
      TrimEndPadded(s, right[..|right| - 1]);
    }
  }

  /** Where a character first occurs, or the length of the text. */
  function Find(s: string, c: char): (i: nat)
    ensures i <= |s| && c !in s[..i]
    ensures i < |s| ==> s[i] == c
  {
    if s == "" || s[0] == c then 0 else 1 + Find(s[1..], c)
  }

  lemma {:induction false} FindFirst(s: string, c: char, i: nat)
    requires i <= |s| && c !in s[..i] && (i < |s| ==> s[i] == c)
    ensures Find(s, c) == i
  {
    if i > 0 {
      assert s[..i][0] == s[0] && s[1..][..i - 1] == s[..i][1..];
      FindFirst(s[1..], c, i - 1);
    }
  }

  function SplitOnce(s: string, c: char): Option<(string, string)> {
    var i := Find(s, c);
    if i == |s| then None else Some((s[..i], s[i + 1..]))
  }

  /** The pieces between the occurrences of a character; at least one, possibly empty. */
  function Split(s: string, c: char): (pieces: seq<string>)
    ensures pieces != []
    decreases |s|
  {
    var i := Find(s, c);
    if i == |s| then [s] else [s[..i]] + Split(s[i + 1..], c)
  }

  function Join(pieces: seq<string>, c: char): string {
    if pieces == [] then ""
    else if |pieces| == 1 then pieces[0]
    else pieces[0] + [c] + Join(pieces[1..], c)
  }

  /** Splitting undoes joining. */
  lemma {:induction false} SplitJoined(pieces: seq<string>, c: char)
    requires pieces != [] && forall i :: 0 <= i < |pieces| ==> c !in pieces[i]
    ensures Split(Join(pieces, c), c) == pieces
  {
    var s, first := Join(pieces, c), pieces[0];
    if |pieces| == 1 {
      FindFirst(s, c, |s|);
    } else {
      var rest := Join(pieces[1..], c);
      assert s == first + [c] + rest;
      assert s[..|first|] == first && s[|first| + 1..] == rest;
      FindFirst(s, c, |first|);
      SplitJoined(pieces[1..], c);
    }
  }

  /** And joining undoes splitting. */
  lemma {:induction false} JoinSplit(s: string, c: char)
    ensures Join(Split(s, c), c) == s
    ensures forall i :: 0 <= i < |Split(s, c)| ==> c !in Split(s, c)[i]
    decreases |s|
  {
    var i := Find(s, c);
    if i < |s| {
      JoinSplit(s[i + 1..], c);
      assert Split(s, c)[1..] == Split(s[i + 1..], c);
      assert s == s[..i] + [c] + s[i + 1..];
    } else {
      assert s[..i] == s;
    }
  }

  /** The maximal runs without white space. */
  function SplitWhitespace(s: string): (words: seq<string>)
    decreases |s|
  {
    var t := TrimStart(s);
    if t == "" then [] else
    var n := WordLength(t);
    [t[..n]] + SplitWhitespace(t[n..])
  }

  function WordLength(s: string): (n: nat)
    ensures n <= |s| && (s != "" && !IsWhitespace(s[0]) ==> n > 0)
    ensures forall i :: 0 <= i < n ==> !IsWhitespace(s[i])
    ensures n < |s| ==> IsWhitespace(s[n])
  {
    if s == "" || IsWhitespace(s[0]) then 0 else 1 + WordLength(s[1..])
  }

  function LowerChar(c: char): char {
    if 'A' <= c <= 'Z' then (c as int + 32) as char else c
  }

  const UPPER_LETTERS := "ABCDEFGHIJKLMNOPQRSTUVWXYZ"
  const LOWER_LETTERS := "abcdefghijklmnopqrstuvwxyz"

  /** Letter by letter, the lower case alphabet for the upper case one; every other character stays. */
  lemma LowerCharIsTheLetter(c: char)
    ensures forall i :: 0 <= i < 26 ==> LowerChar(UPPER_LETTERS[i]) == LOWER_LETTERS[i]
    ensures c !in UPPER_LETTERS ==> LowerChar(c) == c
  {
    assert forall i :: 0 <= i < 26 ==> UPPER_LETTERS[i] as int == 65 + i && LOWER_LETTERS[i] as int == 97 + i;
    if 'A' <= c <= 'Z' {
      assert UPPER_LETTERS[c as int - 65] == c;
    }
  }

  function Lower(s: string): (r: string)
    ensures |r| == |s| && forall i :: 0 <= i < |s| ==> r[i] == LowerChar(s[i])
  {
    seq(|s|, i requires 0 <= i < |s| => LowerChar(s[i]))
  }

  predicate EqIgnoreAsciiCase(a: string, b: string) {
    Lower(a) == Lower(b)
  }

  predicate IsDigits(s: string) {
    s != "" && forall i :: 0 <= i < |s| ==> '0' <= s[i] <= '9'
  }

  function Decimal(s: string): nat
    requires forall i :: 0 <= i < |s| ==> '0' <= s[i] <= '9'
  {
    if s == "" then 0 else 10 * Decimal(s[..|s| - 1]) + (s[|s| - 1] as int - '0' as int)
  }

  /** `str::parse::<u64>`: an optional plus sign and decimal digits, refused when they overflow. */
  function ParseU64(s: string): Option<nat> {
    var digits := if s != "" && s[0] == '+' then s[1..] else s;
    if IsDigits(digits) && Decimal(digits) <= U64_MAX then Some(Decimal(digits)) else None
  }

  function DecimalText(n: nat): (s: string)
    ensures IsDigits(s) && Decimal(s) == n
  {
    if n < 10 then
      assert [('0' as int + n) as char][..0] == "";
      [('0' as int + n) as char]
    else
      var init, last := DecimalText(n / 10), [('0' as int + n % 10) as char];
      assert (init + last)[..|init|] == init;
      init + last
  }

  /** Numbers are read back from their print, with a plus sign and leading zeros or without. */
  lemma ParsePrinted(n: nat, zeros: string)
    requires forall i :: 0 <= i < |zeros| ==> zeros[i] == '0'
    ensures ParseU64(zeros + DecimalText(n)) == ParseU64("+" + zeros + DecimalText(n))
            == if n <= U64_MAX then Some(n) else None
  {
    hide DecimalText, ParseU64, Decimal;
    var digits := zeros + DecimalText(n);
    LeadingZeros(zeros, DecimalText(n));
    DigitsParse(digits);
    assert "+" + zeros + DecimalText(n) == "+" + digits;
  }

  lemma DigitsParse(digits: string)
    requires IsDigits(digits)
    ensures ParseU64(digits) == ParseU64("+" + digits)
            == if Decimal(digits) <= U64_MAX then Some(Decimal(digits)) else None
  {
    hide Decimal;
    assert digits[0] != '+';
    assert ("+" + digits)[1..] == digits;
  }

  lemma {:induction false} LeadingZeros(zeros: string, digits: string)
    requires forall i :: 0 <= i < |zeros| ==> zeros[i] == '0'
    requires forall i :: 0 <= i < |digits| ==> '0' <= digits[i] <= '9'
    ensures forall i :: 0 <= i < |zeros + digits| ==> '0' <= (zeros + digits)[i] <= '9'
    ensures Decimal(zeros + digits) == Decimal(digits)
    decreases |zeros| + |digits|
  {
    var all := zeros + digits;
    if digits != "" {
      var init := digits[..|digits| - 1];
      assert all[..|all| - 1] == zeros + init;
      LeadingZeros(zeros, init);
    } else if zeros != "" {
      var init := zeros[..|zeros| - 1];
      assert all[..|all| - 1] == init + digits;
      LeadingZeros(init, digits);
    }
  }

  lemma {:induction false} DecimalBound(s: string)
    requires IsDigits(s) && s[0] != '0'
    ensures Decimal(s) > 0 && (|s| > 1 ==> Decimal(s) >= 10)
  {
    if |s| > 1 {
      DecimalBound(s[..|s| - 1]);
    } else {
      assert s[..0] == "";
    }
  }

  /** Digits without a leading zero are the print of their value. */
  lemma {:induction false} DigitsArePrint(s: string)
    requires IsDigits(s) && (|s| > 1 ==> s[0] != '0')
    ensures s == DecimalText(Decimal(s))
  {
    var init, last := s[..|s| - 1], s[|s| - 1];
    if |s| > 1 {
      DecimalBound(s);
      DigitsArePrint(init);
      assert Decimal(s) / 10 == Decimal(init) && Decimal(s) % 10 == last as int - '0' as int;
      assert s == init + [last];
    } else {
      assert init == "" && s == [last];
    }
  }

  lemma {:induction false} ZerosAndPrint(s: string) returns (zeros: string)
    requires IsDigits(s)
    ensures AllZeros(zeros) && s == zeros + DecimalText(Decimal(s))
  {
    hide Decimal, DecimalText;
    if |s| > 1 && s[0] == '0' {
      zeros := ZerosAndPrint(s[1..]);
      LeadingZeros("0", s[1..]);
      assert "0" + s[1..] == s;
      zeros := "0" + zeros;
    } else {
      DigitsArePrint(s);
      zeros := "";
    }
  }

  predicate AllZeros(s: string) {
    forall i :: 0 <= i < |s| ==> s[i] == '0'
  }

  predicate SpellsNumber(s: string, plus: string, zeros: string, n: nat) {
    (plus == "" || plus == "+") && AllZeros(zeros) && s == plus + zeros + DecimalText(n)
  }

  /** Text is read as a number exactly when it is the number's print behind zeros, and perhaps a plus sign, and it fits. */
  lemma ParsedIffSpelled(s: string, n: nat)
    ensures ParseU64(s) == Some(n) <==> n <= U64_MAX && exists plus, zeros :: SpellsNumber(s, plus, zeros, n)
  {
    hide ParseU64, SpellsNumber;
    if ParseU64(s) == Some(n) {
      ParsedIsSpelled(s);
    }
    if plus, zeros :| SpellsNumber(s, plus, zeros, n) {
      SpelledIsParsed(s, plus, zeros, n);
    }
  }

  lemma ParsedIsSpelled(s: string)
    requires ParseU64(s).Some?
    ensures exists plus, zeros :: SpellsNumber(s, plus, zeros, ParseU64(s).value)
  {
    hide Decimal, DecimalText;
    var plus := if s[0] == '+' then "+" else "";
    var digits := s[|plus|..];
    assert s == plus + digits && IsDigits(digits) && ParseU64(s).value == Decimal(digits);
    hide IsDigits, ParseU64;
    var zeros := ZerosAndPrint(digits);
    PlusZerosAndPrint(s, plus, zeros, Decimal(digits));
  }

  lemma PlusZerosAndPrint(s: string, plus: string, zeros: string, n: nat)
    requires (plus == "" || plus == "+") && AllZeros(zeros) && s == plus + (zeros + DecimalText(n))
    ensures SpellsNumber(s, plus, zeros, n)
  {
    hide DecimalText, AllZeros;
  }

  lemma SpelledIsParsed(s: string, plus: string, zeros: string, n: nat)
    requires SpellsNumber(s, plus, zeros, n)
    ensures ParseU64(s) == if n <= U64_MAX then Some(n) else None
  {
    hide Decimal, DecimalText, ParseU64;
    ParsePrinted(n, zeros);
    assert "" + zeros == zeros;
  }
}
