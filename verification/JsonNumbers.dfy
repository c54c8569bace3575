/** Every spelling of a JSON number (section 6 of RFC 8259), and proofs that the scanner accepts exactly these. */
module JsonNumbers {
  import opened Wrappers
  import opened Bytes
  import opened Json

  /** The parts of a number; the sign of an exponent is a plus when true. */
  datatype Number = Number(minus: bool, whole: Text, fraction: Option<Text>, exponent: Option<Exponent>)

  datatype Exponent = Exponent(upper: bool, sign: Option<bool>, digits: Text)

  predicate IsDecimal(b: byte) {
    '0' as int <= b <= '9' as int
  }

  predicate Digits(t: Text) {
    t != [] && forall i :: 0 <= i < |t| ==> IsDecimal(t[i])
  }

  predicate NoDigitNext(rest: Text) {
    rest == [] || !IsDecimal(rest[0])
  }

  /** No leading zero, and no part that is there without a digit. */
  predicate ValidNumber(n: Number) {
    && Digits(n.whole) && (n.whole[0] == '0' as int ==> |n.whole| == 1)
    && (n.fraction.Some? ==> Digits(n.fraction.value))
    && (n.exponent.Some? ==> Digits(n.exponent.value.digits))
  }

  function FlatSign(minus: bool): Text {
    if minus then ['-' as int] else []
  }

  function FlatFraction(fraction: Option<Text>): Text {
    match fraction
    case None => []
    case Some(digits) => ['.' as int] + digits
  }

  function ExponentMark(e: Exponent): Text {
    [if e.upper then 'E' as int else 'e' as int]
    + match e.sign { case None => [] case Some(plus) => [if plus then '+' as int else '-' as int] }
  }

  function FlatExponent(exponent: Option<Exponent>): Text {
    match exponent
    case None => []
    case Some(e) => ExponentMark(e) + e.digits
  }

  function FlatUnsigned(n: Number): Text {
    n.whole + (FlatFraction(n.fraction) + FlatExponent(n.exponent))
  }

  function FlatNumber(n: Number): Text {
    FlatSign(n.minus) + FlatUnsigned(n)
  }

  /** The text does not go on with the number. */
  predicate Stops(n: Number, rest: Text) {
    rest == [] ||
    (&& !IsDecimal(rest[0])
     && (n.fraction.None? && n.exponent.None? ==> rest[0] != '.' as int)
     && (n.exponent.None? ==> rest[0] != 'e' as int && rest[0] != 'E' as int))
  }

  lemma ScanFlatDigits(digits: Text, rest: Text)
    requires Digits(digits) && NoDigitNext(rest)
    ensures ScanDigits(digits + rest) == (digits, rest)
  {
    ScanAllDigits(digits, rest);
  }

  lemma ScanFlatFraction(fraction: Option<Text>, rest: Text)
    requires (fraction.Some? ==> Digits(fraction.value)) && NoDigitNext(rest)
    requires fraction.None? && rest != [] ==> rest[0] != '.' as int
    ensures ScanFraction(FlatFraction(fraction) + rest) == Some((FlatFraction(fraction), rest))
  {
    if fraction.Some? {
      assert (['.' as int] + fraction.value + rest)[1..] == fraction.value + rest;
      ScanFlatDigits(fraction.value, rest);
    } else {
      assert [] + rest == rest;
    }
  }

  lemma ScanFlatExponent(exponent: Option<Exponent>, rest: Text)
    requires (exponent.Some? ==> Digits(exponent.value.digits)) && NoDigitNext(rest)
    requires exponent.None? && rest != [] ==> rest[0] != 'e' as int && rest[0] != 'E' as int
    ensures ScanExponent(FlatExponent(exponent) + rest) == Some((FlatExponent(exponent), rest))
  {
    if exponent.Some? {
      var e := exponent.value;
      var mark, s := ExponentMark(e), ExponentMark(e) + e.digits + rest;
      ScanFlatDigits(e.digits, rest);
      assert s[..|mark|] == mark && s[|mark|..] == e.digits + rest;
      assert e.sign.None? ==> s[1] == e.digits[0];
    } else {
      assert [] + rest == rest;
    }
  }

  /** What follows the digits is no digit, and what follows the fraction neither. */
  lemma Parts(n: Number, rest: Text)
    requires ValidNumber(n) && Stops(n, rest)
    ensures var afterFraction := FlatExponent(n.exponent) + rest;
            && NoDigitNext(afterFraction) && NoDigitNext(FlatFraction(n.fraction) + afterFraction) && NoDigitNext(rest)
            && (n.fraction.None? && afterFraction != [] ==> afterFraction[0] != '.' as int)
  {
    var afterFraction := FlatExponent(n.exponent) + rest;
    if n.exponent.Some? {
      assert afterFraction[0] == ExponentMark(n.exponent.value)[0];
    } else {
      assert afterFraction == rest;
    }
    if n.fraction.Some? {
      assert (FlatFraction(n.fraction) + afterFraction)[0] == '.' as int;
    } else {
      assert FlatFraction(n.fraction) + afterFraction == afterFraction;
    }
  }

  lemma ScanSpelledUnsigned(n: Number, rest: Text)
    requires ValidNumber(n) && Stops(n, rest)
    ensures ScanUnsigned(FlatUnsigned(n) + rest) == Some((FlatUnsigned(n), rest))
  {
    var fraction, exponent := FlatFraction(n.fraction), FlatExponent(n.exponent);
    Parts(n, rest);
    ScanFlatDigits(n.whole, fraction + (exponent + rest));
    ScanFlatFraction(n.fraction, exponent + rest);
    ScanFlatExponent(n.exponent, rest);
    hide ScanDigits, ScanFraction, ScanExponent, FlatFraction, FlatExponent, Digits, Stops, NoDigitNext;
    assert FlatUnsigned(n) + rest == n.whole + (fraction + (exponent + rest));
    assert n.whole + fraction + exponent == FlatUnsigned(n);
  }

  /** However a number is spelled, the scanner takes all of it. */
  lemma ScanSpelledNumber(n: Number, rest: Text)
    requires ValidNumber(n) && Stops(n, rest)
    ensures ScanNumber(FlatNumber(n) + rest) == Some((FlatNumber(n), rest))
  {
    ScanSpelledUnsigned(n, rest);
    hide ScanUnsigned, Stops;
    var s := FlatNumber(n) + rest;
    if n.minus {
      assert s[0] == MINUS && s[1..] == FlatUnsigned(n) + rest;
    } else {
      assert FlatNumber(n) == FlatUnsigned(n);
      assert s[0] == n.whole[0];
    }
  }

  lemma {:induction false} ScannedDigits(s: Text)
    ensures s == ScanDigits(s).0 + ScanDigits(s).1
    ensures ScanDigits(s).0 != [] ==> Digits(ScanDigits(s).0)
    ensures NoDigitNext(ScanDigits(s).1)
  {
    if s != [] && IsDigit(s[0]) {
      ScannedDigits(s[1..]);
      assert s == [s[0]] + s[1..];
    }
  }

  lemma FractionOfText(s: Text) returns (fraction: Option<Text>)
    requires ScanFraction(s).Some?
    ensures fraction.Some? ==> Digits(fraction.value) && NoDigitNext(ScanFraction(s).value.1)
    ensures ScanFraction(s).value.0 == FlatFraction(fraction) && s == FlatFraction(fraction) + ScanFraction(s).value.1
    ensures fraction.None? && s != [] ==> s[0] != '.' as int
  {
    hide ScanDigits, Digits, NoDigitNext;
    if s != [] && s[0] == DOT {
      var (digits, rest) := ScanDigits(s[1..]);
      ScannedDigits(s[1..]);
      fraction := Some(digits);
      assert s == [s[0]] + (digits + rest);
    } else {
      fraction := None;
      assert [] + s == s;
    }
  }

  lemma MarkOfText(s: Text) returns (upper: bool, sign: Option<bool>)
    requires s != [] && (s[0] == 0x65 || s[0] == 0x45)
    ensures var signed := |s| > 1 && (s[1] == PLUS || s[1] == MINUS);
            forall digits :: ExponentMark(Exponent(upper, sign, digits)) == s[..if signed then 2 else 1]
  {
    upper := s[0] == 0x45;
    sign := if |s| > 1 && (s[1] == PLUS || s[1] == MINUS) then Some(s[1] == PLUS) else None;
  }

  lemma ExponentOfText(s: Text) returns (exponent: Option<Exponent>)
    requires ScanExponent(s).Some?
    ensures exponent.Some? ==> Digits(exponent.value.digits) && NoDigitNext(ScanExponent(s).value.1)
    ensures ScanExponent(s).value.0 == FlatExponent(exponent) && s == FlatExponent(exponent) + ScanExponent(s).value.1
    ensures exponent.None? && s != [] ==> s[0] != 'e' as int && s[0] != 'E' as int
  {
    hide ScanDigits, Digits, NoDigitNext, ExponentMark;
    if s != [] && (s[0] == 0x65 || s[0] == 0x45) {
      var length := if |s| > 1 && (s[1] == PLUS || s[1] == MINUS) then 2 else 1;
      var upper, sign := MarkOfText(s);
      var (digits, rest) := ScanDigits(s[length..]);
      ScannedDigits(s[length..]);
      exponent := Some(Exponent(upper, sign, digits));
      assert s == s[..length] + (digits + rest);
    } else {
      exponent := None;
      assert [] + s == s;
    }
  }

  /** What the scanner of unsigned numbers found on its way. */
  lemma UnsignedParts(s: Text)
    requires ScanUnsigned(s).Some?
    ensures var (whole, afterWhole) := ScanDigits(s);
            && whole != [] && (whole[0] == '0' as int ==> |whole| == 1) && ScanFraction(afterWhole).Some?
            && var (fraction, afterFraction) := ScanFraction(afterWhole).value;
            && ScanExponent(afterFraction).Some?
            && ScanUnsigned(s).value == (whole + fraction + ScanExponent(afterFraction).value.0,
                                         ScanExponent(afterFraction).value.1)
  {
    hide ScanDigits, ScanFraction, ScanExponent;
  }

  lemma UnsignedIsSpelled(s: Text) returns (n: Number)
    requires ScanUnsigned(s).Some?
    ensures ValidNumber(n) && !n.minus && FlatUnsigned(n) == ScanUnsigned(s).value.0
    ensures s == FlatUnsigned(n) + ScanUnsigned(s).value.1 && Stops(n, ScanUnsigned(s).value.1)
  {
    hide ScanDigits, ScanFraction, ScanExponent, ScanUnsigned, Stops, FlatFraction, FlatExponent, Digits, NoDigitNext;
    UnsignedParts(s);
    ScannedDigits(s);
    var (whole, afterWhole) := ScanDigits(s);
    var fraction := FractionOfText(afterWhole);
    var afterFraction := ScanFraction(afterWhole).value.1;
    var exponent := ExponentOfText(afterFraction);
    var rest := ScanExponent(afterFraction).value.1;
    n := Number.Number(false, whole, fraction, exponent);
    PartsOfText(n, afterWhole, afterFraction, rest);
    assert s == whole + (FlatFraction(fraction) + (FlatExponent(exponent) + rest));
  }

  lemma PartsOfText(n: Number, afterWhole: Text, afterFraction: Text, rest: Text)
    requires afterWhole == FlatFraction(n.fraction) + afterFraction && afterFraction == FlatExponent(n.exponent) + rest
    requires NoDigitNext(afterWhole) && (n.fraction.Some? ==> NoDigitNext(afterFraction))
    requires n.exponent.Some? ==> NoDigitNext(rest)
    requires n.fraction.None? && afterWhole != [] ==> afterWhole[0] != '.' as int
    requires n.exponent.None? && afterFraction != [] ==> afterFraction[0] != 'e' as int && afterFraction[0] != 'E' as int
    ensures Stops(n, rest)
  {
    assert n.fraction.None? ==> afterWhole == afterFraction;
    assert n.exponent.None? ==> afterFraction == rest;
  }

  /** And every number the scanner takes is spelled so, with nothing left that would belong to it. */
  lemma NumberIsSpelled(s: Text) returns (n: Number)
    requires ScanNumber(s).Some?
    ensures ValidNumber(n) && FlatNumber(n) == ScanNumber(s).value.0
    ensures s == FlatNumber(n) + ScanNumber(s).value.1 && Stops(n, ScanNumber(s).value.1)
  {
    hide ScanUnsigned, Digits, FlatFraction, FlatExponent;
    if s != [] && s[0] == MINUS {
      n := UnsignedIsSpelled(s[1..]);
      n := n.(minus := true);
      assert s == [MINUS] + s[1..];
    } else {
      n := UnsignedIsSpelled(s);
      assert FlatNumber(n) == FlatUnsigned(n);
    }
  }
}
