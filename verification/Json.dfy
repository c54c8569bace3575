/**
 JSON texts as `serde_json` prints and scans them, following section 7 of RFC 8259 for strings.

 A string is kept as the bytes its escapes stand for, without a check that they are UTF-8: the
 scanner of ignored values makes no such check, and typed readers make it on the bytes they take.
 A `\u` escape of a surrogate that has no partner leaves three bytes that are never UTF-8.
 */
module Json {
  import opened Wrappers
  import opened Bytes
  import opened Utf8

  const QUOTE: byte := 0x22
  const BACKSLASH: byte := 0x5C
  const COMMA: byte := 0x2C
  const COLON: byte := 0x3A
  const OPEN_BRACE: byte := 0x7B
  const CLOSE_BRACE: byte := 0x7D
  const OPEN_BRACKET: byte := 0x5B
  const CLOSE_BRACKET: byte := 0x5D
  const MINUS: byte := 0x2D
  const PLUS: byte := 0x2B
  const DOT: byte := 0x2E
  const SLASH: byte := 0x2F
  const LOWER_U: byte := 0x75

  type Text = seq<byte>

  datatype Json =
    | Null
    | Bool(b: bool)
    | Number(literal: Text)
    | String(text: Text)
    | Array(items: seq<Json>)
    | Object(members: seq<(Text, Json)>)

  // ----- characters

  predicate IsDigit(b: byte) {
    0x30 <= b <= 0x39
  }

  predicate IsSpace(b: byte) {
    b == 0x20 || b == 0x0A || b == 0x09 || b == 0x0D
  }

  function HexDigit(n: nat): (b: byte)
    requires n < 16
    ensures HexValue(b) == Some(n)
  {
    if n < 10 then 0x30 + n else 0x61 + (n - 10)
  }

  function HexValue(b: byte): (v: Option<nat>)
    ensures v.Some? ==> v.value < 16
  {
    if 0x30 <= b <= 0x39 then Some(b - 0x30)
    else if 0x61 <= b <= 0x66 then Some(b - 0x61 + 10)
    else if 0x41 <= b <= 0x46 then Some(b - 0x41 + 10)
    else None
  }

  // ----- printing

  /** How the compact printer writes one byte of a string. */
  function Escaped(b: byte): Text {
    if b == 0x22 then [BACKSLASH, 0x22]
    else if b == 0x5C then [BACKSLASH, 0x5C]
    else if b == 0x08 then [BACKSLASH, 0x62]
    else if b == 0x09 then [BACKSLASH, 0x74]
    else if b == 0x0A then [BACKSLASH, 0x6E]
    else if b == 0x0C then [BACKSLASH, 0x66]
    else if b == 0x0D then [BACKSLASH, 0x72]
    else if b < 0x20 then [BACKSLASH, LOWER_U, 0x30, 0x30, HexDigit(b / 16), HexDigit(b % 16)]
    else [b]
  }

  function EscapedAll(s: Text): Text {
    if s == [] then [] else Escaped(s[0]) + EscapedAll(s[1..])
  }

  function PrintString(s: Text): Text {
    [QUOTE] + EscapedAll(s) + [QUOTE]
  }

  /** The decimal digits of `n`, as `usize` prints. */
  function Decimal(n: nat): (digits: Text)
    ensures |digits| > 0
    ensures forall i :: 0 <= i < |digits| ==> IsDigit(digits[i])
    ensures |digits| > 1 ==> digits[0] != 0x30
    decreases n
  {
    if n < 10 then [0x30 + n] else Decimal(n / 10) + [0x30 + n % 10]
  }

  function Print(j: Json): Text
    decreases j
  {
    match j
    case Null => Ascii("null")
    case Bool(b) => if b then Ascii("true") else Ascii("false")
    case Number(literal) => literal
    case String(text) => PrintString(text)
    case Array(items) => [OPEN_BRACKET] + PrintItems(items) + [CLOSE_BRACKET]
    case Object(members) => [OPEN_BRACE] + PrintMembers(members) + [CLOSE_BRACE]
  }

  function PrintItems(items: seq<Json>): Text
    decreases items
  {
    if items == [] then []
    else if |items| == 1 then Print(items[0])
    else Print(items[0]) + [COMMA] + PrintItems(items[1..])
  }

  function PrintMember(member: (Text, Json)): Text
    decreases member
  {
    PrintString(member.0) + [COLON] + Print(member.1)
  }

  function PrintMembers(members: seq<(Text, Json)>): Text
    decreases members
  {
    if members == [] then []
    else if |members| == 1 then PrintMember(members[0])
    else PrintMember(members[0]) + [COMMA] + PrintMembers(members[1..])
  }

  // ----- scanning: each scanner returns what it read and the text it left unread

  function SkipSpace(s: Text): (rest: Text)
    ensures |rest| <= |s|
    ensures rest != [] ==> !IsSpace(rest[0])
  {
    if s != [] && IsSpace(s[0]) then SkipSpace(s[1..]) else s
  }

  /** The four hexadecimal digits at the start of `s`. */
  function ScanHex4(s: Text): (v: Option<nat>)
    ensures v.Some? ==> v.value < 0x10000 && |s| >= 4
  {
    if |s| < 4 then None else
    var a :- HexValue(s[0]);
    var b :- HexValue(s[1]);
    var c :- HexValue(s[2]);
    var d :- HexValue(s[3]);
    Some(a * 0x1000 + b * 0x100 + c * 0x10 + d)
  }

  /** The code point a `\u` escape stands for, `s` starting after the `u`, and how many bytes it takes. */
  function ScanUnicodeEscape(s: Text): (r: Option<(nat, nat)>)
    ensures r.Some? ==> r.value.0 < 0x110000 && r.value.1 <= |s|
  {
    var high :- ScanHex4(s);
    if 0xD800 <= high < 0xDC00 && |s| >= 6 && s[4] == BACKSLASH && s[5] == LOWER_U then
      match ScanHex4(s[6..])
      case Some(low) =>
        if 0xDC00 <= low < 0xE000
        then Some((0x10000 + (high - 0xD800) * 0x400 + (low - 0xDC00), 10))
        else Some((high, 4))
      case None => Some((high, 4))
    else Some((high, 4))
  }

  /** The bytes one escape stands for, `s` starting after the backslash, and how many bytes it takes. */
  function ScanEscape(s: Text): (r: Option<(Text, nat)>)
    ensures r.Some? ==> 0 < r.value.1 <= |s|
  {
    if s == [] then None
    else if s[0] == QUOTE || s[0] == BACKSLASH || s[0] == SLASH then Some(([s[0]], 1))
    else if s[0] == 0x62 then Some(([0x08], 1))
    else if s[0] == 0x66 then Some(([0x0C], 1))
    else if s[0] == 0x6E then Some(([0x0A], 1))
    else if s[0] == 0x72 then Some(([0x0D], 1))
    else if s[0] == 0x74 then Some(([0x09], 1))
    else if s[0] == LOWER_U then
      var (point, length) :- ScanUnicodeEscape(s[1..]);
      Some((Encoded(point), 1 + length))
    else None
  }

  /** The string whose opening quote comes just before `s`. */
  function ScanString(s: Text): (r: Option<(Text, Text)>)
    ensures r.Some? ==> |r.value.1| < |s|
    decreases |s|
  {
    if s == [] || (s[0] < 0x20) then None
    else if s[0] == QUOTE then Some(([], s[1..]))
    else if s[0] == BACKSLASH then
      var (bytes, length) :- ScanEscape(s[1..]);
      var (text, rest) :- ScanString(s[1 + length..]);
      Some((bytes + text, rest))
    else
      var (text, rest) :- ScanString(s[1..]);
      Some(([s[0]] + text, rest))
  }

  /** The longest run of digits at the start of `s`. */
  function ScanDigits(s: Text): (r: (Text, Text))
    ensures |s| == |r.0| + |r.1|
    ensures forall i :: 0 <= i < |r.0| ==> IsDigit(r.0[i])
    ensures r.1 != [] ==> !IsDigit(r.1[0])
  {
    if s != [] && IsDigit(s[0]) then
      var (digits, rest) := ScanDigits(s[1..]);
      ([s[0]] + digits, rest)
    else ([], s)
  }

  /** A non-empty run of digits after an optional mark. */
  function ScanFraction(s: Text): (r: Option<(Text, Text)>)
    ensures r.Some? ==> |r.value.1| <= |s|
  {
    if s != [] && s[0] == DOT then
      var (digits, rest) := ScanDigits(s[1..]);
      if digits == [] then None else Some(([DOT] + digits, rest))
    else Some(([], s))
  }

  function ScanExponent(s: Text): (r: Option<(Text, Text)>)
    ensures r.Some? ==> |r.value.1| <= |s|
  {
    if s != [] && (s[0] == 0x65 || s[0] == 0x45) then
      var signLength := if |s| > 1 && (s[1] == PLUS || s[1] == MINUS) then 2 else 1;
      var (digits, rest) := ScanDigits(s[signLength..]);
      if digits == [] then None else Some((s[..signLength] + digits, rest))
    else Some(([], s))
  }

  /** A number without its sign: its digits have no leading zero. */
  function ScanUnsigned(s: Text): (r: Option<(Text, Text)>)
    ensures r.Some? ==> |r.value.1| < |s|
  {
    var (whole, afterWhole) := ScanDigits(s);
    if whole == [] || (whole[0] == 0x30 && |whole| > 1) then None else
    var (fraction, afterFraction) :- ScanFraction(afterWhole);
    var (exponent, rest) :- ScanExponent(afterFraction);
    Some((whole + fraction + exponent, rest))
  }

  function ScanNumber(s: Text): (r: Option<(Text, Text)>)
    ensures r.Some? ==> |r.value.1| < |s|
  {
    if s != [] && s[0] == MINUS then
      var (unsigned, rest) :- ScanUnsigned(s[1..]);
      Some(([MINUS] + unsigned, rest))
    else ScanUnsigned(s)
  }

  function ScanWord(s: Text, word: Text, value: Json): (r: Option<(Json, Text)>)
    requires word != []
    ensures r.Some? ==> |r.value.1| < |s|
  {
    if word <= s then Some((value, s[|word|..])) else None
  }

  /** The value at the start of `s`, space before it skipped. */
  function ScanValue(s: Text): (r: Option<(Json, Text)>)
    ensures r.Some? ==> |r.value.1| < |s|
    decreases |s|, 2
  {
    var t := SkipSpace(s);
    if t == [] then None
    else if t[0] == QUOTE then
      var (text, rest) :- ScanString(t[1..]);
      Some((String(text), rest))
    else if t[0] == OPEN_BRACE then
      var u := SkipSpace(t[1..]);
      if u != [] && u[0] == CLOSE_BRACE then Some((Object([]), u[1..]))
      else
        var (members, rest) :- ScanMembers(u);
        Some((Object(members), rest))
    else if t[0] == OPEN_BRACKET then
      var u := SkipSpace(t[1..]);
      if u != [] && u[0] == CLOSE_BRACKET then Some((Array([]), u[1..]))
      else
        var (items, rest) :- ScanItems(u);
        Some((Array(items), rest))
    else if t[0] == MINUS || IsDigit(t[0]) then
      var (literal, rest) :- ScanNumber(t);
      Some((Number(literal), rest))
    else if t[0] == 0x6E then ScanWord(t, Ascii("null"), Null)
    else if t[0] == 0x74 then ScanWord(t, Ascii("true"), Bool(true))
    else if t[0] == 0x66 then ScanWord(t, Ascii("false"), Bool(false))
    else None
  }

  /** One or more values up to the closing bracket. */
  function ScanItems(s: Text): (r: Option<(seq<Json>, Text)>)
    ensures r.Some? ==> |r.value.1| < |s|
    decreases |s|, 3
  {
    var (item, afterItem) :- ScanValue(s);
    var t := SkipSpace(afterItem);
    if t == [] then None
    else if t[0] == CLOSE_BRACKET then Some(([item], t[1..]))
    else if t[0] == COMMA then
      var (items, rest) :- ScanItems(t[1..]);
      Some(([item] + items, rest))
    else None
  }

  /** A key, a colon and a value. */
  function ScanMember(s: Text): (r: Option<((Text, Json), Text)>)
    ensures r.Some? ==> |r.value.1| < |s|
    decreases |s|, 3
  {
    var t := SkipSpace(s);
    if t == [] || t[0] != QUOTE then None else
    var (key, afterKey) :- ScanString(t[1..]);
    var u := SkipSpace(afterKey);
    if u == [] || u[0] != COLON then None else
    var (value, rest) :- ScanValue(u[1..]);
    Some(((key, value), rest))
  }

  /** One or more members up to the closing brace. */
  function ScanMembers(s: Text): (r: Option<(seq<(Text, Json)>, Text)>)
    ensures r.Some? ==> |r.value.1| < |s|
    decreases |s|, 4
  {
    var (member, afterMember) :- ScanMember(s);
    var t := SkipSpace(afterMember);
    if t == [] then None
    else if t[0] == CLOSE_BRACE then Some(([member], t[1..]))
    else if t[0] == COMMA then
      var (members, rest) :- ScanMembers(t[1..]);
      Some(([member] + members, rest))
    else None
  }

  // ----- what is printed

  /** The documents the writer prints: every number in them is a natural number. */
  ghost predicate Printable(j: Json)
    decreases j
  {
    match j
    case Null => true
    case Bool(_) => true
    case String(_) => true
    case Number(literal) => exists n: nat :: literal == Decimal(n)
    case Array(items) => forall item :: item in items ==> Printable(item)
    case Object(members) => forall member :: member in members ==> Printable(member.1)
  }

  /** Text that cannot be read as the continuation of a number. */
  predicate EndsNumber(rest: Text) {
    rest == [] || !(IsDigit(rest[0]) || rest[0] == DOT || rest[0] == 0x65 || rest[0] == 0x45)
  }

  lemma {:induction false} ScanAllDigits(digits: Text, rest: Text)
    requires forall i :: 0 <= i < |digits| ==> IsDigit(digits[i])
    requires rest == [] || !IsDigit(rest[0])
    ensures ScanDigits(digits + rest) == (digits, rest)
  {
    if digits == [] {
      assert digits + rest == rest;
    } else {
      assert (digits + rest)[1..] == digits[1..] + rest;
      ScanAllDigits(digits[1..], rest);
      assert [digits[0]] + digits[1..] == digits;
    }
  }

  lemma FirstByteOfPrinted(j: Json)
    requires Printable(j)
    ensures Print(j) != [] && !IsSpace(Print(j)[0])
  {}

  lemma ScanPrintedWord(j: Json, rest: Text)
    requires j.Null? || j.Bool? || j == Array([]) || j == Object([])
    ensures ScanValue(Print(j) + rest) == Some((j, rest))
  {
    var s := Print(j) + rest;
    assert SkipSpace(s) == s;
    assert s[|Print(j)|..] == rest;
    if j.Array? || j.Object? {
      assert SkipSpace(s[1..]) == s[1..];
      assert s[1..][1..] == rest;
    }
  }
}
