/** Every spelling of a JSON text (RFC 8259), and proofs that the scanner accepts exactly these. */
module JsonSpellings {
  import opened Wrappers
  import opened Bytes
  import opened Json
  import opened JsonNumbers
  import opened JsonStrings

  /** White space and then a value. */
  datatype Spelling = Spelling(space: Text, body: Body)

  /** The brackets of an empty array or object may have white space between them. */
  datatype Body =
    | Word(value: Json)
    | Num(number: JsonNumbers.Number)
    | Str(chars: seq<Char>)
    | NoItems(inner: Text)
    | Items(items: seq<Item>)
    | NoMembers(inner: Text)
    | Members(members: seq<Member>)

  /** A value in an array, and the white space after it. */
  datatype Item = Item(value: Spelling, after: Text)

  datatype Member = Member(space: Text, key: seq<Char>, beforeColon: Text, value: Spelling, after: Text)

  /** Section 2: space, tab, line feed and carriage return. */
  predicate White(t: Text) {
    forall i :: 0 <= i < |t| ==>
      t[i] == ' ' as int || t[i] == '\t' as int || t[i] == '\n' as int || t[i] == '\r' as int
  }

  predicate Valid(v: Spelling)
    decreases v
  {
    White(v.space) &&
    match v.body
    case Word(j) => j.Null? || j.Bool?
    case Num(n) => ValidNumber(n)
    case Str(cs) => ValidChars(cs)
    case NoItems(inner) => White(inner)
    case Items(items) => items != [] && ValidItems(items)
    case NoMembers(inner) => White(inner)
    case Members(members) => members != [] && ValidMembers(members)
  }

  predicate ValidItems(items: seq<Item>)
    decreases items
  {
    items != [] ==> Valid(items[0].value) && White(items[0].after) && ValidItems(items[1..])
  }

  predicate ValidMember(m: Member)
    decreases m
  {
    White(m.space) && ValidChars(m.key) && White(m.beforeColon) && Valid(m.value) && White(m.after)
  }

  predicate ValidMembers(members: seq<Member>)
    decreases members
  {
    members != [] ==> ValidMember(members[0]) && ValidMembers(members[1..])
  }

  function Flat(v: Spelling): Text
    requires Valid(v)
    decreases v, 1
  {
    v.space + FlatBody(v)
  }

  function FlatBody(v: Spelling): Text
    requires Valid(v)
    decreases v, 0
  {
    match v.body
    case Word(j) => if j.Null? then Ascii("null") else if j.b then Ascii("true") else Ascii("false")
    case Num(n) => FlatNumber(n)
    case Str(cs) => [QUOTE] + FlatChars(cs) + [QUOTE]
    case NoItems(inner) => ['[' as int] + inner + [']' as int]
    case Items(items) => ['[' as int] + FlatItems(items)
    case NoMembers(inner) => ['{' as int] + inner + ['}' as int]
    case Members(members) => ['{' as int] + FlatMembers(members)
  }

  /** The values with their separators and the closing bracket. */
  function FlatItems(items: seq<Item>): Text
    requires items != [] && ValidItems(items)
    decreases items
  {
    Flat(items[0].value) + items[0].after
    + if |items| == 1 then [']' as int] else [',' as int] + FlatItems(items[1..])
  }

  function FlatMember(m: Member): Text
    requires ValidMember(m)
    decreases m
  {
    m.space + [QUOTE] + FlatChars(m.key) + [QUOTE] + m.beforeColon + [':' as int] + Flat(m.value)
  }

  function FlatMembers(members: seq<Member>): Text
    requires members != [] && ValidMembers(members)
    decreases members
  {
    FlatMember(members[0]) + members[0].after
    + if |members| == 1 then ['}' as int] else [',' as int] + FlatMembers(members[1..])
  }

  function ValueOf(v: Spelling): Json
    requires Valid(v)
    decreases v
  {
    match v.body
    case Word(j) => j
    case Num(n) => Json.Number(FlatNumber(n))
    case Str(cs) => String(Meaning(cs))
    case NoItems(_) => Array([])
    case Items(items) => Array(ValuesOf(items))
    case NoMembers(_) => Object([])
    case Members(members) => Object(PairsOf(members))
  }

  function ValuesOf(items: seq<Item>): seq<Json>
    requires ValidItems(items)
    decreases items
  {
    if items == [] then [] else [ValueOf(items[0].value)] + ValuesOf(items[1..])
  }

  function PairsOf(members: seq<Member>): seq<(Text, Json)>
    requires ValidMembers(members)
    decreases members
  {
    if members == [] then [] else
    assert ValidMember(members[0]);
    [PairOf(members[0])] + PairsOf(members[1..])
  }

  function PairOf(m: Member): (Text, Json)
    requires ValidMember(m)
    decreases m
  {
    (Meaning(m.key), ValueOf(m.value))
  }

  /** Where a number ends, the text does not go on with it. */
  predicate Ends(v: Spelling, rest: Text) {
    v.body.Num? ==> Stops(v.body.number, rest)
  }

  // ----- every spelling is read

  lemma {:induction false} SkipWhite(space: Text, t: Text)
    requires White(space) && t != [] && !IsSpace(t[0])
    ensures SkipSpace(space + t) == t
  {
    if space == [] {
      assert space + t == t;
    } else {
      assert (space + t)[1..] == space[1..] + t;
      SkipWhite(space[1..], t);
    }
  }

  /** The first byte of a value is no white space, and says what kind of value it is. */
  lemma FirstByte(v: Spelling)
    requires Valid(v)
    ensures var t := FlatBody(v);
            && t != [] && !IsSpace(t[0])
            && (v.body.Str? <==> t[0] == QUOTE)
            && (v.body.Items? || v.body.NoItems? <==> t[0] == OPEN_BRACKET)
            && (v.body.Members? || v.body.NoMembers? <==> t[0] == OPEN_BRACE)
            && (v.body.Num? <==> t[0] == MINUS || IsDigit(t[0]))
            && t[0] != CLOSE_BRACKET && t[0] != CLOSE_BRACE
  {
    if v.body.Num? {
      var n := v.body.number;
      assert FlatNumber(n)[0] == if n.minus then MINUS else n.whole[0];
    }
  }

  lemma SkipTwice(s: Text)
    ensures SkipSpace(SkipSpace(s)) == SkipSpace(s)
    ensures ScanValue(SkipSpace(s)) == ScanValue(s)
    ensures ScanItems(SkipSpace(s)) == ScanItems(s)
    ensures ScanMembers(SkipSpace(s)) == ScanMembers(s)
  {
    SkipStops(s);
    assert ScanMember(SkipSpace(s)) == ScanMember(s);
  }

  lemma {:induction false} SkipStops(s: Text)
    ensures SkipSpace(SkipSpace(s)) == SkipSpace(s)
  {
    if s != [] && IsSpace(s[0]) {
      SkipStops(s[1..]);
    }
  }

  lemma ScanSkips(space: Text, t: Text)
    requires White(space) && t != [] && !IsSpace(t[0])
    ensures SkipSpace(space + t) == t && ScanValue(space + t) == ScanValue(t)
    ensures ScanItems(space + t) == ScanItems(t) && ScanMembers(space + t) == ScanMembers(t)
  {
    hide ScanValue, ScanItems, ScanMembers;
    SkipWhite(space, t);
    SkipTwice(space + t);
  }

  /** White space and separators end any value. */
  lemma SeparatorEnds(v: Spelling, after: Text, t: Text)
    requires White(after) && t != [] && (t[0] == COMMA || t[0] == CLOSE_BRACKET || t[0] == CLOSE_BRACE)
    ensures Ends(v, after + t)
  {
    assert (after + t)[0] == if after == [] then t[0] else after[0];
  }

  lemma ScanEmptyArray(inner: Text, rest: Text)
    requires White(inner)
    ensures ScanValue([OPEN_BRACKET] + inner + [CLOSE_BRACKET] + rest) == Some((Array([]), rest))
  {
    var t, u := [OPEN_BRACKET] + inner + [CLOSE_BRACKET] + rest, [CLOSE_BRACKET] + rest;
    SkipWhite(inner, u);
    assert SkipSpace(t) == t && t[1..] == inner + u && u[1..] == rest;
  }

  lemma ScanEmptyObject(inner: Text, rest: Text)
    requires White(inner)
    ensures ScanValue([OPEN_BRACE] + inner + [CLOSE_BRACE] + rest) == Some((Object([]), rest))
  {
    var t, u := [OPEN_BRACE] + inner + [CLOSE_BRACE] + rest, [CLOSE_BRACE] + rest;
    SkipWhite(inner, u);
    assert SkipSpace(t) == t && t[1..] == inner + u && u[1..] == rest;
  }

  lemma DispatchNumber(t: Text, literal: Text, rest: Text)
    requires t != [] && (t[0] == MINUS || IsDigit(t[0])) && ScanNumber(t) == Some((literal, rest))
    ensures ScanValue(t) == Some((Json.Number(literal), rest))
  {
    hide ScanNumber;
    assert SkipSpace(t) == t;
  }

  lemma DispatchString(t: Text, text: Text, rest: Text)
    requires t != [] && t[0] == QUOTE && ScanString(t[1..]) == Some((text, rest))
    ensures ScanValue(t) == Some((String(text), rest))
  {
    hide ScanString;
    assert SkipSpace(t) == t;
  }

  lemma ScanNumberBody(v: Spelling, rest: Text)
    requires Valid(v) && v.body.Num? && Ends(v, rest)
    ensures ScanValue(FlatBody(v) + rest) == Some((ValueOf(v), rest))
  {
    FirstByte(v);
    hide ScanValue, ScanNumber, FlatNumber, Stops, ValidNumber, IsDigit;
    ScanSpelledNumber(v.body.number, rest);
    DispatchNumber(FlatBody(v) + rest, FlatNumber(v.body.number), rest);
  }

  lemma ScanStringBody(v: Spelling, rest: Text)
    requires Valid(v) && v.body.Str?
    ensures ScanValue(FlatBody(v) + rest) == Some((ValueOf(v), rest))
  {
    hide ScanValue, ScanString, FlatChars, Meaning, ValidChars;
    var t := FlatBody(v) + rest;
    ScanSpelledString(v.body.chars, rest);
    assert t[0] == QUOTE && t[1..] == FlatChars(v.body.chars) + [QUOTE] + rest;
    DispatchString(t, Meaning(v.body.chars), rest);
  }

  lemma ScanArrayBody(v: Spelling, rest: Text)
    requires Valid(v) && v.body.Items?
    requires ScanItems(FlatItems(v.body.items) + rest) == Some((ValuesOf(v.body.items), rest))
    ensures ScanValue(FlatBody(v) + rest) == Some((ValueOf(v), rest))
  {
    hide ScanItems, FlatItems, ValuesOf;
    var t := FlatBody(v) + rest;
    assert t[0] == OPEN_BRACKET && t[1..] == FlatItems(v.body.items) + rest;
    assert SkipSpace(t) == t;
    SkipTwice(t[1..]);
    ItemsStart(v.body.items, rest);
  }

  /** A list of items is its first item, the white space after it, and what the scanner goes on with. */
  function AfterItem(items: seq<Item>): Text
    requires items != [] && ValidItems(items)
  {
    if |items| == 1 then [CLOSE_BRACKET] else [COMMA] + FlatItems(items[1..])
  }

  lemma Regroup(a: Text, b: Text, c: Text, d: Text)
    ensures a + b + c + d == a + (b + (c + d))
  {}

  lemma FlatItemsParts(items: seq<Item>, rest: Text)
    requires items != [] && ValidItems(items)
    ensures FlatItems(items) + rest == Flat(items[0].value) + (items[0].after + (AfterItem(items) + rest))
  {
    assert FlatItems(items) == Flat(items[0].value) + items[0].after + AfterItem(items);
    hide *;
    Regroup(Flat(items[0].value), items[0].after, AfterItem(items), rest);
  }

  lemma ItemsStart(items: seq<Item>, rest: Text)
    requires items != [] && ValidItems(items)
    ensures var u := SkipSpace(FlatItems(items) + rest);
            u != [] && u[0] != CLOSE_BRACKET
  {
    var v := items[0].value;
    assert Flat(v) == v.space + FlatBody(v) && White(v.space);
    hide FlatBody, FlatItems, Flat, AfterItem, Valid, ValidItems, White, IsDigit;
    FirstByte(v);
    FlatItemsParts(items, rest);
    var tail := items[0].after + (AfterItem(items) + rest);
    assert v.space + FlatBody(v) + tail == v.space + (FlatBody(v) + tail);
    SkipWhite(v.space, FlatBody(v) + tail);
  }

  lemma ScanObjectBody(v: Spelling, rest: Text)
    requires Valid(v) && v.body.Members?
    requires ScanMembers(FlatMembers(v.body.members) + rest) == Some((PairsOf(v.body.members), rest))
    ensures ScanValue(FlatBody(v) + rest) == Some((ValueOf(v), rest))
  {
    hide ScanMembers, FlatMembers, PairsOf;
    var t := FlatBody(v) + rest;
    assert t[0] == OPEN_BRACE && t[1..] == FlatMembers(v.body.members) + rest;
    assert SkipSpace(t) == t;
    SkipTwice(t[1..]);
    MembersStart(v.body.members, rest);
  }

  function AfterMember(members: seq<Member>): Text
    requires members != [] && ValidMembers(members)
  {
    if |members| == 1 then [CLOSE_BRACE] else [COMMA] + FlatMembers(members[1..])
  }

  lemma FlatMembersParts(members: seq<Member>, rest: Text)
    requires members != [] && ValidMembers(members)
    ensures FlatMembers(members) + rest == FlatMember(members[0]) + (members[0].after + (AfterMember(members) + rest))
  {
    assert FlatMembers(members) == FlatMember(members[0]) + members[0].after + AfterMember(members);
    hide *;
    Regroup(FlatMember(members[0]), members[0].after, AfterMember(members), rest);
  }

  /** A member, cut where the scanner of members cuts it. */
  lemma FlatMemberParts(m: Member, tail: Text)
    requires ValidMember(m)
    ensures FlatMember(m) + tail
            == m.space + ([QUOTE] + (FlatChars(m.key) + [QUOTE]
                                     + (m.beforeColon + ([COLON] + (Flat(m.value) + tail)))))
  {
    hide FlatChars, Flat;
  }

  lemma MembersStart(members: seq<Member>, rest: Text)
    requires members != [] && ValidMembers(members)
    ensures var u := SkipSpace(FlatMembers(members) + rest);
            u != [] && u[0] == QUOTE
  {
    var m := members[0];
    assert ValidMember(m);
    var tail := m.after + (AfterMember(members) + rest);
    FlatMembersParts(members, rest);
    FlatMemberParts(m, tail);
    hide FlatChars, Flat, FlatMember, FlatMembers;
    SkipWhite(m.space, [QUOTE] + (FlatChars(m.key) + [QUOTE] + (m.beforeColon + ([COLON] + (Flat(m.value) + tail)))));
  }

  /** However a text is spelled, the scanner reads what it means. */
  lemma {:induction false} ScanSpelled(v: Spelling, rest: Text)
    requires Valid(v) && Ends(v, rest)
    ensures ScanValue(Flat(v) + rest) == Some((ValueOf(v), rest))
    decreases v, 1
  {
    assert White(v.space);
    ScanSpelledBody(v, rest);
    FirstByte(v);
    hide ScanValue, FlatBody, ValueOf, Valid, Ends;
    assert Flat(v) + rest == v.space + (FlatBody(v) + rest);
    ScanSkips(v.space, FlatBody(v) + rest);
  }

  lemma {:induction false} ScanSpelledBody(v: Spelling, rest: Text)
    requires Valid(v) && Ends(v, rest)
    ensures ScanValue(FlatBody(v) + rest) == Some((ValueOf(v), rest))
    decreases v, 0
  {
    hide ScanValue, FlatItems, FlatMembers, ScanItems, ScanMembers;
    match v.body
    case Items(items) =>
      ScanSpelledItems(items, rest);
      ScanArrayBody(v, rest);
    case Members(members) =>
      ScanSpelledMembers(members, rest);
      ScanObjectBody(v, rest);
    case Num(_) => ScanNumberBody(v, rest);
    case Str(_) => ScanStringBody(v, rest);
    case Word(j) => ScanPrintedWord(j, rest);
    case NoItems(inner) => ScanEmptyArray(inner, rest);
    case NoMembers(inner) => ScanEmptyObject(inner, rest);
  }

  lemma ScanLastItem(s: Text, value: Json, after: Text, rest: Text)
    requires ScanValue(s) == Some((value, after + ([CLOSE_BRACKET] + rest))) && White(after)
    ensures ScanItems(s) == Some(([value], rest))
  {
    hide ScanValue;
    SkipWhite(after, [CLOSE_BRACKET] + rest);
  }

  lemma ScanOneItem(s: Text, value: Json, after: Text, more: Text, values: seq<Json>, rest: Text)
    requires ScanValue(s) == Some((value, after + ([COMMA] + more))) && White(after)
    requires ScanItems(more) == Some((values, rest))
    ensures ScanItems(s) == Some(([value] + values, rest))
  {
    hide ScanValue;
    SkipWhite(after, [COMMA] + more);
    assert ([COMMA] + more)[1..] == more;
  }

  lemma ItemsParts(items: seq<Item>)
    requires items != [] && ValidItems(items)
    ensures Valid(items[0].value) && White(items[0].after) && ValidItems(items[1..])
    ensures ValuesOf(items) == [ValueOf(items[0].value)] + ValuesOf(items[1..])
    ensures |items| == 1 ==> ValuesOf(items) == [ValueOf(items[0].value)]
  {}

  lemma ScanItemsStep(items: seq<Item>, rest: Text)
    requires items != [] && ValidItems(items)
    requires ScanValue(Flat(items[0].value) + (items[0].after + (AfterItem(items) + rest)))
             == Some((ValueOf(items[0].value), items[0].after + (AfterItem(items) + rest)))
    requires |items| > 1 ==> ScanItems(FlatItems(items[1..]) + rest) == Some((ValuesOf(items[1..]), rest))
    ensures ScanItems(FlatItems(items) + rest) == Some((ValuesOf(items), rest))
  {
    hide ScanValue, ScanItems, Flat, FlatItems, ValueOf, ValuesOf, Valid, ValidItems, White;
    ItemsParts(items);
    FlatItemsParts(items, rest);
    var s, value, after := FlatItems(items) + rest, ValueOf(items[0].value), items[0].after;
    if |items| == 1 {
      ScanLastItem(s, value, after, rest);
    } else {
      var more := FlatItems(items[1..]) + rest;
      assert AfterItem(items) + rest == [COMMA] + more;
      ScanOneItem(s, value, after, more, ValuesOf(items[1..]), rest);
    }
  }

  lemma {:induction false} ScanSpelledItems(items: seq<Item>, rest: Text)
    requires items != [] && ValidItems(items)
    ensures ScanItems(FlatItems(items) + rest) == Some((ValuesOf(items), rest))
    decreases items, 0
  {
    hide ScanValue, ScanItems, Flat, FlatItems, ValueOf, ValuesOf, Valid, ValidItems, White, Ends;
    ItemsParts(items);
    var v, after, t := items[0].value, items[0].after, AfterItem(items) + rest;
    SeparatorEnds(v, after, t);
    ScanSpelled(v, after + t);
    if |items| > 1 {
      ScanSpelledItems(items[1..], rest);
    }
    ScanItemsStep(items, rest);
  }

  lemma ScanMemberParts(space: Text, keyed: Text, key: Text, beforeColon: Text, afterColon: Text, value: Json, tail: Text)
    requires White(space) && White(beforeColon)
    requires ScanString(keyed) == Some((key, beforeColon + ([COLON] + afterColon)))
    requires ScanValue(afterColon) == Some((value, tail))
    ensures ScanMember(space + ([QUOTE] + keyed)) == Some(((key, value), tail))
  {
    hide ScanString, ScanValue;
    SkipWhite(space, [QUOTE] + keyed);
    SkipWhite(beforeColon, [COLON] + afterColon);
    assert ([QUOTE] + keyed)[1..] == keyed && ([COLON] + afterColon)[1..] == afterColon;
  }

  lemma {:induction false} ScanSpelledMember(m: Member, tail: Text)
    requires ValidMember(m) && Ends(m.value, tail)
    ensures ScanMember(FlatMember(m) + tail) == Some((PairOf(m), tail))
    decreases m
  {
    var afterColon := Flat(m.value) + tail;
    var afterKey := m.beforeColon + ([COLON] + afterColon);
    ScanSpelled(m.value, tail);
    ScanSpelledString(m.key, afterKey);
    FlatMemberParts(m, tail);
    hide ScanMember, ScanValue, ScanString, Flat, FlatChars, ValueOf, Meaning, White, Ends, ValidChars, Valid;
    ScanMemberParts(m.space, FlatChars(m.key) + [QUOTE] + afterKey, Meaning(m.key), m.beforeColon, afterColon,
                    ValueOf(m.value), tail);
  }

  lemma ScanLastMember(s: Text, pair: (Text, Json), after: Text, rest: Text)
    requires ScanMember(s) == Some((pair, after + ([CLOSE_BRACE] + rest))) && White(after)
    ensures ScanMembers(s) == Some(([pair], rest))
  {
    hide ScanMember;
    SkipWhite(after, [CLOSE_BRACE] + rest);
  }

  lemma ScanOneMember(s: Text, pair: (Text, Json), after: Text, more: Text, pairs: seq<(Text, Json)>, rest: Text)
    requires ScanMember(s) == Some((pair, after + ([COMMA] + more))) && White(after)
    requires ScanMembers(more) == Some((pairs, rest))
    ensures ScanMembers(s) == Some(([pair] + pairs, rest))
  {
    hide ScanMember;
    SkipWhite(after, [COMMA] + more);
    assert ([COMMA] + more)[1..] == more;
  }

  lemma MembersParts(members: seq<Member>)
    requires members != [] && ValidMembers(members)
    ensures ValidMember(members[0]) && ValidMembers(members[1..])
    ensures Valid(members[0].value) && White(members[0].after)
    ensures PairsOf(members) == [PairOf(members[0])] + PairsOf(members[1..])
    ensures |members| == 1 ==> PairsOf(members) == [PairOf(members[0])]
  {
    assert ValidMember(members[0]);
  }

  lemma ScanMembersStep(members: seq<Member>, rest: Text)
    requires members != [] && ValidMembers(members) && ValidMember(members[0])
    requires ScanMember(FlatMember(members[0]) + (members[0].after + (AfterMember(members) + rest)))
             == Some((PairOf(members[0]), members[0].after + (AfterMember(members) + rest)))
    requires |members| > 1 ==> ScanMembers(FlatMembers(members[1..]) + rest) == Some((PairsOf(members[1..]), rest))
    ensures ScanMembers(FlatMembers(members) + rest) == Some((PairsOf(members), rest))
  {
    hide ScanMember, ScanMembers, FlatMember, FlatMembers, PairOf, PairsOf, ValidMember, ValidMembers, White;
    MembersParts(members);
    FlatMembersParts(members, rest);
    var s, pair, after := FlatMembers(members) + rest, PairOf(members[0]), members[0].after;
    if |members| == 1 {
      ScanLastMember(s, pair, after, rest);
    } else {
      var more := FlatMembers(members[1..]) + rest;
      assert AfterMember(members) + rest == [COMMA] + more;
      ScanOneMember(s, pair, after, more, PairsOf(members[1..]), rest);
    }
  }

  lemma {:induction false} ScanSpelledMembers(members: seq<Member>, rest: Text)
    requires members != [] && ValidMembers(members)
    ensures ScanMembers(FlatMembers(members) + rest) == Some((PairsOf(members), rest))
    decreases members, 0
  {
    hide ScanMember, ScanMembers, FlatMember, FlatMembers, PairOf, PairsOf, ValidMember, ValidMembers, White, Valid, Ends;
    MembersParts(members);
    var m, t := members[0], AfterMember(members) + rest;
    SeparatorEnds(m.value, m.after, t);
    ScanSpelledMember(m, m.after + t);
    if |members| > 1 {
      ScanSpelledMembers(members[1..], rest);
    }
    ScanMembersStep(members, rest);
  }

  // ----- only spellings are read

  lemma {:induction false} WhiteOf(s: Text) returns (space: Text)
    ensures White(space) && s == space + SkipSpace(s)
  {
    if s != [] && IsSpace(s[0]) {
      var rest := WhiteOf(s[1..]);
      space := [s[0]] + rest;
    } else {
      space := [];
    }
  }

  /** What the scanner of values found, by the first byte behind the white space. */
  lemma StringParts(s: Text)
    requires ScanValue(s).Some? && SkipSpace(s)[0] == QUOTE
    ensures ScanString(SkipSpace(s)[1..]).Some?
    ensures var (text, rest) := ScanString(SkipSpace(s)[1..]).value;
            ScanValue(s) == Some((String(text), rest))
  {
    hide ScanString;
  }

  lemma NumberParts(s: Text)
    requires ScanValue(s).Some? && (SkipSpace(s)[0] == MINUS || IsDigit(SkipSpace(s)[0]))
    ensures ScanNumber(SkipSpace(s)).Some?
    ensures var (literal, rest) := ScanNumber(SkipSpace(s)).value;
            ScanValue(s) == Some((Json.Number(literal), rest))
  {
    hide ScanNumber;
  }

  lemma ArrayParts(s: Text)
    requires ScanValue(s).Some? && SkipSpace(s)[0] == OPEN_BRACKET
    ensures SkipSpace(s) != []
    ensures var u := SkipSpace(SkipSpace(s)[1..]);
            u != [] &&
            if u[0] == CLOSE_BRACKET then ScanValue(s) == Some((Array([]), u[1..]))
            else ScanItems(u).Some? && ScanValue(s) == Some((Array(ScanItems(u).value.0), ScanItems(u).value.1))
  {
    hide ScanItems;
  }

  lemma ObjectParts(s: Text)
    requires ScanValue(s).Some? && SkipSpace(s)[0] == OPEN_BRACE
    ensures SkipSpace(s) != []
    ensures var u := SkipSpace(SkipSpace(s)[1..]);
            u != [] &&
            if u[0] == CLOSE_BRACE then ScanValue(s) == Some((Object([]), u[1..]))
            else ScanMembers(u).Some? && ScanValue(s) == Some((Object(ScanMembers(u).value.0), ScanMembers(u).value.1))
  {
    hide ScanMembers;
  }

  /** The body without the white space before it spells what was read. */
  predicate Spells(body: Body, s: Text)
    requires ScanValue(s).Some?
  {
    var v := Spelling([], body);
    Valid(v) && ValueOf(v) == ScanValue(s).value.0 && SkipSpace(s) == FlatBody(v) + ScanValue(s).value.1
    && Ends(v, ScanValue(s).value.1)
  }

  lemma WordOfText(s: Text) returns (body: Body)
    requires ScanValue(s).Some?
    requires var b := SkipSpace(s)[0];
             b != QUOTE && b != MINUS && !IsDigit(b) && b != OPEN_BRACKET && b != OPEN_BRACE
    ensures Spells(body, s)
  {
    body := Word(ScanValue(s).value.0);
  }

  lemma StringOfText(s: Text) returns (body: Body)
    requires ScanValue(s).Some? && SkipSpace(s)[0] == QUOTE
    ensures Spells(body, s)
  {
    StringParts(s);
    var t := SkipSpace(s);
    var cs := StringIsSpelled(t[1..]);
    body := Str(cs);
    hide ScanValue, ScanString, SkipSpace, FlatChars, Meaning, ValidChars;
    assert t == [QUOTE] + t[1..];
  }

  lemma NumberOfText(s: Text) returns (body: Body)
    requires ScanValue(s).Some? && (SkipSpace(s)[0] == MINUS || IsDigit(SkipSpace(s)[0]))
    ensures Spells(body, s)
  {
    NumberParts(s);
    var n := NumberIsSpelled(SkipSpace(s));
    body := Num(n);
    hide ScanValue, ScanNumber, SkipSpace, FlatNumber, ValidNumber, Stops;
  }

  /** Every text the scanner reads is the spelling of what it reads. */
  lemma {:induction false} ValueIsSpelled(s: Text) returns (v: Spelling)
    requires ScanValue(s).Some?
    ensures Valid(v) && ValueOf(v) == ScanValue(s).value.0
    ensures s == Flat(v) + ScanValue(s).value.1 && Ends(v, ScanValue(s).value.1)
    decreases |s|, 2
  {
    var t := SkipSpace(s);
    assert t != [];
    hide ScanValue, SkipSpace, Spells, IsDigit;
    var body: Body;
    if t[0] == QUOTE {
      body := StringOfText(s);
    } else if t[0] == OPEN_BRACKET {
      body := ArrayIsSpelled(s);
    } else if t[0] == OPEN_BRACE {
      body := ObjectIsSpelled(s);
    } else if t[0] == MINUS || IsDigit(t[0]) {
      body := NumberOfText(s);
    } else {
      body := WordOfText(s);
    }
    var space := WhiteOf(s);
    v := WithSpace(s, space, body);
  }

  lemma WithSpace(s: Text, space: Text, body: Body) returns (v: Spelling)
    requires ScanValue(s).Some? && Spells(body, s) && White(space) && s == space + SkipSpace(s)
    ensures Valid(v) && ValueOf(v) == ScanValue(s).value.0
    ensures s == Flat(v) + ScanValue(s).value.1 && Ends(v, ScanValue(s).value.1)
  {
    hide ScanValue, SkipSpace, ValidItems, ValidMembers, FlatItems, FlatMembers;
    v := Spelling(space, body);
    assert FlatBody(v) == FlatBody(Spelling([], body));
  }

  lemma EmptySpelled(inner: Text, rest: Text)
    requires White(inner)
    ensures var v := Spelling([], NoItems(inner));
            && Valid(v) && ValueOf(v) == Array([]) && FlatBody(v) == [OPEN_BRACKET] + inner + [CLOSE_BRACKET]
            && Ends(v, rest)
    ensures var v := Spelling([], NoMembers(inner));
            && Valid(v) && ValueOf(v) == Object([]) && FlatBody(v) == [OPEN_BRACE] + inner + [CLOSE_BRACE]
            && Ends(v, rest)
  {}

  lemma EmptyArrayOfText(s: Text) returns (body: Body)
    requires ScanValue(s).Some? && SkipSpace(s)[0] == OPEN_BRACKET
    requires var u := SkipSpace(SkipSpace(s)[1..]); u != [] && u[0] == CLOSE_BRACKET
    ensures Spells(body, s)
  {
    hide ScanValue, ScanItems, SkipSpace, White, Valid, FlatBody, ValueOf, Ends;
    ArrayParts(s);
    var t := SkipSpace(s);
    var u := SkipSpace(t[1..]);
    var inner := WhiteOf(t[1..]);
    body := NoItems(inner);
    EmptySpelled(inner, u[1..]);
    assert t == [OPEN_BRACKET] + t[1..] && u == [CLOSE_BRACKET] + u[1..];
  }

  lemma {:induction false} ArrayIsSpelled(s: Text) returns (body: Body)
    requires ScanValue(s).Some? && SkipSpace(s)[0] == OPEN_BRACKET
    ensures Spells(body, s)
    decreases |s|, 1
  {
    hide ScanValue, ScanItems, SkipSpace, FlatItems, ValidItems, ValuesOf;
    ArrayParts(s);
    var t := SkipSpace(s);
    if SkipSpace(t[1..])[0] == CLOSE_BRACKET {
      body := EmptyArrayOfText(s);
    } else {
      ShorterInside(s);
      SkipTwice(t[1..]);
      var items := ItemsAreSpelled(t[1..]);
      body := Items(items);
      assert t == [OPEN_BRACKET] + t[1..];
    }
  }

  lemma ShorterInside(s: Text)
    requires SkipSpace(s) != []
    ensures |SkipSpace(s)[1..]| < |s|
  {}

  lemma EmptyObjectOfText(s: Text) returns (body: Body)
    requires ScanValue(s).Some? && SkipSpace(s)[0] == OPEN_BRACE
    requires var u := SkipSpace(SkipSpace(s)[1..]); u != [] && u[0] == CLOSE_BRACE
    ensures Spells(body, s)
  {
    hide ScanValue, ScanMembers, SkipSpace, White, Valid, FlatBody, ValueOf, Ends;
    ObjectParts(s);
    var t := SkipSpace(s);
    var u := SkipSpace(t[1..]);
    var inner := WhiteOf(t[1..]);
    body := NoMembers(inner);
    EmptySpelled(inner, u[1..]);
    assert t == [OPEN_BRACE] + t[1..] && u == [CLOSE_BRACE] + u[1..];
  }

  lemma {:induction false} ObjectIsSpelled(s: Text) returns (body: Body)
    requires ScanValue(s).Some? && SkipSpace(s)[0] == OPEN_BRACE
    ensures Spells(body, s)
    decreases |s|, 1
  {
    hide ScanValue, ScanMembers, SkipSpace, FlatMembers, ValidMembers, PairsOf;
    ObjectParts(s);
    var t := SkipSpace(s);
    if SkipSpace(t[1..])[0] == CLOSE_BRACE {
      body := EmptyObjectOfText(s);
    } else {
      ShorterInside(s);
      SkipTwice(t[1..]);
      var members := MembersAreSpelled(t[1..]);
      body := Members(members);
      assert t == [OPEN_BRACE] + t[1..];
    }
  }

  lemma ItemsScanned(s: Text)
    requires ScanItems(s).Some?
    ensures ScanValue(s).Some?
    ensures var (value, afterItem) := ScanValue(s).value;
            var t := SkipSpace(afterItem);
            t != [] &&
            if t[0] == CLOSE_BRACKET then ScanItems(s) == Some(([value], t[1..]))
            else t[0] == COMMA && ScanItems(t[1..]).Some?
                 && ScanItems(s) == Some(([value] + ScanItems(t[1..]).value.0, ScanItems(t[1..]).value.1))
  {
    hide ScanValue;
  }

  lemma ItemsWithFirst(v: Spelling, after: Text, more: seq<Item>, rest: Text)
    requires Valid(v) && White(after) && ValidItems(more)
    ensures var items := [Item(v, after)] + more;
            && ValidItems(items) && ValuesOf(items) == [ValueOf(v)] + ValuesOf(more)
            && FlatItems(items) + rest
               == Flat(v) + (after + ((if more == [] then [CLOSE_BRACKET] else [COMMA] + FlatItems(more)) + rest))
  {
    var items := [Item(v, after)] + more;
    assert items[1..] == more;
    hide Valid, Flat, ValueOf, White;
    assert ValidItems(items);
    FlatItemsParts(items, rest);
  }

  lemma {:induction false} ItemsAreSpelled(s: Text) returns (items: seq<Item>)
    requires ScanItems(s).Some?
    ensures items != [] && ValidItems(items) && ValuesOf(items) == ScanItems(s).value.0
    ensures s == FlatItems(items) + ScanItems(s).value.1
    decreases |s|, 3
  {
    hide ScanItems, ScanValue, Flat, FlatItems, ValueOf, Valid, ValidItems, SkipSpace, White, Ends;
    ItemsScanned(s);
    var v := ValueIsSpelled(s);
    var afterItem := ScanValue(s).value.1;
    var after := WhiteOf(afterItem);
    var t := SkipSpace(afterItem);
    var more: seq<Item> := [];
    if t[0] == COMMA {
      more := ItemsAreSpelled(t[1..]);
    } else {
      NoMore();
    }
    items := [Item(v, after)] + more;
    assert t == [t[0]] + t[1..];
    ItemsWithFirst(v, after, more, ScanItems(s).value.1);
  }

  lemma NoMore()
    ensures ValidItems([]) && ValuesOf([]) == []
    ensures ValidMembers([]) && PairsOf([]) == []
  {}

  lemma MemberScanned(s: Text)
    requires ScanMember(s).Some?
    ensures var t := SkipSpace(s);
            t != [] && t[0] == QUOTE && ScanString(t[1..]).Some? &&
            var (key, afterKey) := ScanString(t[1..]).value;
            var u := SkipSpace(afterKey);
            u != [] && u[0] == COLON && |u[1..]| < |s| && ScanValue(u[1..]).Some? &&
            var (value, rest) := ScanValue(u[1..]).value;
            ScanMember(s) == Some(((key, value), rest))
  {
    hide ScanString, ScanValue;
  }

  lemma MemberOf(space: Text, key: seq<Char>, beforeColon: Text, v: Spelling, rest: Text) returns (m: Member)
    requires White(space) && ValidChars(key) && White(beforeColon) && Valid(v)
    ensures ValidMember(m) && PairOf(m) == (Meaning(key), ValueOf(v)) && m.after == []
    ensures FlatMember(m) + rest
            == space + ([QUOTE] + (FlatChars(key) + [QUOTE] + (beforeColon + ([COLON] + (Flat(v) + rest)))))
  {
    m := Member(space, key, beforeColon, v, []);
    hide Flat, ValueOf, Valid, FlatChars, Meaning, ValidChars;
    FlatMemberParts(m, rest);
  }

  lemma {:induction false} MemberIsSpelled(s: Text) returns (m: Member)
    requires ScanMember(s).Some?
    ensures ValidMember(m) && PairOf(m) == ScanMember(s).value.0 && m.after == []
    ensures s == FlatMember(m) + ScanMember(s).value.1
    decreases |s|, 3
  {
    hide ScanMember, ScanValue, ScanString, SkipSpace, Flat, ValueOf, Valid, FlatChars, Meaning, ValidChars, White, Ends,
      FlatMember, ValidMember, PairOf;
    MemberScanned(s);
    var space := WhiteOf(s);
    var t := SkipSpace(s);
    var key := StringIsSpelled(t[1..]);
    var afterKey := ScanString(t[1..]).value.1;
    var beforeColon := WhiteOf(afterKey);
    var u := SkipSpace(afterKey);
    var v := ValueIsSpelled(u[1..]);
    m := MemberOf(space, key, beforeColon, v, ScanMember(s).value.1);
    assert t == [QUOTE] + t[1..] && u == [COLON] + u[1..];
  }

  lemma MembersScanned(s: Text)
    requires ScanMembers(s).Some?
    ensures ScanMember(s).Some?
    ensures var (pair, afterMember) := ScanMember(s).value;
            var t := SkipSpace(afterMember);
            t != [] &&
            if t[0] == CLOSE_BRACE then ScanMembers(s) == Some(([pair], t[1..]))
            else t[0] == COMMA && ScanMembers(t[1..]).Some?
                 && ScanMembers(s) == Some(([pair] + ScanMembers(t[1..]).value.0, ScanMembers(t[1..]).value.1))
  {
    hide ScanMember;
  }

  lemma WithAfter(m: Member, after: Text) returns (r: Member)
    requires ValidMember(m) && White(after)
    ensures ValidMember(r) && r.after == after && PairOf(r) == PairOf(m) && FlatMember(r) == FlatMember(m)
  {
    hide Valid, White, ValueOf, Flat;
    r := m.(after := after);
  }

  lemma MembersWithFirst(m: Member, more: seq<Member>, rest: Text)
    requires ValidMember(m) && ValidMembers(more)
    ensures var members := [m] + more;
            && ValidMembers(members) && PairsOf(members) == [PairOf(m)] + PairsOf(more)
            && FlatMembers(members) + rest
               == FlatMember(m) + (m.after + ((if more == [] then [CLOSE_BRACE] else [COMMA] + FlatMembers(more)) + rest))
  {
    var members := [m] + more;
    assert members[1..] == more;
    hide ValidMember, FlatMember, PairOf;
    assert ValidMembers(members);
    FlatMembersParts(members, rest);
  }

  lemma {:induction false} MembersAreSpelled(s: Text) returns (members: seq<Member>)
    requires ScanMembers(s).Some?
    ensures members != [] && ValidMembers(members) && PairsOf(members) == ScanMembers(s).value.0
    ensures s == FlatMembers(members) + ScanMembers(s).value.1
    decreases |s|, 4
  {
    hide ScanMembers, ScanMember, FlatMember, FlatMembers, PairOf, ValidMember, ValidMembers, SkipSpace, White;
    MembersScanned(s);
    var bare := MemberIsSpelled(s);
    var afterMember := ScanMember(s).value.1;
    var after := WhiteOf(afterMember);
    var m := WithAfter(bare, after);
    var t := SkipSpace(afterMember);
    var more: seq<Member> := [];
    if t[0] == COMMA {
      more := MembersAreSpelled(t[1..]);
    } else {
      NoMore();
    }
    members := [m] + more;
    assert t == [t[0]] + t[1..];
    MembersWithFirst(m, more, ScanMembers(s).value.1);
  }

  /** The scanner reads a value, and leaves a rest, exactly when the text is a spelling of the value before the rest. */
  lemma ReadIffSpelled(s: Text, j: Json, rest: Text)
    ensures ScanValue(s) == Some((j, rest))
            <==> exists v :: Valid(v) && ValueOf(v) == j && s == Flat(v) + rest && Ends(v, rest)
  {
    hide ScanValue, Valid, ValueOf, Flat, Ends;
    if ScanValue(s) == Some((j, rest)) {
      var v := ValueIsSpelled(s);
    }
    if v :| Valid(v) && ValueOf(v) == j && s == Flat(v) + rest && Ends(v, rest) {
      ScanSpelled(v, rest);
    }
  }
}
