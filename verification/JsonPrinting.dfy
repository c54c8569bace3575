/** What the compact printer writes is one of the spellings of a document, so scanning gives the document back. */
module JsonPrinting {
  import opened Wrappers
  import opened Bytes
  import opened Utf8
  import opened Json
  import opened JsonNumbers
  import opened JsonStrings
  import opened JsonSpellings

  /** How the printer spells one byte of a string. */
  function CharOf(b: byte): Char {
    if b == 0x22 then Short('\"')
    else if b == 0x5C then Short('\\')
    else if b == 0x08 then Short('b')
    else if b == 0x09 then Short('t')
    else if b == 0x0A then Short('n')
    else if b == 0x0C then Short('f')
    else if b == 0x0D then Short('r')
    else if b < 0x20 then Unicode([Digit(0, false), Digit(0, false), Digit(b / 16, false), Digit(b % 16, false)])
    else Plain(b)
  }

  function CharsOf(s: Text): seq<Char> {
    if s == [] then [] else [CharOf(s[0])] + CharsOf(s[1..])
  }

  lemma ControlIsSpelled(b: byte)
    requires b < 0x20
    ensures var c := Unicode([Digit(0, false), Digit(0, false), Digit(b / 16, false), Digit(b % 16, false)]);
            && ValidChar(c) && NumberOf(c.digits) == b && CharMeaning(c) == [b]
            && FlatChar(c) == [BACKSLASH, LOWER_U, 0x30, 0x30, HexDigit(b / 16), HexDigit(b % 16)]
  {
    assert b / 16 == 0 || b / 16 == 1;
  }

  lemma ByteIsSpelled(b: byte)
    ensures ValidChar(CharOf(b)) && FlatChar(CharOf(b)) == Escaped(b) && CharMeaning(CharOf(b)) == [b]
    ensures CharOf(b).Unicode? ==> !IsLead(NumberOf(CharOf(b).digits))
  {
    hide FlatDigits, Encoded, NumberOf, HexDigit;
    if b < 0x20 && CharOf(b).Unicode? {
      ControlIsSpelled(b);
      hide FlatChar, CharMeaning;
    }
  }

  lemma {:induction false} TextIsSpelled(s: Text)
    ensures ValidChars(CharsOf(s)) && FlatChars(CharsOf(s)) == EscapedAll(s) && Meaning(CharsOf(s)) == s
  {
    if s != [] {
      ByteIsSpelled(s[0]);
      TextIsSpelled(s[1..]);
      hide CharOf, FlatChar, CharMeaning, Escaped;
      assert CharsOf(s)[1..] == CharsOf(s[1..]);
      assert [s[0]] + s[1..] == s;
    }
  }

  /** Scanning a printed string gives the string back. */
  lemma ScanPrintedString(s: Text, rest: Text)
    ensures ScanString(EscapedAll(s) + [QUOTE] + rest) == Some((s, rest))
  {
    TextIsSpelled(s);
    hide ScanString, FlatChars, ValidChars, Meaning;
    ScanSpelledString(CharsOf(s), rest);
  }

  /** The spelling the printer chooses: no white space, and an own form for empty arrays and objects. */
  function SpellingOf(j: Json): Spelling
    decreases j
  {
    Spelling([], match j
      case Number(literal) => Num(Number.Number(false, literal, None, None))
      case String(text) => Str(CharsOf(text))
      case Array(items) => if items == [] then NoItems([]) else Items(ItemsOf(items))
      case Object(members) => if members == [] then NoMembers([]) else Members(MembersOf(members))
      case _ => Word(j))
  }

  function ItemsOf(items: seq<Json>): seq<Item>
    decreases items
  {
    if items == [] then [] else [Item(SpellingOf(items[0]), [])] + ItemsOf(items[1..])
  }

  function MemberOf(member: (Text, Json)): Member
    decreases member
  {
    Member([], CharsOf(member.0), [], SpellingOf(member.1), [])
  }

  function MembersOf(members: seq<(Text, Json)>): seq<Member>
    decreases members
  {
    if members == [] then [] else [MemberOf(members[0])] + MembersOf(members[1..])
  }

  /** Every printed document is spelled so. */
  lemma {:induction false} PrintIsSpelled(j: Json)
    requires Printable(j)
    ensures Valid(SpellingOf(j)) && Flat(SpellingOf(j)) == Print(j) && ValueOf(SpellingOf(j)) == j
    decreases j
  {
    hide PrintItems, FlatItems, ValuesOf, ValidItems, ItemsOf, PrintMembers, FlatMembers, PairsOf, ValidMembers, MembersOf;
    hide CharsOf, FlatChars, ValidChars, Meaning, EscapedAll;
    match j
    case Array(items) =>
      if items != [] {
        ItemsAreSpelled(items);
      } else {
        NothingIsSpelled(j);
      }
    case Object(members) =>
      if members != [] {
        MembersAreSpelled(members);
      } else {
        NothingIsSpelled(j);
      }
    case String(text) =>
      TextIsSpelled(text);
    case Number(literal) =>
      NumberIsPlain(literal);
    case _ =>
  }

  lemma NothingIsSpelled(j: Json)
    requires j == Array([]) || j == Object([])
    ensures Valid(SpellingOf(j)) && Flat(SpellingOf(j)) == Print(j) && ValueOf(SpellingOf(j)) == j
  {}

  lemma NumberIsPlain(literal: Text)
    requires Printable(Json.Number(literal))
    ensures var n := Number.Number(false, literal, None, None); ValidNumber(n) && FlatNumber(n) == literal
  {}

  lemma NoItemsMore(items: seq<Json>)
    requires items == []
    ensures ItemsOf(items) == [] && ValidItems(ItemsOf(items)) && ValuesOf(ItemsOf(items)) == items
  {}

  lemma ItemsCut(items: seq<Json>)
    requires items != []
    ensures ItemsOf(items) == [Item(SpellingOf(items[0]), [])] + ItemsOf(items[1..]) && White([])
    ensures PrintItems(items)
            == Print(items[0]) + if |items| == 1 then [] else [COMMA] + PrintItems(items[1..])
  {
    hide Print, SpellingOf;
  }

  lemma Glue(flat: Text, first: Text, more: Text, end: Text)
    requires flat + [] == first + ([] + ((more + end) + []))
    ensures flat == first + more + end
  {
    assert flat + [] == flat && (more + end) + [] == more + end && [] + (more + end) == more + end;
  }

  /** The first item is spelled, and so are the others if there are any. */
  lemma {:induction false} ItemsJoined(items: seq<Json>)
    requires items != [] && Valid(SpellingOf(items[0])) && Flat(SpellingOf(items[0])) == Print(items[0])
    requires ValueOf(SpellingOf(items[0])) == items[0]
    requires ValidItems(ItemsOf(items[1..])) && ValuesOf(ItemsOf(items[1..])) == items[1..]
    requires |items| > 1 ==> ItemsOf(items[1..]) != []
                             && FlatItems(ItemsOf(items[1..])) == PrintItems(items[1..]) + [CLOSE_BRACKET]
    ensures ItemsOf(items) != [] && ValidItems(ItemsOf(items)) && ValuesOf(ItemsOf(items)) == items
    ensures FlatItems(ItemsOf(items)) == PrintItems(items) + [CLOSE_BRACKET]
  {
    hide *;
    ItemsCut(items);
    if |items| == 1 {
      NoItemsMore(items[1..]);
    }
    ItemsWithFirst(SpellingOf(items[0]), [], ItemsOf(items[1..]), []);
    if |items| == 1 {
      Glue(FlatItems(ItemsOf(items)), Print(items[0]), [], [CLOSE_BRACKET]);
    } else {
      assert [COMMA] + FlatItems(ItemsOf(items[1..])) == [COMMA] + PrintItems(items[1..]) + [CLOSE_BRACKET];
      Glue(FlatItems(ItemsOf(items)), Print(items[0]), [COMMA] + PrintItems(items[1..]), [CLOSE_BRACKET]);
    }
    assert [items[0]] + items[1..] == items;
  }

  lemma {:induction false} ItemsAreSpelled(items: seq<Json>)
    requires items != [] && forall item :: item in items ==> Printable(item)
    ensures ItemsOf(items) != [] && ValidItems(ItemsOf(items)) && ValuesOf(ItemsOf(items)) == items
    ensures FlatItems(ItemsOf(items)) == PrintItems(items) + [CLOSE_BRACKET]
    decreases items
  {
    hide *;
    PrintIsSpelled(items[0]);
    if |items| > 1 {
      ItemsAreSpelled(items[1..]);
    } else {
      NoItemsMore(items[1..]);
    }
    ItemsJoined(items);
  }

  lemma {:induction false} MemberIsSpelled(member: (Text, Json))
    requires Printable(member.1)
    ensures ValidMember(MemberOf(member)) && PairOf(MemberOf(member)) == member
    ensures FlatMember(MemberOf(member)) == PrintMember(member)
    decreases member
  {
    PrintIsSpelled(member.1);
    TextIsSpelled(member.0);
    hide Valid, Flat, ValueOf, Print, SpellingOf, Printable, CharsOf, FlatChars, ValidChars, Meaning, EscapedAll;
  }

  lemma NoMembersMore(members: seq<(Text, Json)>)
    requires members == []
    ensures MembersOf(members) == [] && ValidMembers(MembersOf(members)) && PairsOf(MembersOf(members)) == members
  {}

  lemma MembersCut(members: seq<(Text, Json)>)
    requires members != []
    ensures MembersOf(members) == [MemberOf(members[0])] + MembersOf(members[1..]) && MemberOf(members[0]).after == []
    ensures PrintMembers(members)
            == PrintMember(members[0]) + if |members| == 1 then [] else [COMMA] + PrintMembers(members[1..])
  {
    hide PrintMember;
  }

  lemma {:induction false} MembersJoined(members: seq<(Text, Json)>)
    requires members != [] && ValidMember(MemberOf(members[0])) && PairOf(MemberOf(members[0])) == members[0]
    requires FlatMember(MemberOf(members[0])) == PrintMember(members[0])
    requires ValidMembers(MembersOf(members[1..])) && PairsOf(MembersOf(members[1..])) == members[1..]
    requires |members| > 1 ==> MembersOf(members[1..]) != []
                               && FlatMembers(MembersOf(members[1..])) == PrintMembers(members[1..]) + [CLOSE_BRACE]
    ensures MembersOf(members) != [] && ValidMembers(MembersOf(members)) && PairsOf(MembersOf(members)) == members
    ensures FlatMembers(MembersOf(members)) == PrintMembers(members) + [CLOSE_BRACE]
  {
    hide *;
    MembersCut(members);
    if |members| == 1 {
      NoMembersMore(members[1..]);
    }
    MembersWithFirst(MemberOf(members[0]), MembersOf(members[1..]), []);
    if |members| == 1 {
      Glue(FlatMembers(MembersOf(members)), PrintMember(members[0]), [], [CLOSE_BRACE]);
    } else {
      assert [COMMA] + FlatMembers(MembersOf(members[1..])) == [COMMA] + PrintMembers(members[1..]) + [CLOSE_BRACE];
      Glue(FlatMembers(MembersOf(members)), PrintMember(members[0]), [COMMA] + PrintMembers(members[1..]),
           [CLOSE_BRACE]);
    }
    assert [members[0]] + members[1..] == members;
  }

  lemma {:induction false} MembersAreSpelled(members: seq<(Text, Json)>)
    requires members != [] && forall member :: member in members ==> Printable(member.1)
    ensures MembersOf(members) != [] && ValidMembers(MembersOf(members)) && PairsOf(MembersOf(members)) == members
    ensures FlatMembers(MembersOf(members)) == PrintMembers(members) + [CLOSE_BRACE]
    decreases members
  {
    hide *;
    MemberIsSpelled(members[0]);
    if |members| > 1 {
      MembersAreSpelled(members[1..]);
    } else {
      NoMembersMore(members[1..]);
    }
    MembersJoined(members);
  }

  /** Scanning a printed document gives the document back and stops right behind it. */
  lemma ScanPrinted(j: Json, rest: Text)
    requires Printable(j) && EndsNumber(rest)
    ensures ScanValue(Print(j) + rest) == Some((j, rest))
  {
    PrintIsSpelled(j);
    assert Ends(SpellingOf(j), rest);
    hide ScanValue, Print, Flat, Valid, ValueOf, SpellingOf, Ends;
    ScanSpelled(SpellingOf(j), rest);
  }
}
