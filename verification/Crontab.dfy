/** Validating crontab schedules, and the schedules that valid text stands for. */
module Crontab {
  import opened Wrappers
  import opened Text

  /** The numbers from `min` to `max`, and the names that may stand for a whole field. */
  datatype Allowed = Allowed(min: nat, max: nat, names: seq<string>)

  const MONTHS := ["jan", "feb", "mar", "apr", "may", "jun", "jul", "aug", "sep", "oct", "nov", "dec"]
  const DAYS := ["sun", "mon", "tue", "wed", "thu", "fri", "sat"]
  const ALLOWED_VALUES := [
    Allowed(0, 59, []), Allowed(0, 23, []), Allowed(1, 31, []), Allowed(1, 12, MONTHS), Allowed(0, 6, DAYS)]

  predicate Contains(allowed: Allowed, n: nat) {
    allowed.min <= n <= allowed.max
  }

  predicate ValidateRange(range: string, allowed: Allowed) {
    range == "*" ||
    var limits := Split(range, '-');
    && |limits| == 2
    && (forall i :: 0 <= i < 2 ==> ParseU64(limits[i]).Some? && Contains(allowed, ParseU64(limits[i]).value))
    && ParseU64(limits[0]).value <= ParseU64(limits[1]).value
  }

  predicate ValidateStep(step: string) {
    ParseU64(step).Some? && ParseU64(step).value > 0
  }

  predicate ValidateStepRange(steprange: string, allowed: Allowed) {
    match SplitOnce(steprange, '/')
    case None => ValidateRange(steprange, allowed)
    case Some((range, step)) => ValidateRange(range, allowed) && ValidateStep(step)
  }

  predicate ValidateListItem(item: string, allowed: Allowed) {
    match ParseU64(item)
    case Some(n) => Contains(allowed, n)
    case None => ValidateStepRange(item, allowed)
  }

  predicate ValidateList(list: string, allowed: Allowed) {
    var items := Split(list, ',');
    forall i :: 0 <= i < |items| ==> ValidateListItem(items[i], allowed)
  }

  /** Lower-casing the ASCII letters is enough: no other character is lower-cased to a letter of a name. */
  predicate ValidateSegment(segment: string, allowed: Allowed) {
    Lower(segment) in allowed.names || ValidateList(segment, allowed)
  }

  predicate Validate(crontab: string) {
    var segments := SplitWhitespace(crontab);
    |segments| == 5 && forall i :: 0 <= i < 5 ==> ValidateSegment(segments[i], ALLOWED_VALUES[i])
  }

  /** What a list item means: one number, or every `step`th number of a range. */
  datatype Range = Full | Between(low: nat, high: nat)

  datatype Item = Number(n: nat) | Every(range: Range, step: Option<nat>)

  /** What a field means: a name, or the union of its items. */
  datatype Field = Name(index: nat) | Items(items: seq<Item>)

  predicate RangeInBounds(range: Range, allowed: Allowed) {
    range.Between? ==> allowed.min <= range.low <= range.high <= allowed.max
  }

  predicate ItemInBounds(item: Item, allowed: Allowed) {
    match item
    case Number(n) => allowed.min <= n <= allowed.max
    case Every(range, step) => RangeInBounds(range, allowed) && (step.Some? ==> step.value > 0)
  }

  predicate FieldInBounds(field: Field, allowed: Allowed) {
    match field
    case Name(i) => i < |allowed.names|
    case Items(items) => items != [] && forall i :: 0 <= i < |items| ==> ItemInBounds(items[i], allowed)
  }

  predicate RangeSpelled(s: string, range: Range) {
    match range
    case Full => s == "*"
    case Between(low, high) =>
      exists i: nat :: i < |s| && s[i] == '-' && ParseU64(s[..i]) == Some(low) && ParseU64(s[i + 1..]) == Some(high)
  }

  /** The text of an item; a number may have a plus sign and leading zeros wherever one is. */
  predicate ItemSpelled(s: string, item: Item) {
    match item
    case Number(n) => ParseU64(s) == Some(n)
    case Every(range, None) => RangeSpelled(s, range)
    case Every(range, Some(step)) =>
      exists i: nat :: i < |s| && s[i] == '/' && RangeSpelled(s[..i], range) && ParseU64(s[i + 1..]) == Some(step)
  }

  /** Items are separated by commas; a name is a whole field, in any case. */
  ghost predicate FieldSpelled(s: string, field: Field, allowed: Allowed) {
    match field
    case Name(i) => i < |allowed.names| && Lower(s) == allowed.names[i]
    case Items(items) =>
      exists texts: seq<string> :: |texts| == |items| > 0 && s == Join(texts, ',')
        && forall i :: 0 <= i < |texts| ==> ItemSpelled(texts[i], items[i])
  }

  /** Numbers are spelled with digits and a plus sign only. */
  lemma NumberHasNo(s: string, c: char)
    requires ParseU64(s).Some? && c != '+' && !('0' <= c <= '9')
    ensures c !in s && s != ""
  {
    forall i | 0 <= i < |s|
      ensures s[i] != c
    {
      assert i > 0 ==> s[i] == s[1..][i - 1];
    }
  }

  lemma NotANumber(s: string, c: char)
    requires c in s && c != '+' && !('0' <= c <= '9')
    ensures ParseU64(s) == None
  {
    if ParseU64(s).Some? {
      NumberHasNo(s, c);
    }
  }

  lemma SplitsInTwo(s: string, c: char, i: nat)
    requires i < |s| && s[i] == c && c !in s[..i] && c !in s[i + 1..]
    ensures Split(s, c) == [s[..i], s[i + 1..]]
  {
    FindFirst(s, c, i);
    FindFirst(s[i + 1..], c, |s[i + 1..]|);
  }

  lemma LimitsAreValid(s: string, i: nat, low: nat, high: nat, allowed: Allowed)
    requires i < |s| && s[i] == '-' && ParseU64(s[..i]) == Some(low) && ParseU64(s[i + 1..]) == Some(high)
    requires RangeInBounds(Between(low, high), allowed)
    ensures ValidateRange(s, allowed)
  {
    hide ParseU64, Split;
    NumberHasNo(s[..i], '-');
    NumberHasNo(s[i + 1..], '-');
    SplitsInTwo(s, '-', i);
  }

  lemma NotBeside(s: string, i: nat, c: char)
    requires i < |s| && s[i] != c && c !in s[..i] && c !in s[i + 1..]
    ensures c !in s
  {
    assert s == s[..i] + [s[i]] + s[i + 1..];
  }

  lemma SpelledRangeIsValid(s: string, range: Range, allowed: Allowed)
    requires RangeSpelled(s, range) && RangeInBounds(range, allowed)
    ensures ValidateRange(s, allowed) && '/' !in s && ',' !in s && ParseU64(s) == None
  {
    hide ParseU64, ValidateRange;
    match range
    case Between(low, high) =>
      var i: nat :| i < |s| && s[i] == '-' && ParseU64(s[..i]) == Some(low) && ParseU64(s[i + 1..]) == Some(high);
      LimitsAreValid(s, i, low, high, allowed);
      NumberHasNo(s[..i], '/');
      NumberHasNo(s[..i], ',');
      NumberHasNo(s[i + 1..], '/');
      NumberHasNo(s[i + 1..], ',');
      NotBeside(s, i, '/');
      NotBeside(s, i, ',');
      NotANumber(s, '-');
    case Full =>
      assert s[0] == '*';
      NotANumber(s, '*');
      StarIsValid(allowed);
  }

  lemma StarIsValid(allowed: Allowed)
    ensures ValidateRange("*", allowed)
  {}

  lemma SpelledItemIsValid(s: string, item: Item, allowed: Allowed)
    requires ItemSpelled(s, item) && ItemInBounds(item, allowed)
    ensures ValidateListItem(s, allowed) && ',' !in s
  {
    hide ParseU64, RangeSpelled, ValidateRange;
    match item
    case Number(_) => NumberHasNo(s, ',');
    case Every(range, None) =>
      SpelledRangeIsValid(s, range, allowed);
      FindFirst(s, '/', |s|);
    case Every(range, Some(step)) =>
      var i: nat :| i < |s| && s[i] == '/' && RangeSpelled(s[..i], range) && ParseU64(s[i + 1..]) == Some(step);
      SpelledRangeIsValid(s[..i], range, allowed);
      NumberHasNo(s[i + 1..], ',');
      FindFirst(s, '/', i);
      NotBeside(s, i, ',');
      NotANumber(s, '/');
  }

  lemma ValidRangeIsSpelled(s: string, allowed: Allowed) returns (range: Range)
    requires ValidateRange(s, allowed)
    ensures RangeSpelled(s, range) && RangeInBounds(range, allowed)
  {
    if s == "*" {
      range := Full;
    } else {
      var limits := Split(s, '-');
      range := Between(ParseU64(limits[0]).value, ParseU64(limits[1]).value);
      var i := Find(s, '-');
      assert limits == [s[..i]] + Split(s[i + 1..], '-');
      assert Split(s[i + 1..], '-') == [s[i + 1..]];
    }
  }

  lemma ValidItemIsSpelled(s: string, allowed: Allowed) returns (item: Item)
    requires ValidateListItem(s, allowed)
    ensures ItemSpelled(s, item) && ItemInBounds(item, allowed)
  {
    hide ValidateRange, RangeSpelled;
    if ParseU64(s).Some? {
      return Number(ParseU64(s).value);
    }
    match SplitOnce(s, '/')
    case None =>
      var range := ValidRangeIsSpelled(s, allowed);
      item := Every(range, None);
    case Some((text, step)) =>
      var range := ValidRangeIsSpelled(text, allowed);
      item := Every(range, Some(ParseU64(step).value));
      var i := Find(s, '/');
      assert s[i] == '/' && s[..i] == text && s[i + 1..] == step;
  }

  lemma {:induction false} SpelledListIsValid(texts: seq<string>, items: seq<Item>, allowed: Allowed)
    requires |texts| == |items| > 0
    requires forall i :: 0 <= i < |texts| ==> ItemSpelled(texts[i], items[i]) && ItemInBounds(items[i], allowed)
    ensures ValidateList(Join(texts, ','), allowed)
  {
    forall i | 0 <= i < |texts|
      ensures ValidateListItem(texts[i], allowed) && ',' !in texts[i]
    {
      SpelledItemIsValid(texts[i], items[i], allowed);
    }
    SplitJoined(texts, ',');
  }

  lemma {:induction false} ValidItemsAreSpelled(texts: seq<string>, allowed: Allowed) returns (items: seq<Item>)
    requires forall i :: 0 <= i < |texts| ==> ValidateListItem(texts[i], allowed)
    ensures |items| == |texts|
    ensures forall i :: 0 <= i < |texts| ==> ItemSpelled(texts[i], items[i]) && ItemInBounds(items[i], allowed)
  {
    hide ValidateListItem, ItemSpelled, ItemInBounds;
    if texts == [] {
      items := [];
    } else {
      var first := ValidItemIsSpelled(texts[0], allowed);
      var rest := ValidItemsAreSpelled(texts[1..], allowed);
      items := [first] + rest;
    }
  }

  ghost predicate Sensible(s: string, allowed: Allowed) {
    exists field :: FieldSpelled(s, field, allowed) && FieldInBounds(field, allowed)
  }

  /** A field is valid exactly when it spells something within its bounds. */
  lemma ValidIffSpelled(s: string, allowed: Allowed)
    ensures ValidateSegment(s, allowed) <==> Sensible(s, allowed)
  {
    hide ValidateListItem, ItemSpelled, ItemInBounds;
    if ValidateSegment(s, allowed) {
      if Lower(s) in allowed.names {
        var i: nat :| i < |allowed.names| && allowed.names[i] == Lower(s);
        assert FieldSpelled(s, Name(i), allowed) && FieldInBounds(Name(i), allowed);
      } else {
        var texts := Split(s, ',');
        var items := ValidItemsAreSpelled(texts, allowed);
        JoinSplit(s, ',');
        assert FieldSpelled(s, Items(items), allowed) && FieldInBounds(Items(items), allowed);
      }
    }
    if field :| FieldSpelled(s, field, allowed) && FieldInBounds(field, allowed) {
      match field
      case Name(_) =>
      case Items(items) =>
        var texts: seq<string> :| |texts| == |items| > 0 && s == Join(texts, ',')
          && forall i :: 0 <= i < |texts| ==> ItemSpelled(texts[i], items[i]);
        SpelledListIsValid(texts, items, allowed);
    }
  }

  predicate OnStep(n: nat, low: nat, step: Option<nat>) {
    step.Some? && step.value > 0 ==> (n - low) % step.value == 0
  }

  /** The numbers an item stands for. */
  function Meaning(item: Item, allowed: Allowed): set<nat> {
    match item
    case Number(n) => {n}
    case Every(range, step) =>
      var (low, high) := if range.Full? then (allowed.min, allowed.max) else (range.low, range.high);
      set n: nat | low <= n <= high && OnStep(n, low, step)
  }

  /** Within its bounds an item always stands for something, and for allowed numbers only. */
  lemma InBoundsMeansSomething(item: Item, allowed: Allowed)
    requires ItemInBounds(item, allowed) && allowed.min <= allowed.max
    ensures Meaning(item, allowed) != {}
    ensures forall n :: n in Meaning(item, allowed) ==> allowed.min <= n <= allowed.max
  {
    if item.Every? {
      var low := if item.range.Full? then allowed.min else item.range.low;
      assert OnStep(low, low, item.step);
      assert low in Meaning(item, allowed);
    } else {
      assert item.n in Meaning(item, allowed);
    }
  }

  /** White space that separates: not empty. */
  predicate Gap(s: string) {
    s != "" && forall i :: 0 <= i < |s| ==> IsWhitespace(s[i])
  }

  predicate Word(s: string) {
    s != "" && forall i :: 0 <= i < |s| ==> !IsWhitespace(s[i])
  }

  /** Every word is followed by a gap; only the last gap may be empty. */
  predicate Spaced(words: seq<string>, gaps: seq<string>) {
    |words| == |gaps| &&
    (words != [] ==>
      && Word(words[0]) && (Gap(gaps[0]) || (|words| == 1 && gaps[0] == ""))
      && Spaced(words[1..], gaps[1..]))
  }

  /** Words, each followed by its gap. */
  function Line(words: seq<string>, gaps: seq<string>): string
    requires |words| == |gaps|
  {
    if words == [] then "" else words[0] + gaps[0] + Line(words[1..], gaps[1..])
  }

  lemma TrimStartWord(lead: string, word: string, rest: string)
    requires (forall i :: 0 <= i < |lead| ==> IsWhitespace(lead[i])) && Word(word)
    ensures TrimStart(lead + word + rest) == word + rest
  {
    hide IsWhitespace;
    assert lead + word + rest == lead + (word + rest) && (word + rest)[0] == word[0];
    TrimStartPadded(lead, word + rest);
  }

  lemma {:induction false} WordLengthIs(word: string, rest: string)
    requires forall i :: 0 <= i < |word| ==> !IsWhitespace(word[i])
    requires rest != "" ==> IsWhitespace(rest[0])
    ensures WordLength(word + rest) == |word|
  {
    if word == "" {
      assert word + rest == rest;
    } else {
      assert (word + rest)[1..] == word[1..] + rest;
      WordLengthIs(word[1..], rest);
    }
  }

  lemma {:induction false} AllBlankHasNoWords(s: string)
    requires forall i :: 0 <= i < |s| ==> IsWhitespace(s[i])
    ensures TrimStart(s) == ""
  {
    if s != "" {
      AllBlankHasNoWords(s[1..]);
    }
  }

  lemma FirstWord(lead: string, word: string, rest: string)
    requires (forall i :: 0 <= i < |lead| ==> IsWhitespace(lead[i])) && Word(word)
    requires rest != "" ==> IsWhitespace(rest[0])
    ensures SplitWhitespace(lead + word + rest) == [word] + SplitWhitespace(rest)
  {
    TrimStartWord(lead, word, rest);
    WordLengthIs(word, rest);
    hide IsWhitespace, TrimStart, WordLength;
    assert (word + rest)[..|word|] == word && (word + rest)[|word|..] == rest;
  }

  /** Words separated by gaps, with any white space before and after, are the words of the line. */
  lemma {:induction false} WordsOfLine(lead: string, words: seq<string>, gaps: seq<string>)
    requires Spaced(words, gaps) && forall i :: 0 <= i < |lead| ==> IsWhitespace(lead[i])
    ensures SplitWhitespace(lead + Line(words, gaps)) == words
    decreases |words|
  {
    if words == [] {
      assert lead + "" == lead;
      AllBlankHasNoWords(lead);
    } else {
      hide SplitWhitespace, IsWhitespace, Word;
      var line := Line(words[1..], gaps[1..]);
      var rest := gaps[0] + line;
      assert rest != "" ==> rest[0] == gaps[0][0];
      assert lead + Line(words, gaps) == lead + words[0] + rest;
      FirstWord(lead, words[0], rest);
      WordsOfLine(gaps[0], words[1..], gaps[1..]);
      assert words == [words[0]] + words[1..];
    }
  }

  /** Five fields on a line are a valid schedule exactly when each spells something within its bounds. */
  lemma ValidScheduleIffSpelled(lead: string, words: seq<string>, gaps: seq<string>)
    requires Spaced(words, gaps) && forall i :: 0 <= i < |lead| ==> IsWhitespace(lead[i])
    ensures Validate(lead + Line(words, gaps))
            <==> |words| == 5 && forall i :: 0 <= i < 5 ==> Sensible(words[i], ALLOWED_VALUES[i])
  {
    WordsOfLine(lead, words, gaps);
    hide ValidateSegment, Sensible, Spaced, SplitWhitespace;
    if |words| == 5 {
      forall i | 0 <= i < 5
        ensures ValidateSegment(words[i], ALLOWED_VALUES[i]) <==> Sensible(words[i], ALLOWED_VALUES[i])
      {
        ValidIffSpelled(words[i], ALLOWED_VALUES[i]);
      }
    }
  }
}
