/** How the fields of an item header are picked out of a JSON object, whatever else it holds and in whatever order. */
module HeaderFields {
  import opened Wrappers
  import opened Bytes
  import opened Utf8
  import opened Sequences
  import opened Json
  import opened JsonNumbers
  import opened ItemHeader

  type Members = seq<(Text, Json)>

  predicate IsField(key: Text) {
    key == FIELDS.ty || key == FIELDS.length || key == FIELDS.contentType || key == FIELDS.filename
    || key == FIELDS.attachmentType
  }

  lemma NothingInFront(values: seq<Json>)
    ensures [] + values == values
  {}

  lemma {:induction false} ValuesOfJoined(a: Members, b: Members, field: Text)
    ensures ValuesOf(a + b, field) == ValuesOf(a, field) + ValuesOf(b, field)
  {
    if a == [] {
      assert a + b == b;
      NothingInFront(ValuesOf(b, field));
    } else {
      var first := if a[0].0 == field then [a[0].1] else [];
      assert (a + b)[1..] == a[1..] + b;
      assert ValuesOf(a + b, field) == first + ValuesOf(a[1..] + b, field);
      assert ValuesOf(a, field) == first + ValuesOf(a[1..], field);
      ValuesOfJoined(a[1..], b, field);
      hide ValuesOf;
      Associate(first, ValuesOf(a[1..], field), ValuesOf(b, field));
    }
  }

  lemma ValuesOfOne(m: (Text, Json), field: Text)
    ensures ValuesOf([m], field) == if m.0 == field then [m.1] else []
  {
    assert [m][1..] == [];
  }

  /** Objects that give each field the same values read the same. */
  lemma ReadsByFields(a: Members, b: Members)
    requires (exists m :: m in a && !IsUtf8(m.0)) <==> (exists m :: m in b && !IsUtf8(m.0))
    requires forall key :: IsField(key) ==> ValuesOf(a, key) == ValuesOf(b, key)
    ensures ReadHeader(Object(a)) == ReadHeader(Object(b))
  {
    hide ValuesOf, ReadFields, IsUtf8, FIELDS;
    assert IsField(FIELDS.ty) && IsField(FIELDS.length) && IsField(FIELDS.contentType);
    assert IsField(FIELDS.filename) && IsField(FIELDS.attachmentType);
  }

  /** A member that is no field is skipped. */
  lemma UnknownFieldSkipped(before: Members, m: (Text, Json), after: Members)
    requires !IsField(m.0) && IsUtf8(m.0)
    ensures ReadHeader(Object(before + [m] + after)) == ReadHeader(Object(before + after))
  {
    var all, rest := before + [m] + after, before + after;
    forall key | IsField(key) ensures ValuesOf(all, key) == ValuesOf(rest, key) {
      ValuesOfJoined(before + [m], after, key);
      ValuesOfJoined(before, [m], key);
      ValuesOfJoined(before, after, key);
      ValuesOfOne(m, key);
    }
    hide IsUtf8, ReadHeader, IsField, ValuesOf;
    assert forall x :: x in all <==> x in rest || x == m;
    ReadsByFields(all, rest);
  }

  /** The order of members with different keys does not matter. */
  lemma OrderDoesNotMatter(before: Members, a: (Text, Json), b: (Text, Json), after: Members)
    requires a.0 != b.0
    ensures ReadHeader(Object(before + [a, b] + after)) == ReadHeader(Object(before + [b, a] + after))
  {
    var one, other := before + [a, b] + after, before + [b, a] + after;
    forall key | IsField(key) ensures ValuesOf(one, key) == ValuesOf(other, key) {
      TwoInTheMiddle(before, a, b, after, key);
      TwoInTheMiddle(before, b, a, after, key);
    }
    hide IsUtf8, ReadHeader, IsField, ValuesOf;
    assert forall x :: x in one <==> x in other;
    ReadsByFields(one, other);
  }

  lemma TwoInTheMiddle(before: Members, a: (Text, Json), b: (Text, Json), after: Members, key: Text)
    ensures ValuesOf(before + [a, b] + after, key)
            == ValuesOf(before, key) + (ValuesOf([a], key) + ValuesOf([b], key)) + ValuesOf(after, key)
  {
    ValuesOfJoined(before + [a, b], after, key);
    ValuesOfJoined(before, [a, b], key);
    assert [a, b] == [a] + [b];
    ValuesOfJoined([a], [b], key);
  }

  lemma {:induction false} TwoValues(members: Members, i: nat, k: nat)
    requires i < k < |members| && members[i].0 == members[k].0
    ensures |ValuesOf(members, members[i].0)| >= 2
  {
    var key := members[i].0;
    assert members == members[..k] + members[k..] && members[k..] == [members[k]] + members[k + 1..];
    assert members[..k] == members[..i] + [members[i]] + members[i + 1..k];
    ValuesOfJoined(members[..k], members[k..], key);
    ValuesOfJoined([members[k]], members[k + 1..], key);
    ValuesOfJoined(members[..i] + [members[i]], members[i + 1..k], key);
    ValuesOfJoined(members[..i], [members[i]], key);
    ValuesOfOne(members[i], key);
    ValuesOfOne(members[k], key);
  }

  /** A header that gives a field twice is refused, and so is one without a type. */
  lemma RepeatedFieldRefused(members: Members, i: nat, k: nat)
    requires i < k < |members| && members[i].0 == members[k].0 && IsField(members[i].0)
    ensures ReadHeader(Object(members)) == None
  {
    TwoValues(members, i, k);
    hide ValuesOf, IsUtf8, FIELDS, ReadFields;
    TwoAreTooMany(ValuesOf(members, FIELDS.ty), ValuesOf(members, FIELDS.length), ValuesOf(members, FIELDS.contentType),
                  ValuesOf(members, FIELDS.filename), ValuesOf(members, FIELDS.attachmentType));
  }

  lemma TwoAreTooMany(
      types: seq<Json>, length: seq<Json>, contentType: seq<Json>, filename: seq<Json>, attachmentType: seq<Json>)
    requires |length| >= 2 || |contentType| >= 2 || |filename| >= 2 || |attachmentType| >= 2 || |types| >= 2
    ensures |types| == 1 ==> ReadFields(types[0], length, contentType, filename, attachmentType) == None
  {
    hide ReadType, ReadLength, ReadText, ReadAttachmentType;
  }

  lemma TypeIsRequired(members: Members)
    requires forall m :: m in members ==> m.0 != FIELDS.ty
    ensures ReadHeader(Object(members)) == None
  {
    ValuesOfAbsent(members, FIELDS.ty);
  }

  lemma {:induction false} LeadingDigit(digits: Text)
    requires Digits(digits) && digits[0] != '0' as int
    ensures DigitsValue(digits) > 0 && (|digits| > 1 ==> DigitsValue(digits) >= 10)
  {
    if |digits| > 1 {
      LeadingDigit(digits[..|digits| - 1]);
    } else {
      assert digits[..0] == [];
    }
  }

  lemma {:induction false} DigitsAreDecimal(digits: Text)
    requires Digits(digits) && (digits[0] == '0' as int ==> |digits| == 1)
    ensures Decimal(DigitsValue(digits)) == digits
  {
    var init, last := digits[..|digits| - 1], digits[|digits| - 1];
    if |digits| > 1 {
      LeadingDigit(digits);
      DigitsAreDecimal(init);
      assert DigitsValue(digits) / 10 == DigitsValue(init) && DigitsValue(digits) % 10 == last as int - 0x30;
      assert digits == init + [last];
    } else {
      assert init == [] && digits == [last];
    }
  }

  /** Of the numbers JSON can spell, exactly the prints of numbers that a `usize` holds are lengths. */
  lemma LengthIffPrinted(n: JsonNumbers.Number, length: nat)
    requires ValidNumber(n)
    ensures ReadLength(Json.Number(FlatNumber(n))) == Some(length)
            <==> FlatNumber(n) == Decimal(length) && length <= USIZE_MAX
  {
    if FlatNumber(n) == Decimal(length) && length <= USIZE_MAX {
      ReadDecimal(length);
    }
    if ReadLength(Json.Number(FlatNumber(n))) == Some(length) {
      DigitsOnly(n);
      DigitsAreDecimal(FlatNumber(n));
    }
  }

  lemma DigitsOnly(n: JsonNumbers.Number)
    requires ValidNumber(n)
    ensures FlatNumber(n) == n.whole || exists i :: 0 <= i < |FlatNumber(n)| && !IsDigit(FlatNumber(n)[i])
  {
    var s := FlatNumber(n);
    if n.minus {
      assert s[0] == '-' as int && !IsDigit(s[0]);
    } else if n.fraction.Some? {
      assert s[|n.whole|] == '.' as int && !IsDigit(s[|n.whole|]);
    } else if n.exponent.Some? {
      assert s[|n.whole|] == ExponentMark(n.exponent.value)[0] && !IsDigit(s[|n.whole|]);
    }
  }

  /** A digit in front of others counts ten times for each of them. */
  lemma {:induction false} FirstDigitWeighsMost(d: byte, digits: Text)
    requires IsDigit(d) && forall i :: 0 <= i < |digits| ==> IsDigit(digits[i])
    ensures DigitsValue([d] + digits) == (d - '0' as int) * Power(|digits|) + DigitsValue(digits)
  {
    var all := [d] + digits;
    if digits == [] {
      assert all[..0] == [];
    } else {
      var init := digits[..|digits| - 1];
      assert all[..|all| - 1] == [d] + init;
      FirstDigitWeighsMost(d, init);
    }
  }

  function Power(n: nat): nat {
    if n == 0 then 1 else 10 * Power(n - 1)
  }

  lemma TypeOfTypeName(ty: ItemType, name: Text)
    ensures TypeOfName(name) == Some(ty) <==> name == TypeName(ty)
  {
    TypeNames(ty);
    hide Ascii;
  }

  /** A type is read from its name, or from an object that maps its name to null, and from nothing else. */
  lemma TypeIffNamed(j: Json, ty: ItemType)
    ensures ReadType(j) == Some(ty) <==> j == String(TypeName(ty)) || j == Object([(TypeName(ty), Null)])
  {
    hide TypeOfName, TypeName;
    if j.String? {
      TypeOfTypeName(ty, j.text);
    } else if j.Object? && |j.members| == 1 {
      TypeOfTypeName(ty, j.members[0].0);
      assert j.members == [(j.members[0].0, j.members[0].1)];
    }
  }
}
