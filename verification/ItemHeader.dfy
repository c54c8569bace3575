/**
 The header line of an envelope item: what it holds, how it is printed, and how `serde_json` and
 the derived `Deserialize` read it back from the start of a slice.
 */
module ItemHeader {
  import opened Wrappers
  import opened Bytes
  import opened Utf8
  import opened Json
  import opened JsonPrinting

  datatype ItemType =
    | EventType
    | SessionType
    | SessionsType
    | TransactionType
    | AttachmentItemType
    | CheckInType
    | LogsType
    | MetricsType
    | ClientReportType

  datatype AttachmentType =
    | Standard
    | Minidump
    | AppleCrashReport
    | UnrealContext
    | UnrealLogs
    | Custom(name: Text)

  datatype Header = Header(
    ty: ItemType,
    length: Option<usize>,
    contentType: Option<Text>,
    filename: Option<Text>,
    attachmentType: Option<AttachmentType>)

  /** A header and where it ends, or why there is none. */
  datatype HeaderScan = EndOfInput | Malformed | Found(header: Header, end: nat)

  // ----- names

  /** The names of the fields that headers hold. */
  datatype FieldNames = FieldNames(
    ty: Text, length: Text, contentType: Text, filename: Text, attachmentType: Text, itemCount: Text)

  const FIELDS: FieldNames := FieldNames(
    Ascii("type"), Ascii("length"), Ascii("content_type"), Ascii("filename"), Ascii("attachment_type"),
    Ascii("item_count"))

  function TypeName(ty: ItemType): Text {
    match ty
    case EventType => Ascii("event")
    case SessionType => Ascii("session")
    case SessionsType => Ascii("sessions")
    case TransactionType => Ascii("transaction")
    case AttachmentItemType => Ascii("attachment")
    case CheckInType => Ascii("check_in")
    case LogsType => Ascii("log")
    case MetricsType => Ascii("trace_metric")
    case ClientReportType => Ascii("client_report")
  }

  function TypeOfName(name: Text): Option<ItemType> {
    if name == Ascii("event") then Some(EventType)
    else if name == Ascii("session") then Some(SessionType)
    else if name == Ascii("sessions") then Some(SessionsType)
    else if name == Ascii("transaction") then Some(TransactionType)
    else if name == Ascii("attachment") then Some(AttachmentItemType)
    else if name == Ascii("check_in") then Some(CheckInType)
    else if name == Ascii("log") then Some(LogsType)
    else if name == Ascii("trace_metric") then Some(MetricsType)
    else if name == Ascii("client_report") then Some(ClientReportType)
    else None
  }

  function AttachmentTypeName(ty: AttachmentType): Text {
    match ty
    case Standard => Ascii("event.attachment")
    case Minidump => Ascii("event.minidump")
    case AppleCrashReport => Ascii("event.applecrashreport")
    case UnrealContext => Ascii("unreal.context")
    case UnrealLogs => Ascii("unreal.logs")
    case Custom(name) => name
  }

  /** The type a string spells: a known one if it can, a custom one otherwise. */
  function AttachmentTypeOfName(name: Text): AttachmentType {
    if name == Ascii("event.attachment") then Standard
    else if name == Ascii("event.minidump") then Minidump
    else if name == Ascii("event.applecrashreport") then AppleCrashReport
    else if name == Ascii("unreal.context") then UnrealContext
    else if name == Ascii("unreal.logs") then UnrealLogs
    else Custom(name)
  }

  // ----- reading

  /** A variant name, given as a string or as an object that maps the name to null. */
  function ReadVariant(j: Json): Option<Text> {
    match j
    case String(name) => Some(name)
    case Object(members) =>
      if |members| == 1 && members[0].1 == Null then Some(members[0].0) else None
    case _ => None
  }

  function ReadType(j: Json): Option<ItemType> {
    var name :- ReadVariant(j);
    TypeOfName(name)
  }

  function ReadText(j: Json): Option<Text> {
    if j.String? && IsUtf8(j.text) then Some(j.text) else None
  }

  function ReadAttachmentType(j: Json): Option<AttachmentType> {
    var name :- ReadVariant(j);
    var ty := AttachmentTypeOfName(name);
    if !IsUtf8(name) || (ty.Custom? && !j.String?) then None else Some(ty)
  }

  /** The number a literal of digits only stands for, if a `usize` holds it. */
  function ReadLength(j: Json): (n: Option<usize>) {
    if j.Number? && (forall i :: 0 <= i < |j.literal| ==> IsDigit(j.literal[i]))
       && DigitsValue(j.literal) <= USIZE_MAX
    then Some(DigitsValue(j.literal))
    else None
  }

  function DigitsValue(digits: Text): nat
    requires forall i :: 0 <= i < |digits| ==> IsDigit(digits[i])
  {
    if digits == [] then 0 else
    var last := digits[|digits| - 1];
    assert IsDigit(last);
    10 * DigitsValue(digits[..|digits| - 1]) + (last as int - 0x30)
  }

  /** The values given for one field. */
  function ValuesOf(members: seq<(Text, Json)>, field: Text): seq<Json> {
    if members == [] then []
    else (if members[0].0 == field then [members[0].1] else []) + ValuesOf(members[1..], field)
  }

  /** An optional field: missing or null is none, and it may be given once only. */
  function ReadOptional<T>(values: seq<Json>, read: Json -> Option<T>): Option<Option<T>> {
    if values == [] || values == [Null] then Some(None)
    else if |values| > 1 then None
    else match read(values[0])
      case Some(value) => Some(Some(value))
      case None => None
  }

  /** The struct, given as an object with named fields or as an array in declaration order. */
  function ReadStruct(names: FieldNames, j: Json): Option<Header> {
    match j
    case Object(members) =>
      if exists member :: member in members && !IsUtf8(member.0) then None else
      var types := ValuesOf(members, names.ty);
      if |types| != 1 then None else
      ReadFields(types[0], ValuesOf(members, names.length), ValuesOf(members, names.contentType),
                 ValuesOf(members, names.filename), ValuesOf(members, names.attachmentType))
    case Array(items) =>
      if |items| != 5 then None
      else ReadFields(items[0], [items[1]], [items[2]], [items[3]], [items[4]])
    case _ => None
  }

  function ReadHeader(j: Json): Option<Header> {
    ReadStruct(FIELDS, j)
  }

  function ReadFields(ty: Json, length: seq<Json>, contentType: seq<Json>, filename: seq<Json>,
                      attachmentType: seq<Json>): Option<Header>
  {
    var ty :- ReadType(ty);
    var length :- ReadOptional(length, ReadLength);
    var contentType :- ReadOptional(contentType, ReadText);
    var filename :- ReadOptional(filename, ReadText);
    var attachmentType :- ReadOptional(attachmentType, ReadAttachmentType);
    Some(Header(ty, length, contentType, filename, attachmentType))
  }

  /** The header at the start of a slice, which may go on behind it. */
  function DecodeHeader(slice: Text): (r: HeaderScan)
    ensures r.Found? ==> 0 < r.end <= |slice|
  {
    if SkipSpace(slice) == [] then EndOfInput else
    match ScanValue(slice)
    case None => Malformed
    case Some((value, rest)) =>
      match ReadHeader(value)
      case None => Malformed
      case Some(header) => Found(header, |slice| - |rest|)
  }

  // ----- printing

  function SizedHeader(names: FieldNames, ty: ItemType, length: nat): Json {
    Object([(names.ty, String(TypeName(ty))), (names.length, Number(Decimal(length)))])
  }

  function ContainerHeader(names: FieldNames, ty: ItemType, count: nat, contentType: Text): Json {
    Object([
      (names.ty, String(TypeName(ty))),
      (names.itemCount, Number(Decimal(count))),
      (names.contentType, String(contentType))])
  }

  function AttachmentHeader(names: FieldNames, length: nat, filename: Text, ty: AttachmentType, contentType: Text): Json {
    Object([
      (names.ty, String(TypeName(AttachmentItemType))),
      (names.length, Number(Decimal(length))),
      (names.filename, String(filename)),
      (names.attachmentType, String(AttachmentTypeName(ty))),
      (names.contentType, String(contentType))])
  }

  // ----- round trip

  lemma {:induction false} DecimalValue(n: nat)
    ensures DigitsValue(Decimal(n)) == n
    decreases n
  {
    if n >= 10 {
      DecimalValue(n / 10);
      var digits := Decimal(n);
      assert digits[..|digits| - 1] == Decimal(n / 10);
    }
  }

  lemma ReadDecimal(n: nat)
    requires n <= USIZE_MAX
    ensures ReadLength(Number(Decimal(n))) == Some(n)
  {
    DecimalValue(n);
  }

  lemma TypeNames(ty: ItemType)
    ensures TypeOfName(TypeName(ty)) == Some(ty)
  {
    assert Ascii("event")[0] == 'e' as int && Ascii("check_in")[0] == 'c' as int;
    assert Ascii("attachment")[0] == 'a' as int && Ascii("transaction")[0] == 't' as int;
    assert |Ascii("transaction")| == 11;
  }

  /** A printed header is found at the front of any text whose next byte cannot continue it. */
  lemma DecodePrinted(j: Json, header: Header, rest: Text)
    requires Printable(j) && EndsNumber(rest)
    requires ReadHeader(j) == Some(header)
    ensures DecodeHeader(Print(j) + rest) == Found(header, |Print(j)|)
  {
    ScanPrinted(j, rest);
    FirstByteOfPrinted(j);
    assert SkipSpace(Print(j) + rest)[0] == Print(j)[0];
  }

  /** A key that no other member has picks out its own value. */
  lemma {:induction false} ValuesOfOnlyMember(members: seq<(Text, Json)>, i: nat)
    requires i < |members|
    requires forall k :: 0 <= k < |members| && k != i ==> members[k].0 != members[i].0
    ensures ValuesOf(members, members[i].0) == [members[i].1]
  {
    if i == 0 {
      ValuesOfAbsent(members[1..], members[0].0);
    } else {
      ValuesOfOnlyMember(members[1..], i - 1);
    }
  }

  lemma {:induction false} ValuesOfAbsent(members: seq<(Text, Json)>, field: Text)
    requires forall member :: member in members ==> member.0 != field
    ensures ValuesOf(members, field) == []
  {
    if members != [] {
      ValuesOfAbsent(members[1..], field);
    }
  }

  ghost predicate Distinct(names: FieldNames) {
    && names.ty !in {names.length, names.contentType, names.filename, names.attachmentType, names.itemCount}
    && names.length !in {names.contentType, names.filename, names.attachmentType, names.itemCount}
    && names.contentType !in {names.filename, names.attachmentType, names.itemCount}
    && names.filename !in {names.attachmentType, names.itemCount}
    && names.attachmentType != names.itemCount
    && IsAscii(names.ty) && IsAscii(names.length) && IsAscii(names.contentType)
    && IsAscii(names.filename) && IsAscii(names.attachmentType) && IsAscii(names.itemCount)
  }

  ghost predicate IsAscii(name: Text) {
    forall i :: 0 <= i < |name| ==> name[i] < 0x80
  }

  lemma KeysAreUtf8(names: FieldNames)
    requires Distinct(names)
    ensures IsUtf8(names.ty) && IsUtf8(names.length) && IsUtf8(names.contentType)
    ensures IsUtf8(names.filename) && IsUtf8(names.attachmentType) && IsUtf8(names.itemCount)
  {
    AsciiIsUtf8(names.ty);
    AsciiIsUtf8(names.length);
    AsciiIsUtf8(names.contentType);
    AsciiIsUtf8(names.filename);
    AsciiIsUtf8(names.attachmentType);
    AsciiIsUtf8(names.itemCount);
  }

  lemma FieldNamesAreAscii()
    ensures IsAscii(FIELDS.ty) && IsAscii(FIELDS.length) && IsAscii(FIELDS.contentType)
    ensures IsAscii(FIELDS.filename) && IsAscii(FIELDS.attachmentType) && IsAscii(FIELDS.itemCount)
  {
  }

  lemma FieldNameLengths()
    ensures |FIELDS.ty| == 4 && |FIELDS.length| == 6 && |FIELDS.contentType| == 12
    ensures |FIELDS.filename| == 8 && |FIELDS.attachmentType| == 15 && |FIELDS.itemCount| == 10
  {
  }

  lemma DistinctByLength(names: FieldNames)
    requires |names.ty| == 4 && |names.length| == 6 && |names.contentType| == 12
    requires |names.filename| == 8 && |names.attachmentType| == 15 && |names.itemCount| == 10
    requires IsAscii(names.ty) && IsAscii(names.length) && IsAscii(names.contentType)
    requires IsAscii(names.filename) && IsAscii(names.attachmentType) && IsAscii(names.itemCount)
    ensures Distinct(names)
  {
  }

  lemma FieldNamesAreDistinct()
    ensures Distinct(FIELDS)
  {
    FieldNamesAreAscii();
    FieldNameLengths();
    DistinctByLength(FIELDS);
  }

  lemma ReadTypeName(ty: ItemType)
    ensures ReadType(String(TypeName(ty))) == Some(ty)
  {
    TypeNames(ty);
  }

  /** An object with a type and a length only, whatever their values. */
  lemma SizedFields(names: FieldNames, ty: Json, length: Json)
    requires Distinct(names)
    ensures ReadStruct(names, Object([(names.ty, ty), (names.length, length)])) == ReadFields(ty, [length], [], [], [])
  {
    var members := [(names.ty, ty), (names.length, length)];
    KeysAreUtf8(names);
    hide ReadStruct, ReadFields, ValuesOf, IsUtf8, IsAscii;
    ValuesOfOnlyMember(members, 0);
    ValuesOfOnlyMember(members, 1);
    ValuesOfAbsent(members, names.contentType);
    ValuesOfAbsent(members, names.filename);
    ValuesOfAbsent(members, names.attachmentType);
    ReadsObject(names, members, ty);
  }

  lemma SizedHeaderValues(names: FieldNames, ty: ItemType, length: nat)
    requires Distinct(names)
    ensures ReadStruct(names, SizedHeader(names, ty, length))
            == ReadFields(String(TypeName(ty)), [Number(Decimal(length))], [], [], [])
  {
    hide ReadStruct, ReadFields;
    SizedFields(names, String(TypeName(ty)), Number(Decimal(length)));
  }

  lemma ReadSizedHeader(names: FieldNames, ty: ItemType, length: nat)
    requires Distinct(names) && length <= USIZE_MAX
    ensures Printable(SizedHeader(names, ty, length))
    ensures ReadStruct(names, SizedHeader(names, ty, length)) == Some(Header(ty, Some(length), None, None, None))
  {
    SizedHeaderValues(names, ty, length);
    ReadTypeName(ty);
    ReadDecimal(length);
  }

  ghost predicate Utf8Keys(members: seq<(Text, Json)>) {
    forall i :: 0 <= i < |members| ==> IsUtf8(members[i].0)
  }

  /** Reading an object is reading the values of its fields. */
  lemma ReadsObject(names: FieldNames, members: seq<(Text, Json)>, ty: Json)
    requires Utf8Keys(members) && ValuesOf(members, names.ty) == [ty]
    ensures ReadStruct(names, Object(members))
            == ReadFields(ty, ValuesOf(members, names.length), ValuesOf(members, names.contentType),
                          ValuesOf(members, names.filename), ValuesOf(members, names.attachmentType))
  {
    hide IsUtf8, ValuesOf, ReadFields;
  }

  /** An object with a type, a field that is not read, and a content type, whatever their values. */
  lemma ContainerFields(names: FieldNames, ty: Json, count: Json, contentType: Json)
    requires Distinct(names)
    ensures ReadStruct(names, Object([(names.ty, ty), (names.itemCount, count), (names.contentType, contentType)]))
            == ReadFields(ty, [], [contentType], [], [])
  {
    var members := [(names.ty, ty), (names.itemCount, count), (names.contentType, contentType)];
    KeysAreUtf8(names);
    hide ReadStruct, ReadFields, ValuesOf, IsUtf8, IsAscii;
    ValuesOfOnlyMember(members, 0);
    ValuesOfAbsent(members, names.length);
    ValuesOfOnlyMember(members, 2);
    ValuesOfAbsent(members, names.filename);
    ValuesOfAbsent(members, names.attachmentType);
    ReadsObject(names, members, ty);
  }

  lemma ContainerHeaderValues(names: FieldNames, ty: ItemType, count: nat, contentType: Text)
    requires Distinct(names)
    ensures ReadStruct(names, ContainerHeader(names, ty, count, contentType))
            == ReadFields(String(TypeName(ty)), [], [String(contentType)], [], [])
  {
    hide ReadStruct, ReadFields;
    ContainerFields(names, String(TypeName(ty)), Number(Decimal(count)), String(contentType));
  }

  lemma ReadContainerHeader(names: FieldNames, ty: ItemType, count: nat, contentType: Text)
    requires Distinct(names) && IsUtf8(contentType)
    ensures Printable(ContainerHeader(names, ty, count, contentType))
    ensures ReadStruct(names, ContainerHeader(names, ty, count, contentType))
            == Some(Header(ty, None, Some(contentType), None, None))
  {
    ContainerHeaderValues(names, ty, count, contentType);
    ReadTypeName(ty);
  }

  /** What a type becomes when it is spelled out and read back. */
  function Respelled(ty: AttachmentType): AttachmentType {
    AttachmentTypeOfName(AttachmentTypeName(ty))
  }

  /** Only a custom type that spells a known name changes, and then only in kind. */
  lemma RespelledChangesOnlyKnownNames(ty: AttachmentType)
    ensures Respelled(ty) == ty <==> !(ty.Custom? && !AttachmentTypeOfName(ty.name).Custom?)
    ensures AttachmentTypeName(Respelled(ty)) == AttachmentTypeName(ty)
  {
    assert Ascii("event.minidump")[0] != Ascii("unreal.context")[0];
  }

  lemma ReadRespelled(ty: AttachmentType)
    requires IsUtf8(AttachmentTypeName(ty))
    ensures ReadAttachmentType(String(AttachmentTypeName(ty))) == Some(Respelled(ty))
  {
  }

  /** An object with all five fields, in the order the writer prints them, whatever their values. */
  lemma FiveFields(names: FieldNames, ty: Json, length: Json, filename: Json, attachmentType: Json, contentType: Json)
    requires Distinct(names)
    ensures ReadStruct(names, Object([(names.ty, ty), (names.length, length), (names.filename, filename),
                                      (names.attachmentType, attachmentType), (names.contentType, contentType)]))
            == ReadFields(ty, [length], [contentType], [filename], [attachmentType])
  {
    var members := [(names.ty, ty), (names.length, length), (names.filename, filename),
                    (names.attachmentType, attachmentType), (names.contentType, contentType)];
    KeysAreUtf8(names);
    hide ReadStruct, ReadFields, ValuesOf, IsUtf8, IsAscii;
    ValuesOfOnlyMember(members, 0);
    ValuesOfOnlyMember(members, 1);
    ValuesOfOnlyMember(members, 2);
    ValuesOfOnlyMember(members, 3);
    ValuesOfOnlyMember(members, 4);
    ReadsObject(names, members, ty);
  }

  lemma AttachmentHeaderValues(names: FieldNames, length: nat, filename: Text, ty: AttachmentType, contentType: Text)
    requires Distinct(names)
    ensures ReadStruct(names, AttachmentHeader(names, length, filename, ty, contentType))
            == ReadFields(String(TypeName(AttachmentItemType)), [Number(Decimal(length))], [String(contentType)],
                          [String(filename)], [String(AttachmentTypeName(ty))])
  {
    hide ReadStruct, ReadFields;
    FiveFields(names, String(TypeName(AttachmentItemType)), Number(Decimal(length)), String(filename),
               String(AttachmentTypeName(ty)), String(contentType));
  }

  lemma ReadAllFields(ty: Json, length: Json, contentType: Json, filename: Json, attachmentType: Json, header: Header)
    requires length != Null && contentType != Null && filename != Null && attachmentType != Null
    requires ReadType(ty) == Some(header.ty)
    requires ReadLength(length).Some? && header.length == ReadLength(length)
    requires ReadText(contentType).Some? && header.contentType == ReadText(contentType)
    requires ReadText(filename).Some? && header.filename == ReadText(filename)
    requires ReadAttachmentType(attachmentType).Some? && header.attachmentType == ReadAttachmentType(attachmentType)
    ensures ReadFields(ty, [length], [contentType], [filename], [attachmentType]) == Some(header)
  {
  }

  lemma AttachmentHeaderIsPrintable(names: FieldNames, length: nat, filename: Text, ty: AttachmentType, contentType: Text)
    ensures Printable(AttachmentHeader(names, length, filename, ty, contentType))
  {
  }

  lemma ReadAttachmentFields(typeName: Text, length: nat, filename: Text, ty: AttachmentType, contentType: Text)
    requires ReadType(String(typeName)) == Some(AttachmentItemType) && length <= USIZE_MAX
    requires IsUtf8(filename) && IsUtf8(contentType) && IsUtf8(AttachmentTypeName(ty))
    ensures ReadFields(String(typeName), [Number(Decimal(length))], [String(contentType)], [String(filename)],
                       [String(AttachmentTypeName(ty))])
            == Some(Header(AttachmentItemType, Some(length), Some(contentType), Some(filename), Some(Respelled(ty))))
  {
    ReadDecimal(length);
    ReadRespelled(ty);
    ReadAllFields(String(typeName), Number(Decimal(length)), String(contentType), String(filename),
                  String(AttachmentTypeName(ty)),
                  Header(AttachmentItemType, Some(length), Some(contentType), Some(filename), Some(Respelled(ty))));
  }

  lemma ReadAttachmentHeader(names: FieldNames, length: nat, filename: Text, ty: AttachmentType, contentType: Text)
    requires Distinct(names) && length <= USIZE_MAX
    requires IsUtf8(filename) && IsUtf8(contentType) && IsUtf8(AttachmentTypeName(ty))
    ensures ReadStruct(names, AttachmentHeader(names, length, filename, ty, contentType))
            == Some(Header(AttachmentItemType, Some(length), Some(contentType), Some(filename), Some(Respelled(ty))))
  {
    AttachmentHeaderValues(names, length, filename, ty, contentType);
    ReadTypeName(AttachmentItemType);
    ReadAttachmentFields(TypeName(AttachmentItemType), length, filename, ty, contentType);
  }

  // ----- the lines the writer prints, read back

  function SizedLine(ty: ItemType, length: nat): Text {
    Print(SizedHeader(FIELDS, ty, length))
  }

  function ContainerLine(ty: ItemType, count: nat, contentType: Text): Text {
    Print(ContainerHeader(FIELDS, ty, count, contentType))
  }

  function AttachmentLine(length: nat, filename: Text, ty: AttachmentType, contentType: Text): Text {
    Print(AttachmentHeader(FIELDS, length, filename, ty, contentType))
  }

  lemma DecodeSizedLine(ty: ItemType, length: nat, rest: Text)
    requires length <= USIZE_MAX && EndsNumber(rest)
    ensures DecodeHeader(SizedLine(ty, length) + rest)
            == Found(Header(ty, Some(length), None, None, None), |SizedLine(ty, length)|)
  {
    FieldNamesAreDistinct();
    ReadSizedHeader(FIELDS, ty, length);
    DecodePrinted(SizedHeader(FIELDS, ty, length), Header(ty, Some(length), None, None, None), rest);
  }

  lemma DecodeContainerLine(ty: ItemType, count: nat, contentType: Text, rest: Text)
    requires IsUtf8(contentType) && EndsNumber(rest)
    ensures DecodeHeader(ContainerLine(ty, count, contentType) + rest)
            == Found(Header(ty, None, Some(contentType), None, None), |ContainerLine(ty, count, contentType)|)
  {
    FieldNamesAreDistinct();
    ReadContainerHeader(FIELDS, ty, count, contentType);
    DecodePrinted(ContainerHeader(FIELDS, ty, count, contentType), Header(ty, None, Some(contentType), None, None), rest);
  }

  lemma DecodeAttachmentLine(length: nat, filename: Text, ty: AttachmentType, contentType: Text, rest: Text)
    requires length <= USIZE_MAX && EndsNumber(rest)
    requires IsUtf8(filename) && IsUtf8(contentType) && IsUtf8(AttachmentTypeName(ty))
    ensures DecodeHeader(AttachmentLine(length, filename, ty, contentType) + rest)
            == Found(Header(AttachmentItemType, Some(length), Some(contentType), Some(filename), Some(Respelled(ty))),
                     |AttachmentLine(length, filename, ty, contentType)|)
  {
    FieldNamesAreDistinct();
    ReadAttachmentHeader(FIELDS, length, filename, ty, contentType);
    AttachmentHeaderIsPrintable(FIELDS, length, filename, ty, contentType);
    DecodePrinted(AttachmentHeader(FIELDS, length, filename, ty, contentType),
                  Header(AttachmentItemType, Some(length), Some(contentType), Some(filename), Some(Respelled(ty))), rest);
  }
}
