/** The text of written items: which fields their header lines have, in which order, and with which values. */
module EnvelopeText {
  import opened Wrappers
  import opened Bytes
  import opened Json
  import opened ItemHeader
  import opened Envelopes

  /** Text that JSON strings hold without an escape. */
  predicate Plain(t: Text) {
    forall i :: 0 <= i < |t| ==> t[i] >= 0x20 && t[i] != QUOTE && t[i] != BACKSLASH
  }

  function Quoted(t: Text): Text {
    ['\"' as int] + t + ['\"' as int]
  }

  /** The fields of an object with their values as text, each after the one before it and a comma. */
  function FieldsText(fields: seq<(Text, Text)>): Text {
    if fields == [] then [] else
    Quoted(fields[0].0) + [':' as int] + fields[0].1
    + if |fields| == 1 then [] else [',' as int] + FieldsText(fields[1..])
  }

  function ObjectText(fields: seq<(Text, Text)>): Text {
    ['{' as int] + FieldsText(fields) + ['}' as int]
  }

  lemma {:induction false} PlainIsNotEscaped(t: Text)
    requires Plain(t)
    ensures EscapedAll(t) == t
  {
    if t != [] {
      PlainIsNotEscaped(t[1..]);
      assert [t[0]] + t[1..] == t;
    }
  }

  lemma PlainIsQuoted(t: Text)
    requires Plain(t)
    ensures PrintString(t) == Quoted(t)
  {
    PlainIsNotEscaped(t);
    hide EscapedAll;
  }

  /** The members print as the fields. */
  predicate PrintAs(members: seq<(Text, Json)>, fields: seq<(Text, Text)>) {
    && |members| == |fields|
    && forall i :: 0 <= i < |fields| ==>
         Plain(fields[i].0) && members[i].0 == fields[i].0 && Print(members[i].1) == fields[i].1
  }

  lemma {:induction false} MembersText(members: seq<(Text, Json)>, fields: seq<(Text, Text)>)
    requires PrintAs(members, fields)
    ensures PrintMembers(members) == FieldsText(fields)
  {
    if fields != [] {
      PlainIsQuoted(fields[0].0);
      hide PrintString, Print, Plain, Quoted;
      assert PrintMember(members[0]) == Quoted(fields[0].0) + [':' as int] + fields[0].1;
      hide PrintMember;
      if |fields| > 1 {
        MembersText(members[1..], fields[1..]);
      }
    }
  }

  lemma PrintedObject(members: seq<(Text, Json)>, fields: seq<(Text, Text)>)
    requires PrintAs(members, fields)
    ensures Print(Object(members)) == ObjectText(fields)
  {
    MembersText(members, fields);
    hide PrintMembers, FieldsText, PrintAs;
  }

  lemma FieldNamesArePlain()
    ensures Plain(FIELDS.ty) && Plain(FIELDS.length) && Plain(FIELDS.itemCount)
    ensures Plain(FIELDS.filename) && Plain(FIELDS.attachmentType) && Plain(FIELDS.contentType)
  {}

  /** The name that stands for each kind of document. */
  function DocumentName(body: Body): Text {
    match body
    case Event(_, _) => Ascii("event")
    case Transaction(_, _) => Ascii("transaction")
    case SessionUpdate(_) => Ascii("session")
    case SessionAggregates(_) => Ascii("sessions")
    case CheckIn(_) => Ascii("check_in")
    case ClientReport(_) => Ascii("client_report")
    case Logs(_) => Ascii("log")
    case Metrics(_) => Ascii("trace_metric")
  }

  lemma TypeIsDocumentName(body: Body)
    ensures TypeName(BodyType(body)) == DocumentName(body)
  {}

  lemma TypeNameIsPlain(ty: ItemType)
    ensures Plain(TypeName(ty))
  {}

  lemma LogItemsArePlain()
    ensures Plain(LOGS_CONTENT_TYPE)
  {}

  lemma MetricItemsArePlain()
    ensures Plain(METRICS_CONTENT_TYPE)
  {}

  lemma DefaultIsPlain()
    ensures Plain(DEFAULT_CONTENT_TYPE)
  {}

  /** The fields before a document: its type and its length, or for logs and metrics their number and content type. */
  function DocumentFields(body: Body, length: nat): seq<(Text, Text)> {
    [(FIELDS.ty, Quoted(DocumentName(body)))]
    + match body
      case Logs(entries) => [(FIELDS.itemCount, Decimal(|entries|)), (FIELDS.contentType, Quoted(LOGS_CONTENT_TYPE))]
      case Metrics(entries) => [(FIELDS.itemCount, Decimal(|entries|)), (FIELDS.contentType, Quoted(METRICS_CONTENT_TYPE))]
      case _ => [(FIELDS.length, Decimal(length))]
  }

  lemma SizedText(ty: ItemType, length: nat)
    ensures SizedLine(ty, length) == ObjectText([(FIELDS.ty, Quoted(TypeName(ty))), (FIELDS.length, Decimal(length))])
  {
    FieldNamesArePlain();
    TypeNameIsPlain(ty);
    PlainIsQuoted(TypeName(ty));
    assert Print(String(TypeName(ty))) == Quoted(TypeName(ty)) && Print(Number(Decimal(length))) == Decimal(length);
    hide Print, Quoted, TypeName, Decimal, FIELDS, Plain, ObjectText;
    PrintedObject(SizedHeader(FIELDS, ty, length).members,
                  [(FIELDS.ty, Quoted(TypeName(ty))), (FIELDS.length, Decimal(length))]);
  }

  lemma ContainerText(ty: ItemType, count: nat, contentType: Text)
    requires Plain(contentType)
    ensures ContainerLine(ty, count, contentType)
            == ObjectText([(FIELDS.ty, Quoted(TypeName(ty))), (FIELDS.itemCount, Decimal(count)),
                           (FIELDS.contentType, Quoted(contentType))])
  {
    FieldNamesArePlain();
    TypeNameIsPlain(ty);
    PlainIsQuoted(TypeName(ty));
    PlainIsQuoted(contentType);
    assert Print(String(TypeName(ty))) == Quoted(TypeName(ty)) && Print(Number(Decimal(count))) == Decimal(count);
    assert Print(String(contentType)) == Quoted(contentType);
    hide Print, Quoted, TypeName, Decimal, FIELDS, Plain, ObjectText;
    PrintedObject(ContainerHeader(FIELDS, ty, count, contentType).members,
                  [(FIELDS.ty, Quoted(TypeName(ty))), (FIELDS.itemCount, Decimal(count)),
                   (FIELDS.contentType, Quoted(contentType))]);
  }

  /** What is written for a document: its fields on a line, and its text on the next. */
  lemma DocumentText(codec: Codec, body: Body)
    ensures var text := codec.printBody(body);
            WrittenItem(codec, Document(body))
            == ObjectText(DocumentFields(body, |text|)) + [NEWLINE] + text + [NEWLINE]
  {
    var ty := BodyType(body);
    TypeIsDocumentName(body);
    LogItemsArePlain();
    MetricItemsArePlain();
    assert (body.Logs? ==> ty == LogsType) && (body.Metrics? ==> ty == MetricsType);
    hide Decimal, SizedLine, ContainerLine, ObjectText, Quoted, TypeName, BodyType, DocumentName, Plain, FIELDS,
      LOGS_CONTENT_TYPE, METRICS_CONTENT_TYPE;
    match body
    case Logs(entries) => ContainerText(ty, |entries|, LOGS_CONTENT_TYPE);
    case Metrics(entries) => ContainerText(ty, |entries|, METRICS_CONTENT_TYPE);
    case _ => SizedText(ty, |codec.printBody(body)|);
  }

  /** The text of an attachment type: a name of its own, or the name of a known kind. */
  function KindText(ty: AttachmentType): Text {
    match ty
    case Standard => Quoted(Ascii("event.attachment"))
    case Minidump => Quoted(Ascii("event.minidump"))
    case AppleCrashReport => Quoted(Ascii("event.applecrashreport"))
    case UnrealContext => Quoted(Ascii("unreal.context"))
    case UnrealLogs => Quoted(Ascii("unreal.logs"))
    case Custom(name) => PrintString(name)
  }

  /** The fields before an attachment: standard and of unknown bytes unless it says otherwise. */
  function AttachmentFields(a: Attachment): seq<(Text, Text)> {
    [(FIELDS.ty, Quoted(TypeName(AttachmentItemType))),
     (FIELDS.length, Decimal(|a.buffer|)),
     (FIELDS.filename, PrintString(a.filename)),
     (FIELDS.attachmentType, KindText(if a.ty.Some? then a.ty.value else Standard)),
     (FIELDS.contentType, if a.contentType.Some? then PrintString(a.contentType.value) else Quoted(DEFAULT_CONTENT_TYPE))]
  }

  lemma KindIsPlain(ty: AttachmentType)
    ensures ty.Custom? || Plain(AttachmentTypeName(ty))
  {}

  lemma KindPrinted(ty: AttachmentType)
    ensures PrintString(AttachmentTypeName(ty)) == KindText(ty)
  {
    KindIsPlain(ty);
    hide Quoted, PrintString, Plain;
    if !ty.Custom? {
      PlainIsQuoted(AttachmentTypeName(ty));
    }
  }

  lemma ValuesPrinted(a: Attachment)
    ensures PrintString(TypeName(AttachmentItemType)) == Quoted(TypeName(AttachmentItemType))
    ensures PrintString(AttachmentTypeName(AttachmentTypeOrDefault(a)))
            == KindText(if a.ty.Some? then a.ty.value else Standard)
    ensures PrintString(ContentTypeOrDefault(a))
            == if a.contentType.Some? then PrintString(a.contentType.value) else Quoted(DEFAULT_CONTENT_TYPE)
  {
    TypeNameIsPlain(AttachmentItemType);
    DefaultIsPlain();
    hide Plain, PrintString, Quoted, KindText, AttachmentTypeName, TypeName, DEFAULT_CONTENT_TYPE;
    PlainIsQuoted(TypeName(AttachmentItemType));
    PlainIsQuoted(DEFAULT_CONTENT_TYPE);
    KindPrinted(AttachmentTypeOrDefault(a));
  }

  lemma AttachmentLineText(a: Attachment)
    ensures AttachmentLine(|a.buffer|, a.filename, AttachmentTypeOrDefault(a), ContentTypeOrDefault(a))
            == ObjectText(AttachmentFields(a))
  {
    hide Quoted, TypeName, Decimal, PrintString, KindText, AttachmentTypeName, AttachmentTypeOrDefault,
      ContentTypeOrDefault, FIELDS, Plain, DEFAULT_CONTENT_TYPE, ObjectText;
    var fields := AttachmentFields(a);
    var members: seq<(Text, Json)> :=
      AttachmentHeader(FIELDS, |a.buffer|, a.filename, AttachmentTypeOrDefault(a), ContentTypeOrDefault(a)).members;
    FieldNamesArePlain();
    ValuesPrinted(a);
    assert Print(members[0].1) == fields[0].1 && Print(members[1].1) == fields[1].1 && Print(members[2].1) == fields[2].1;
    assert Print(members[3].1) == fields[3].1 && Print(members[4].1) == fields[4].1;
    hide Print;
    PrintedObject(members, fields);
  }

  /** What is written for an attachment: its fields on a line, and its bytes as they are. */
  lemma AttachmentText(codec: Codec, a: Attachment)
    ensures WrittenItem(codec, Attached(a)) == ObjectText(AttachmentFields(a)) + [NEWLINE] + a.buffer + [NEWLINE]
  {
    AttachmentLineText(a);
    hide ObjectText, AttachmentFields, AttachmentLine;
  }
}
