/** Parsing what the writer wrote. */
module EnvelopeRoundTrip {
  import opened Wrappers
  import opened Bytes
  import opened Utf8
  import opened Json
  import opened ItemHeader
  import opened Sequences
  import opened Envelopes
  import opened EnvelopeParser

  /** The JSON form of headers and documents is one line that reads back as what was printed. */
  ghost predicate Faithful(codec: Codec) {
    && (forall headers :: codec.readHeaders(codec.printHeaders(headers)) == Some(headers))
    && (forall headers :: NEWLINE !in codec.printHeaders(headers))
    && (forall body :: codec.readBody(BodyType(body), codec.printBody(body)) == Some(body))
    && (forall body :: NEWLINE !in codec.printBody(body))
  }

  /** The strings of an item are UTF-8, as every Rust string is. */
  ghost predicate HoldsStrings(item: Item) {
    item.Attached? ==>
      var a := item.attachment;
      && IsUtf8(a.filename)
      && (a.contentType.Some? ==> IsUtf8(a.contentType.value))
      && (a.ty.Some? && a.ty.value.Custom? ==> IsUtf8(a.ty.value.name))
  }

  /** An item as it comes back: an attachment has its defaults filled in and its type respelled. */
  function Normalized(item: Item): Item {
    match item
    case Attached(a) =>
      Attached(a.(contentType := Some(ContentTypeOrDefault(a)), ty := Some(Respelled(AttachmentTypeOrDefault(a)))))
    case _ => item
  }

  /** The items that come back: raw ones are not written. */
  function NormalizedAll(items: seq<Item>): seq<Item> {
    if items == [] then []
    else (if items[0].Raw? then [] else [Normalized(items[0])]) + NormalizedAll(items[1..])
  }

  /** An envelope as it comes back: it may also gain the id of its first event or transaction. */
  function RoundTripped(e: Value): Value
    requires e.items.EnvelopeItems?
  {
    var headers := if e.headers.eventId.Some? then e.headers
                   else e.headers.(eventId := FirstEventId(e.items.items));
    Value(headers, EnvelopeItems(NormalizedAll(e.items.items)))
  }

  lemma ContentTypesAreUtf8()
    ensures IsUtf8(DEFAULT_CONTENT_TYPE)
    ensures IsUtf8(LOGS_CONTENT_TYPE)
    ensures IsUtf8(METRICS_CONTENT_TYPE)
  {
    hide IsUtf8;
    AsciiIsUtf8(DEFAULT_CONTENT_TYPE);
    AsciiIsUtf8(LOGS_CONTENT_TYPE);
    AsciiIsUtf8(METRICS_CONTENT_TYPE);
  }

  lemma KnownTypesAreUtf8(ty: AttachmentType)
    requires ty.Custom? ==> IsUtf8(ty.name)
    ensures IsUtf8(AttachmentTypeName(ty))
  {
    hide IsUtf8;
    if !ty.Custom? {
      AsciiIsUtf8(AttachmentTypeName(ty));
    }
  }

  // ----- one item

  /** A header line, a newline, a payload, and a newline or the end: the payload is read as a whole. */
  lemma ParseFramed(codec: Codec, line: Text, payload: Text, tail: Text, header: Header, item: Item)
    requires |line| + 1 + |payload| + |tail| <= ISIZE_MAX && line != []
    requires tail == [] || tail[0] == NEWLINE
    requires DecodeHeader(line + [NEWLINE] + payload + tail) == Found(header, |line|)
    requires header.length == Some(|payload|) || (header.length.None? && NEWLINE !in payload)
    requires ReadItem(codec, header, payload) == Some(item)
    ensures ParseItem(codec, line + [NEWLINE] + payload + tail) == Ok((item, |line| + 1 + |payload| + 1))
  {
    hide DecodeHeader, ReadItem;
    var slice := line + [NEWLINE] + payload + tail;
    var start := |line| + 1;
    assert slice[|line|] == NEWLINE;
    assert slice[start..start + |payload|] == payload;
    if header.length.None? {
      assert slice[start..] == payload + tail;
      LineEndOfLine(payload, tail);
    }
  }

  lemma DecodeDocumentLine(body: Body, length: nat, rest: Text)
    requires length <= USIZE_MAX && EndsNumber(rest)
    ensures DecodeHeader(DocumentLine(body, length) + rest).Found?
    ensures var scan := DecodeHeader(DocumentLine(body, length) + rest);
            && scan.end == |DocumentLine(body, length)| && scan.header.ty == BodyType(body)
            && scan.header.length == if body.Logs? || body.Metrics? then None else Some(length)
  {
    hide DecodeHeader, IsUtf8, SizedLine, ContainerLine;
    ContentTypesAreUtf8();
    match body
    case Logs(entries) => DecodeContainerLine(LogsType, |entries|, LOGS_CONTENT_TYPE, rest);
    case Metrics(entries) => DecodeContainerLine(MetricsType, |entries|, METRICS_CONTENT_TYPE, rest);
    case _ => DecodeSizedLine(BodyType(body), length, rest);
  }

  lemma ParseDocument(codec: Codec, body: Body, tail: Text)
    requires Faithful(codec)
    requires tail == [] || tail[0] == NEWLINE
    requires |DocumentLine(body, |codec.printBody(body)|)| + 1 + |codec.printBody(body)| + |tail| <= ISIZE_MAX
    ensures var text := codec.printBody(body);
            var line := DocumentLine(body, |text|);
            ParseItem(codec, line + [NEWLINE] + text + tail) == Ok((Document(body), |line| + 1 + |text| + 1))
  {
    hide DecodeHeader, ParseItem, DocumentLine;
    var text := codec.printBody(body);
    var line := DocumentLine(body, |text|);
    var rest := [NEWLINE] + text + tail;
    DecodeDocumentLine(body, |text|, rest);
    assert line + rest == line + [NEWLINE] + text + tail;
    var header := DecodeHeader(line + rest).header;
    ParseFramed(codec, line, text, tail, header, Document(body));
  }

  lemma ParseAttachment(codec: Codec, a: Attachment, tail: Text)
    requires HoldsStrings(Attached(a))
    requires tail == [] || tail[0] == NEWLINE
    requires |WrittenAttachment(a)| + |tail| <= ISIZE_MAX
    ensures ParseItem(codec, WrittenAttachment(a) + tail)
            == Ok((Normalized(Attached(a)), |WrittenAttachment(a)| + 1))
  {
    hide DecodeHeader, ParseItem, AttachmentLine, IsUtf8;
    var ty, contentType := AttachmentTypeOrDefault(a), ContentTypeOrDefault(a);
    var line := AttachmentLine(|a.buffer|, a.filename, ty, contentType);
    var rest := [NEWLINE] + a.buffer + tail;
    ContentTypesAreUtf8();
    KnownTypesAreUtf8(ty);
    DecodeAttachmentLine(|a.buffer|, a.filename, ty, contentType, rest);
    assert line + rest == line + [NEWLINE] + a.buffer + tail;
    var header := DecodeHeader(line + rest).header;
    ParseFramed(codec, line, a.buffer, tail, header, Normalized(Attached(a)));
  }

  /** A written item is read back from the front of a slice, its last newline being optional at the end. */
  lemma ParseWrittenItem(codec: Codec, item: Item, bytes: Text, rest: Text)
    requires Faithful(codec) && HoldsStrings(item) && !item.Raw?
    requires bytes == WrittenItem(codec, item) + rest || (rest == [] && bytes + [NEWLINE] == WrittenItem(codec, item))
    requires |bytes| <= ISIZE_MAX
    ensures ParseItem(codec, bytes) == Ok((Normalized(item), |WrittenItem(codec, item)|))
  {
    hide ParseItem, DocumentLine, WrittenAttachment;
    var content := WrittenItem(codec, item)[..|WrittenItem(codec, item)| - 1];
    var tail := if bytes == WrittenItem(codec, item) + rest then [NEWLINE] + rest else [];
    assert WrittenItem(codec, item) == content + [NEWLINE];
    assert bytes == content + tail;
    match item
    case Document(body) =>
      var text := codec.printBody(body);
      assert content == DocumentLine(body, |text|) + [NEWLINE] + text;
      ParseDocument(codec, body, tail);
    case Attached(a) =>
      assert content == WrittenAttachment(a);
      ParseAttachment(codec, a, tail);
  }

  // ----- all items

  lemma {:induction false} WrittenFromFront(codec: Codec, items: seq<Item>)
    requires items != []
    ensures WrittenItems(codec, items) == WrittenItem(codec, items[0]) + WrittenItems(codec, items[1..])
  {
    hide WrittenItem;
    var n := |items| - 1;
    if n == 0 {
      assert items[..n] == [] && items[1..] == [];
    } else {
      WrittenFromFront(codec, items[..n]);
      assert items[..n][1..] == items[1..][..n - 1];
      Associate(WrittenItem(codec, items[0]), WrittenItems(codec, items[1..n]), WrittenItem(codec, items[n]));
    }
  }

  /** `slice` is `full`, or `full` without its last newline. */
  ghost predicate EndsWith(slice: Text, full: Text) {
    slice == full || slice + [NEWLINE] == full
  }

  lemma {:induction false} ItemsOfWritten(codec: Codec, slice: Text, full: Text, offset: usize, items: seq<Item>)
    requires Faithful(codec) && forall item :: item in items ==> HoldsStrings(item)
    requires EndsWith(slice, full) && |slice| <= ISIZE_MAX
    requires offset <= |full| && full[offset..] == WrittenItems(codec, items)
    ensures ItemsFrom(codec, slice, offset) == Ok(NormalizedAll(items))
    decreases |items|
  {
    hide ParseItem, WrittenItem, HoldsStrings, WrittenItems;
    if items == [] {
      WrittenNothing(codec, items);
      assert items[..0] == [];
    } else {
      var item := items[0];
      WrittenFromFront(codec, items);
      var written, rest := WrittenItem(codec, item), WrittenItems(codec, items[1..]);
      assert full[offset..][|written|..] == rest;
      assert full[offset + |written|..] == rest;
      ItemsOfWritten(codec, slice, full, offset + |written|, items[1..]);
      if item.Raw? {
        WrittenRaw(codec);
        assert [] + NormalizedAll(items[1..]) == NormalizedAll(items[1..]);
      } else {
        WrittenIsALine(codec, item);
        var bytes := slice[offset..];
        if slice == full {
          ParseWrittenItem(codec, item, bytes, rest);
        } else if rest == [] {
          assert bytes + [NEWLINE] == full[offset..] == written;
          ParseWrittenItem(codec, item, bytes, []);
        } else {
          assert bytes + [NEWLINE] == written + rest;
          assert bytes == written + rest[..|rest| - 1];
          ParseWrittenItem(codec, item, bytes, rest[..|rest| - 1]);
        }
      }
    }
  }

  lemma WrittenRaw(codec: Codec)
    ensures WrittenItem(codec, Raw) == []
  {
  }

  lemma WrittenIsALine(codec: Codec, item: Item)
    requires !item.Raw?
    ensures |WrittenItem(codec, item)| >= 2
  {
  }

  // ----- whole envelopes

  lemma {:induction false} FirstEventIdOfNormalized(items: seq<Item>)
    ensures FirstEventId(NormalizedAll(items)) == FirstEventId(items)
  {
    if items != [] {
      FirstEventIdOfNormalized(items[1..]);
      if items[0].Raw? {
        assert [] + NormalizedAll(items[1..]) == NormalizedAll(items[1..]);
      } else {
        assert NormalizedAll(items)[1..] == NormalizedAll(items[1..]);
      }
    }
  }

  lemma ParseWrittenHeaders(codec: Codec, headers: Headers, items: Text, slice: Text)
    requires Faithful(codec) && |slice| <= ISIZE_MAX
    requires EndsWith(slice, codec.printHeaders(headers) + [NEWLINE] + items)
    ensures ParseHeaders(codec, slice) == Ok((headers, |codec.printHeaders(headers)| + 1))
  {
    var line := codec.printHeaders(headers);
    var full := line + ([NEWLINE] + items);
    assert full == line + [NEWLINE] + items;
    var rest := slice[|line|..];
    if slice != full {
      assert slice == full[..|full| - 1];
    }
    assert slice[..|line|] == full[..|line|] == line;
    assert slice == line + rest;
    LineEndOfLine(line, rest);
    assert slice[..|line|] == line;
  }

  /**
   Parsing what the writer wrote gives the envelope back, also when the very last newline is missing.
   Attachment buffers may hold any bytes, newlines included.
   */
  lemma RoundTrip(codec: Codec, e: Value, slice: Text)
    requires Faithful(codec)
    requires e.items.EnvelopeItems? && forall item :: item in e.items.items ==> HoldsStrings(item)
    requires EndsWith(slice, Written(codec, e)) && |slice| <= ISIZE_MAX
    ensures Parsed(codec, slice) == Ok(RoundTripped(e))
  {
    hide ParseHeaders, ItemsFrom, WrittenItems;
    var full := Written(codec, e);
    var line, items := codec.printHeaders(e.headers), e.items.items;
    ParseWrittenHeaders(codec, e.headers, WrittenItems(codec, items), slice);
    assert full[|line| + 1..] == WrittenItems(codec, items);
    ItemsOfWritten(codec, slice, full, |line| + 1, items);
    AddedAllKeepsOrder(Value(e.headers, EnvelopeItems([])), NormalizedAll(items));
    FirstEventIdOfNormalized(items);
    assert [] + NormalizedAll(items) == NormalizedAll(items);
  }

  // ----- printing again

  lemma WrittenAgain(codec: Codec, item: Item)
    ensures WrittenItem(codec, Normalized(item)) == WrittenItem(codec, item)
  {
    if item.Attached? {
      RespelledChangesOnlyKnownNames(AttachmentTypeOrDefault(item.attachment));
      RespelledPrintsTheSame(item.attachment);
    }
  }

  lemma RespelledPrintsTheSame(a: Attachment)
    requires AttachmentTypeName(Respelled(AttachmentTypeOrDefault(a))) == AttachmentTypeName(AttachmentTypeOrDefault(a))
    ensures WrittenAttachment(Normalized(Attached(a)).attachment) == WrittenAttachment(a)
  {
    hide AttachmentTypeName, Respelled, Print;
  }

  lemma {:induction false} WrittenAllAgain(codec: Codec, items: seq<Item>)
    ensures WrittenItems(codec, NormalizedAll(items)) == WrittenItems(codec, items)
  {
    hide WrittenItem;
    if items != [] {
      WrittenFromFront(codec, items);
      WrittenAllAgain(codec, items[1..]);
      if items[0].Raw? {
        WrittenRaw(codec);
        assert [] + NormalizedAll(items[1..]) == NormalizedAll(items[1..]);
      } else {
        WrittenAgain(codec, items[0]);
        WrittenFromFront(codec, NormalizedAll(items));
        assert NormalizedAll(items)[1..] == NormalizedAll(items[1..]);
      }
    }
  }

  /**
   What comes back prints as the same bytes exactly when it did not have to take over an event id:
   the filled-in defaults and respelled types are invisible in print.
   */
  lemma PrintsTheSame(codec: Codec, e: Value)
    requires Faithful(codec) && e.items.EnvelopeItems?
    ensures Written(codec, RoundTripped(e)) == Written(codec, e)
            <==> (e.headers.eventId.Some? || FirstEventId(e.items.items).None?)
  {
    hide WrittenItems;
    WrittenAllAgain(codec, e.items.items);
    var before, after := codec.printHeaders(e.headers), codec.printHeaders(RoundTripped(e).headers);
    var items := WrittenItems(codec, e.items.items);
    LineEndOfLine(before, [NEWLINE] + items);
    LineEndOfLine(after, [NEWLINE] + items);
    assert before + [NEWLINE] + items == before + ([NEWLINE] + items);
    assert after + [NEWLINE] + items == after + ([NEWLINE] + items);
    if Written(codec, RoundTripped(e)) == Written(codec, e) {
      assert before == (before + ([NEWLINE] + items))[..|before|];
      assert after == (after + ([NEWLINE] + items))[..|after|];
      assert Some(e.headers) == Some(RoundTripped(e).headers);
    }
  }

  // ----- a blank line at the end

  lemma {:induction false} ItemsBeforeBlankLine(codec: Codec, slice: Text, offset: usize, items: seq<Item>)
    requires Faithful(codec) && forall item :: item in items ==> HoldsStrings(item)
    requires |slice| <= ISIZE_MAX
    requires offset <= |slice| && slice[offset..] == WrittenItems(codec, items) + [NEWLINE]
    ensures ItemsFrom(codec, slice, offset) == Err(UnexpectedEof)
    decreases |items|
  {
    hide ParseItem, WrittenItem, HoldsStrings, WrittenItems;
    if items == [] {
      WrittenNothing(codec, items);
      assert items[..0] == [];
      assert slice[offset..] == [NEWLINE];
      ParseBlankLine(codec);
    } else {
      var item := items[0];
      WrittenFromFront(codec, items);
      var written, rest := WrittenItem(codec, item), WrittenItems(codec, items[1..]) + [NEWLINE];
      Associate(written, WrittenItems(codec, items[1..]), [NEWLINE]);
      assert slice[offset + |written|..] == slice[offset..][|written|..] == rest;
      ItemsBeforeBlankLine(codec, slice, offset + |written|, items[1..]);
      if item.Raw? {
        WrittenRaw(codec);
      } else {
        WrittenIsALine(codec, item);
        ParseWrittenItem(codec, item, slice[offset..], rest);
      }
    }
  }

  lemma ParseBlankLine(codec: Codec)
    ensures ParseItem(codec, [NEWLINE]) == Err(UnexpectedEof)
  {
    assert SkipSpace([NEWLINE]) == [];
  }

  /** One newline too many is not tolerated: the parser looks for one more item and finds none. */
  lemma BlankLineAtTheEndIsRejected(codec: Codec, e: Value)
    requires Faithful(codec)
    requires e.items.EnvelopeItems? && forall item :: item in e.items.items ==> HoldsStrings(item)
    requires |Written(codec, e)| < ISIZE_MAX
    ensures Parsed(codec, Written(codec, e) + [NEWLINE]) == Err(UnexpectedEof)
  {
    hide ParseHeaders, ItemsFrom, WrittenItems;
    var slice := Written(codec, e) + [NEWLINE];
    var line, items := codec.printHeaders(e.headers), WrittenItems(codec, e.items.items);
    Associate(line + [NEWLINE], items, [NEWLINE]);
    ParseWrittenHeaders(codec, e.headers, items + [NEWLINE], slice);
    assert slice[|line| + 1..] == items + [NEWLINE];
    ItemsBeforeBlankLine(codec, slice, |line| + 1, e.items.items);
  }

  // ----- any accepted input

  lemma ReadHeaderHoldsStrings(j: Json)
    requires ReadHeader(j).Some?
    ensures var header := ReadHeader(j).value;
            && (header.filename.Some? ==> IsUtf8(header.filename.value))
            && (header.contentType.Some? ==> IsUtf8(header.contentType.value))
            && (header.attachmentType.Some? && header.attachmentType.value.Custom? ==>
                  IsUtf8(header.attachmentType.value.name))
  {
    hide IsUtf8, ValuesOf, ReadType, ReadLength;
  }

  lemma ParsedItemHoldsStrings(codec: Codec, slice: Text)
    requires |slice| <= ISIZE_MAX && ParseItem(codec, slice).Ok?
    ensures HoldsStrings(ParseItem(codec, slice).value.0) && !ParseItem(codec, slice).value.0.Raw?
  {
    hide ReadHeader, ScanValue, SkipSpace;
    ReadHeaderHoldsStrings(ScanValue(slice).value.0);
  }

  lemma {:induction false} ParsedItemsHoldStrings(codec: Codec, slice: Text, offset: usize)
    requires offset <= |slice| + 1 && |slice| <= ISIZE_MAX && ItemsFrom(codec, slice, offset).Ok?
    ensures forall item :: item in ItemsFrom(codec, slice, offset).value ==> HoldsStrings(item) && !item.Raw?
    decreases |slice| + 1 - offset
  {
    hide ParseItem, HoldsStrings;
    if offset < |slice| {
      var (item, length) := ParseItem(codec, slice[offset..]).value;
      ParsedItemHoldsStrings(codec, slice[offset..]);
      ParsedItemsHoldStrings(codec, slice, offset + length);
    }
  }

  lemma {:induction false} NormalizedOnce(items: seq<Item>)
    ensures NormalizedAll(NormalizedAll(items)) == NormalizedAll(items)
  {
    if items != [] {
      NormalizedOnce(items[1..]);
      if items[0].Raw? {
        assert [] + NormalizedAll(items[1..]) == NormalizedAll(items[1..]);
      } else {
        assert NormalizedAll(items)[1..] == NormalizedAll(items[1..]);
        NormalizedTwice(items[0]);
      }
    }
  }

  lemma NormalizedTwice(item: Item)
    ensures Normalized(Normalized(item)) == Normalized(item)
  {
    if item.Attached? {
      RespelledChangesOnlyKnownNames(AttachmentTypeOrDefault(item.attachment));
      RespelledTwice(AttachmentTypeOrDefault(item.attachment));
    }
  }

  lemma RespelledTwice(ty: AttachmentType)
    requires AttachmentTypeName(Respelled(ty)) == AttachmentTypeName(ty)
    ensures Respelled(Respelled(ty)) == Respelled(ty)
  {
    hide AttachmentTypeName, AttachmentTypeOfName;
  }

  /**
   Whatever bytes the parser accepts, printing what it read and parsing again changes only how
   attachments spell out their defaults, and from then on nothing changes.
   */
  lemma AcceptedInputSettles(codec: Codec, slice: Text)
    requires Faithful(codec) && |slice| <= ISIZE_MAX && Parsed(codec, slice).Ok?
    requires |Written(codec, Parsed(codec, slice).value)| <= ISIZE_MAX
    ensures var value := Parsed(codec, slice).value;
            && value.items.EnvelopeItems?
            && RoundTripped(value).headers == value.headers
            && Parsed(codec, Written(codec, value)) == Ok(RoundTripped(value))
            && RoundTripped(RoundTripped(value)) == RoundTripped(value)
  {
    hide ParseHeaders, ItemsFrom, Written, HoldsStrings, NormalizedAll, AddedAll;
    var (headers, offset) := ParseHeaders(codec, slice).value;
    var items := ItemsFrom(codec, slice, offset).value;
    AddedAllKeepsOrder(Value(headers, EnvelopeItems([])), items);
    assert [] + items == items;
    ParsedItemsHoldStrings(codec, slice, offset);
    var value := Parsed(codec, slice).value;
    RoundTrip(codec, value, Written(codec, value));
    NormalizedOnce(items);
    FirstEventIdOfNormalized(items);
  }
}
