/**
 Envelopes: headers and a list of items, or bytes that are passed on as they are.

 Events, transactions, sessions, reports, logs and metrics are documents whose JSON form is left to
 a codec; only the event id that an envelope copies into its headers is kept apart.
 */
module Envelopes {
  import opened Wrappers
  import opened Bytes
  import opened Utf8
  import opened Json
  import opened ItemHeader
  import opened Sequences

  type Uuid = nat

  /** A part of a document that this model does not look into. */
  type Content = nat

  const NO_CONTENT: Content := 0

  datatype Headers = Headers(
    eventId: Option<Uuid>,
    dsn: Option<Content>,
    sdk: Option<Content>,
    sentAt: Option<Content>,
    trace: Option<Content>)

  const NO_HEADERS: Headers := Headers(None, None, None, None, None)

  datatype Body =
    | Event(eventId: Uuid, content: Content)
    | SessionUpdate(content: Content)
    | SessionAggregates(content: Content)
    | Transaction(eventId: Uuid, content: Content)
    | CheckIn(content: Content)
    | ClientReport(content: Content)
    | Logs(entries: seq<Content>)
    | Metrics(entries: seq<Content>)

  datatype Attachment = Attachment(
    buffer: seq<byte>,
    filename: Text,
    contentType: Option<Text>,
    ty: Option<AttachmentType>)

  datatype Item = Document(body: Body) | Attached(attachment: Attachment) | Raw

  datatype Items = EnvelopeItems(items: seq<Item>) | RawBytes(bytes: seq<byte>)

  datatype Value = Value(headers: Headers, items: Items)

  const EMPTY: Value := Value(NO_HEADERS, EnvelopeItems([]))

  /** The JSON form of headers and documents. */
  datatype Codec = Codec(
    printHeaders: Headers -> Text,
    readHeaders: Text -> Option<Headers>,
    printBody: Body -> Text,
    readBody: (ItemType, Text) -> Option<Body>)

  function BodyType(body: Body): ItemType {
    match body
    case Event(_, _) => EventType
    case SessionUpdate(_) => SessionType
    case SessionAggregates(_) => SessionsType
    case Transaction(_, _) => TransactionType
    case CheckIn(_) => CheckInType
    case ClientReport(_) => ClientReportType
    case Logs(_) => LogsType
    case Metrics(_) => MetricsType
  }

  // ----- adding items

  /** The id an item lends to an envelope that has none. */
  function EventIdOf(item: Item): Option<Uuid> {
    if item.Document? && (item.body.Event? || item.body.Transaction?) then Some(item.body.eventId) else None
  }

  /** The envelope with one more item; a raw envelope takes none. */
  function Added(e: Value, item: Item): Value {
    match e.items
    case RawBytes(_) => e
    case EnvelopeItems(items) =>
      var headers := if e.headers.eventId.None? then e.headers.(eventId := EventIdOf(item)) else e.headers;
      Value(headers, EnvelopeItems(items + [item]))
  }

  function AddedAll(e: Value, items: seq<Item>): Value
    decreases |items|
  {
    if items == [] then e
    else Added(AddedAll(e, items[..|items| - 1]), items[|items| - 1])
  }

  /** The id of the first item that has one. */
  function FirstEventId(items: seq<Item>): Option<Uuid> {
    if items == [] then None
    else if EventIdOf(items[0]).Some? then EventIdOf(items[0])
    else FirstEventId(items[1..])
  }

  lemma {:induction false} FirstEventIdOfLonger(items: seq<Item>, item: Item)
    ensures FirstEventId(items + [item])
            == if FirstEventId(items).Some? then FirstEventId(items) else EventIdOf(item)
  {
    if items == [] {
      assert [] + [item] == [item];
    } else {
      assert (items + [item])[1..] == items[1..] + [item];
      FirstEventIdOfLonger(items[1..], item);
    }
  }

  lemma {:induction false} NoFirstEventId(items: seq<Item>)
    ensures FirstEventId(items).None? <==> forall item :: item in items ==> EventIdOf(item).None?
  {
    if items != [] {
      NoFirstEventId(items[1..]);
      assert items == [items[0]] + items[1..];
    }
  }

  /** An event or a transaction with this id. */
  ghost predicate Carries(item: Item, id: Uuid) {
    exists content ::
      item == Document(Event(id, content)) || item == Document(Transaction(id, content))
  }

  lemma CarriesIsEventId(item: Item, id: Uuid)
    ensures Carries(item, id) <==> EventIdOf(item) == Some(id)
  {
    if EventIdOf(item) == Some(id) {
      assert item == Document(Event(id, item.body.content)) || item == Document(Transaction(id, item.body.content));
    }
  }

  /** The item at this place carries the id, and none before it carries any. */
  ghost predicate CarriesFirst(items: seq<Item>, i: nat, id: Uuid) {
    i < |items| && Carries(items[i], id) && forall k, other :: 0 <= k < i ==> !Carries(items[k], other)
  }

  /** The id on offer is that of the first event or transaction. */
  lemma {:induction false} FirstEventIdIsFirstCarried(items: seq<Item>, id: Uuid)
    ensures FirstEventId(items) == Some(id) <==> exists i: nat :: CarriesFirst(items, i, id)
  {
    hide Carries, EventIdOf;
    if items != [] {
      var rest := items[1..];
      FirstEventIdIsFirstCarried(rest, id);
      forall other: Uuid ensures Carries(items[0], other) <==> EventIdOf(items[0]) == Some(other) {
        CarriesIsEventId(items[0], other);
      }
      if EventIdOf(items[0]).Some? {
        assert Carries(items[0], EventIdOf(items[0]).value);
        assert EventIdOf(items[0]) == Some(id) ==> CarriesFirst(items, 0, id);
      } else {
        if i: nat :| CarriesFirst(rest, i, id) {
          assert forall k :: 0 < k < i + 1 ==> items[k] == rest[k - 1];
          assert CarriesFirst(items, i + 1, id);
        }
        if i: nat :| CarriesFirst(items, i, id) {
          assert forall k {:trigger rest[k]} :: 0 <= k < i - 1 ==> rest[k] == items[k + 1];
          assert i > 0 && CarriesFirst(rest, i - 1, id);
        }
      }
    }
  }

  /** Adding items one by one keeps them all, in order, and takes the first id on offer if none was set. */
  lemma {:induction false} AddedAllKeepsOrder(e: Value, items: seq<Item>)
    requires e.items.EnvelopeItems?
    ensures AddedAll(e, items).items == EnvelopeItems(e.items.items + items)
    ensures AddedAll(e, items).headers
            == if e.headers.eventId.Some? then e.headers else e.headers.(eventId := FirstEventId(items))
  {
    if items == [] {
      assert e.items.items + [] == e.items.items;
    } else {
      var front, last := items[..|items| - 1], items[|items| - 1];
      AddedAllKeepsOrder(e, front);
      assert front + [last] == items;
      FirstEventIdOfLonger(front, last);
      assert (e.items.items + front) + [last] == e.items.items + items;
    }
  }

  // ----- writing

  const DEFAULT_CONTENT_TYPE: Text := Ascii("application/octet-stream")
  const LOGS_CONTENT_TYPE: Text := Ascii("application/vnd.sentry.") + Ascii("items.log+json")
  const METRICS_CONTENT_TYPE: Text := Ascii("application/vnd.sentry.") + Ascii("items.trace-metric+json")

  /** An attachment with the defaults that the writer fills in. */
  function AttachmentTypeOrDefault(a: Attachment): AttachmentType {
    a.ty.GetOr(Standard)
  }

  function ContentTypeOrDefault(a: Attachment): Text {
    a.contentType.GetOr(DEFAULT_CONTENT_TYPE)
  }

  /** An attachment's header line, a newline and its buffer. */
  function WrittenAttachment(a: Attachment): Text {
    AttachmentLine(|a.buffer|, a.filename, AttachmentTypeOrDefault(a), ContentTypeOrDefault(a))
    + [NEWLINE] + a.buffer
  }

  /** The header line of a document that takes `length` bytes. */
  function DocumentLine(body: Body, length: nat): Text {
    match body
    case Logs(entries) => ContainerLine(LogsType, |entries|, LOGS_CONTENT_TYPE)
    case Metrics(entries) => ContainerLine(MetricsType, |entries|, METRICS_CONTENT_TYPE)
    case _ => SizedLine(BodyType(body), length)
  }

  function WrittenItem(codec: Codec, item: Item): Text {
    match item
    case Raw => []
    case Attached(a) => WrittenAttachment(a) + [NEWLINE]
    case Document(body) =>
      var text := codec.printBody(body);
      DocumentLine(body, |text|) + [NEWLINE] + text + [NEWLINE]
  }

  function WrittenItems(codec: Codec, items: seq<Item>): Text
    decreases |items|
  {
    if items == [] then []
    else WrittenItems(codec, items[..|items| - 1]) + WrittenItem(codec, items[|items| - 1])
  }

  function Written(codec: Codec, e: Value): Text {
    match e.items
    case RawBytes(bytes) => bytes
    case EnvelopeItems(items) => codec.printHeaders(e.headers) + [NEWLINE] + WrittenItems(codec, items)
  }

  lemma WrittenNothing(codec: Codec, items: seq<Item>)
    ensures WrittenItems(codec, items[..0]) == []
  {
  }

  lemma WrittenOneMore(codec: Codec, items: seq<Item>, i: nat)
    requires i < |items|
    ensures WrittenItems(codec, items[..i + 1]) == WrittenItems(codec, items[..i]) + WrittenItem(codec, items[i])
  {
    assert items[..i + 1][..i] == items[..i];
  }

  // ----- filtering

  /** A filter with a state of its own, which both of its callbacks may change. */
  datatype ItemFilter<!S> = ItemFilter(keep: (S, Item) -> (bool, S), onFiltered: (S, Item) -> S)

  /** What one pass over some items leaves: the items kept, the items reported, and the filter's state. */
  datatype Pass<S> = Pass(kept: seq<Item>, reported: seq<Item>, state: S)

  function FirstPass<S>(filter: ItemFilter<S>, state: S, items: seq<Item>): Pass<S>
    decreases |items|
  {
    if items == [] then Pass([], [], state) else
    var before := FirstPass(filter, state, items[..|items| - 1]);
    var item := items[|items| - 1];
    var (keep, state') := filter.keep(before.state, item);
    if keep then Pass(before.kept + [item], before.reported, state')
    else Pass(before.kept, before.reported + [item], filter.onFiltered(state', item))
  }

  /** The second pass drops every attachment. */
  function SecondPass<S>(filter: ItemFilter<S>, state: S, items: seq<Item>): Pass<S>
    decreases |items|
  {
    if items == [] then Pass([], [], state) else
    var before := SecondPass(filter, state, items[..|items| - 1]);
    var item := items[|items| - 1];
    if item.Attached? then Pass(before.kept, before.reported + [item], filter.onFiltered(before.state, item))
    else before.(kept := before.kept + [item])
  }

  lemma {:induction false} SecondPassAddsNoId<S>(filter: ItemFilter<S>, state: S, items: seq<Item>)
    requires FirstEventId(items).None?
    ensures FirstEventId(SecondPass(filter, state, items).kept).None?
    decreases |items|
  {
    if items != [] {
      var last := |items| - 1;
      assert items == items[..last] + [items[last]];
      FirstEventIdOfLonger(items[..last], items[last]);
      SecondPassAddsNoId(filter, state, items[..last]);
      FirstEventIdOfLonger(SecondPass(filter, state, items[..last]).kept, items[last]);
    }
  }

  /** The loop of the second pass. */
  method RemoveAttachments<S>(filter: ItemFilter<S>, init: S, items: seq<Item>) returns (pass: Pass<S>)
    ensures pass == SecondPass(filter, init, items)
    ensures FirstEventId(items).None? ==> FirstEventId(pass.kept).None?
  {
    var newItems: seq<Item>, reported, state := [], [], init;
    for i := 0 to |items|
      invariant Pass(newItems, reported, state) == SecondPass(filter, init, items[..i])
    {
      assert items[..i + 1][..i] == items[..i];
      match items[i] {
        case Attached(_) =>
          reported := reported + [items[i]];
          state := filter.onFiltered(state, items[i]);
        case _ => newItems := newItems + [items[i]];
      }
    }
    assert items[..|items|] == items;
    pass := Pass(newItems, reported, state);
    if FirstEventId(items).None? {
      SecondPassAddsNoId(filter, init, items);
    }
  }

  function BothPasses<S>(filter: ItemFilter<S>, state: S, items: seq<Item>): Pass<S> {
    var first := FirstPass(filter, state, items);
    if FirstEventId(first.kept).Some? then first else
    var second := SecondPass(filter, first.state, first.kept);
    second.(reported := first.reported + second.reported)
  }

  /** The envelope that filtering leaves: its headers are new and hold at most an event id. */
  function FilteredValue(kept: seq<Item>): Value {
    Value(NO_HEADERS.(eventId := FirstEventId(kept)), EnvelopeItems(kept))
  }

  // ----- the envelope and its methods

  class Envelope {
    var headers: Headers
    var items: Items

    function Contents(): Value
      reads this
    {
      Value(headers, items)
    }

    constructor ()
      ensures Contents() == EMPTY
    {
      headers, items := NO_HEADERS, EnvelopeItems([]);
    }

    constructor FromBytesRaw(bytes: seq<byte>)
      ensures Contents() == Value(NO_HEADERS, RawBytes(bytes))
    {
      headers, items := NO_HEADERS, RawBytes(bytes);
    }

    method AddItem(item: Item)
      modifies this
      ensures Contents() == Added(old(Contents()), item)
    {
      if items.RawBytes? {
        return;
      }
      if headers.eventId.None? {
        match item
        case Document(Event(eventId, _)) => headers := headers.(eventId := Some(eventId));
        case Document(Transaction(eventId, _)) => headers := headers.(eventId := Some(eventId));
        case _ =>
      }
      items := EnvelopeItems(items.items + [item]);
    }

    /** Writes the attachment's part of an envelope after what was already written. */
    static method WriteAttachment(a: Attachment, written: Text) returns (out: Text)
      ensures out == written + WrittenAttachment(a)
    {
      var attachmentType := if a.ty.Some? then a.ty.value else Standard;
      var contentType := if a.contentType.Some? then a.contentType.value else DEFAULT_CONTENT_TYPE;
      out := written + AttachmentLine(|a.buffer|, a.filename, attachmentType, contentType);
      out := out + [NEWLINE];
      out := out + a.buffer;
      assert out == written + WrittenAttachment(a);
    }

    /** Writes a document's part, using a buffer that is handed over and handed back empty. */
    static method WriteDocument(codec: Codec, body: Body, written: Text, buffer: Text)
      returns (out: Text, itemBuf: Text)
      requires buffer == []
      ensures out == written + WrittenItem(codec, Document(body))
      ensures itemBuf == []
    {
      hide ContainerLine, SizedLine;
      itemBuf := buffer + codec.printBody(body);
      assert itemBuf == codec.printBody(body);
      match body {
        case Logs(entries) =>
          out := written + ContainerLine(LogsType, |entries|, LOGS_CONTENT_TYPE);
        case Metrics(entries) =>
          out := written + ContainerLine(MetricsType, |entries|, METRICS_CONTENT_TYPE);
        case _ =>
          out := written + SizedLine(BodyType(body), |itemBuf|);
      }
      assert out == written + DocumentLine(body, |itemBuf|);
      out := out + [NEWLINE] + itemBuf + [NEWLINE];
      assert out == written + (DocumentLine(body, |itemBuf|) + [NEWLINE] + itemBuf + [NEWLINE]);
      itemBuf := [];
    }

    /** Writes one item; a raw item leaves no trace. */
    static method WriteItem(codec: Codec, item: Item, written: Text, buffer: Text) returns (out: Text, itemBuf: Text)
      requires buffer == []
      ensures out == written + WrittenItem(codec, item)
      ensures itemBuf == []
    {
      out, itemBuf := written, buffer;
      match item {
        case Attached(a) =>
          out := WriteAttachment(a, out);
          out := out + [NEWLINE];
          assert out == written + (WrittenAttachment(a) + [NEWLINE]);
        case Raw =>
          assert out == written + [];
        case Document(body) =>
          out, itemBuf := WriteDocument(codec, body, out, itemBuf);
      }
    }

    method ToWriter(codec: Codec) returns (out: Text)
      ensures out == Written(codec, Contents())
    {
      if items.RawBytes? {
        return items.bytes;
      }
      out := codec.printHeaders(headers) + [NEWLINE];
      ghost var start := out;
      var itemBuf: Text := [];
      var list := items.items;
      hide WrittenItems, WrittenItem;
      ghost var body: Text := [];
      WrittenNothing(codec, list);
      for i := 0 to |list|
        invariant itemBuf == []
        invariant out == start + body
        invariant body == WrittenItems(codec, list[..i])
      {
        out, itemBuf := WriteItem(codec, list[i], out, itemBuf);
        WrittenOneMore(codec, list, i);
        Associate(start, body, WrittenItem(codec, list[i]));
        body := body + WrittenItem(codec, list[i]);
      }
      assert list[..|list|] == list;
    }

    /** Consumes the envelope; `kept` is null when nothing remains. */
    method Filter<S>(filter: ItemFilter<S>, init: S) returns (kept: Envelope?, reported: seq<Item>, state: S)
      ensures items.EnvelopeItems? ==>
                var pass := BothPasses(filter, init, items.items);
                && reported == pass.reported && state == pass.state
                && (kept == null <==> pass.kept == [])
                && (kept != null ==> kept.Contents() == FilteredValue(pass.kept))
      ensures items.RawBytes? ==>
                var (keep, state') := filter.keep(init, Raw);
                && (keep ==> kept == this && reported == [] && state == state')
                && (!keep ==> kept == null && reported == [Raw] && state == filter.onFiltered(state', Raw))
      ensures kept == this || kept == null || fresh(kept)
    {
      state := init;
      reported := [];
      if items.RawBytes? {
        var (keep, state') := filter.keep(state, Raw);
        state := state';
        if keep {
          return this, reported, state;
        }
        state := filter.onFiltered(state, Raw);
        return null, [Raw], state;
      }

      var filtered := new Envelope();
      var list := items.items;
      for i := 0 to |list|
        invariant fresh(filtered) && filtered.items.EnvelopeItems?
        invariant Pass(filtered.items.items, reported, state) == FirstPass(filter, init, list[..i])
        invariant filtered.headers == NO_HEADERS.(eventId := FirstEventId(filtered.items.items))
      {
        assert list[..i + 1][..i] == list[..i];
        var (keep, state') := filter.keep(state, list[i]);
        state := state';
        if keep {
          FirstEventIdOfLonger(filtered.items.items, list[i]);
          filtered.AddItem(list[i]);
        } else {
          reported := reported + [list[i]];
          state := filter.onFiltered(state, list[i]);
        }
      }
      assert list[..|list|] == list;

      if filtered.headers.eventId.None? {
        var pass := RemoveAttachments(filter, state, filtered.items.items);
        filtered.items := EnvelopeItems(pass.kept);
        reported := reported + pass.reported;
        state := pass.state;
      }

      kept := if filtered.items.items == [] then null else filtered;
    }
  }
}
