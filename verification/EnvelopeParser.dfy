/** Parsing envelopes from byte slices, with the machine arithmetic that the parser relies on. */
module EnvelopeParser {
  import opened Wrappers
  import opened Bytes
  import opened Json
  import opened ItemHeader
  import opened Envelopes

  datatype EnvelopeError =
    | UnexpectedEof
    | MissingHeader
    | MissingItemHeader
    | MissingNewline
    | InvalidHeader
    | InvalidItemHeader
    | InvalidItemPayload

  // ----- machine arithmetic and slicing

  function CheckedAdd(a: usize, b: usize): Option<usize> {
    if a + b <= USIZE_MAX then Some(a + b) else None
  }

  function SaturatingAdd(a: usize, b: usize): usize {
    if a + b <= USIZE_MAX then a + b else USIZE_MAX
  }

  function SaturatingSub(a: usize, b: usize): usize {
    if a < b then 0 else a - b
  }

  function Min(a: usize, b: usize): usize {
    if a <= b then a else b
  }

  function GetFrom(slice: Text, start: usize): Option<Text> {
    if start <= |slice| then Some(slice[start..]) else None
  }

  function GetRange(slice: Text, start: usize, end: usize): Option<Text> {
    if start <= end <= |slice| then Some(slice[start..end]) else None
  }

  // ----- the parser

  /** A byte at the offset must be a newline; past the end there is nothing to require. */
  function RequireTermination(slice: Text, offset: usize): Result<(), EnvelopeError> {
    if offset >= |slice| || slice[offset] == NEWLINE then Ok(()) else Err(MissingNewline)
  }

  /** The envelope headers on the first line, and where the items start. */
  function ParseHeaders(codec: Codec, slice: Text): (r: Result<(Headers, usize), EnvelopeError>)
    requires |slice| <= ISIZE_MAX
    ensures r.Ok? ==> 1 <= r.value.1 <= |slice| + 1
  {
    var firstLine := slice[..LineEnd(slice)];
    match codec.readHeaders(firstLine)
    case None => Err(InvalidHeader)
    case Some(headers) =>
      var offset: usize := |firstLine|;
      var _ :- RequireTermination(slice, offset);
      Ok((headers, CheckedAdd(offset, 1).value))
  }

  /** Where the payload starts, for a header that ends at `headerEnd`. */
  function PayloadStart(slice: Text, headerEnd: usize): (start: usize)
    requires 0 < headerEnd <= |slice| <= ISIZE_MAX
    ensures start == if headerEnd < |slice| then headerEnd + 1 else |slice|
  {
    CheckedAdd(Min(headerEnd, SaturatingSub(|slice|, 1)), 1).value
  }

  /** Where the payload ends: behind its declared length, or at the end of its line. */
  function PayloadEnd(slice: Text, start: usize, length: Option<usize>): (r: Result<usize, EnvelopeError>)
    requires start <= |slice| <= ISIZE_MAX
    ensures r.Ok? ==> start <= r.value <= |slice|
  {
    match length
    case Some(len) =>
      var end := SaturatingAdd(start, len);
      if |slice| < end then Err(UnexpectedEof) else
      var _ :- RequireTermination(slice, end);
      Ok(end)
    case None =>
      // `start` is never past the end, so the slice from there on always exists.
      var range := GetFrom(slice, start).value;
      var position := LineEnd(range);
      if position < |range| then Ok(CheckedAdd(start, position).value) else Ok(|slice|)
  }

  function ReadItem(codec: Codec, header: Header, payload: Text): Option<Item> {
    if header.ty == AttachmentItemType then
      Some(Attached(Attachment(payload, header.filename.GetOr([]), header.contentType, header.attachmentType)))
    else
      match codec.readBody(header.ty, payload)
      case Some(body) => Some(Document(body))
      case None => None
  }

  /** The item at the start of the slice, and the offset at which parsing goes on. */
  function ParseItem(codec: Codec, slice: Text): (r: Result<(Item, usize), EnvelopeError>)
    requires |slice| <= ISIZE_MAX
    ensures r.Ok? ==> 1 <= r.value.1 <= |slice| + 1
  {
    match DecodeHeader(slice)
    case EndOfInput => Err(UnexpectedEof)
    case Malformed => Err(InvalidItemHeader)
    case Found(header, headerEnd) =>
      var _ :- RequireTermination(slice, headerEnd);
      var start := PayloadStart(slice, headerEnd);
      var end :- PayloadEnd(slice, start, header.length);
      var payload := GetRange(slice, start, end).value;
      match ReadItem(codec, header, payload)
      case None => Err(InvalidItemPayload)
      case Some(item) => Ok((item, CheckedAdd(end, 1).value))
  }

  /** The items, put before those that were found. */
  function Prepended(items: seq<Item>, found: Result<seq<Item>, EnvelopeError>): Result<seq<Item>, EnvelopeError> {
    match found
    case Ok(rest) => Ok(items + rest)
    case Err(error) => Err(error)
  }

  lemma PrependedTwice(items: seq<Item>, item: Item, found: Result<seq<Item>, EnvelopeError>)
    ensures Prepended([], found) == found
    ensures Prepended(items, Prepended([item], found)) == Prepended(items + [item], found)
  {
    if found.Ok? {
      assert [] + found.value == found.value;
      assert items + ([item] + found.value) == (items + [item]) + found.value;
    }
  }

  /** The items from `offset` on. */
  function ItemsFrom(codec: Codec, slice: Text, offset: usize): (r: Result<seq<Item>, EnvelopeError>)
    requires offset <= |slice| + 1 && |slice| <= ISIZE_MAX
    decreases |slice| + 1 - offset
  {
    if offset >= |slice| then Ok([]) else
    var (item, length) :- ParseItem(codec, slice[offset..]);
    Prepended([item], ItemsFrom(codec, slice, CheckedAdd(offset, length).value))
  }

  /** The loop over the items: it never leaves the slice, and each round brings it closer to the end. */
  method ParseItems(codec: Codec, slice: Text, start: usize) returns (r: Result<seq<Item>, EnvelopeError>)
    requires start <= |slice| + 1 && |slice| <= ISIZE_MAX
    ensures r == ItemsFrom(codec, slice, start)
  {
    hide ParseItem;
    var items: seq<Item> := [];
    var offset := start;
    PrependedTwice([], Raw, ItemsFrom(codec, slice, start));
    while offset < |slice|
      invariant offset <= |slice| + 1
      invariant ItemsFrom(codec, slice, start) == Prepended(items, ItemsFrom(codec, slice, offset))
      decreases |slice| + 1 - offset
    {
      var bytes := GetFrom(slice, offset).value;
      match ParseItem(codec, bytes) {
        case Err(error) => return Err(error);
        case Ok((item, length)) =>
          PrependedTwice(items, item, ItemsFrom(codec, slice, offset + length));
          offset := CheckedAdd(offset, length).value;
          items := items + [item];
      }
    }
    assert items + [] == items;
    return Ok(items);
  }

  function Parsed(codec: Codec, slice: Text): Result<Value, EnvelopeError>
    requires |slice| <= ISIZE_MAX
  {
    var (headers, offset) :- ParseHeaders(codec, slice);
    var items :- ItemsFrom(codec, slice, offset);
    Ok(AddedAll(Value(headers, EnvelopeItems([])), items))
  }

  method FromSlice(codec: Codec, slice: Text) returns (r: Result<Envelope, EnvelopeError>)
    requires |slice| <= ISIZE_MAX
    ensures match Parsed(codec, slice)
            case Ok(value) => r.Ok? && fresh(r.value) && r.value.Contents() == value
            case Err(error) => r == Err(error)
  {
    hide ParseItem;
    var parsed := ParseHeaders(codec, slice);
    if parsed.Err? {
      return Err(parsed.error);
    }
    var (headers, offset) := parsed.value;
    var list := ParseItems(codec, slice, offset);
    if list.Err? {
      return Err(list.error);
    }
    var items := list.value;
    var envelope := new Envelope();
    envelope.headers := headers;
    for i := 0 to |items|
      invariant fresh(envelope)
      invariant envelope.Contents() == AddedAll(Value(headers, EnvelopeItems([])), items[..i])
    {
      assert items[..i + 1][..i] == items[..i];
      envelope.AddItem(items[i]);
    }
    assert items[..|items|] == items;
    return Ok(envelope);
  }

  // ----- what the parser promises

  /**
   A declared length is honoured exactly: the saturating addition cannot let one through that reaches
   past the end of the slice, and one that fits must be followed by a newline or by nothing.
   */
  lemma DeclaredLengthIsExact(slice: Text, start: usize, length: usize)
    requires start <= |slice| <= ISIZE_MAX
    ensures PayloadEnd(slice, start, Some(length))
            == if start + length > |slice| then Err(UnexpectedEof)
               else if start + length == |slice| || slice[start + length] == NEWLINE then Ok(start + length)
               else Err(MissingNewline)
  {
  }

  /** Without a declared length the payload is the rest of its line, the newline left out. */
  lemma ImplicitLengthIsTheLine(slice: Text, start: usize)
    requires start <= |slice| <= ISIZE_MAX
    ensures var end := PayloadEnd(slice, start, None);
            && end.Ok?
            && NEWLINE !in slice[start..end.value]
            && (end.value < |slice| ==> slice[end.value] == NEWLINE)
  {
    var range := slice[start..];
    var position := LineEnd(range);
    if position < |range| {
      assert slice[start..start + position] == range[..position];
    }
  }

  /** The item is what its header and its payload say; an attachment without a name has an empty one. */
  predicate Holds(codec: Codec, item: Item, header: Header, payload: Text) {
    if header.ty == AttachmentItemType then
      && item.Attached?
      && item.attachment.buffer == payload
      && (header.filename == None ==> item.attachment.filename == [])
      && (header.filename != None ==> Some(item.attachment.filename) == header.filename)
      && item.attachment.contentType == header.contentType
      && item.attachment.ty == header.attachmentType
    else
      item.Document? && codec.readBody(header.ty, payload) == Some(item.body)
  }

  /**
   An accepted item takes up a stretch of the slice: a header, a newline, a payload and a newline,
   where the last newline may be missing at the very end.
   */
  lemma AcceptedItemLayout(codec: Codec, slice: Text)
    requires |slice| <= ISIZE_MAX && ParseItem(codec, slice).Ok?
    ensures var (item, next) := ParseItem(codec, slice).value;
            var header, headerEnd := DecodeHeader(slice).header, DecodeHeader(slice).end;
            var start := PayloadStart(slice, headerEnd);
            && (headerEnd < |slice| ==> slice[headerEnd] == NEWLINE)
            && headerEnd <= start <= next - 1 <= |slice|
            && (next - 1 < |slice| ==> slice[next - 1] == NEWLINE)
            && (header.length.Some? ==> next - 1 == start + header.length.value)
            && (header.length.None? ==> NEWLINE !in slice[start..next - 1])
            && Holds(codec, item, header, slice[start..next - 1])
  {
    hide DecodeHeader;
    ImplicitLengthIsTheLine(slice, PayloadStart(slice, DecodeHeader(slice).end));
  }

  /** What is wrong with an item that is refused. */
  lemma RefusedItem(codec: Codec, slice: Text)
    requires |slice| <= ISIZE_MAX && ParseItem(codec, slice).Err?
    ensures var scan := DecodeHeader(slice);
            var start := if scan.Found? then PayloadStart(slice, scan.end) else 0;
            var length := if scan.Found? then scan.header.length else None;
            match ParseItem(codec, slice).error
            case InvalidItemHeader => scan == Malformed
            case UnexpectedEof => scan == EndOfInput || (length.Some? && start + length.value > |slice|)
            case MissingNewline =>
              && scan.Found?
              && ((scan.end < |slice| && slice[scan.end] != NEWLINE)
                  || (length.Some? && start + length.value < |slice| && slice[start + length.value] != NEWLINE))
            case InvalidItemPayload =>
              && scan.Found? && scan.header.ty != AttachmentItemType
              && exists end :: start <= end <= |slice| && codec.readBody(scan.header.ty, slice[start..end]) == None
            case _ => false
  {
    hide DecodeHeader;
    var scan := DecodeHeader(slice);
    if scan.Found? && ParseItem(codec, slice).error == InvalidItemPayload {
      var start := PayloadStart(slice, scan.end);
      var end := PayloadEnd(slice, start, scan.header.length).value;
      assert codec.readBody(scan.header.ty, slice[start..end]) == None;
    }
  }

  /** The headers are the first line, and the items begin behind its newline. */
  lemma HeadersAreTheFirstLine(codec: Codec, line: Text, rest: Text)
    requires NEWLINE !in line && (rest == [] || rest[0] == NEWLINE) && |line + rest| <= ISIZE_MAX
    ensures ParseHeaders(codec, line + rest)
            == match codec.readHeaders(line)
               case Some(headers) => Ok((headers, |line| + 1))
               case None => Err(InvalidHeader)
  {
    LineEndOfLine(line, rest);
    assert (line + rest)[..|line|] == line;
  }
}
