/** Stream READ pages (src/domains/stream.rs, `parse_stream_read_page_with_scope`). */
module StreamPages {
  import opened ByteStrings
  import opened Errors
  import opened Codec
  import opened WireLists
  import opened Patterns
  import opened StreamSelectors

  datatype StreamRecord = StreamRecord(
    offset: u64, areaOffset: Option<u64>, realmOffset: Option<u64>, globalOffset: Option<u64>,
    body: Blob, metadata: Option<Blob>, timestamp: u64)

  datatype FilteredReason = ServerFilter | Permission | Projection

  datatype Entry =
    | Event(record: StreamRecord)
    | Filtered(offset: u64, reason: Option<FilteredReason>)
    | FilteredRange(fromOffset: u64, toOffset: u64, reason: Option<FilteredReason>)

  datatype StreamReadItem = StreamReadItem(route: Blob, entry: Entry)

  datatype StreamReadCursor = StreamReadCursor(
    lastResourceOffset: u64, lastAreaOffset: Option<u64>, lastRealmOffset: Option<u64>,
    lastGlobalOffset: Option<u64>, hasMore: bool,
    cursorFingerprint: Option<u64>, capturedWatermark: Option<u64>)

  datatype StreamReadPage = StreamReadPage(items: seq<StreamReadItem>, cursor: StreamReadCursor)

  const EMPTY_PAGE := StreamReadPage([], StreamReadCursor(0, None, None, None, false, None, None))

  // ---------------------------------------------------------------- fields

  /** An optional field that only pages of a global selector carry. */
  function TakeGlobal(s: Bytes, global: bool): Result<(Option<u64>, Bytes)> {
    if global then TakeOptionalU64(s) else Ok((None, s))
  }

  function WriteGlobal(value: Option<u64>, rest: Bytes, global: bool): Bytes {
    if global then WriteOptionalU64(value, rest) else rest
  }

  lemma GlobalReads(value: Option<u64>, rest: Bytes, global: bool)
    requires !global ==> value == None
    ensures TakeGlobal(WriteGlobal(value, rest, global), global) == Ok((value, rest))
  {
    OptionalU64Reads(value, rest);
  }

  lemma GlobalWas(s: Bytes, global: bool)
    requires TakeGlobal(s, global).Ok?
    ensures var (value, rest) := TakeGlobal(s, global).value;
            (!global ==> value == None) && s == WriteGlobal(value, rest, global)
  {
    if global {
      OptionalU64Was(s);
    }
  }

  function TakeOptionalBlob(s: Bytes): Result<(Option<Blob>, Bytes)> {
    var (some, s1) :- TakeBool(s);
    if !some then Ok((None, s1))
    else
      var (b, rest) :- TakeBlob(s1);
      Ok((Some(b), rest))
  }

  function WriteOptionalBlob(value: Option<Blob>, rest: Bytes): Bytes {
    match value
    case None => WriteBool(false, rest)
    case Some(b) => WriteBool(true, WriteBlob(b, rest))
  }

  lemma OptionalBlobReads(value: Option<Blob>, rest: Bytes)
    ensures TakeOptionalBlob(WriteOptionalBlob(value, rest)) == Ok((value, rest))
  {
    match value
    case None => BoolReads(false, rest);
    case Some(b) =>
      BoolReads(true, WriteBlob(b, rest));
      BlobReads(b, rest);
  }

  lemma OptionalBlobWas(s: Bytes)
    requires TakeOptionalBlob(s).Ok?
    ensures s == WriteOptionalBlob(TakeOptionalBlob(s).value.0, TakeOptionalBlob(s).value.1)
  {
    BoolWas(s);
    if TakeBool(s).value.0 {
      BlobWas(TakeBool(s).value.1);
    }
  }

  function TakeReason(s: Bytes): Result<(Option<FilteredReason>, Bytes)> {
    var (tag, rest) :- TakeU8(s);
    match tag
    case 0 => Ok((None, rest))
    case 1 => Ok((Some(ServerFilter), rest))
    case 2 => Ok((Some(Permission), rest))
    case 3 => Ok((Some(Projection), rest))
    case _ => Err(Protocol)
  }

  function ReasonTag(reason: Option<FilteredReason>): byte {
    match reason
    case None => 0
    case Some(ServerFilter) => 1
    case Some(Permission) => 2
    case Some(Projection) => 3
  }

  lemma ReasonReads(reason: Option<FilteredReason>, rest: Bytes)
    ensures TakeReason([ReasonTag(reason)] + rest) == Ok((reason, rest))
  {
    TakeU8Of(ReasonTag(reason), rest);
  }

  lemma ReasonWas(s: Bytes)
    requires TakeReason(s).Ok?
    ensures s == [ReasonTag(TakeReason(s).value.0)] + TakeReason(s).value.1
  {
    TakeU8Inverse(s);
  }

  // ---------------------------------------------------------------- records

  /** The offsets in front of a record's body. */
  datatype Offsets = Offsets(offset: u64, area: Option<u64>, realm: Option<u64>, global: Option<u64>)

  function TakeOffsets(s: Bytes, global: bool): Result<(Offsets, Bytes)> {
    var (offset, s1) :- TakeU64(s);
    var (area, s2) :- TakeOptionalU64(s1);
    var (realm, s3) :- TakeOptionalU64(s2);
    var (globalOffset, rest) :- TakeGlobal(s3, global);
    Ok((Offsets(offset, area, realm, globalOffset), rest))
  }

  function WriteOffsets(o: Offsets, rest: Bytes, global: bool): Bytes {
    BE64(o.offset) + WriteOptionalU64(o.area, WriteOptionalU64(o.realm, WriteGlobal(o.global, rest, global)))
  }

  lemma OffsetsRead(o: Offsets, rest: Bytes, global: bool)
    requires !global ==> o.global == None
    ensures TakeOffsets(WriteOffsets(o, rest, global), global) == Ok((o, rest))
  {
    var s3 := WriteGlobal(o.global, rest, global);
    var s2 := WriteOptionalU64(o.realm, s3);
    TakeU64Of(o.offset, WriteOptionalU64(o.area, s2));
    OptionalU64Reads(o.area, s2);
    OptionalU64Reads(o.realm, s3);
    GlobalReads(o.global, rest, global);
  }

  lemma OffsetsWere(s: Bytes, global: bool)
    requires TakeOffsets(s, global).Ok?
    ensures var (o, rest) := TakeOffsets(s, global).value;
            (!global ==> o.global == None) && s == WriteOffsets(o, rest, global)
  {
    TakeU64Inverse(s);
    var s1 := TakeU64(s).value.1;
    OptionalU64Was(s1);
    var s2 := TakeOptionalU64(s1).value.1;
    OptionalU64Was(s2);
    GlobalWas(TakeOptionalU64(s2).value.1, global);
  }

  function TakeRecord(s: Bytes, global: bool): Result<(StreamRecord, Bytes)> {
    var (o, s1) :- TakeOffsets(s, global);
    var (body, s2) :- TakeBlob(s1);
    var (metadata, s3) :- TakeOptionalBlob(s2);
    var (timestamp, rest) :- TakeU64(s3);
    Ok((StreamRecord(o.offset, o.area, o.realm, o.global, body, metadata, timestamp), rest))
  }

  function WriteRecord(r: StreamRecord, rest: Bytes, global: bool): Bytes {
    WriteOffsets(Offsets(r.offset, r.areaOffset, r.realmOffset, r.globalOffset),
                 WriteBlob(r.body, WriteOptionalBlob(r.metadata, BE64(r.timestamp) + rest)), global)
  }

  lemma RecordReads(r: StreamRecord, rest: Bytes, global: bool)
    requires !global ==> r.globalOffset == None
    ensures TakeRecord(WriteRecord(r, rest, global), global) == Ok((r, rest))
  {
    hide TakeOffsets, WriteOffsets, TakeOptionalBlob, WriteOptionalBlob, TakeBlob, WriteBlob;
    var s3 := BE64(r.timestamp) + rest;
    var s2 := WriteOptionalBlob(r.metadata, s3);
    OffsetsRead(Offsets(r.offset, r.areaOffset, r.realmOffset, r.globalOffset), WriteBlob(r.body, s2), global);
    BlobReads(r.body, s2);
    OptionalBlobReads(r.metadata, s3);
    TakeU64Of(r.timestamp, rest);
  }

  lemma RecordWas(s: Bytes, global: bool)
    requires TakeRecord(s, global).Ok?
    ensures var (r, rest) := TakeRecord(s, global).value;
            (!global ==> r.globalOffset == None) && s == WriteRecord(r, rest, global)
  {
    hide TakeOptionalBlob, WriteOptionalBlob, TakeBlob, WriteBlob;
    OffsetsWere(s, global);
    var s1 := TakeOffsets(s, global).value.1;
    BlobWas(s1);
    var s2 := TakeBlob(s1).value.1;
    OptionalBlobWas(s2);
    TakeU64Inverse(TakeOptionalBlob(s2).value.1);
  }

  // ---------------------------------------------------------------- items

  function TakeFiltered(s: Bytes): Result<(Entry, Bytes)> {
    var (offset, s1) :- TakeU64(s);
    var (reason, rest) :- TakeReason(s1);
    Ok((Filtered(offset, reason), rest))
  }

  function TakeFilteredRange(s: Bytes): Result<(Entry, Bytes)> {
    var (fromOffset, s1) :- TakeU64(s);
    var (toOffset, s2) :- TakeU64(s1);
    var (reason, rest) :- TakeReason(s2);
    Ok((FilteredRange(fromOffset, toOffset, reason), rest))
  }

  function TakeEntry(s: Bytes, global: bool): Result<(Entry, Bytes)> {
    var (tag, s1) :- TakeU8(s);
    match tag
    case 0 => (var (record, rest) :- TakeRecord(s1, global); Ok((Event(record), rest)))
    case 1 => TakeFiltered(s1)
    case 2 => TakeFilteredRange(s1)
    case _ => Err(Protocol)
  }

  function WriteEntry(e: Entry, rest: Bytes, global: bool): Bytes {
    match e
    case Event(record) => [0] + WriteRecord(record, rest, global)
    case Filtered(offset, reason) => [1] + (BE64(offset) + ([ReasonTag(reason)] + rest))
    case FilteredRange(fromOffset, toOffset, reason) =>
      [2] + (BE64(fromOffset) + (BE64(toOffset) + ([ReasonTag(reason)] + rest)))
  }

  predicate InScope(e: Entry, global: bool) {
    e.Event? && !global ==> e.record.globalOffset == None
  }

  lemma EntryReads(e: Entry, rest: Bytes, global: bool)
    requires InScope(e, global)
    ensures TakeEntry(WriteEntry(e, rest, global), global) == Ok((e, rest))
  {
    hide TakeRecord, WriteRecord;
    match e
    case Event(record) =>
      TakeU8Of(0, WriteRecord(record, rest, global));
      RecordReads(record, rest, global);
    case Filtered(offset, reason) =>
      var s2 := [ReasonTag(reason)] + rest;
      TakeU8Of(1, BE64(offset) + s2);
      TakeU64Of(offset, s2);
      ReasonReads(reason, rest);
    case FilteredRange(fromOffset, toOffset, reason) =>
      var s3 := [ReasonTag(reason)] + rest;
      TakeU8Of(2, BE64(fromOffset) + (BE64(toOffset) + s3));
      TakeU64Of(fromOffset, BE64(toOffset) + s3);
      TakeU64Of(toOffset, s3);
      ReasonReads(reason, rest);
  }

  lemma EntryWas(s: Bytes, global: bool)
    requires TakeEntry(s, global).Ok?
    ensures var (e, rest) := TakeEntry(s, global).value; InScope(e, global) && s == WriteEntry(e, rest, global)
  {
    hide TakeRecord, WriteRecord;
    TakeU8Inverse(s);
    var s1 := s[1..];
    match s[0]
    case 0 => RecordWas(s1, global);
    case 1 =>
      TakeU64Inverse(s1);
      ReasonWas(TakeU64(s1).value.1);
    case 2 =>
      TakeU64Inverse(s1);
      var s2 := TakeU64(s1).value.1;
      TakeU64Inverse(s2);
      ReasonWas(TakeU64(s2).value.1);
  }

  /** `validate_response_fixed_route` */
  predicate StreamRoute(route: Bytes) {
    FixedRoute(route, STREAM, 3)
  }

  function TakeItem(s: Bytes, global: bool): Result<(StreamReadItem, Bytes)> {
    var (route, s1) :- TakeText(s);
    if !StreamRoute(route) then Err(Protocol)
    else
      var (e, rest) :- TakeEntry(s1, global);
      Ok((StreamReadItem(route, e), rest))
  }

  function WriteItem(item: StreamReadItem, rest: Bytes, global: bool): Bytes {
    WriteBlob(item.route, WriteEntry(item.entry, rest, global))
  }

  predicate ValidItem(item: StreamReadItem, global: bool) {
    Utf8(item.route) && StreamRoute(item.route) && InScope(item.entry, global)
  }

  function ItemParser(global: bool): Parser<StreamReadItem> {
    s => TakeItem(s, global)
  }

  function ItemPrinter(global: bool): Printer<StreamReadItem> {
    (item, rest) => WriteItem(item, rest, global)
  }

  function ItemCheck(global: bool): StreamReadItem -> bool {
    item => ValidItem(item, global)
  }

  lemma ItemsMatch(global: bool)
    ensures Matching(ItemParser(global), ItemPrinter(global), ItemCheck(global))
  {
    hide TakeEntry, WriteEntry, StreamRoute, TakeText, WriteBlob, InScope;
    forall item, rest: Bytes | ValidItem(item, global)
      ensures TakeItem(WriteItem(item, rest, global), global) == Ok((item, rest))
    {
      BlobReads(item.route, WriteEntry(item.entry, rest, global));
      EntryReads(item.entry, rest, global);
    }
    forall s: Bytes | TakeItem(s, global).Ok?
      ensures var (item, rest) := TakeItem(s, global).value;
              ValidItem(item, global) && s == WriteItem(item, rest, global)
    {
      TextWas(s);
      EntryWas(TakeText(s).value.1, global);
    }
  }

  // ---------------------------------------------------------------- cursors

  function TakeCursor(s: Bytes, global: bool): Result<(StreamReadCursor, Bytes)> {
    var (o, s1) :- TakeOffsets(s, global);
    var (hasMore, s2) :- TakeBool(s1);
    var (fingerprint, s3) :- TakeGlobal(s2, global);
    var (watermark, rest) :- TakeGlobal(s3, global);
    Ok((StreamReadCursor(o.offset, o.area, o.realm, o.global, hasMore, fingerprint, watermark), rest))
  }

  function WriteCursor(c: StreamReadCursor, rest: Bytes, global: bool): Bytes {
    WriteOffsets(Offsets(c.lastResourceOffset, c.lastAreaOffset, c.lastRealmOffset, c.lastGlobalOffset),
                 WriteBool(c.hasMore,
                           WriteGlobal(c.cursorFingerprint, WriteGlobal(c.capturedWatermark, rest, global), global)),
                 global)
  }

  predicate CursorInScope(c: StreamReadCursor, global: bool) {
    !global ==> c.lastGlobalOffset == None && c.cursorFingerprint == None && c.capturedWatermark == None
  }

  lemma CursorReads(c: StreamReadCursor, rest: Bytes, global: bool)
    requires CursorInScope(c, global)
    ensures TakeCursor(WriteCursor(c, rest, global), global) == Ok((c, rest))
  {
    hide TakeOffsets, WriteOffsets, TakeGlobal, WriteGlobal, TakeBool, WriteBool;
    var s3 := WriteGlobal(c.capturedWatermark, rest, global);
    var s2 := WriteGlobal(c.cursorFingerprint, s3, global);
    OffsetsRead(Offsets(c.lastResourceOffset, c.lastAreaOffset, c.lastRealmOffset, c.lastGlobalOffset),
                WriteBool(c.hasMore, s2), global);
    BoolReads(c.hasMore, s2);
    GlobalReads(c.cursorFingerprint, s3, global);
    GlobalReads(c.capturedWatermark, rest, global);
  }

  lemma CursorWas(s: Bytes, global: bool)
    requires TakeCursor(s, global).Ok?
    ensures var (c, rest) := TakeCursor(s, global).value; CursorInScope(c, global) && s == WriteCursor(c, rest, global)
  {
    hide TakeGlobal, WriteGlobal, TakeBool, WriteBool;
    OffsetsWere(s, global);
    var s1 := TakeOffsets(s, global).value.1;
    BoolWas(s1);
    var s2 := TakeBool(s1).value.1;
    GlobalWas(s2, global);
    GlobalWas(TakeGlobal(s2, global).value.1, global);
  }

  // ---------------------------------------------------------------- pages

  function TakePage(s: Bytes, global: bool): Result<StreamReadPage> {
    var (count, s1) :- TakeU32(s);
    var (items, s2) :- TakeMany(s1, count, [], ItemParser(global));
    var (cursor, rest) :- TakeCursor(s2, global);
    if rest == [] then Ok(StreamReadPage(items, cursor)) else Err(Protocol)
  }

  function Decoded(buf: Bytes, selector: Bytes): Result<StreamReadPage> {
    var scope :- Classify(selector);
    if buf == [] then Ok(EMPTY_PAGE) else TakePage(buf, scope == Global)
  }

  ghost predicate Printable(page: StreamReadPage, global: bool) {
    |page.items| < U32_LIMIT && AllValid(page.items, ItemCheck(global)) && CursorInScope(page.cursor, global)
  }

  function WritePage(page: StreamReadPage, global: bool): Bytes
    requires |page.items| < U32_LIMIT
  {
    BE32(|page.items|) + WriteMany(page.items, WriteCursor(page.cursor, [], global), ItemPrinter(global))
  }

  lemma PageReads(page: StreamReadPage, global: bool)
    requires Printable(page, global)
    ensures TakePage(WritePage(page, global), global) == Ok(page)
  {
    hide ItemParser, ItemPrinter, ItemCheck, TakeCursor, WriteCursor, CursorInScope, Matching;
    ItemsMatch(global);
    var tail := WriteCursor(page.cursor, [], global);
    TakeU32Of(|page.items|, WriteMany(page.items, tail, ItemPrinter(global)));
    ManyReads(page.items, tail, [], ItemParser(global), ItemPrinter(global), ItemCheck(global));
    assert [] + page.items == page.items;
    CursorReads(page.cursor, [], global);
  }

  lemma PageWas(s: Bytes, global: bool)
    requires TakePage(s, global).Ok?
    ensures Printable(TakePage(s, global).value, global) && s == WritePage(TakePage(s, global).value, global)
  {
    hide ItemParser, ItemPrinter, ItemCheck, TakeCursor, WriteCursor, CursorInScope, Matching;
    ItemsMatch(global);
    TakeU32Inverse(s);
    var (count, s1) := TakeU32(s).value;
    var more := ManyWere(s1, count, [], ItemParser(global), ItemPrinter(global), ItemCheck(global));
    assert [] + more == more;
    CursorWas(TakeMany(s1, count, [], ItemParser(global)).value.1, global);
  }

  /** No items, nothing read so far, and nothing more to read. */
  predicate IsEmptyPage(page: StreamReadPage) {
    && page.items == [] && page.cursor.lastResourceOffset == 0 && !page.cursor.hasMore
    && page.cursor.lastAreaOffset.None? && page.cursor.lastRealmOffset.None? && page.cursor.lastGlobalOffset.None?
    && page.cursor.cursorFingerprint.None? && page.cursor.capturedWatermark.None?
  }

  /**
   For each selector, the empty buffer is the empty page, and the other buffers decoded to a page are
   exactly the encodings, in the selector's scope, of pages whose routes are concrete stream routes.
   */
  lemma ReadPageLanguage(buf: Bytes, selector: Bytes, page: StreamReadPage)
    ensures Decoded(buf, selector) == Ok(page)
            <==> (&& Classify(selector).Ok?
                  && if buf == [] then IsEmptyPage(page)
                     else
                       var global := Classify(selector).value == Global;
                       Printable(page, global) && buf == WritePage(page, global))
  {
    hide Classify, TakePage, WritePage, CursorInScope, ItemCheck;
    if buf != [] && Classify(selector).Ok? {
      var global := Classify(selector).value == Global;
      if TakePage(buf, global) == Ok(page) {
        PageWas(buf, global);
      }
      if Printable(page, global) && buf == WritePage(page, global) {
        PageReads(page, global);
      }
    }
  }

  /** What is no page is refused with one of two errors, whatever is wrong with it. */
  lemma ReadPageFaults(buf: Bytes, selector: Bytes)
    ensures Decoded(buf, selector).Err? ==> Decoded(buf, selector).error == Codec || Decoded(buf, selector).error == Protocol
  {
    hide Scans, TakePage, PathSegments;
    PageFaults(buf, Classify(selector) == Ok(Global));
  }

  lemma PageFaults(s: Bytes, global: bool)
    ensures TakePage(s, global).Err? ==> TakePage(s, global).error == Codec || TakePage(s, global).error == Protocol
  {
    hide ItemParser, TakeCursor;
    if TakeU32(s).Ok? {
      ItemFaults(global);
      var (count, s1) := TakeU32(s).value;
      ManyFaults(s1, count, [], ItemParser(global));
      var items := TakeMany(s1, count, [], ItemParser(global));
      if items.Ok? {
        CursorFaults(items.value.1, global);
      }
    }
  }

  lemma CursorFaults(s: Bytes, global: bool)
    ensures TakeCursor(s, global).Err? ==> TakeCursor(s, global).error == Codec || TakeCursor(s, global).error == Protocol
  {
  }

  lemma ItemFaults(global: bool)
    ensures forall s :: ItemParser(global)(s).Err? ==> ItemParser(global)(s).error == Codec || ItemParser(global)(s).error == Protocol
  {
    hide StreamRoute, TakeEntry;
    EntryFaults(global);
  }

  lemma EntryFaults(global: bool)
    ensures forall s :: TakeEntry(s, global).Err? ==> TakeEntry(s, global).error == Codec || TakeEntry(s, global).error == Protocol
  {
  }

  // ---------------------------------------------------------------- the decoders

  method GetGlobal(d: PayloadDecoder, global: bool) returns (r: Result<Option<u64>>)
    requires d.Valid()
    modifies d`pos
    ensures d.Valid() && Reads(r, d.Rest(), TakeGlobal(old(d.Rest()), global))
  {
    if !global {
      return Ok(None);
    }
    r := GetOptionalU64(d);
  }

  method GetOptionalBlob(d: PayloadDecoder) returns (r: Result<Option<Blob>>)
    requires d.Valid()
    modifies d`pos
    ensures d.Valid() && Reads(r, d.Rest(), TakeOptionalBlob(old(d.Rest())))
  {
    var flag :- d.GetU8();
    if flag == 0 {
      return Ok(None);
    }
    if flag != 1 {
      return Err(Protocol);
    }
    var b :- GetBlob(d);
    r := Ok(Some(b));
  }

  method GetReason(d: PayloadDecoder) returns (r: Result<Option<FilteredReason>>)
    requires d.Valid()
    modifies d`pos
    ensures d.Valid() && Reads(r, d.Rest(), TakeReason(old(d.Rest())))
  {
    var tag :- d.GetU8();
    match tag
    case 0 => r := Ok(None);
    case 1 => r := Ok(Some(ServerFilter));
    case 2 => r := Ok(Some(Permission));
    case 3 => r := Ok(Some(Projection));
    case _ => r := Err(Protocol);
  }

  method GetOffsets(d: PayloadDecoder, global: bool) returns (r: Result<Offsets>)
    requires d.Valid()
    modifies d`pos
    ensures d.Valid() && Reads(r, d.Rest(), TakeOffsets(old(d.Rest()), global))
  {
    hide TakeU64, TakeOptionalU64, TakeGlobal;
    var offset :- d.GetU64();
    var area :- GetOptionalU64(d);
    var realm :- GetOptionalU64(d);
    var globalOffset :- GetGlobal(d, global);
    r := Ok(Offsets(offset, area, realm, globalOffset));
  }

  method DecodeRecord(d: PayloadDecoder, global: bool) returns (r: Result<StreamRecord>)
    requires d.Valid()
    modifies d`pos
    ensures d.Valid() && Reads(r, d.Rest(), TakeRecord(old(d.Rest()), global))
  {
    hide TakeU64, TakeOffsets, TakeBlob, TakeOptionalBlob;
    var o :- GetOffsets(d, global);
    var body :- GetBlob(d);
    var metadata :- GetOptionalBlob(d);
    var timestamp :- d.GetU64();
    r := Ok(StreamRecord(o.offset, o.area, o.realm, o.global, body, metadata, timestamp));
  }

  method DecodeEntry(d: PayloadDecoder, global: bool) returns (r: Result<Entry>)
    requires d.Valid()
    modifies d`pos
    ensures d.Valid() && Reads(r, d.Rest(), TakeEntry(old(d.Rest()), global))
  {
    hide TakeU64, TakeRecord, TakeReason;
    var tag :- d.GetU8();
    match tag
    case 0 =>
      var record :- DecodeRecord(d, global);
      r := Ok(Event(record));
    case 1 =>
      var offset :- d.GetU64();
      var reason :- GetReason(d);
      r := Ok(Filtered(offset, reason));
    case 2 =>
      var fromOffset :- d.GetU64();
      var toOffset :- d.GetU64();
      var reason :- GetReason(d);
      r := Ok(FilteredRange(fromOffset, toOffset, reason));
    case _ => r := Err(Protocol);
  }

  method DecodeItem(d: PayloadDecoder, global: bool) returns (r: Result<StreamReadItem>)
    requires d.Valid()
    modifies d`pos
    ensures d.Valid() && Reads(r, d.Rest(), TakeItem(old(d.Rest()), global))
  {
    hide TakeText, TakeEntry, FixedRoute;
    var route :- GetText(d);
    var checked := ValidateFixedRoute(route, STREAM, 3);
    if checked.Err? {
      return Err(Protocol);
    }
    var e :- DecodeEntry(d, global);
    r := Ok(StreamReadItem(route, e));
  }

  method DecodeCursor(d: PayloadDecoder, global: bool) returns (r: Result<StreamReadCursor>)
    requires d.Valid()
    modifies d`pos
    ensures d.Valid() && Reads(r, d.Rest(), TakeCursor(old(d.Rest()), global))
  {
    hide TakeOffsets, TakeBool, TakeGlobal;
    var o :- GetOffsets(d, global);
    var hasMore :- GetBool(d);
    var fingerprint :- GetGlobal(d, global);
    var watermark :- GetGlobal(d, global);
    r := Ok(StreamReadCursor(o.offset, o.area, o.realm, o.global, hasMore, fingerprint, watermark));
  }

  method ParseStreamReadPage(buf: Bytes, selector: Bytes) returns (r: Result<StreamReadPage>)
    ensures r == Decoded(buf, selector)
  {
    var scope :- ClassifyStreamSelector(selector);
    if buf == [] {
      return Ok(EMPTY_PAGE);
    }
    var d := new PayloadDecoder(buf);
    r := DecodePage(d, scope == Global);
  }

  method DecodePage(d: PayloadDecoder, global: bool) returns (r: Result<StreamReadPage>)
    requires d.Valid()
    modifies d`pos
    ensures r == TakePage(old(d.Rest()), global)
  {
    hide TakeItem, TakeCursor;
    var count :- d.GetU32();
    ghost var answer := TakeMany(d.Rest(), count, [], ItemParser(global));
    var items := [];
    for i := 0 to count
      invariant d.Valid() && answer == TakeMany(d.Rest(), count - i, items, ItemParser(global))
    {
      var item :- DecodeItem(d, global);
      items := items + [item];
    }
    var cursor :- DecodeCursor(d, global);
    var empty := d.IsEmpty();
    r := if empty then Ok(StreamReadPage(items, cursor)) else Err(Protocol);
  }

  // ---------------------------------------------------------------- room reserved

  /** The items that room is reserved for before the first is read: as many as are declared. */
  function Reserved(s: Bytes): nat {
    match TakeU32(s)
    case Ok((count, _)) => count
    case Err(_) => 0
  }

  /** A route's length, a tag, an offset and a reason: no item is shorter. */
  const LEAST_ITEM := 4 + 1 + 8 + 1

  lemma EntryTakesRoom(e: Entry, rest: Bytes, global: bool)
    ensures |WriteEntry(e, rest, global)| >= 10 + |rest|
  {
  }

  lemma {:induction false} ItemsTakeRoom(items: seq<StreamReadItem>, rest: Bytes, global: bool)
    ensures |WriteMany(items, rest, ItemPrinter(global))| >= LEAST_ITEM * |items| + |rest|
  {
    hide WriteEntry;
    if items != [] {
      ItemsTakeRoom(items[1..], rest, global);
      EntryTakesRoom(items[0].entry, WriteMany(items[1..], rest, ItemPrinter(global)), global);
    }
  }

  /** A count that the buffer has no room for is refused, but only after room was reserved for it. */
  lemma PlausibleCounts(s: Bytes, global: bool)
    requires TakePage(s, global).Ok?
    ensures Reserved(s) == |TakePage(s, global).value.items| && LEAST_ITEM * Reserved(s) <= |s|
  {
    hide TakeCursor, Matching, WriteItem, TakeItem;
    ItemsMatch(global);
    var (count, s1) := TakeU32(s).value;
    var more := ManyWere(s1, count, [], ItemParser(global), ItemPrinter(global), ItemCheck(global));
    assert [] + more == more;
    ItemsTakeRoom(more, TakeMany(s1, count, [], ItemParser(global)).value.1, global);
  }

  /** Four bytes reserve room for any number of items; no page is this short. */
  lemma ReservationIsUnbounded(count: u32, global: bool)
    ensures |BE32(count)| == 4 && Reserved(BE32(count)) == count && TakePage(BE32(count), global).Err?
  {
    TakeU32Of(count, []);
    assert BE32(count) + [] == BE32(count);
    if TakePage(BE32(count), global).Ok? {
      PlausibleCounts(BE32(count), global);
    }
  }
}
