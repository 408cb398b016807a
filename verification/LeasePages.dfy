/** Lease LIST pages (src/client_domains/lease.rs, `decode_list_page`). */
module LeasePages {
  import opened ByteStrings
  import opened Errors
  import opened Codec
  import opened WireLists

  datatype LeaseItem = LeaseItem(
    route: Blob, ownerId: Blob, holderIncarnation: u64, acquiredAt: Blob, expiresInSecs: u64, renewals: u32)

  datatype LeaseListCursor = LeaseListCursor(snapshotId: u64, offset: u32)
  datatype LeaseListPage = LeaseListPage(items: seq<LeaseItem>, nextCursor: Option<LeaseListCursor>)

  function TakeLease(s: Bytes): Result<(LeaseItem, Bytes)> {
    var (route, s1) :- TakeText(s);
    var (ownerId, s2) :- TakeText(s1);
    var (holderIncarnation, s3) :- TakeU64(s2);
    var (acquiredAt, s4) :- TakeText(s3);
    var (expiresInSecs, s5) :- TakeU64(s4);
    var (renewals, rest) :- TakeU32(s5);
    Ok((LeaseItem(route, ownerId, holderIncarnation, acquiredAt, expiresInSecs, renewals), rest))
  }

  function WriteLease(item: LeaseItem, rest: Bytes): Bytes {
    WriteBlob(item.route, WriteBlob(item.ownerId, WriteTerm(item, rest)))
  }

  function WriteTerm(item: LeaseItem, rest: Bytes): Bytes {
    BE64(item.holderIncarnation) +
    WriteBlob(item.acquiredAt, BE64(item.expiresInSecs) + (BE32(item.renewals) + rest))
  }

  predicate TextItem(item: LeaseItem) {
    Utf8(item.route) && Utf8(item.ownerId) && Utf8(item.acquiredAt)
  }

  lemma LeaseReads(item: LeaseItem, rest: Bytes)
    requires TextItem(item)
    ensures TakeLease(WriteLease(item, rest)) == Ok((item, rest))
  {
    var s5 := BE32(item.renewals) + rest;
    var s4 := BE64(item.expiresInSecs) + s5;
    var s3 := WriteBlob(item.acquiredAt, s4);
    TakeU32Of(item.renewals, rest);
    TakeU64Of(item.expiresInSecs, s5);
    BlobReads(item.acquiredAt, s4);
    TakeU64Of(item.holderIncarnation, s3);
    BlobReads(item.ownerId, WriteTerm(item, rest));
    BlobReads(item.route, WriteBlob(item.ownerId, WriteTerm(item, rest)));
  }

  lemma LeaseWas(s: Bytes)
    requires TakeLease(s).Ok?
    ensures var (item, rest) := TakeLease(s).value; TextItem(item) && s == WriteLease(item, rest)
  {
    TextWas(s);
    var s1 := TakeText(s).value.1;
    TextWas(s1);
    var s2 := TakeText(s1).value.1;
    TakeU64Inverse(s2);
    var s3 := TakeU64(s2).value.1;
    TextWas(s3);
    var s4 := TakeText(s3).value.1;
    TakeU64Inverse(s4);
    TakeU32Inverse(TakeU64(s4).value.1);
  }

  lemma LeasesMatch()
    ensures Matching(TakeLease, WriteLease, TextItem)
  {
    forall item: LeaseItem, rest: Bytes | TextItem(item) ensures TakeLease(WriteLease(item, rest)) == Ok((item, rest)) {
      LeaseReads(item, rest);
    }
    forall s: Bytes | TakeLease(s).Ok?
      ensures TextItem(TakeLease(s).value.0) && s == WriteLease(TakeLease(s).value.0, TakeLease(s).value.1)
    {
      LeaseWas(s);
    }
  }

  function TakeCursor(s: Bytes): Result<(Option<LeaseListCursor>, Bytes)> {
    var (hasNext, s1) :- TakeBool(s);
    if !hasNext then Ok((None, s1))
    else
      var (snapshotId, s2) :- TakeU64(s1);
      var (offset, rest) :- TakeU32(s2);
      Ok((Some(LeaseListCursor(snapshotId, offset)), rest))
  }

  function WriteCursor(cursor: Option<LeaseListCursor>): Bytes {
    match cursor
    case None => WriteBool(false, [])
    case Some(c) => WriteBool(true, BE64(c.snapshotId) + (BE32(c.offset) + []))
  }

  lemma CursorReads(cursor: Option<LeaseListCursor>)
    ensures TakeCursor(WriteCursor(cursor)) == Ok((cursor, []))
  {
    if cursor.None? {
      BoolReads(false, []);
    } else {
      var s2 := BE32(cursor.value.offset) + [];
      BoolReads(true, BE64(cursor.value.snapshotId) + s2);
      TakeU64Of(cursor.value.snapshotId, s2);
      TakeU32Of(cursor.value.offset, []);
    }
  }

  lemma CursorWas(s: Bytes)
    requires TakeCursor(s).Ok? && TakeCursor(s).value.1 == []
    ensures s == WriteCursor(TakeCursor(s).value.0)
  {
    BoolWas(s);
    var s1 := TakeBool(s).value.1;
    if TakeBool(s).value.0 {
      TakeU64Inverse(s1);
      TakeU32Inverse(TakeU64(s1).value.1);
    }
  }

  function TakeList(s: Bytes): Result<LeaseListPage> {
    var (count, s1) :- TakeU32(s);
    var (items, s2) :- TakeMany(s1, count, [], TakeLease);
    var (nextCursor, rest) :- TakeCursor(s2);
    if rest == [] then Ok(LeaseListPage(items, nextCursor)) else Err(Protocol)
  }

  /** `lease_success` and then the page. */
  function Decoded(response: Bytes): Result<LeaseListPage> {
    var body :- SuccessBody(response);
    TakeList(body)
  }

  method DecodeListResponse(response: Bytes) returns (r: Result<LeaseListPage>)
    ensures r == Decoded(response)
  {
    var d := new PayloadDecoder(response);
    var status :- d.GetU8();
    if status == 1 {
      var e := DecodeDomainError(d);
      return Err(e);
    }
    if status != 0 {
      return Err(Protocol);
    }
    r := DecodeListPage(d);
  }

  method DecodeListPage(d: PayloadDecoder) returns (r: Result<LeaseListPage>)
    requires d.Valid()
    modifies d`pos
    ensures r == TakeList(old(d.Rest()))
  {
    hide TakeLease, TakeCursor;
    var count :- d.GetU32();
    ghost var answer := TakeMany(d.Rest(), count, [], TakeLease);
    var items := [];
    for i := 0 to count
      invariant d.Valid() && answer == TakeMany(d.Rest(), count - i, items, TakeLease)
    {
      var item :- DecodeLease(d);
      items := items + [item];
    }
    var nextCursor :- DecodeCursor(d);
    var empty := d.IsEmpty();
    r := if empty then Ok(LeaseListPage(items, nextCursor)) else Err(Protocol);
  }

  method DecodeLease(d: PayloadDecoder) returns (r: Result<LeaseItem>)
    requires d.Valid()
    modifies d`pos
    ensures d.Valid() && Reads(r, d.Rest(), TakeLease(old(d.Rest())))
  {
    hide TakeU64, TakeU32, TakeText;
    var route :- GetText(d);
    var ownerId :- GetText(d);
    var holderIncarnation :- d.GetU64();
    var acquiredAt :- GetText(d);
    var expiresInSecs :- d.GetU64();
    var renewals :- d.GetU32();
    r := Ok(LeaseItem(route, ownerId, holderIncarnation, acquiredAt, expiresInSecs, renewals));
  }

  method DecodeCursor(d: PayloadDecoder) returns (r: Result<Option<LeaseListCursor>>)
    requires d.Valid()
    modifies d`pos
    ensures d.Valid() && Reads(r, d.Rest(), TakeCursor(old(d.Rest())))
  {
    var hasNext :- d.GetU8();
    if hasNext == 0 {
      return Ok(None);
    }
    if hasNext != 1 {
      return Err(Protocol);
    }
    var snapshotId :- d.GetU64();
    var offset :- d.GetU32();
    r := Ok(Some(LeaseListCursor(snapshotId, offset)));
  }

  // ---------------------------------------------------------------- the pages it accepts

  ghost predicate Printable(page: LeaseListPage) {
    |page.items| < U32_LIMIT && AllValid(page.items, TextItem)
  }

  function WriteList(page: LeaseListPage): Bytes
    requires |page.items| < U32_LIMIT
  {
    [0] + (BE32(|page.items|) + WriteMany(page.items, WriteCursor(page.nextCursor), WriteLease))
  }

  /** A response is decoded to a page exactly when it is that page's encoding and its strings are text. */
  lemma ListPageLanguage(response: Bytes, page: LeaseListPage)
    ensures Decoded(response) == Ok(page) <==> Printable(page) && response == WriteList(page)
  {
    hide TakeLease, WriteLease, TextItem, TakeCursor, WriteCursor, Matching, DomainError;
    LeasesMatch();
    if Printable(page) {
      var tail := WriteCursor(page.nextCursor);
      var body := WriteMany(page.items, tail, WriteLease);
      TakeU8Of(0, BE32(|page.items|) + body);
      TakeU32Of(|page.items|, body);
      ManyReads(page.items, tail, [], TakeLease, WriteLease, TextItem);
      assert [] + page.items == page.items;
      CursorReads(page.nextCursor);
      assert Decoded(WriteList(page)) == Ok(page);
    }
    if Decoded(response) == Ok(page) {
      TakeU8Inverse(response);
      var s := response[1..];
      TakeU32Inverse(s);
      var (count, s1) := TakeU32(s).value;
      var more := ManyWere(s1, count, [], TakeLease, WriteLease, TextItem);
      assert [] + more == more;
      var (items, s2) := TakeMany(s1, count, [], TakeLease).value;
      CursorWas(s2);
    }
  }

  /** What the broker refused is reported as it said, and a page that cannot be read is no domain error. */
  lemma ListRefusals(response: Bytes, e: Error)
    ensures Refuses(response, e) ==> Decoded(response) == Err(e)
    ensures Decoded(response) == Err(e) ==> Refuses(response, e) || ([0] <= response && (e == Codec || e == Protocol))
  {
    hide Refuses, DomainError, TakeLease, Matching;
    if response != [] {
      StatusLanguage(response, response[1..], e);
      assert response == [response[0]] + response[1..];
      if SuccessBody(response).Ok? {
        ListFaults(response[1..]);
      }
    } else {
      StatusLanguage(response, [], e);
    }
  }

  lemma ListFaults(s: Bytes)
    ensures TakeList(s).Err? ==> TakeList(s).error == Codec || TakeList(s).error == Protocol
  {
    hide TakeLease;
    if TakeU32(s).Ok? {
      var (count, s1) := TakeU32(s).value;
      LeaseFaults();
      ManyFaults(s1, count, [], TakeLease);
    }
  }

  lemma LeaseFaults()
    ensures forall s :: TakeLease(s).Err? ==> TakeLease(s).error == Codec || TakeLease(s).error == Protocol
  {
  }

  // ---------------------------------------------------------------- room reserved

  /** `MIN_ITEM_WIRE_BYTES` */
  const LEAST_ITEM := 4 + 4 + 8 + 4 + 8 + 4

  /** The items that room is reserved for before the first is read. */
  function Reserved(s: Bytes): nat {
    match TakeU32(s)
    case Ok((count, s1)) => if count <= |s1| / LEAST_ITEM then count else |s1| / LEAST_ITEM
    case Err(_) => 0
  }

  lemma {:induction false} LeasesTakeRoom(items: seq<LeaseItem>, rest: Bytes)
    ensures |WriteMany(items, rest, WriteLease)| >= LEAST_ITEM * |items| + |rest|
  {
    if items != [] {
      LeasesTakeRoom(items[1..], rest);
    }
  }

  /** The room stays within what the response can hold, and a page that is accepted fills it. */
  lemma ReservationFits(s: Bytes)
    ensures LEAST_ITEM * Reserved(s) <= |s|
    ensures TakeList(s).Ok? ==> Reserved(s) == |TakeList(s).value.items|
  {
    hide TakeLease, WriteLease, Matching, TakeCursor;
    if TakeList(s).Ok? {
      LeasesMatch();
      var (count, s1) := TakeU32(s).value;
      var more := ManyWere(s1, count, [], TakeLease, WriteLease, TextItem);
      assert [] + more == more;
      LeasesTakeRoom(more, TakeMany(s1, count, [], TakeLease).value.1);
    }
  }
}
