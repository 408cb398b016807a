/** KV SCAN pages (src/client_domains/kv.rs, `decode_scan_response`). */
module KvPages {
  import opened ByteStrings
  import opened Errors
  import opened Codec
  import opened WireLists

  datatype KvPair = KvPair(key: Blob, value: Blob)
  datatype KvScanPage = KvScanPage(pairs: seq<KvPair>, hasMore: bool)

  function TakePair(s: Bytes): Result<(KvPair, Bytes)> {
    var (key, s1) :- TakeBlob(s);
    var (value, rest) :- TakeBlob(s1);
    Ok((KvPair(key, value), rest))
  }

  function WritePair(pair: KvPair, rest: Bytes): Bytes {
    WriteBlob(pair.key, WriteBlob(pair.value, rest))
  }

  predicate AnyPair(pair: KvPair) {
    true
  }

  lemma PairsMatch()
    ensures Matching(TakePair, WritePair, AnyPair)
  {
    forall pair: KvPair, rest: Bytes ensures TakePair(WritePair(pair, rest)) == Ok((pair, rest)) {
      BlobReads(pair.key, WriteBlob(pair.value, rest));
      BlobReads(pair.value, rest);
    }
    forall s: Bytes | TakePair(s).Ok? ensures s == WritePair(TakePair(s).value.0, TakePair(s).value.1) {
      BlobWas(s);
      BlobWas(TakeBlob(s).value.1);
    }
  }

  /** `maximum_count`: every pair takes eight bytes or more, and the flag one. */
  function MaximumCount(available: nat): nat {
    (if available == 0 then 0 else available - 1) / 8
  }

  function TakeScan(s: Bytes): Result<KvScanPage> {
    var (count, s1) :- TakeU32(s);
    if count > MaximumCount(|s1|) then Err(Protocol)
    else
      var (pairs, s2) :- TakeMany(s1, count, [], TakePair);
      var (hasMore, rest) :- TakeBool(s2);
      if rest == [] then Ok(KvScanPage(pairs, hasMore)) else Err(Protocol)
  }

  function Decoded(payload: Bytes): Result<KvScanPage> {
    var body :- SuccessBody(payload);
    TakeScan(body)
  }

  method DecodeScanResponse(payload: Bytes) returns (r: Result<KvScanPage>)
    ensures r == Decoded(payload)
  {
    var d := new PayloadDecoder(payload);
    var status :- d.GetU8();
    if status == 1 {
      var e := DecodeDomainError(d);
      return Err(e);
    }
    if status != 0 {
      return Err(Protocol);
    }
    r := DecodePairs(d);
  }

  method DecodePairs(d: PayloadDecoder) returns (r: Result<KvScanPage>)
    requires d.Valid()
    modifies d`pos
    ensures r == TakeScan(old(d.Rest()))
  {
    var count :- d.GetU32();
    var available := d.Remaining();
    if count > MaximumCount(available) {
      return Err(Protocol);
    }
    ghost var answer := TakeMany(d.Rest(), count, [], TakePair);
    var pairs := [];
    for i := 0 to count
      invariant d.Valid() && answer == TakeMany(d.Rest(), count - i, pairs, TakePair)
    {
      var key :- GetBlob(d);
      var value :- GetBlob(d);
      pairs := pairs + [KvPair(key, value)];
    }
    var hasMore :- GetBool(d);
    var empty := d.IsEmpty();
    r := if empty then Ok(KvScanPage(pairs, hasMore)) else Err(Protocol);
  }

  // ---------------------------------------------------------------- the pages it accepts

  predicate Printable(page: KvScanPage) {
    |page.pairs| < U32_LIMIT
  }

  function WriteScan(page: KvScanPage): Bytes
    requires Printable(page)
  {
    [0] + (BE32(|page.pairs|) + WriteMany(page.pairs, WriteBool(page.hasMore, []), WritePair))
  }

  lemma {:induction false} PairsTakeRoom(pairs: seq<KvPair>, rest: Bytes)
    ensures |WriteMany(pairs, rest, WritePair)| >= 8 * |pairs| + |rest|
  {
    if pairs != [] {
      PairsTakeRoom(pairs[1..], rest);
    }
  }

  /** The count guard lets every page through. */
  lemma GuardAdmitsPages(page: KvScanPage)
    requires Printable(page)
    ensures |page.pairs| <= MaximumCount(|WriteScan(page)| - 5)
  {
    PairsTakeRoom(page.pairs, WriteBool(page.hasMore, []));
  }

  /** A response is decoded to a page exactly when it is that page's encoding. */
  lemma ScanPageLanguage(payload: Bytes, page: KvScanPage)
    ensures Decoded(payload) == Ok(page) <==> Printable(page) && payload == WriteScan(page)
  {
    hide TakePair, WritePair, Matching, DomainError;
    PairsMatch();
    if Printable(page) {
      var tail := WriteBool(page.hasMore, []);
      var body := WriteMany(page.pairs, tail, WritePair);
      TakeU8Of(0, BE32(|page.pairs|) + body);
      TakeU32Of(|page.pairs|, body);
      GuardAdmitsPages(page);
      ManyReads(page.pairs, tail, [], TakePair, WritePair, AnyPair);
      assert [] + page.pairs == page.pairs;
      BoolReads(page.hasMore, []);
      assert Decoded(WriteScan(page)) == Ok(page);
    }
    if Decoded(payload) == Ok(page) {
      TakeU8Inverse(payload);
      var s := payload[1..];
      TakeU32Inverse(s);
      var (count, s1) := TakeU32(s).value;
      var more := ManyWere(s1, count, [], TakePair, WritePair, AnyPair);
      assert [] + more == more;
      BoolWas(TakeMany(s1, count, [], TakePair).value.1);
    }
  }

  /** What the broker refused is reported as it said, and a page that cannot be read is no domain error. */
  lemma ScanRefusals(payload: Bytes, e: Error)
    ensures Refuses(payload, e) ==> Decoded(payload) == Err(e)
    ensures Decoded(payload) == Err(e) ==> Refuses(payload, e) || ([0] <= payload && (e == Codec || e == Protocol))
  {
    hide Refuses, DomainError, TakePair, Matching;
    if payload != [] {
      StatusLanguage(payload, payload[1..], e);
      assert payload == [payload[0]] + payload[1..];
      if SuccessBody(payload).Ok? {
        ScanFaults(payload[1..]);
      }
    } else {
      StatusLanguage(payload, [], e);
    }
  }

  lemma ScanFaults(s: Bytes)
    ensures TakeScan(s).Err? ==> TakeScan(s).error == Codec || TakeScan(s).error == Protocol
  {
    hide TakePair;
    if TakeU32(s).Ok? {
      var (count, s1) := TakeU32(s).value;
      PairFaults();
      ManyFaults(s1, count, [], TakePair);
    }
  }

  lemma PairFaults()
    ensures forall s :: TakePair(s).Err? ==> TakePair(s).error == Codec || TakePair(s).error == Protocol
  {
  }

  // ---------------------------------------------------------------- room reserved

  /** The pairs that room is reserved for before the first is read. */
  function Reserved(s: Bytes): nat {
    match TakeU32(s)
    case Ok((count, s1)) => if count > MaximumCount(|s1|) then 0 else count
    case Err(_) => 0
  }

  /** The room stays within an eighth of the response, and a page that is accepted fills it. */
  lemma ReservationFits(s: Bytes)
    ensures 8 * Reserved(s) <= |s|
    ensures TakeScan(s).Ok? ==> Reserved(s) == |TakeScan(s).value.pairs|
  {
    hide TakePair, WritePair, Matching;
    if TakeScan(s).Ok? {
      PairsMatch();
      var (count, s1) := TakeU32(s).value;
      var more := ManyWere(s1, count, [], TakePair, WritePair, AnyPair);
      assert [] + more == more;
    }
  }
}
