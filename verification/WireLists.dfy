/**
 Pieces that the page decoders share: optional fields, flags, domain errors and counted lists. Each
 `Take…` reads a value from the front of some bytes; the `Write…` of the same name is a reference
 printer that puts the value in front of what follows it.
 */
module WireLists {
  import opened ByteStrings
  import opened Errors
  import opened Codec

  /** What a length prefix can announce. */
  type Blob = b: Bytes | |b| < U32_LIMIT

  function TakeBlob(s: Bytes): Result<(Blob, Bytes)> {
    var (b, rest) :- TakeBytes(s);
    Ok((b, rest))
  }

  function TakeText(s: Bytes): Result<(Blob, Bytes)> {
    var (b, rest) :- TakeString(s);
    Ok((b, rest))
  }

  function WriteBlob(b: Blob, rest: Bytes): Bytes {
    BE32(|b|) + (b + rest)
  }

  lemma BlobReads(b: Blob, rest: Bytes)
    ensures TakeBlob(WriteBlob(b, rest)) == Ok((b, rest))
    ensures TakeText(WriteBlob(b, rest)) == if Utf8(b) then Ok((b, rest)) else Err(Codec)
  {
    TakeBytesOf(b, rest);
    assert WriteBlob(b, rest) == Prefixed(b) + rest;
  }

  lemma BlobWas(s: Bytes)
    requires TakeBlob(s).Ok?
    ensures var (b, rest) := TakeBlob(s).value; s == WriteBlob(b, rest)
  {
    TakeBytesInverse(s);
  }

  lemma TextWas(s: Bytes)
    requires TakeText(s).Ok?
    ensures var (b, rest) := TakeText(s).value; Utf8(b) && s == WriteBlob(b, rest)
  {
    TakeBytesInverse(s);
  }

  function TakeBool(s: Bytes): Result<(bool, Bytes)> {
    var (flag, rest) :- TakeU8(s);
    if flag == 0 then Ok((false, rest)) else if flag == 1 then Ok((true, rest)) else Err(Protocol)
  }

  function WriteBool(flag: bool, rest: Bytes): Bytes {
    [if flag then 1 else 0] + rest
  }

  lemma BoolReads(flag: bool, rest: Bytes)
    ensures TakeBool(WriteBool(flag, rest)) == Ok((flag, rest))
  {
    assert WriteBool(flag, rest)[1..] == rest;
  }

  lemma BoolWas(s: Bytes)
    requires TakeBool(s).Ok?
    ensures var (flag, rest) := TakeBool(s).value; s == WriteBool(flag, rest)
  {
    assert s == [s[0]] + s[1..];
  }

  function TakeOptionalU64(s: Bytes): Result<(Option<u64>, Bytes)> {
    var (some, s1) :- TakeBool(s);
    if !some then Ok((None, s1))
    else
      var (n, rest) :- TakeU64(s1);
      Ok((Some(n), rest))
  }

  function WriteOptionalU64(value: Option<u64>, rest: Bytes): Bytes {
    match value
    case None => WriteBool(false, rest)
    case Some(n) => WriteBool(true, BE64(n) + rest)
  }

  lemma OptionalU64Reads(value: Option<u64>, rest: Bytes)
    ensures TakeOptionalU64(WriteOptionalU64(value, rest)) == Ok((value, rest))
  {
    match value
    case None => BoolReads(false, rest);
    case Some(n) =>
      BoolReads(true, BE64(n) + rest);
      TakeU64Of(n, rest);
  }

  lemma OptionalU64Was(s: Bytes)
    requires TakeOptionalU64(s).Ok?
    ensures var (value, rest) := TakeOptionalU64(s).value; s == WriteOptionalU64(value, rest)
  {
    BoolWas(s);
    if TakeBool(s).value.0 {
      TakeU64Inverse(TakeBool(s).value.1);
    }
  }

  method GetBlob(d: PayloadDecoder) returns (r: Result<Blob>)
    requires d.Valid()
    modifies d`pos
    ensures d.Valid() && Reads(r, d.Rest(), TakeBlob(old(d.Rest())))
  {
    var b :- d.GetBytes();
    r := Ok(b);
  }

  method GetText(d: PayloadDecoder) returns (r: Result<Blob>)
    requires d.Valid()
    modifies d`pos
    ensures d.Valid() && Reads(r, d.Rest(), TakeText(old(d.Rest())))
  {
    var b :- d.GetString();
    r := Ok(b);
  }

  method GetBool(d: PayloadDecoder) returns (r: Result<bool>)
    requires d.Valid()
    modifies d`pos
    ensures d.Valid() && Reads(r, d.Rest(), TakeBool(old(d.Rest())))
  {
    var flag :- d.GetU8();
    match flag
    case 0 => r := Ok(false);
    case 1 => r := Ok(true);
    case _ => r := Err(Protocol);
  }

  method GetOptionalU64(d: PayloadDecoder) returns (r: Result<Option<u64>>)
    requires d.Valid()
    modifies d`pos
    ensures d.Valid() && Reads(r, d.Rest(), TakeOptionalU64(old(d.Rest())))
  {
    var flag :- d.GetU8();
    if flag == 0 {
      return Ok(None);
    }
    if flag != 1 {
      return Err(Protocol);
    }
    var n :- d.GetU64();
    r := Ok(Some(n));
  }

  // ---------------------------------------------------------------- domain errors

  /** `decode_domain_error`: the error it decodes, or why it cannot. */
  function DomainError(s: Bytes): Error {
    match ParseDomainError(s)
    case Ok(e) => e
    case Err(e) => e
  }

  function ParseDomainError(s: Bytes): Result<Error> {
    var (code, s1) :- TakeU16(s);
    var (class_, s2) :- TakeU8(s1);
    var (effect, s3) :- TakeU8(s2);
    var (message, rest) :- TakeText(s3);
    if class_ > 10 || effect > 2 || rest != [] then Err(Protocol) else Ok(DomainWire(code, class_, effect, message))
  }

  function WriteDomainError(code: u16, class_: byte, effect: byte, message: Blob): Bytes {
    BE16(code) + ([class_] + ([effect] + WriteBlob(message, [])))
  }

  lemma TakeU8Of(b: byte, rest: Bytes)
    ensures TakeU8([b] + rest) == Ok((b, rest))
  {
  }

  lemma TakeU8Inverse(s: Bytes)
    requires TakeU8(s).Ok?
    ensures var (b, rest) := TakeU8(s).value; s == [b] + rest
  {
  }

  /** A domain error is read from exactly its own encoding. */
  lemma DomainErrorParse(s: Bytes, code: u16, class_: byte, effect: byte, message: Blob)
    ensures ParseDomainError(s) == Ok(DomainWire(code, class_, effect, message))
            <==> class_ <= 10 && effect <= 2 && Utf8(message) && s == WriteDomainError(code, class_, effect, message)
  {
    var s3 := WriteBlob(message, []);
    var s2 := [effect] + s3;
    var s1 := [class_] + s2;
    TakeU16Of(code, s1);
    TakeU8Of(class_, s2);
    TakeU8Of(effect, s3);
    BlobReads(message, []);
    if ParseDomainError(s).Ok? {
      TakeU16Inverse(s);
      var t1 := TakeU16(s).value.1;
      TakeU8Inverse(t1);
      var t2 := TakeU8(t1).value.1;
      TakeU8Inverse(t2);
      TextWas(TakeU8(t2).value.1);
    }
  }

  /** The fields of a domain error, in front of whatever follows them. */
  function WriteDomainFields(code: u16, class_: byte, effect: byte, message: Blob, rest: Bytes): Bytes {
    BE16(code) + ([class_] + ([effect] + WriteBlob(message, rest)))
  }

  /** The error that bytes report: what they encode, a bad class, effect or end, or nothing that can be read. */
  ghost predicate Reports(s: Bytes, e: Error) {
    match e
    case DomainWire(code, class_, effect, message) =>
      |message| < U32_LIMIT && class_ <= 10 && effect <= 2 && Utf8(message) && s == WriteDomainError(code, class_, effect, message)
    case Protocol =>
      exists code, class_, effect, message: Blob, rest ::
        Utf8(message) && (class_ > 10 || effect > 2 || rest != []) && s == WriteDomainFields(code, class_, effect, message, rest)
    case Codec =>
      forall code, class_, effect, message: Blob, rest ::
        Utf8(message) ==> s != WriteDomainFields(code, class_, effect, message, rest)
    case _ => false
  }

  lemma DomainFieldsRead(s: Bytes, code: u16, class_: byte, effect: byte, message: Blob, rest: Bytes)
    requires Utf8(message) && s == WriteDomainFields(code, class_, effect, message, rest)
    ensures ParseDomainError(s) ==
              if class_ > 10 || effect > 2 || rest != [] then Err(Protocol) else Ok(DomainWire(code, class_, effect, message))
  {
    hide Utf8;
    var s3 := WriteBlob(message, rest);
    TakeU16Of(code, [class_] + ([effect] + s3));
    TakeU8Of(class_, [effect] + s3);
    TakeU8Of(effect, s3);
    BlobReads(message, rest);
  }

  lemma DomainFieldsWere(s: Bytes) returns (code: u16, class_: byte, effect: byte, message: Blob, rest: Bytes)
    requires ParseDomainError(s) != Err(Codec)
    ensures Utf8(message) && s == WriteDomainFields(code, class_, effect, message, rest)
  {
    hide Utf8;
    TakeU16Inverse(s);
    var t1 := TakeU16(s).value.1;
    TakeU8Inverse(t1);
    var t2 := TakeU8(t1).value.1;
    TakeU8Inverse(t2);
    var t3 := TakeU8(t2).value.1;
    TextWas(t3);
    code, class_, effect := TakeU16(s).value.0, TakeU8(t1).value.0, TakeU8(t2).value.0;
    message, rest := TakeText(t3).value.0, TakeText(t3).value.1;
  }

  /** Whatever the bytes, the decoder gives exactly the error that they report. */
  lemma DomainErrorLanguage(s: Bytes, e: Error)
    ensures DomainError(s) == e <==> Reports(s, e)
  {
    hide WriteBlob, Utf8, ParseDomainError;
    forall code, class_, effect, message: Blob, rest
      | Utf8(message) && s == WriteDomainFields(code, class_, effect, message, rest)
      ensures ParseDomainError(s) ==
                if class_ > 10 || effect > 2 || rest != [] then Err(Protocol) else Ok(DomainWire(code, class_, effect, message))
    {
      DomainFieldsRead(s, code, class_, effect, message, rest);
    }
    if ParseDomainError(s) != Err(Codec) {
      var code, class_, effect, message, rest := DomainFieldsWere(s);
    }
    if e.DomainWire? && Reports(s, e) {
      assert s == WriteDomainFields(e.code, e.class_, e.effect, e.message, []);
    }
  }

  method DecodeDomainError(d: PayloadDecoder) returns (e: Error)
    requires d.Valid()
    modifies d`pos
    ensures d.Valid() && e == DomainError(old(d.Rest()))
  {
    var code := d.GetU16();
    if code.Err? { return code.error; }
    var class_ := d.GetU8();
    if class_.Err? { return class_.error; }
    var effect := d.GetU8();
    if effect.Err? { return effect.error; }
    var message := d.GetString();
    if message.Err? { return message.error; }
    var empty := d.IsEmpty();
    if class_.value > 10 || effect.value > 2 || !empty {
      return Protocol;
    }
    e := DomainWire(code.value, class_.value, effect.value, message.value);
  }

  // ---------------------------------------------------------------- the status of a reply

  /** `lease_success`, `success_decoder` and their like: the bytes after a success status. */
  function SuccessBody(response: Bytes): Result<Bytes> {
    var (status, rest) :- TakeU8(response);
    if status == 0 then Ok(rest) else if status == 1 then Err(DomainError(rest)) else Err(Protocol)
  }

  /** A reply that is no success, and the error it stands for. */
  ghost predicate Refuses(response: Bytes, e: Error) {
    if response == [] then e == Codec
    else if response[0] == 1 then Reports(response[1..], e)
    else response[0] > 1 && e == Protocol
  }

  /** A reply is a success when it starts with a zero, and otherwise an error that its bytes say. */
  lemma StatusLanguage(response: Bytes, body: Bytes, e: Error)
    ensures SuccessBody(response) == Ok(body) <==> response == [0] + body
    ensures SuccessBody(response) == Err(e) <==> Refuses(response, e)
  {
    hide Reports, DomainError;
    if response != [] {
      assert response == [response[0]] + response[1..];
      DomainErrorLanguage(response[1..], e);
    }
    assert ([0] + body)[1..] == body;
  }

  /** A success that carries a number; what follows it is not looked at. */
  ghost predicate Carries(response: Bytes, n: u64) {
    exists rest: Bytes :: response == [0] + (BE64(n) + rest)
  }

  /** Where a number is read from a success: it is there, or the success is too short. */
  lemma NumberLanguage(body: Bytes, n: u64)
    ensures (TakeU64(body).Ok? && TakeU64(body).value.0 == n) <==> Carries([0] + body, n)
    ensures TakeU64(body).Err? <==> |body| < 8
    ensures TakeU64(body).Err? ==> TakeU64(body).error == Codec
  {
    forall rest: Bytes | [0] + body == [0] + (BE64(n) + rest)
      ensures TakeU64(body) == Ok((n, rest))
    {
      assert body == ([0] + body)[1..] == ([0] + (BE64(n) + rest))[1..] == BE64(n) + rest;
      TakeU64Of(n, rest);
    }
    if TakeU64(body).Ok? {
      TakeU64Inverse(body);
    }
  }

  // ---------------------------------------------------------------- counted lists

  type Parser<!T> = Bytes -> Result<(T, Bytes)>
  type Printer<!T> = (T, Bytes) -> Bytes

  /** `count` values are pushed after those already read. */
  function TakeMany<T>(s: Bytes, count: nat, items: seq<T>, take: Parser<T>): Result<(seq<T>, Bytes)>
    decreases count
  {
    if count == 0 then Ok((items, s))
    else
      var (item, rest) :- take(s);
      TakeMany(rest, count - 1, items + [item], take)
  }

  function WriteMany<T>(items: seq<T>, rest: Bytes, write: Printer<T>): Bytes {
    if items == [] then rest else write(items[0], WriteMany(items[1..], rest, write))
  }

  /** The parser reads back what the printer wrote, and reads nothing else. */
  ghost predicate Matching<T(!new)>(take: Parser<T>, write: Printer<T>, valid: T -> bool) {
    && (forall item, rest :: valid(item) ==> take(write(item, rest)) == Ok((item, rest)))
    && (forall s :: take(s).Ok? ==> valid(take(s).value.0) && s == write(take(s).value.0, take(s).value.1))
  }

  ghost predicate AllValid<T(!new)>(items: seq<T>, valid: T -> bool) {
    forall k :: 0 <= k < |items| ==> valid(items[k])
  }

  lemma {:induction false} ManyReads<T(!new)>(
    more: seq<T>, rest: Bytes, items: seq<T>, take: Parser<T>, write: Printer<T>, valid: T -> bool)
    requires Matching(take, write, valid) && AllValid(more, valid)
    ensures TakeMany(WriteMany(more, rest, write), |more|, items, take) == Ok((items + more, rest))
  {
    if more == [] {
      assert items + more == items;
    } else {
      assert valid(more[0]);
      ManyReads(more[1..], rest, items + [more[0]], take, write, valid);
      assert items + [more[0]] + more[1..] == items + more;
    }
  }

  lemma {:induction false} ManyWere<T(!new)>(
    s: Bytes, count: nat, items: seq<T>, take: Parser<T>, write: Printer<T>, valid: T -> bool) returns (more: seq<T>)
    requires Matching(take, write, valid) && TakeMany(s, count, items, take).Ok?
    ensures var (all, rest) := TakeMany(s, count, items, take).value;
            && all == items + more && |more| == count && AllValid(more, valid)
            && s == WriteMany(more, rest, write)
    decreases count
  {
    if count == 0 {
      more := [];
      assert items + more == items;
    } else {
      var (item, left) := take(s).value;
      var tail := ManyWere(left, count - 1, items + [item], take, write, valid);
      more := [item] + tail;
      assert more[1..] == tail && items + [item] + tail == items + more;
    }
  }

  /** A counted list fails with a fault of one of its items. */
  lemma {:induction false} ManyFaults<T(!new)>(s: Bytes, count: nat, items: seq<T>, take: Parser<T>)
    requires forall b :: take(b).Err? ==> take(b).error == Codec || take(b).error == Protocol
    ensures var r := TakeMany(s, count, items, take); r.Err? ==> r.error == Codec || r.error == Protocol
    decreases count
  {
    if count > 0 && take(s).Ok? {
      var (item, rest) := take(s).value;
      ManyFaults(rest, count - 1, items + [item], take);
    }
  }
}
