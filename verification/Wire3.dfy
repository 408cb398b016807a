/**
 The Wire 3 extension envelope (src/wire3.rs): a core payload followed by tagged fields, with the
 capability list of HELLO.
 */
module Wire3 {
  import opened ByteStrings
  import opened Errors
  import opened Codec

  const HELLO: u16 := 2
  const EXTENSIONS_PRESENT: byte := 4
  const CAPABILITY_LIST: u16 := 1
  const HEADER_LEN := 15
  const MAX_MESSAGE_SIZE := 1_048_576

  /** `flags & EXTENSIONS_PRESENT != 0` */
  predicate HasExtensions(flags: byte) {
    flags / 4 % 2 == 1
  }

  datatype Field = Field(id: u16, value: Bytes)

  // ---------------------------------------------------------------- the language

  predicate WellFormed(f: Field) {
    f.id != 0 && |f.value| < U32_LIMIT
  }

  predicate AllWellFormed(fields: seq<Field>) {
    forall k :: 0 <= k < |fields| ==> WellFormed(fields[k])
  }

  predicate Encodable(core: Bytes, fields: seq<Field>) {
    |core| < U32_LIMIT && AllWellFormed(fields)
  }

  function PrintField(f: Field): Bytes
    requires |f.value| < U32_LIMIT
  {
    BE16(f.id) + Prefixed(f.value)
  }

  function PrintFields(fields: seq<Field>): Bytes
    requires forall k :: 0 <= k < |fields| ==> |fields[k].value| < U32_LIMIT
  {
    if fields == [] then [] else PrintField(fields[0]) + PrintFields(fields[1..])
  }

  function Print(core: Bytes, fields: seq<Field>): Bytes
    requires |core| < U32_LIMIT
    requires forall k :: 0 <= k < |fields| ==> |fields[k].value| < U32_LIMIT
  {
    Prefixed(core) + PrintFields(fields)
  }

  predicate Increasing(ids: seq<u32>, above: u32) {
    ids == [] || (above < ids[0] && Increasing(ids[1..], ids[0]))
  }

  function PrintIds(ids: seq<u32>): Bytes {
    if ids == [] then [] else BE32(ids[0]) + PrintIds(ids[1..])
  }

  /** The value of HELLO's capability field: a count and strictly increasing positive ids. */
  function PrintCapabilities(ids: seq<u32>): Bytes
    requires |ids| < U16_LIMIT
  {
    BE16(|ids|) + PrintIds(ids)
  }

  ghost predicate IsCapabilityList(value: Bytes, ids: seq<u32>) {
    |ids| < U16_LIMIT && value == PrintCapabilities(ids) && Increasing(ids, 0)
  }

  /** The capabilities this client knows; the source keeps them as bits of a `u16` mask. */
  predicate Known(id: u32) {
    id == 1 || id == 2
  }

  type Mask = set<u32>

  /** Exactly the listed ids among 1 and 2. */
  function MaskOf(ids: seq<u32>): Mask {
    set id | id in ids && Known(id)
  }

  /** HELLO carries its capability field exactly once. */
  ghost predicate OneCapabilityField(fields: seq<Field>, k: nat, ids: seq<u32>) {
    && k < |fields| && fields[k].id == CAPABILITY_LIST && IsCapabilityList(fields[k].value, ids)
    && forall j :: 0 <= j < |fields| && j != k ==> fields[j].id != CAPABILITY_LIST
  }

  ghost predicate Meets(messageType: u16, fields: seq<Field>, mask: Mask) {
    if messageType == HELLO then exists k: nat, ids :: OneCapabilityField(fields, k, ids) && mask == MaskOf(ids)
    else mask == {}
  }

  /** `payload` is an envelope of `core` and `fields` that a message of this kind may carry. */
  ghost predicate IsEnvelope(payload: Bytes, core: Bytes, fields: seq<Field>, messageType: u16, mask: Mask) {
    && fields != [] && Encodable(core, fields)
    && payload == Print(core, fields)
    && Meets(messageType, fields, mask)
  }

  // ---------------------------------------------------------------- what the parser computes

  function TakeIds(s: Bytes, count: nat, previous: u32, mask: Mask): Result<Mask>
    decreases count
  {
    if count == 0 then Ok(mask)
    else
      var (id, rest) :- TakeU32(s);
      if id <= previous then Err(Protocol) else TakeIds(rest, count - 1, id, if Known(id) then mask + {id} else mask)
  }

  function TakeCapabilities(value: Bytes): Result<Mask> {
    if |value| < 2 then Err(Protocol)
    else
      var (count, rest) :- TakeU16(value);
      if |value| != 2 + 4 * count then Err(Protocol) else TakeIds(rest, count, 0, {})
  }

  datatype Capabilities = Capabilities(seen: bool, mask: Mask)

  function TakeField(s: Bytes): (r: Result<(Field, Bytes)>)
    ensures r.Ok? ==> |r.value.1| < |s|
  {
    var (id, afterId) :- TakeU16(s);
    var (length, rest) :- TakeU32(afterId);
    if id == 0 || length > |rest| then Err(Protocol) else Ok((Field(id, rest[..length]), rest[length..]))
  }

  function See(f: Field, handshake: bool, found: Capabilities): Result<Capabilities> {
    if handshake && f.id == CAPABILITY_LIST then
      if found.seen then Err(Protocol)
      else
        var mask :- TakeCapabilities(f.value);
        Ok(Capabilities(true, mask))
    else Ok(found)
  }

  function TakeFields(s: Bytes, handshake: bool, found: Capabilities): Result<Capabilities>
    decreases |s|
  {
    if s == [] then Ok(found)
    else
      var (f, rest) :- TakeField(s);
      var next :- See(f, handshake, found);
      TakeFields(rest, handshake, next)
  }

  function TakeEnvelope(payload: Bytes, handshake: bool): Result<(Bytes, Mask)> {
    var (coreLength, rest) :- TakeU32(payload);
    if 4 + coreLength >= |payload| then Err(Protocol)
    else
      var found :- TakeFields(rest[coreLength..], handshake, Capabilities(false, {}));
      if handshake && !found.seen then Err(Protocol) else Ok((rest[..coreLength], found.mask))
  }

  function DecodePayload(payload: Bytes, messageType: u16, flags: byte): Result<(Bytes, Mask)> {
    var handshake := messageType == HELLO;
    if !HasExtensions(flags) then (if handshake then Err(Protocol) else Ok((payload, {})))
    else TakeEnvelope(payload, handshake)
  }

  // ---------------------------------------------------------------- the loops

  method DecodeCapabilities(value: Bytes) returns (r: Result<Mask>)
    ensures r == TakeCapabilities(value)
  {
    if |value| < 2 {
      return Err(Protocol);
    }
    var list := new PayloadDecoder(value);
    var head := list.GetU16();
    var count := head.value;
    if |value| != 2 + 4 * (count as int) {
      return Err(Protocol);
    }
    r := DecodeIds(list, count);
  }

  method DecodeIds(list: PayloadDecoder, count: nat) returns (r: Result<Mask>)
    requires list.Valid()
    modifies list`pos
    ensures list.Valid() && r == TakeIds(old(list.Rest()), count, 0, {})
  {
    var previous: u32 := 0;
    var mask: Mask := {};
    ghost var answer := TakeIds(list.Rest(), count, previous, mask);
    for i := 0 to count
      invariant list.Valid()
      invariant answer == TakeIds(list.Rest(), count - i, previous, mask)
    {
      TakeIdsFirst(list.Rest(), count - i, previous, mask);
      var id :- list.GetU32();
      if id <= previous {
        return Err(Protocol);
      }
      previous := id;
      if id == 1 || id == 2 {
        mask := mask + {id};
      }
    }
    r := Ok(mask);
  }

  lemma TakeIdsFirst(s: Bytes, count: nat, previous: u32, mask: Mask)
    requires count > 0
    ensures TakeIds(s, count, previous, mask) == (
              if TakeU32(s).Err? then Err(TakeU32(s).error)
              else
                var (id, rest) := TakeU32(s).value;
                if id <= previous then Err(Protocol)
                else TakeIds(rest, count - 1, id, if Known(id) then mask + {id} else mask))
  {
  }

  method Decode(payload: Bytes, messageType: u16, flags: byte) returns (r: Result<(Bytes, Mask)>)
    ensures r == DecodePayload(payload, messageType, flags)
  {
    var handshake := messageType == HELLO;
    if !HasExtensions(flags) {
      return if handshake then Err(Protocol) else Ok((payload, {}));
    }
    r := DecodeEnvelope(payload, handshake);
  }

  /** The envelope's core and fields as slices of the whole payload. */
  lemma EnvelopeSlices(payload: Bytes, handshake: bool, coreLength: u32)
    requires TakeU32(payload).Ok? && TakeU32(payload).value.0 == coreLength
    ensures TakeEnvelope(payload, handshake) == (
              if 4 + coreLength >= |payload| then Err(Protocol)
              else
                var found := TakeFields(payload[4 + coreLength..], handshake, Capabilities(false, {}));
                if found.Err? then Err(found.error)
                else if handshake && !found.value.seen then Err(Protocol)
                else Ok((payload[4..4 + coreLength], found.value.mask)))
  {
    hide TakeFields;
    if 4 + coreLength < |payload| {
      SplitSlice(payload, 4, coreLength);
    }
  }

  method DecodeEnvelope(payload: Bytes, handshake: bool) returns (r: Result<(Bytes, Mask)>)
    ensures r == TakeEnvelope(payload, handshake)
  {
    hide TakeFields;
    var decoder := new PayloadDecoder(payload);
    var coreLength :- decoder.GetU32();
    EnvelopeSlices(payload, handshake, coreLength);
    var coreEnd := 4 + (coreLength as int);
    if coreEnd >= |payload| {
      return Err(Protocol);
    }
    var found :- DecodeFields(payload, coreEnd, handshake);
    if handshake && !found.seen {
      return Err(Protocol);
    }
    r := Ok((payload[4..coreEnd], found.mask));
  }

  lemma SliceOfSlice(s: Bytes, from: nat)
    requires from + 6 <= |s|
    ensures s[from..][2..][4..] == s[from + 6..]
  {
  }

  lemma SplitSlice(s: Bytes, from: nat, length: nat)
    requires from + length <= |s|
    ensures s[from..][..length] == s[from..from + length] && s[from..][length..] == s[from + length..]
  {
  }

  /** One field at `cursor`, and the cursor behind it. */
  method DecodeField(payload: Bytes, cursor: nat) returns (r: Result<(Field, nat)>)
    requires cursor <= |payload|
    ensures r.Err? ==> TakeField(payload[cursor..]) == Err(r.error)
    ensures r.Ok? ==> cursor < r.value.1 <= |payload|
    ensures r.Ok? ==> TakeField(payload[cursor..]) == Ok((r.value.0, payload[r.value.1..]))
  {
    var field := new PayloadDecoder(payload[cursor..]);
    var id :- field.GetU16();
    var length :- field.GetU32();
    var start := cursor + 6;
    SliceOfSlice(payload, cursor);
    if id == 0 || length > |payload| - start {
      return Err(Protocol);
    }
    SplitSlice(payload, start, length);
    r := Ok((Field(id, payload[start..start + length]), start + length));
  }

  lemma TakeFieldsFirst(s: Bytes, handshake: bool, found: Capabilities)
    requires s != []
    ensures TakeFields(s, handshake, found) == (
              if TakeField(s).Err? then Err(TakeField(s).error)
              else
                var (f, rest) := TakeField(s).value;
                if See(f, handshake, found).Err? then See(f, handshake, found)
                else TakeFields(rest, handshake, See(f, handshake, found).value))
  {
  }

  /** The field loop of `decode`, which keeps a byte cursor into the whole payload. */
  method DecodeFields(payload: Bytes, coreEnd: nat, handshake: bool) returns (r: Result<Capabilities>)
    requires coreEnd <= |payload|
    ensures r == TakeFields(payload[coreEnd..], handshake, Capabilities(false, {}))
  {
    var cursor := coreEnd;
    var capabilitiesSeen := false;
    var mask: Mask := {};
    while cursor < |payload|
      invariant coreEnd <= cursor <= |payload|
      invariant TakeFields(payload[coreEnd..], handshake, Capabilities(false, {}))
             == TakeFields(payload[cursor..], handshake, Capabilities(capabilitiesSeen, mask))
    {
      TakeFieldsFirst(payload[cursor..], handshake, Capabilities(capabilitiesSeen, mask));
      var taken :- DecodeField(payload, cursor);
      var (field, next) := taken;
      if handshake && field.id == CAPABILITY_LIST {
        if capabilitiesSeen {
          return Err(Protocol);
        }
        capabilitiesSeen := true;
        mask :- DecodeCapabilities(field.value);
      }
      cursor := next;
    }
    r := Ok(Capabilities(capabilitiesSeen, mask));
  }

  predicate IncreasingIds(fields: seq<Field>, above: u16) {
    fields == [] || (above < fields[0].id && IncreasingIds(fields[1..], fields[0].id))
  }

  /** `encode`: every field length must fit u32, or the encoder panics. */
  method Encode(core: Bytes, fields: seq<Field>) returns (r: Result<Bytes>)
    requires |core| < U32_LIMIT && forall k :: 0 <= k < |fields| ==> |fields[k].value| < U32_LIMIT
    ensures r.Ok? <==> fields != [] && IncreasingIds(fields, 0) && |Print(core, fields)| + HEADER_LEN <= MAX_MESSAGE_SIZE
    ensures r.Ok? ==> r.value == Print(core, fields)
    ensures r.Err? ==> r.error == if fields != [] && IncreasingIds(fields, 0)
                                  then FrameTooLarge(|Print(core, fields)| + HEADER_LEN) else Protocol
  {
    var encoder := new PayloadEncoder();
    encoder.PutBytes(core);
    var previous: u16 := 0;
    assert fields[0..] == fields && encoder.buf == Prefixed(core);
    ghost var left := fields;
    for i := 0 to |fields|
      invariant left == fields[i..] && forall k :: 0 <= k < |left| ==> |left[k].value| < U32_LIMIT
      invariant Print(core, fields) == encoder.buf + PrintFields(left)
      invariant IncreasingIds(fields, 0) <==> IncreasingIds(left, previous)
    {
      var f := fields[i];
      if f.id <= previous {
        return Err(Protocol);
      }
      ghost var before := encoder.buf;
      encoder.PutU16(f.id);
      encoder.PutBytes(f.value);
      AppendField(before, left);
      left := left[1..];
      previous := f.id;
    }
    if fields == [] {
      return Err(Protocol);
    }
    var payload := encoder.buf;
    if |payload| + HEADER_LEN > MAX_MESSAGE_SIZE {
      return Err(FrameTooLarge(|payload| + HEADER_LEN));
    }
    r := Ok(payload);
  }

  lemma AppendField(buf: Bytes, left: seq<Field>)
    requires left != [] && forall k :: 0 <= k < |left| ==> |left[k].value| < U32_LIMIT
    ensures buf + PrintFields(left)
         == buf + BE16(left[0].id) + Prefixed(left[0].value) + PrintFields(left[1..])
  {
  }
}
