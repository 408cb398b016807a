/** Wire 3 message frames (src/codec.rs:153-249), and an envelope's way through one. */
module Frames {
  import opened ByteStrings
  import opened Errors
  import opened Codec
  import opened Wire3
  import opened Envelopes

  /** `flags & !VALID_FLAGS == 0`: only the three low bits have a meaning. */
  predicate ValidFlags(flags: byte) {
    flags < 8
  }

  predicate IsFinal(flags: byte) {
    flags / 2 % 2 == 1
  }

  datatype FrameHeader = FrameHeader(messageType: u16, flags: byte, correlationId: u64, payloadStart: nat)

  function EncodeFrame(messageType: u16, flags: byte, correlationId: u64, payload: Bytes): Result<Bytes> {
    if HEADER_LEN + |payload| > MAX_MESSAGE_SIZE then Err(FrameTooLarge(HEADER_LEN + |payload|))
    else if !ValidFlags(flags) then Err(Protocol)
    else Ok(BE16(messageType) + [flags] + BE64(correlationId) + Prefixed(payload))
  }

  method TryEncodeFrame(messageType: u16, flags: byte, correlationId: u64, payload: Bytes) returns (r: Result<Bytes>)
    ensures r == EncodeFrame(messageType, flags, correlationId, payload)
  {
    var messageSize := HEADER_LEN + |payload|;
    if messageSize > MAX_MESSAGE_SIZE || |payload| >= U32_LIMIT {
      return Err(FrameTooLarge(messageSize));
    }
    if !ValidFlags(flags) {
      return Err(Protocol);
    }
    var frame := new PayloadEncoder();
    frame.PutU16(messageType);
    frame.PutU8(flags);
    frame.PutU64(correlationId);
    frame.PutBytes(payload);
    assert frame.buf == BE16(messageType) + [flags] + BE64(correlationId) + Prefixed(payload);
    r := Ok(frame.buf);
  }

  function DecodeFrameHeader(buf: Bytes): Result<FrameHeader> {
    if |buf| < HEADER_LEN then Err(Codec)
    else if !ValidFlags(buf[2]) then Err(Protocol)
    else
      var payloadLen := FromBE32(buf[11..15]);
      if HEADER_LEN + payloadLen > MAX_MESSAGE_SIZE then Err(FrameTooLarge(HEADER_LEN + payloadLen))
      else if |buf| != HEADER_LEN + payloadLen then Err(Codec)
      else Ok(FrameHeader(FromBE16(buf[..2]), buf[2], FromBE64(buf[3..11]), HEADER_LEN))
  }

  lemma FrameParts(messageType: u16, flags: byte, correlationId: u64, payload: Bytes)
    requires |payload| < U32_LIMIT
    ensures var frame := BE16(messageType) + [flags] + BE64(correlationId) + Prefixed(payload);
            && frame[..2] == BE16(messageType) && frame[2] == flags && frame[3..11] == BE64(correlationId)
            && frame[11..15] == BE32(|payload|) && frame[15..] == payload
  {
  }

  /** Type, flags, correlation, length and payload, one after the other. */
  function Framed(messageType: u16, flags: byte, correlationId: u64, payload: Bytes): Bytes
    requires |payload| < U32_LIMIT
  {
    BE16(messageType) + ([flags] + (BE64(correlationId) + (BE32(|payload|) + payload)))
  }

  /** Which frames are refused and why, and where each field of the others stands. */
  lemma FrameLayout(messageType: u16, flags: byte, correlationId: u64, payload: Bytes)
    ensures var encoded, size := EncodeFrame(messageType, flags, correlationId, payload), 15 + |payload|;
            && (size > MAX_MESSAGE_SIZE ==> encoded == Err(FrameTooLarge(size)))
            && (size <= MAX_MESSAGE_SIZE && flags >= 8 ==> encoded == Err(Protocol))
            && (size <= MAX_MESSAGE_SIZE && flags < 8 ==> (
                  && encoded.Ok?
                  && var frame := encoded.value;
                     && |frame| == size && frame == Framed(messageType, flags, correlationId, payload)
                     && Value(frame[..2]) == messageType && frame[2] == flags && Value(frame[3..11]) == correlationId
                     && Value(frame[11..15]) == |payload| && frame[15..] == payload))
  {
    hide Value;
    if 15 + |payload| <= MAX_MESSAGE_SIZE {
      FrameParts(messageType, flags, correlationId, payload);
      BigEndian(messageType, |payload|, correlationId);
      assert Framed(messageType, flags, correlationId, payload)
          == BE16(messageType) + [flags] + BE64(correlationId) + Prefixed(payload);
    }
  }

  /** A frame that was encoded decodes to its own header and payload. */
  lemma FrameRoundTrip(messageType: u16, flags: byte, correlationId: u64, payload: Bytes)
    requires EncodeFrame(messageType, flags, correlationId, payload).Ok?
    ensures var frame := EncodeFrame(messageType, flags, correlationId, payload).value;
            && DecodeFrameHeader(frame) == Ok(FrameHeader(messageType, flags, correlationId, HEADER_LEN))
            && frame[HEADER_LEN..] == payload
  {
    FrameParts(messageType, flags, correlationId, payload);
    BE16Inverse(messageType);
    BE64Inverse(correlationId);
    BE32Inverse(|payload|);
  }

  /** The decoder accepts nothing but encoded frames. */
  lemma AcceptedIsEncoded(buf: Bytes)
    requires DecodeFrameHeader(buf).Ok?
    ensures var h := DecodeFrameHeader(buf).value;
            EncodeFrame(h.messageType, h.flags, h.correlationId, buf[h.payloadStart..]) == Ok(buf)
  {
    FromBE16Inverse(buf[..2]);
    FromBE64Inverse(buf[3..11]);
    FromBE32Inverse(buf[11..15]);
    assert buf == buf[..2] + [buf[2]] + buf[3..11] + (buf[11..15] + buf[15..]);
  }

  /** Strictly increasing ids leave room for the capability field only at the front. */
  lemma {:induction false} IncreasingFields(fields: seq<Field>, above: u16)
    requires IncreasingIds(fields, above)
    ensures forall j :: 0 <= j < |fields| ==> fields[j].id > above
    ensures forall j :: 0 < j < |fields| ==> fields[j].id > fields[0].id
  {
    if fields != [] {
      IncreasingFields(fields[1..], fields[0].id);
      assert forall j :: 0 < j < |fields| ==> fields[j] == fields[1..][j - 1];
    }
  }

  /**
   Whatever `encode` accepts can be framed, and comes back from the frame: type, correlation, core
   and, for HELLO, the listed capabilities.
   */
  lemma EnvelopeThroughFrame(
    core: Bytes, fields: seq<Field>, messageType: u16, flags: byte, correlationId: u64, ids: seq<u32>)
    requires |core| < U32_LIMIT && forall k :: 0 <= k < |fields| ==> |fields[k].value| < U32_LIMIT
    requires fields != [] && IncreasingIds(fields, 0) && |Print(core, fields)| + HEADER_LEN <= MAX_MESSAGE_SIZE
    requires ValidFlags(flags) && HasExtensions(flags)
    requires messageType == HELLO ==> fields[0].id == CAPABILITY_LIST && IsCapabilityList(fields[0].value, ids)
    ensures var framed := EncodeFrame(messageType, flags, correlationId, Print(core, fields));
            && framed.Ok?
            && var header := DecodeFrameHeader(framed.value);
               && header == Ok(FrameHeader(messageType, flags, correlationId, HEADER_LEN))
               && DecodePayload(framed.value[HEADER_LEN..], messageType, flags)
                  == Ok((core, if messageType == HELLO then MaskOf(ids) else {}))
  {
    var payload, mask := Print(core, fields), if messageType == HELLO then MaskOf(ids) else {};
    FrameRoundTrip(messageType, flags, correlationId, payload);
    IncreasingFields(fields, 0);
    if messageType == HELLO {
      assert OneCapabilityField(fields, 0, ids);
    }
    assert IsEnvelope(payload, core, fields, messageType, mask);
    EnvelopeAccepted(payload, core, fields, messageType, mask);
  }
}
