/**
 What a session makes of the bytes of a frame (src/async_connection.rs, `decode_incoming`,
 `apply_server_hello` and `process_auth_frame`), said of the bytes themselves.
 */
module IncomingFrames {
  import opened ByteStrings
  import opened Errors
  import opened Codec
  import opened WireLists
  import opened Wire3
  import opened Envelopes
  import opened Frames
  import opened Multiplexer
  import Supervisor

  // ---------------------------------------------------------------- header and body

  /** These bytes are a frame with this header and payload, within the limits. */
  ghost predicate IsFrame(bytes: Bytes, maxMessageBytes: nat, messageType: u16, flags: byte, correlationId: u64, payload: Bytes) {
    && 15 + |payload| <= MAX_MESSAGE_SIZE && 15 + |payload| <= maxMessageBytes && flags < 8
    && bytes == Framed(messageType, flags, correlationId, payload)
  }

  lemma HeaderLanguage(bytes: Bytes, messageType: u16, flags: byte, correlationId: u64, payload: Bytes)
    ensures DecodeFrameHeader(bytes) == Ok(FrameHeader(messageType, flags, correlationId, HEADER_LEN)) && bytes[15..] == payload
            <==> IsFrame(bytes, MAX_MESSAGE_SIZE, messageType, flags, correlationId, payload)
  {
    hide EncodeFrame, DecodeFrameHeader, Framed, Value;
    FrameLayout(messageType, flags, correlationId, payload);
    if IsFrame(bytes, MAX_MESSAGE_SIZE, messageType, flags, correlationId, payload) {
      FrameRoundTrip(messageType, flags, correlationId, payload);
    }
    if DecodeFrameHeader(bytes) == Ok(FrameHeader(messageType, flags, correlationId, HEADER_LEN)) {
      AcceptedIsEncoded(bytes);
      HeaderIsThere(bytes);
      FrameLayout(messageType, flags, correlationId, bytes[15..]);
    }
  }

  lemma HeaderIsThere(bytes: Bytes)
    requires DecodeFrameHeader(bytes).Ok?
    ensures |bytes| >= 15 && DecodeFrameHeader(bytes).value.payloadStart == 15 && DecodeFrameHeader(bytes).value.flags < 8
  {
  }

  /** With the flag for extensions the payload is an envelope of its core, without it the core itself. */
  ghost predicate Holds(payload: Bytes, messageType: u16, flags: byte, core: Bytes, mask: Mask) {
    if flags < 4 then messageType != HELLO && core == payload && mask == {}
    else exists fields :: IsEnvelope(payload, core, fields, messageType, mask)
  }

  lemma BodyLanguage(payload: Bytes, messageType: u16, flags: byte, core: Bytes, mask: Mask)
    requires flags < 8
    ensures DecodePayload(payload, messageType, flags) == Ok((core, mask)) <==> Holds(payload, messageType, flags, core, mask)
  {
    hide DecodePayload, IsEnvelope;
    DecodeLanguage(payload, messageType, flags, core, mask);
  }

  // ---------------------------------------------------------------- records

  predicate OfControl(messageType: u16) {
    messageType == HELLO || messageType == CONNECT_REJECTED || messageType == GOAWAY
  }

  /** A frame of this type and correlation with this core, and whether it is the last of its reply. */
  ghost predicate IsRecord(
    bytes: Bytes, maxMessageBytes: nat, messageType: u16, core: Bytes, correlationId: u64, final: bool)
  {
    exists flags: byte, payload: Bytes ::
      && IsFrame(bytes, maxMessageBytes, messageType, flags, correlationId, payload)
      && Holds(payload, messageType, flags, core, {})
      && (final <==> flags == 2 || flags == 3 || flags == 6 || flags == 7)
  }

  lemma FinalFlags(flags: byte)
    requires flags < 8
    ensures IsFinal(flags) <==> flags == 2 || flags == 3 || flags == 6 || flags == 7
  {
  }

  /** Everything but a control message is a record of the frame's own type, core and correlation, final by its flags. */
  lemma RecordLanguage(limits: Limits, bytes: Bytes, messageType: u16, core: Bytes, correlationId: u64, final: bool)
    ensures DecodeIncoming(limits, bytes) == Ok(Record(messageType, core, correlationId, final))
            <==> !OfControl(messageType) && IsRecord(bytes, limits.maxMessageBytes, messageType, core, correlationId, final)
  {
    hide DecodeFrameHeader, DecodePayload, Framed, ApplyServerHello, DecodeGoaway, Holds, IsFinal;
    if DecodeIncoming(limits, bytes) == Ok(Record(messageType, core, correlationId, final)) {
      var header := DecodeFrameHeader(bytes).value;
      HeaderIsThere(bytes);
      HeaderLanguage(bytes, messageType, header.flags, correlationId, bytes[15..]);
      assert 15 + |bytes[15..]| == |bytes|;
      BodyLanguage(bytes[15..], messageType, header.flags, core, DecodePayload(bytes[15..], messageType, header.flags).value.1);
      NoMask(bytes[15..], messageType, header.flags, core, DecodePayload(bytes[15..], messageType, header.flags).value.1);
      FinalFlags(header.flags);
    }
    forall flags: byte, payload: Bytes
      | && IsFrame(bytes, limits.maxMessageBytes, messageType, flags, correlationId, payload)
        && Holds(payload, messageType, flags, core, {}) && !OfControl(messageType)
      ensures DecodeIncoming(limits, bytes) == Ok(Record(messageType, core, correlationId, flags == 2 || flags == 3 || flags == 6 || flags == 7))
    {
      HeaderLanguage(bytes, messageType, flags, correlationId, payload);
      BodyLanguage(payload, messageType, flags, core, {});
      FinalFlags(flags);
      FramedLength(messageType, flags, correlationId, payload);
    }
  }

  lemma FramedLength(messageType: u16, flags: byte, correlationId: u64, payload: Bytes)
    requires |payload| < U32_LIMIT
    ensures |Framed(messageType, flags, correlationId, payload)| == 15 + |payload|
  {
  }

  /** Only HELLO carries capabilities. */
  lemma NoMask(payload: Bytes, messageType: u16, flags: byte, core: Bytes, mask: Mask)
    requires Holds(payload, messageType, flags, core, mask) && messageType != HELLO
    ensures mask == {}
  {
  }

  // ---------------------------------------------------------------- HELLO

  /** Version 3, no bits, the largest message, the requests in flight, and a session id. */
  function HelloCore(maxMessageBytes: u32, maxInFlight: u32, session: u64): Bytes {
    BE16(3) + (BE32(0) + (BE32(maxMessageBytes) + (BE32(maxInFlight) + (BE64(session) + []))))
  }

  function Smaller(a: nat, b: nat): nat {
    if a < b then a else b
  }

  /** What a HELLO leaves of the limits: the broker can only lower them. */
  ghost predicate Negotiates(limits: Limits, core: Bytes, mask: Mask, renewed: Limits) {
    limits.hello.None? && exists maxMessageBytes: u32, maxInFlight: u32, session: u64 ::
      && core == HelloCore(maxMessageBytes, maxInFlight, session)
      && 15 <= maxMessageBytes && 1 <= maxInFlight
      && renewed == Limits(Some(mask), Smaller(maxMessageBytes, MAX_MESSAGE_SIZE), Smaller(maxInFlight, limits.maxInFlight))
  }

  lemma HelloReads(limits: Limits, mask: Mask, maxMessageBytes: u32, maxInFlight: u32, session: u64)
    requires limits.hello.None? && 15 <= maxMessageBytes && 1 <= maxInFlight
    ensures ApplyServerHello(limits, HelloCore(maxMessageBytes, maxInFlight, session), mask) ==
              Ok(Limits(Some(mask), Smaller(maxMessageBytes, MAX_MESSAGE_SIZE), Smaller(maxInFlight, limits.maxInFlight)))
  {
    var s3 := BE64(session) + [];
    var s2 := BE32(maxInFlight) + s3;
    var s1 := BE32(maxMessageBytes) + s2;
    TakeU16Of(3, BE32(0) + s1);
    TakeU32Of(0, s1);
    TakeU32Of(maxMessageBytes, s2);
    TakeU32Of(maxInFlight, s3);
    TakeU64Of(session, []);
  }

  /** A first HELLO is accepted exactly when it offers version 3 and limits that leave room for a header and a request. */
  lemma HelloLanguage(limits: Limits, core: Bytes, mask: Mask, renewed: Limits)
    ensures ApplyServerHello(limits, core, mask) == Ok(renewed) <==> Negotiates(limits, core, mask, renewed)
  {
    hide TakeU16, TakeU32, TakeU64;
    if ApplyServerHello(limits, core, mask) == Ok(renewed) {
      TakeU16Inverse(core);
      var s0 := TakeU16(core).value.1;
      TakeU32Inverse(s0);
      var s1 := TakeU32(s0).value.1;
      TakeU32Inverse(s1);
      var s2 := TakeU32(s1).value.1;
      TakeU32Inverse(s2);
      var s3 := TakeU32(s2).value.1;
      TakeU64Inverse(s3);
      assert core == HelloCore(TakeU32(s1).value.0, TakeU32(s2).value.0, TakeU64(s3).value.0);
    }
    forall maxMessageBytes: u32, maxInFlight: u32, session: u64
      | core == HelloCore(maxMessageBytes, maxInFlight, session) && limits.hello.None? && 15 <= maxMessageBytes && 1 <= maxInFlight
      ensures ApplyServerHello(limits, core, mask) ==
                Ok(Limits(Some(mask), Smaller(maxMessageBytes, MAX_MESSAGE_SIZE), Smaller(maxInFlight, limits.maxInFlight)))
    {
      HelloReads(limits, mask, maxMessageBytes, maxInFlight, session);
    }
  }

  /** A HELLO alone in its frame: flagged for extensions, without correlation, and renewing these limits. */
  ghost predicate IsHello(limits: Limits, maxMessageBytes: nat, bytes: Bytes, renewed: Limits) {
    exists payload: Bytes, core: Bytes, mask: Mask ::
      && IsFrame(bytes, maxMessageBytes, HELLO, 4, 0, payload)
      && Holds(payload, HELLO, 4, core, mask)
      && Negotiates(limits, core, mask, renewed)
  }

  lemma BodyOfFrame(bytes: Bytes, maxMessageBytes: nat, messageType: u16, flags: byte, correlationId: u64, payload: Bytes)
    requires IsFrame(bytes, maxMessageBytes, messageType, flags, correlationId, payload)
    ensures |bytes| <= maxMessageBytes && bytes[15..] == payload
    ensures DecodeFrameHeader(bytes) == Ok(FrameHeader(messageType, flags, correlationId, HEADER_LEN))
  {
    hide Framed, DecodeFrameHeader;
    FramedLength(messageType, flags, correlationId, payload);
    HeaderLanguage(bytes, messageType, flags, correlationId, payload);
  }

  lemma FrameOfBody(bytes: Bytes, maxMessageBytes: nat)
    requires DecodeFrameHeader(bytes).Ok? && |bytes| <= maxMessageBytes
    ensures var h := DecodeFrameHeader(bytes).value;
            IsFrame(bytes, maxMessageBytes, h.messageType, h.flags, h.correlationId, bytes[15..])
  {
    hide Framed, DecodeFrameHeader;
    HeaderIsThere(bytes);
    var h := DecodeFrameHeader(bytes).value;
    HeaderLanguage(bytes, h.messageType, h.flags, h.correlationId, bytes[15..]);
    FramedLength(h.messageType, h.flags, h.correlationId, bytes[15..]);
  }

  // ---------------------------------------------------------------- GOAWAY

  /** A code, a grace period and a reason in UTF-8, and nothing after them. */
  ghost predicate Parting(core: Bytes) {
    exists code: u16, grace: u32, reason: Bytes ::
      |reason| < U32_LIMIT && Utf8(reason) && core == BE16(code) + (BE32(grace) + (Prefixed(reason) + []))
  }

  lemma PartingLanguage(core: Bytes)
    ensures DecodeGoaway(core).Ok? <==> Parting(core)
  {
    hide TakeU16, TakeU32, TakeBytes, Prefixed, Utf8;
    if DecodeGoaway(core).Ok? {
      TakeU16Inverse(core);
      TakeU32Inverse(TakeU16(core).value.1);
      TakeBytesInverse(TakeU32(TakeU16(core).value.1).value.1);
    }
    forall code: u16, grace: u32, reason: Bytes
      | |reason| < U32_LIMIT && Utf8(reason) && core == BE16(code) + (BE32(grace) + (Prefixed(reason) + []))
      ensures DecodeGoaway(core).Ok?
    {
      TakeU16Of(code, BE32(grace) + (Prefixed(reason) + []));
      TakeU32Of(grace, Prefixed(reason) + []);
      TakeBytesOf(reason, []);
    }
  }

  ghost predicate IsGoaway(maxMessageBytes: nat, bytes: Bytes) {
    exists flags: byte, payload: Bytes, core: Bytes ::
      && (flags == 0 || flags == 4)
      && IsFrame(bytes, maxMessageBytes, GOAWAY, flags, 0, payload)
      && Holds(payload, GOAWAY, flags, core, {}) && Parting(core)
  }

  // ---------------------------------------------------------------- what a frame may be

  lemma HelloDecodes(limits: Limits, bytes: Bytes, renewed: Limits)
    ensures IsHello(limits, limits.maxMessageBytes, bytes, renewed) ==> DecodeIncoming(limits, bytes) == Ok(Control(renewed))
    ensures IsHello(limits, MAX_MESSAGE_SIZE, bytes, renewed) ==> Supervisor.Authenticated(limits, bytes) == Ok(renewed)
  {
    hide IsFrame, Holds, Negotiates, DecodeFrameHeader, DecodePayload, ApplyServerHello;
    forall max: nat, payload: Bytes, core: Bytes, mask: Mask
      | && IsFrame(bytes, max, HELLO, 4, 0, payload) && Holds(payload, HELLO, 4, core, mask)
        && Negotiates(limits, core, mask, renewed)
      ensures max == limits.maxMessageBytes ==> DecodeIncoming(limits, bytes) == Ok(Control(renewed))
      ensures Supervisor.Authenticated(limits, bytes) == Ok(renewed)
    {
      BodyOfFrame(bytes, max, HELLO, 4, 0, payload);
      BodyLanguage(payload, HELLO, 4, core, mask);
      HelloLanguage(limits, core, mask, renewed);
    }
  }

  lemma GoawayDecodes(limits: Limits, bytes: Bytes)
    requires IsGoaway(limits.maxMessageBytes, bytes)
    ensures DecodeIncoming(limits, bytes) == Ok(Control(limits))
  {
    hide IsFrame, Holds, Parting, DecodeFrameHeader, DecodePayload, DecodeGoaway;
    var flags: byte, payload: Bytes, core: Bytes :|
      && (flags == 0 || flags == 4)
      && IsFrame(bytes, limits.maxMessageBytes, GOAWAY, flags, 0, payload)
      && Holds(payload, GOAWAY, flags, core, {}) && Parting(core);
    BodyOfFrame(bytes, limits.maxMessageBytes, GOAWAY, flags, 0, payload);
    BodyLanguage(payload, GOAWAY, flags, core, {});
    PartingLanguage(core);
  }

  /**
   A control frame is a HELLO of a session without one, which renews the limits, or a GOAWAY, which
   leaves them; with the records of RecordLanguage these are all the frames that a session accepts.
   */
  lemma ControlLanguage(limits: Limits, bytes: Bytes, renewed: Limits)
    ensures DecodeIncoming(limits, bytes) == Ok(Control(renewed)) <==>
              || IsHello(limits, limits.maxMessageBytes, bytes, renewed)
              || (renewed == limits && IsGoaway(limits.maxMessageBytes, bytes))
  {
    hide IsFrame, Holds, Parting, Negotiates, DecodeFrameHeader, DecodePayload, DecodeGoaway, ApplyServerHello;
    HelloDecodes(limits, bytes, renewed);
    if IsGoaway(limits.maxMessageBytes, bytes) {
      GoawayDecodes(limits, bytes);
    }
    if DecodeIncoming(limits, bytes) == Ok(Control(renewed)) {
      var header := DecodeFrameHeader(bytes).value;
      HeaderIsThere(bytes);
      FrameOfBody(bytes, limits.maxMessageBytes);
      var (core, mask) := DecodePayload(bytes[15..], header.messageType, header.flags).value;
      BodyLanguage(bytes[15..], header.messageType, header.flags, core, mask);
      if header.messageType == HELLO {
        HelloLanguage(limits, core, mask, renewed);
      } else {
        NoMask(bytes[15..], header.messageType, header.flags, core, mask);
        PartingLanguage(core);
      }
    }
  }

  /** The first frame of a session settles it exactly when it is a HELLO, of any length that a frame may have. */
  lemma AuthenticationLanguage(limits: Limits, bytes: Bytes, renewed: Limits)
    ensures Supervisor.Authenticated(limits, bytes) == Ok(renewed) <==> IsHello(limits, MAX_MESSAGE_SIZE, bytes, renewed)
  {
    hide IsFrame, Holds, Negotiates, DecodeFrameHeader, DecodePayload, ApplyServerHello;
    HelloDecodes(limits, bytes, renewed);
    if Supervisor.Authenticated(limits, bytes) == Ok(renewed) {
      var header := DecodeFrameHeader(bytes).value;
      HeaderIsThere(bytes);
      HeaderSize(bytes);
      FrameOfBody(bytes, MAX_MESSAGE_SIZE);
      var (core, mask) := DecodePayload(bytes[15..], HELLO, header.flags).value;
      BodyLanguage(bytes[15..], HELLO, header.flags, core, mask);
      HelloLanguage(limits, core, mask, renewed);
      HelloHasExtensions(bytes[15..], header.flags, core, mask);
    }
  }

  lemma HeaderSize(bytes: Bytes)
    requires DecodeFrameHeader(bytes).Ok?
    ensures |bytes| <= MAX_MESSAGE_SIZE
  {
  }

  lemma HelloHasExtensions(payload: Bytes, flags: byte, core: Bytes, mask: Mask)
    requires Holds(payload, HELLO, flags, core, mask)
    ensures flags >= 4
  {
  }
}
