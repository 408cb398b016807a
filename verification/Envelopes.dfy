/** What the envelope parser accepts: exactly the printed envelopes, each with one parse. */
module Envelopes {
  import opened ByteStrings
  import opened Errors
  import opened Codec
  import opened Wire3

  // ---------------------------------------------------------------- the capability list

  lemma {:induction false} TakeIdsOf(ids: seq<u32>, previous: u32, mask: Mask)
    ensures TakeIds(PrintIds(ids), |ids|, previous, mask)
         == if Increasing(ids, previous) then Ok(mask + MaskOf(ids)) else Err(Protocol)
  {
    if ids == [] {
      assert mask + MaskOf(ids) == mask;
    } else {
      var rest := PrintIds(ids[1..]);
      TakeU32Of(ids[0], rest);
      if ids[0] > previous {
        TakeIdsOf(ids[1..], ids[0], With(mask, ids[0]));
        MaskStep(ids, mask);
      }
    }
  }

  function With(mask: Mask, id: u32): Mask {
    if Known(id) then mask + {id} else mask
  }

  lemma MaskStep(ids: seq<u32>, mask: Mask)
    requires ids != []
    ensures With(mask, ids[0]) + MaskOf(ids[1..]) == mask + MaskOf(ids)
  {
    assert forall id :: id in ids <==> id == ids[0] || id in ids[1..];
  }

  lemma {:induction false} TakeIdsInverse(s: Bytes, count: nat, previous: u32, mask: Mask) returns (ids: seq<u32>)
    requires |s| == 4 * count && TakeIds(s, count, previous, mask).Ok?
    ensures |ids| == count && s == PrintIds(ids) && Increasing(ids, previous)
  {
    if count == 0 {
      ids := [];
    } else {
      TakeU32Inverse(s);
      var (id, rest) := TakeU32(s).value;
      var others := TakeIdsInverse(rest, count - 1, id, With(mask, id));
      ids := [id] + others;
    }
  }

  lemma {:induction false} PrintIdsLength(ids: seq<u32>)
    ensures |PrintIds(ids)| == 4 * |ids|
  {
    if ids != [] {
      PrintIdsLength(ids[1..]);
    }
  }

  lemma TakeCapabilitiesOf(ids: seq<u32>)
    requires |ids| < U16_LIMIT && Increasing(ids, 0)
    ensures TakeCapabilities(PrintCapabilities(ids)) == Ok(MaskOf(ids))
  {
    PrintIdsLength(ids);
    TakeU16Of(|ids|, PrintIds(ids));
    TakeIdsOf(ids, 0, {});
    assert {} + MaskOf(ids) == MaskOf(ids);
  }

  lemma TakeCapabilitiesInverse(value: Bytes) returns (ids: seq<u32>)
    requires TakeCapabilities(value).Ok?
    ensures IsCapabilityList(value, ids) && TakeCapabilities(value) == Ok(MaskOf(ids))
  {
    TakeU16Inverse(value);
    var (count, rest) := TakeU16(value).value;
    ids := TakeIdsInverse(rest, count, 0, {});
    TakeCapabilitiesOf(ids);
  }

  // ---------------------------------------------------------------- the fields

  /** What the field loop finds in a list of fields. */
  function Find(fields: seq<Field>, handshake: bool, found: Capabilities): Result<Capabilities> {
    if fields == [] then Ok(found)
    else
      var next :- See(fields[0], handshake, found);
      Find(fields[1..], handshake, next)
  }

  lemma {:induction false} TakeFieldsOf(fields: seq<Field>, handshake: bool, found: Capabilities)
    requires AllWellFormed(fields)
    ensures TakeFields(PrintFields(fields), handshake, found) == Find(fields, handshake, found)
    decreases |fields|
  {
    if fields != [] {
      TakeFieldOf(fields[0], PrintFields(fields[1..]));
      var next := See(fields[0], handshake, found);
      if next.Ok? {
        TakeFieldsOf(fields[1..], handshake, next.value);
      }
    }
  }

  lemma TakeFieldOf(f: Field, rest: Bytes)
    requires WellFormed(f)
    ensures TakeField(PrintField(f) + rest) == Ok((f, rest))
  {
    TakeU16Of(f.id, Prefixed(f.value) + rest);
    assert PrintField(f) + rest == BE16(f.id) + (Prefixed(f.value) + rest);
    TakeU32Of(|f.value|, f.value + rest);
    assert Prefixed(f.value) + rest == BE32(|f.value|) + (f.value + rest);
    assert (f.value + rest)[..|f.value|] == f.value && (f.value + rest)[|f.value|..] == rest;
  }

  lemma TakeFieldInverse(s: Bytes)
    requires TakeField(s).Ok?
    ensures var (f, rest) := TakeField(s).value; WellFormed(f) && s == PrintField(f) + rest
  {
    TakeU16Inverse(s);
    TakeU32Inverse(TakeU16(s).value.1);
  }

  lemma {:induction false} TakeFieldsInverse(s: Bytes, handshake: bool, found: Capabilities) returns (fields: seq<Field>)
    requires TakeFields(s, handshake, found).Ok?
    ensures AllWellFormed(fields) && s == PrintFields(fields) && (s != [] ==> fields != [])
    decreases |s|
  {
    if s == [] {
      fields := [];
    } else {
      TakeFieldInverse(s);
      var (f, rest) := TakeField(s).value;
      var others := TakeFieldsInverse(rest, handshake, See(f, handshake, found).value);
      fields := [f] + others;
    }
  }

  const NONE_FOUND := Capabilities(false, {})

  /** After the capability field, the loop accepts any fields but another one. */
  lemma {:induction false} FindAfter(fields: seq<Field>, found: Capabilities)
    requires found.seen
    ensures Find(fields, true, found)
         == if exists f :: f in fields && f.id == CAPABILITY_LIST then Err(Protocol) else Ok(found)
  {
    if fields != [] {
      assert forall f :: f in fields <==> f == fields[0] || f in fields[1..];
      if fields[0].id != CAPABILITY_LIST {
        FindAfter(fields[1..], found);
      } else {
        assert fields[0] in fields;
      }
    }
  }

  lemma {:induction false} FindOne(fields: seq<Field>, k: nat, ids: seq<u32>)
    requires OneCapabilityField(fields, k, ids)
    ensures Find(fields, true, NONE_FOUND) == Ok(Capabilities(true, MaskOf(ids)))
    decreases k
  {
    assert forall j :: 0 <= j < |fields| - 1 ==> fields[1..][j] == fields[j + 1];
    if k == 0 {
      TakeCapabilitiesOf(ids);
      FindAfter(fields[1..], Capabilities(true, MaskOf(ids)));
    } else {
      FindOne(fields[1..], k - 1, ids);
    }
  }

  lemma {:induction false} FoundOne(fields: seq<Field>) returns (k: nat, ids: seq<u32>)
    requires Find(fields, true, NONE_FOUND).Ok? && Find(fields, true, NONE_FOUND).value.seen
    ensures OneCapabilityField(fields, k, ids)
  {
    var rest := fields[1..];
    assert forall j :: 0 < j < |fields| ==> fields[j] == rest[j - 1];
    if fields[0].id == CAPABILITY_LIST {
      k := 0;
      ids := TakeCapabilitiesInverse(fields[0].value);
      FindAfter(rest, Capabilities(true, TakeCapabilities(fields[0].value).value));
      assert forall j :: 0 <= j < |rest| ==> rest[j] in rest;
    } else {
      k, ids := FoundOne(rest);
      k := k + 1;
    }
  }

  lemma {:induction false} FindPlain(fields: seq<Field>, found: Capabilities)
    ensures Find(fields, false, found) == Ok(found)
  {
    if fields != [] {
      FindPlain(fields[1..], found);
    }
  }

  // ---------------------------------------------------------------- the envelope

  lemma TakeEnvelopeOf(core: Bytes, fields: seq<Field>, handshake: bool)
    requires Encodable(core, fields) && fields != []
    ensures TakeEnvelope(Print(core, fields), handshake) == (
              var found := Find(fields, handshake, NONE_FOUND);
              if found.Err? then Err(found.error)
              else if handshake && !found.value.seen then Err(Protocol)
              else Ok((core, found.value.mask)))
  {
    var rest := core + PrintFields(fields);
    assert Print(core, fields) == BE32(|core|) + rest;
    TakeU32Of(|core|, rest);
    assert rest[..|core|] == core && rest[|core|..] == PrintFields(fields);
    TakeFieldsOf(fields, handshake, NONE_FOUND);
  }

  /** Every printed envelope is accepted, and its own core and mask are what comes back. */
  lemma EnvelopeAccepted(payload: Bytes, core: Bytes, fields: seq<Field>, messageType: u16, mask: Mask)
    requires IsEnvelope(payload, core, fields, messageType, mask)
    ensures TakeEnvelope(payload, messageType == HELLO) == Ok((core, mask))
  {
    TakeEnvelopeOf(core, fields, messageType == HELLO);
    if messageType == HELLO {
      var k: nat, ids :| OneCapabilityField(fields, k, ids) && mask == MaskOf(ids);
      FindOne(fields, k, ids);
    } else {
      FindPlain(fields, NONE_FOUND);
    }
  }

  /** Everything accepted is a printed envelope. */
  lemma AcceptedIsEnvelope(payload: Bytes, messageType: u16) returns (fields: seq<Field>)
    requires TakeEnvelope(payload, messageType == HELLO).Ok?
    ensures var (core, mask) := TakeEnvelope(payload, messageType == HELLO).value;
            IsEnvelope(payload, core, fields, messageType, mask)
  {
    TakeU32Inverse(payload);
    var (coreLength, rest) := TakeU32(payload).value;
    var core, s := rest[..coreLength], rest[coreLength..];
    fields := TakeFieldsInverse(s, messageType == HELLO, NONE_FOUND);
    assert payload == Print(core, fields);
    TakeEnvelopeOf(core, fields, messageType == HELLO);
    if messageType == HELLO {
      var k, ids := FoundOne(fields);
      FindOne(fields, k, ids);
    } else {
      FindPlain(fields, NONE_FOUND);
    }
  }

  /** The decoder's language, for every message type, flag byte and payload. */
  lemma DecodeLanguage(payload: Bytes, messageType: u16, flags: byte, core: Bytes, mask: Mask)
    ensures DecodePayload(payload, messageType, flags) == Ok((core, mask)) <==>
              if HasExtensions(flags) then exists fields :: IsEnvelope(payload, core, fields, messageType, mask)
              else messageType != HELLO && core == payload && mask == {}
  {
    if HasExtensions(flags) {
      if TakeEnvelope(payload, messageType == HELLO) == Ok((core, mask)) {
        var fields := AcceptedIsEnvelope(payload, messageType);
      }
      forall fields | IsEnvelope(payload, core, fields, messageType, mask)
        ensures TakeEnvelope(payload, messageType == HELLO) == Ok((core, mask))
      {
        EnvelopeAccepted(payload, core, fields, messageType, mask);
      }
    }
  }

  // ---------------------------------------------------------------- unique parse and truncation

  lemma SameField(a: Field, restA: Bytes, b: Field, restB: Bytes)
    requires WellFormed(a) && WellFormed(b) && PrintField(a) + restA == PrintField(b) + restB
    ensures a == b && restA == restB
  {
    TakeFieldOf(a, restA);
    TakeFieldOf(b, restB);
  }

  /** If one printed field list starts another, its fields are the first of the other's. */
  lemma {:induction false} FieldsPrefix(a: seq<Field>, b: seq<Field>)
    requires AllWellFormed(a) && AllWellFormed(b) && PrintFields(a) <= PrintFields(b)
    ensures a <= b
  {
    if a != [] {
      assert b != [];
      var ra, rb := PrintFields(a[1..]), PrintFields(b[1..]);
      var tail := PrintFields(b)[|PrintFields(a)|..];
      assert PrintFields(b) == PrintField(a[0]) + (ra + tail);
      SameField(a[0], ra + tail, b[0], rb);
      assert AllWellFormed(a[1..]) && AllWellFormed(b[1..]);
      FieldsPrefix(a[1..], b[1..]);
      assert a == [a[0]] + a[1..] && b == [b[0]] + b[1..];
    }
  }

  /** A shorter envelope that starts a longer one has its core and its first fields. */
  lemma EnvelopePrefix(core: Bytes, fields: seq<Field>, core': Bytes, fields': seq<Field>)
    requires Encodable(core, fields) && Encodable(core', fields') && Print(core', fields') <= Print(core, fields)
    ensures core' == core && fields' <= fields
  {
    var p, q := Print(core', fields'), Print(core, fields);
    var tail := q[|p|..];
    SameCore(core', PrintFields(fields') + tail, core, PrintFields(fields)) by {
      assert q == p + tail;
      assert q == Prefixed(core) + PrintFields(fields);
      assert p + tail == Prefixed(core') + (PrintFields(fields') + tail);
    }
    FieldsPrefix(fields', fields);
  }

  lemma SameCore(a: Bytes, restA: Bytes, b: Bytes, restB: Bytes)
    requires |a| < U32_LIMIT && |b| < U32_LIMIT && Prefixed(a) + restA == Prefixed(b) + restB
    ensures a == b && restA == restB
  {
    TakeBytesOf(a, restA);
    TakeBytesOf(b, restB);
  }

  /** No payload has two parses. */
  lemma ParseIsUnique(core: Bytes, fields: seq<Field>, core': Bytes, fields': seq<Field>)
    requires Encodable(core, fields) && Encodable(core', fields') && Print(core', fields') == Print(core, fields)
    ensures core' == core && fields' == fields
  {
    EnvelopePrefix(core, fields, core', fields');
    EnvelopePrefix(core', fields', core, fields);
  }

  /** A place to cut a printed envelope: a field boundary that leaves enough for this message type. */
  ghost predicate CutPoint(fields: seq<Field>, k: nat, messageType: u16) {
    && 0 < k < |fields|
    && (messageType == HELLO ==> exists j :: 0 <= j < k && fields[j].id == CAPABILITY_LIST)
  }

  lemma CutIsEnvelope(payload: Bytes, core: Bytes, fields: seq<Field>, messageType: u16, mask: Mask, k: nat)
    requires IsEnvelope(payload, core, fields, messageType, mask) && CutPoint(fields, k, messageType)
    ensures TakeEnvelope(Print(core, fields[..k]), messageType == HELLO) == Ok((core, mask))
  {
    if messageType == HELLO {
      var i: nat, ids :| OneCapabilityField(fields, i, ids) && mask == MaskOf(ids);
      var j :| 0 <= j < k && fields[j].id == CAPABILITY_LIST;
      assert OneCapabilityField(fields[..k], i, ids);
    }
    EnvelopeAccepted(Print(core, fields[..k]), core, fields[..k], messageType, mask);
  }

  lemma CutIsFieldBoundary(payload: Bytes, core: Bytes, fields: seq<Field>, messageType: u16, mask: Mask, n: nat)
    returns (k: nat)
    requires IsEnvelope(payload, core, fields, messageType, mask) && n < |payload|
    requires TakeEnvelope(payload[..n], messageType == HELLO).Ok?
    ensures CutPoint(fields, k, messageType) && payload[..n] == Print(core, fields[..k])
  {
    var kept := AcceptedIsEnvelope(payload[..n], messageType);
    EnvelopePrefix(core, fields, TakeEnvelope(payload[..n], messageType == HELLO).value.0, kept);
    k := |kept|;
    assert fields[..k] == kept;
    assert k == |fields| ==> kept == fields;
    if messageType == HELLO {
      var j: nat, ids :| OneCapabilityField(kept, j, ids);
      assert fields[j] == kept[j];
    }
  }

  /**
   A truncated envelope is accepted exactly when it was cut at a field boundary, after at least one
   field and, in HELLO, after the capability field.
   */
  lemma TruncationLanguage(payload: Bytes, core: Bytes, fields: seq<Field>, messageType: u16, mask: Mask, n: nat)
    requires IsEnvelope(payload, core, fields, messageType, mask) && n < |payload|
    ensures TakeEnvelope(payload[..n], messageType == HELLO).Ok? <==>
              exists k: nat :: CutPoint(fields, k, messageType) && payload[..n] == Print(core, fields[..k])
  {
    if TakeEnvelope(payload[..n], messageType == HELLO).Ok? {
      var k := CutIsFieldBoundary(payload, core, fields, messageType, mask, n);
    }
    forall k: nat | CutPoint(fields, k, messageType) && payload[..n] == Print(core, fields[..k])
      ensures TakeEnvelope(payload[..n], messageType == HELLO).Ok?
    {
      CutIsEnvelope(payload, core, fields, messageType, mask, k);
    }
  }
}
