/**
 Payload fields (src/codec.rs). `Take…` functions say what each getter reads from the bytes that
 remain; `PayloadDecoder` and `PayloadEncoder` are the cursor and the buffer that do it.
 */
module Codec {
  import opened ByteStrings
  import opened Errors

  function TakeFixed(s: Bytes, n: nat): Result<(Bytes, Bytes)> {
    if |s| < n then Err(Codec) else Ok((s[..n], s[n..]))
  }

  function TakeU8(s: Bytes): Result<(byte, Bytes)> {
    if |s| < 1 then Err(Codec) else Ok((s[0], s[1..]))
  }

  function TakeU16(s: Bytes): Result<(u16, Bytes)> {
    if |s| < 2 then Err(Codec) else Ok((FromBE16(s[..2]), s[2..]))
  }

  function TakeU32(s: Bytes): Result<(u32, Bytes)> {
    if |s| < 4 then Err(Codec) else Ok((FromBE32(s[..4]), s[4..]))
  }

  function TakeU64(s: Bytes): Result<(u64, Bytes)> {
    if |s| < 8 then Err(Codec) else Ok((FromBE64(s[..8]), s[8..]))
  }

  function TakeBytes(s: Bytes): Result<(Bytes, Bytes)> {
    var (n, rest) :- TakeU32(s);
    TakeFixed(rest, n)
  }

  function TakeString(s: Bytes): Result<(Bytes, Bytes)> {
    var (b, rest) :- TakeBytes(s);
    if Utf8(b) then Ok((b, rest)) else Err(Codec)
  }

  /** A field of at most u32 length, as `put_bytes` and `put_string` write it. */
  function Prefixed(b: Bytes): Bytes
    requires |b| < U32_LIMIT
  {
    BE32(|b|) + b
  }

  // What was written is what is read back, whatever follows it.

  lemma TakeU16Of(n: u16, rest: Bytes)
    ensures TakeU16(BE16(n) + rest) == Ok((n, rest))
  {
    assert (BE16(n) + rest)[..2] == BE16(n);
    BE16Inverse(n);
  }

  lemma TakeU32Of(n: u32, rest: Bytes)
    ensures TakeU32(BE32(n) + rest) == Ok((n, rest))
  {
    assert (BE32(n) + rest)[..4] == BE32(n);
    BE32Inverse(n);
  }

  lemma TakeU64Of(n: u64, rest: Bytes)
    ensures TakeU64(BE64(n) + rest) == Ok((n, rest))
  {
    assert (BE64(n) + rest)[..8] == BE64(n);
    BE64Inverse(n);
  }

  lemma TakeBytesOf(b: Bytes, rest: Bytes)
    requires |b| < U32_LIMIT
    ensures TakeBytes(Prefixed(b) + rest) == Ok((b, rest))
  {
    assert Prefixed(b) + rest == BE32(|b|) + (b + rest);
    TakeU32Of(|b|, b + rest);
  }

  // What is read is what a writer would have written.

  lemma TakeU16Inverse(s: Bytes)
    requires TakeU16(s).Ok?
    ensures var (n, rest) := TakeU16(s).value; s == BE16(n) + rest
  {
    FromBE16Inverse(s[..2]);
  }

  lemma TakeU32Inverse(s: Bytes)
    requires TakeU32(s).Ok?
    ensures var (n, rest) := TakeU32(s).value; s == BE32(n) + rest
  {
    FromBE32Inverse(s[..4]);
  }

  lemma TakeU64Inverse(s: Bytes)
    requires TakeU64(s).Ok?
    ensures var (n, rest) := TakeU64(s).value; s == BE64(n) + rest
  {
    FromBE64Inverse(s[..8]);
  }

  lemma TakeBytesInverse(s: Bytes)
    requires TakeBytes(s).Ok?
    ensures var (b, rest) := TakeBytes(s).value; |b| < U32_LIMIT && s == Prefixed(b) + rest
  {
    TakeU32Inverse(s);
  }

  /** The getter's result and the bytes it left are those the `Take` function gives. */
  ghost predicate Reads<T>(r: Result<T>, left: Bytes, taken: Result<(T, Bytes)>) {
    match taken
    case Ok((value, rest)) => r == Ok(value) && left == rest
    case Err(e) => r == Err(e)
  }

  class PayloadDecoder {
    const buf: Bytes
    var pos: nat

    ghost predicate Valid()
      reads this
    {
      pos <= |buf|
    }

    ghost function Rest(): Bytes
      reads this
      requires Valid()
    {
      buf[pos..]
    }

    constructor (buf: Bytes)
      ensures Valid() && this.buf == buf && Rest() == buf
    {
      this.buf := buf;
      pos := 0;
    }

    method GetFixed(n: nat) returns (r: Result<Bytes>)
      requires Valid()
      modifies this`pos
      ensures Valid() && Reads(r, Rest(), TakeFixed(old(Rest()), n))
      ensures r.Err? ==> pos == old(pos)
    {
      if pos + n > |buf| {
        return Err(Codec);
      }
      assert buf[pos..pos + n] == Rest()[..n] && buf[pos + n..] == Rest()[n..];
      r := Ok(buf[pos..pos + n]);
      pos := pos + n;
    }

    method GetU8() returns (r: Result<byte>)
      requires Valid()
      modifies this`pos
      ensures Valid() && Reads(r, Rest(), TakeU8(old(Rest())))
      ensures r.Err? ==> pos == old(pos)
    {
      var b :- GetFixed(1);
      r := Ok(b[0]);
    }

    method GetU16() returns (r: Result<u16>)
      requires Valid()
      modifies this`pos
      ensures Valid() && Reads(r, Rest(), TakeU16(old(Rest())))
      ensures r.Err? ==> pos == old(pos)
    {
      var b :- GetFixed(2);
      r := Ok(FromBE16(b));
    }

    method GetU32() returns (r: Result<u32>)
      requires Valid()
      modifies this`pos
      ensures Valid() && Reads(r, Rest(), TakeU32(old(Rest())))
      ensures r.Err? ==> pos == old(pos)
    {
      var b :- GetFixed(4);
      r := Ok(FromBE32(b));
    }

    method GetU64() returns (r: Result<u64>)
      requires Valid()
      modifies this`pos
      ensures Valid() && Reads(r, Rest(), TakeU64(old(Rest())))
      ensures r.Err? ==> pos == old(pos)
    {
      var b :- GetFixed(8);
      r := Ok(FromBE64(b));
    }

    method GetBytes() returns (r: Result<Bytes>)
      requires Valid()
      modifies this`pos
      ensures Valid() && Reads(r, Rest(), TakeBytes(old(Rest())))
    {
      var n :- GetU32();
      r := GetFixed(n);
    }

    method GetString() returns (r: Result<Bytes>)
      requires Valid()
      modifies this`pos
      ensures Valid() && Reads(r, Rest(), TakeString(old(Rest())))
    {
      var b :- GetBytes();
      r := if Utf8(b) then Ok(b) else Err(Codec);
    }

    method Remaining() returns (n: nat)
      requires Valid()
      ensures n == |Rest()|
    {
      n := |buf| - pos;
    }

    method IsEmpty() returns (empty: bool)
      requires Valid()
      ensures empty <==> Rest() == []
    {
      empty := pos >= |buf|;
    }
  }

  class PayloadEncoder {
    var buf: Bytes

    constructor ()
      ensures buf == []
    {
      buf := [];
    }

    method PutU8(value: byte)
      modifies this
      ensures buf == old(buf) + [value]
    {
      buf := buf + [value];
    }

    method PutU16(value: u16)
      modifies this
      ensures buf == old(buf) + BE16(value)
    {
      buf := buf + BE16(value);
    }

    method PutU64(value: u64)
      modifies this
      ensures buf == old(buf) + BE64(value)
    {
      buf := buf + BE64(value);
    }

    /** `put_bytes` and `put_string`: both panic on a field longer than u32 can say. */
    method PutBytes(bytes: Bytes)
      requires |bytes| < U32_LIMIT
      modifies this
      ensures buf == old(buf) + Prefixed(bytes)
    {
      buf := buf + BE32(|bytes|);
      buf := buf + bytes;
    }
  }
}
