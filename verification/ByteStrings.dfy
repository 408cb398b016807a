/**
 Bytes, fixed-width unsigned integers and their big-endian encodings, as used by every
 Wire 3 message.
 */
module ByteStrings {

  const U16_LIMIT := 0x1_0000
  const U32_LIMIT := 0x1_0000_0000
  const U64_LIMIT := 0x1_0000_0000_0000_0000

  type byte = b: int | 0 <= b < 256
  type u16 = n: int | 0 <= n < U16_LIMIT
  type u32 = n: int | 0 <= n < U32_LIMIT
  type u64 = n: int | 0 <= n < U64_LIMIT

  type Bytes = seq<byte>

  function BE16(n: u16): (b: Bytes)
    ensures |b| == 2
  {
    [n / 256, n % 256]
  }

  function BE32(n: u32): (b: Bytes)
    ensures |b| == 4
  {
    BE16(n / U16_LIMIT) + BE16(n % U16_LIMIT)
  }

  function BE64(n: u64): (b: Bytes)
    ensures |b| == 8
  {
    BE32(n / U32_LIMIT) + BE32(n % U32_LIMIT)
  }

  function FromBE16(b: Bytes): u16
    requires |b| == 2
  {
    (b[0] as int) * 256 + b[1]
  }

  function FromBE32(b: Bytes): u32
    requires |b| == 4
  {
    FromBE16(b[..2]) * U16_LIMIT + FromBE16(b[2..])
  }

  function FromBE64(b: Bytes): u64
    requires |b| == 8
  {
    FromBE32(b[..4]) * U32_LIMIT + FromBE32(b[4..])
  }

  lemma BE16Inverse(n: u16)
    ensures FromBE16(BE16(n)) == n
  {
  }

  lemma BE32Inverse(n: u32)
    ensures FromBE32(BE32(n)) == n
  {
    assert BE32(n)[..2] == BE16(n / U16_LIMIT);
    assert BE32(n)[2..] == BE16(n % U16_LIMIT);
  }

  lemma BE64Inverse(n: u64)
    ensures FromBE64(BE64(n)) == n
  {
    assert BE64(n)[..4] == BE32(n / U32_LIMIT);
    assert BE64(n)[4..] == BE32(n % U32_LIMIT);
    BE32Inverse(n / U32_LIMIT);
    BE32Inverse(n % U32_LIMIT);
  }

  lemma FromBE16Inverse(b: Bytes)
    requires |b| == 2
    ensures BE16(FromBE16(b)) == b
  {
  }

  lemma FromBE32Inverse(b: Bytes)
    requires |b| == 4
    ensures BE32(FromBE32(b)) == b
  {
    FromBE16Inverse(b[..2]);
    FromBE16Inverse(b[2..]);
    var high, low := FromBE16(b[..2]), FromBE16(b[2..]);
    assert FromBE32(b) / U16_LIMIT == high && FromBE32(b) % U16_LIMIT == low;
  }

  lemma FromBE64Inverse(b: Bytes)
    requires |b| == 8
    ensures BE64(FromBE64(b)) == b
  {
    FromBE32Inverse(b[..4]);
    FromBE32Inverse(b[4..]);
    var high, low := FromBE32(b[..4]), FromBE32(b[4..]);
    assert FromBE64(b) / U32_LIMIT == high && FromBE64(b) % U32_LIMIT == low;
  }

  // ---------------------------------------------------------------- big-endian

  /** The number that bytes stand for, the most significant first. */
  function Value(b: Bytes): nat {
    if b == [] then 0 else Value(b[..|b| - 1]) * 256 + b[|b| - 1]
  }

  lemma ValueMore(b: Bytes, x: byte)
    ensures Value(b + [x]) == Value(b) * 256 + x
  {
    assert (b + [x])[..|b|] == b;
  }

  lemma ValueOfTwo(b: Bytes, n: u16)
    ensures Value(b + BE16(n)) == Value(b) * U16_LIMIT + n
  {
    hide Value;
    ValueMore(b, n / 256);
    ValueMore(b + [n / 256], n % 256);
    assert b + BE16(n) == b + [n / 256] + [n % 256];
  }

  lemma ValueOfFour(b: Bytes, n: u32)
    ensures Value(b + BE32(n)) == Value(b) * U32_LIMIT + n
  {
    hide Value, BE16;
    ValueOfTwo(b, n / U16_LIMIT);
    ValueOfTwo(b + BE16(n / U16_LIMIT), n % U16_LIMIT);
    assert b + BE32(n) == b + BE16(n / U16_LIMIT) + BE16(n % U16_LIMIT);
  }

  /** Integers are written big-endian, in as many bytes as their width. */
  lemma BigEndian(a: u16, b: u32, c: u64)
    ensures Value(BE16(a)) == a && Value(BE32(b)) == b && Value(BE64(c)) == c
  {
    hide BE16, BE32;
    assert forall s: Bytes :: [] + s == s;
    ValueOfTwo([], a);
    ValueOfFour([], b);
    ValueOfFour([], c / U32_LIMIT);
    ValueOfFour(BE32(c / U32_LIMIT), c % U32_LIMIT);
  }

  // ---------------------------------------------------------------- text

  /** Well-formed UTF-8, byte by byte: what a Rust `String` may hold. */
  predicate Utf8(s: Bytes) {
    if s == [] then true
    else
      var n := ScalarLength(s);
      n != 0 && Utf8(s[n..])
  }

  /** Bytes taken by the scalar value at the front of `s`, or 0 when it is ill-formed. */
  function ScalarLength(s: Bytes): (n: nat)
    requires s != []
    ensures n <= |s|
  {
    var b := s[0];
    if b < 0x80 then 1
    else if |s| >= 2 && 0xC2 <= b <= 0xDF && Continuation(s[1]) then 2
    else if |s| >= 3 && 0xE0 <= b <= 0xEF && Continuation(s[1]) && Continuation(s[2])
            && (b == 0xE0 ==> 0xA0 <= s[1]) && (b == 0xED ==> s[1] <= 0x9F) then 3
    else if |s| >= 4 && 0xF0 <= b <= 0xF4 && Continuation(s[1]) && Continuation(s[2]) && Continuation(s[3])
            && (b == 0xF0 ==> 0x90 <= s[1]) && (b == 0xF4 ==> s[1] <= 0x8F) then 4
    else 0
  }

  predicate Continuation(b: byte) {
    0x80 <= b <= 0xBF
  }

  /** A Unicode scalar value: a code point that is no surrogate. */
  type Scalar = n: int | 0 <= n < 0xD800 || 0xE000 <= n < 0x11_0000

  /** Section 3 of RFC 3629. */
  function EncodeScalar(n: Scalar): Bytes {
    if n < 0x80 then [n]
    else if n < 0x800 then [0xC0 + n / 0x40, 0x80 + n % 0x40]
    else if n < 0x1_0000 then [0xE0 + n / 0x1000, 0x80 + n / 0x40 % 0x40, 0x80 + n % 0x40]
    else [0xF0 + n / 0x4_0000, 0x80 + n / 0x1000 % 0x40, 0x80 + n / 0x40 % 0x40, 0x80 + n % 0x40]
  }

  function EncodeText(scalars: seq<Scalar>): Bytes {
    if scalars == [] then [] else EncodeScalar(scalars[0]) + EncodeText(scalars[1..])
  }

  lemma ScalarReads(n: Scalar, rest: Bytes)
    ensures ScalarLength(EncodeScalar(n) + rest) == |EncodeScalar(n)| > 0
  {
    var s := EncodeScalar(n) + rest;
    assert forall k :: 0 <= k < |EncodeScalar(n)| ==> s[k] == EncodeScalar(n)[k];
  }

  /** Six bits at a time. */
  lemma Sextets(a: nat, b: nat, c: nat, d: nat)
    requires b < 0x40 && c < 0x40 && d < 0x40
    ensures (a * 0x40 + b) / 0x40 == a && (a * 0x40 + b) % 0x40 == b
    ensures var n := a * 0x1000 + b * 0x40 + c; n / 0x1000 == a && n / 0x40 % 0x40 == b && n % 0x40 == c
    ensures var n := a * 0x4_0000 + b * 0x1000 + c * 0x40 + d;
            n / 0x4_0000 == a && n / 0x1000 % 0x40 == b && n / 0x40 % 0x40 == c && n % 0x40 == d
  {
    var n := a * 0x4_0000 + b * 0x1000 + c * 0x40 + d;
    assert n / 0x40 == a * 0x1000 + b * 0x40 + c && n / 0x1000 == a * 0x40 + b;
  }

  lemma ScalarWas(s: Bytes) returns (n: Scalar)
    requires s != [] && ScalarLength(s) > 0
    ensures s[..ScalarLength(s)] == EncodeScalar(n)
  {
    var a: int := s[0];
    match ScalarLength(s)
    case 1 =>
      n := a;
      assert s[..1] == [a];
    case 2 =>
      n := PairWas(a, s[1]);
      assert s[..2] == [s[0], s[1]];
    case 3 =>
      n := TripleWas(a, s[1], s[2]);
      assert s[..3] == [s[0], s[1], s[2]];
    case 4 =>
      n := QuadWas(a, s[1], s[2], s[3]);
      assert s[..4] == [s[0], s[1], s[2], s[3]];
  }

  lemma PairWas(a: int, b: int) returns (n: Scalar)
    requires 0xC2 <= a <= 0xDF && 0x80 <= b <= 0xBF
    ensures EncodeScalar(n) == [a, b]
  {
    Sextets(a - 0xC0, b - 0x80, 0, 0);
    n := (a - 0xC0) * 0x40 + (b - 0x80);
  }

  lemma TripleWas(a: int, b: int, c: int) returns (n: Scalar)
    requires 0xE0 <= a <= 0xEF && 0x80 <= b <= 0xBF && 0x80 <= c <= 0xBF
    requires (a == 0xE0 ==> 0xA0 <= b) && (a == 0xED ==> b <= 0x9F)
    ensures EncodeScalar(n) == [a, b, c]
  {
    Sextets(a - 0xE0, b - 0x80, c - 0x80, 0);
    n := (a - 0xE0) * 0x1000 + (b - 0x80) * 0x40 + (c - 0x80);
  }

  lemma QuadWas(a: int, b: int, c: int, d: int) returns (n: Scalar)
    requires 0xF0 <= a <= 0xF4 && 0x80 <= b <= 0xBF && 0x80 <= c <= 0xBF && 0x80 <= d <= 0xBF
    requires (a == 0xF0 ==> 0x90 <= b) && (a == 0xF4 ==> b <= 0x8F)
    ensures EncodeScalar(n) == [a, b, c, d]
  {
    Sextets(a - 0xF0, b - 0x80, c - 0x80, d - 0x80);
    n := (a - 0xF0) * 0x4_0000 + (b - 0x80) * 0x1000 + (c - 0x80) * 0x40 + (d - 0x80);
  }

  lemma {:induction false} TextIsWellFormed(scalars: seq<Scalar>)
    ensures Utf8(EncodeText(scalars))
  {
    if scalars != [] {
      var rest := EncodeText(scalars[1..]);
      ScalarReads(scalars[0], rest);
      assert (EncodeScalar(scalars[0]) + rest)[|EncodeScalar(scalars[0])|..] == rest;
      TextIsWellFormed(scalars[1..]);
    }
  }

  lemma {:induction false} ScalarsOf(s: Bytes) returns (scalars: seq<Scalar>)
    requires Utf8(s)
    ensures s == EncodeText(scalars)
  {
    if s == [] {
      scalars := [];
    } else {
      var n := ScalarWas(s);
      var others := ScalarsOf(s[ScalarLength(s)..]);
      scalars := [n] + others;
      assert s == s[..ScalarLength(s)] + s[ScalarLength(s)..];
    }
  }

  /** What passes for text is exactly what encodes some scalar values. */
  lemma Utf8Language(s: Bytes)
    ensures Utf8(s) <==> exists scalars :: s == EncodeText(scalars)
  {
    if Utf8(s) {
      var scalars := ScalarsOf(s);
    }
    forall scalars | s == EncodeText(scalars) ensures Utf8(s) {
      TextIsWellFormed(scalars);
    }
  }
}
