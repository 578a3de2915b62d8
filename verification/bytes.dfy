/** Bytes and the little-endian 32-bit integer fields of the binary formats. */
module Bytes {
  import opened Results

  /** One byte of an output file. */
  type Byte = b: int | 0 <= b < 0x100

  /** The values `struct.pack("<I", v)` accepts. */
  predicate IsU32(v: int) { 0 <= v < 0x1_0000_0000 }

  /** The values `struct.pack("<i", v)` accepts. */
  predicate IsI32(v: int) { -0x8000_0000 <= v < 0x8000_0000 }

  /** The unsigned value of four little-endian bytes. */
  function ValueU32(b: seq<Byte>): (v: int)
    requires |b| == 4
    ensures IsU32(v)
  {
    var b0: int, b1: int, b2: int, b3: int := b[0], b[1], b[2], b[3];
    b0 + 0x100 * (b1 + 0x100 * (b2 + 0x100 * b3))
  }

  /** The two's-complement signed value of four little-endian bytes. */
  function ValueI32(b: seq<Byte>): (v: int)
    requires |b| == 4
    ensures IsI32(v)
  {
    var u := ValueU32(b);
    if u < 0x8000_0000 then u else u - 0x1_0000_0000
  }

  /** `struct.pack("<I", v)`: exactly four bytes, least significant first. */
  function U32(v: int): (r: seq<Byte>)
    requires IsU32(v)
    ensures |r| == 4 && ValueU32(r) == v
  {
    var q1 := v / 0x100;
    var q2 := q1 / 0x100;
    var q3 := q2 / 0x100;
    assert q3 < 0x100;
    assert v == v % 0x100 + 0x100 * (q1 % 0x100 + 0x100 * (q2 % 0x100 + 0x100 * q3));
    [v % 0x100, q1 % 0x100, q2 % 0x100, q3]
  }

  /** `struct.pack("<i", v)`: exactly four bytes, two's complement, least significant first. */
  function I32(v: int): (r: seq<Byte>)
    requires IsI32(v)
    ensures |r| == 4 && ValueI32(r) == v
    ensures 0 <= v ==> r == U32(v)
  {
    U32(if v < 0 then v + 0x1_0000_0000 else v)
  }

  /** Reads a little-endian u32 from the front of `b`. */
  function ReadU32(b: seq<Byte>): Option<(int, seq<Byte>)>
  {
    if |b| < 4 then None else Some((ValueU32(b[..4]), b[4..]))
  }

  /** Reads a little-endian i32 from the front of `b`. */
  function ReadI32(b: seq<Byte>): Option<(int, seq<Byte>)>
  {
    if |b| < 4 then None else Some((ValueI32(b[..4]), b[4..]))
  }

  /** Appending `piece` to a stream that held `prefix + body` extends `body` by `piece`. */
  lemma AppendStep(stream: seq<Byte>, prefix: seq<Byte>, body: seq<Byte>, piece: seq<Byte>, body': seq<Byte>)
    requires stream == prefix + body && body' == body + piece
    ensures stream + piece == prefix + body'
  {
  }

  lemma Regroup(a: seq<Byte>, b: seq<Byte>, c: seq<Byte>, d: seq<Byte>)
    ensures (a + b) + c + d == a + (b + (c + d))
    ensures (a + b) + d == a + (b + d)
  {
  }

  lemma Regroup7(h: seq<Byte>, p: seq<Byte>, u: seq<Byte>, i: seq<Byte>, r: seq<Byte>, t: seq<Byte>, g: seq<Byte>)
    ensures h + p + u + i + r + t + g == h + (p + (u + i + (r + (t + g))))
  {
  }

  /** A 4-byte field, a payload `p` and `rest` are found at offsets 0, 4 and `4 + |p|`. */
  lemma PrefixedFields(a: seq<Byte>, p: seq<Byte>, rest: seq<Byte>)
    requires |a| == 4
    ensures (a + p + rest)[..4] == a && (a + p + rest)[4..4 + |p|] == p && (a + p + rest)[4 + |p|..] == rest
    ensures (a + p)[4..] == p
  {
  }

  /** A leading piece followed by eight pieces and `rest`, regrouped after the first. */
  lemma RegroupAfterFirst(s: seq<Byte>, a: seq<Byte>, b: seq<Byte>, c: seq<Byte>, d: seq<Byte>,
                          e: seq<Byte>, f: seq<Byte>, g: seq<Byte>, h: seq<Byte>, rest: seq<Byte>)
    ensures s + a + b + c + d + e + f + g + h + rest == s + (a + b + c + d + e + f + g + h + rest)
  {
  }

  /** Two 4-byte fields followed by `rest` are found at offsets 0 and 4. */
  lemma TwoFields(a: seq<Byte>, b: seq<Byte>, rest: seq<Byte>)
    requires |a| == 4 && |b| == 4
    ensures (a + b + rest)[..4] == a && (a + b + rest)[4..8] == b && (a + b + rest)[8..] == rest
  {
  }

  /** Three 4-byte fields followed by `rest` are found at offsets 0, 4 and 8. */
  lemma ThreeFields(a: seq<Byte>, b: seq<Byte>, c: seq<Byte>, rest: seq<Byte>)
    requires |a| == 4 && |b| == 4 && |c| == 4
    ensures (a + b + c + rest)[..4] == a && (a + b + c + rest)[4..8] == b
    ensures (a + b + c + rest)[8..12] == c && (a + b + c + rest)[12..] == rest
  {
  }

  /** Four 4-byte fields followed by `rest` are found at offsets 0, 4, 8 and 12. */
  lemma FourFields(a: seq<Byte>, b: seq<Byte>, c: seq<Byte>, d: seq<Byte>, rest: seq<Byte>)
    requires |a| == 4 && |b| == 4 && |c| == 4 && |d| == 4
    ensures (a + b + c + d + rest)[..4] == a && (a + b + c + d + rest)[4..8] == b
    ensures (a + b + c + d + rest)[8..12] == c && (a + b + c + d + rest)[12..16] == d
    ensures (a + b + c + d + rest)[16..] == rest
  {
  }

  /** Eight 4-byte fields followed by `rest` are found at offsets 0, 4, …, 28. */
  lemma EightFields(a: seq<Byte>, b: seq<Byte>, c: seq<Byte>, d: seq<Byte>,
                    e: seq<Byte>, f: seq<Byte>, g: seq<Byte>, h: seq<Byte>, rest: seq<Byte>)
    requires |a| == 4 && |b| == 4 && |c| == 4 && |d| == 4
    requires |e| == 4 && |f| == 4 && |g| == 4 && |h| == 4
    ensures var s := a + b + c + d + e + f + g + h + rest;
      s[..4] == a && s[4..8] == b && s[8..12] == c && s[12..16] == d &&
      s[16..20] == e && s[20..24] == f && s[24..28] == g && s[28..32] == h && s[32..] == rest
  {
    var s := a + b + c + d + e + f + g + h + rest;
    var t := e + f + g + h + rest;
    assert s == a + b + c + d + t;
    FourFields(a, b, c, d, t);
    FourFields(e, f, g, h, rest);
    assert s[16..] == t;
    assert s[16..20] == t[..4] && s[20..24] == t[4..8] && s[24..28] == t[8..12] && s[28..32] == t[12..16];
    assert s[32..] == t[16..];
  }

  lemma ReadU32Written(v: int, rest: seq<Byte>)
    requires IsU32(v)
    ensures ReadU32(U32(v) + rest) == Some((v, rest))
  {
    assert (U32(v) + rest)[..4] == U32(v);
    assert (U32(v) + rest)[4..] == rest;
  }

  lemma ReadI32Written(v: int, rest: seq<Byte>)
    requires IsI32(v)
    ensures ReadI32(I32(v) + rest) == Some((v, rest))
  {
    assert (I32(v) + rest)[..4] == I32(v);
    assert (I32(v) + rest)[4..] == rest;
  }
}
