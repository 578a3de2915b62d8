/**
 * UTF-8, the encoding of every string the tool writes into a binary file
 * (`s.encode("utf-8")`). A Dafny `char` is a Unicode scalar value, so every
 * string here is encodable; strings holding lone surrogates are not expressible.
 */
module Utf8 {
  import opened Results
  import opened Bytes

  predicate IsContinuation(b: Byte) { 0x80 <= b < 0xC0 }

  /** The one to four bytes that encode one scalar value, shortest form. */
  function EncodeChar(c: char): (r: seq<Byte>)
    ensures 1 <= |r| <= 4
    ensures (0x0A in r) <==> c == '\n'
    ensures |r| == 1 <==> c as int < 0x80
  {
    var n := c as int;
    if n < 0x80 then [n]
    else if n < 0x800 then [0xC0 + n / 0x40, 0x80 + n % 0x40]
    else if n < 0x1_0000 then [0xE0 + n / 0x1000, 0x80 + n / 0x40 % 0x40, 0x80 + n % 0x40]
    else [0xF0 + n / 0x4_0000, 0x80 + n / 0x1000 % 0x40, 0x80 + n / 0x40 % 0x40, 0x80 + n % 0x40]
  }

  /** `s.encode("utf-8")`. */
  function Encode(s: string): (r: seq<Byte>)
    ensures |r| >= |s|
  {
    if s == [] then [] else EncodeChar(s[0]) + Encode(s[1..])
  }

  /** Decodes one scalar value from the front of `b`; gives it and the number of bytes it used. */
  function DecodeChar(b: seq<Byte>): (r: Option<(char, nat)>)
    ensures r.Some? ==> 1 <= r.value.1 <= |b|
  {
    if |b| == 0 then None
    else
    var b0: int := b[0];
    if b0 < 0x80 then Some((b[0] as char, 1))
    else if 0xC0 <= b0 < 0xE0 && |b| >= 2 && IsContinuation(b[1]) then
      var n := (b0 - 0xC0) * 0x40 + (b[1] as int - 0x80);
      if 0x80 <= n then Some((n as char, 2)) else None
    else if 0xE0 <= b0 < 0xF0 && |b| >= 3 && IsContinuation(b[1]) && IsContinuation(b[2]) then
      var n := (b0 - 0xE0) * 0x1000 + (b[1] as int - 0x80) * 0x40 + (b[2] as int - 0x80);
      if 0x800 <= n && !(0xD800 <= n < 0xE000) then Some((n as char, 3)) else None
    else if 0xF0 <= b0 < 0xF5 && |b| >= 4 && IsContinuation(b[1]) && IsContinuation(b[2]) && IsContinuation(b[3]) then
      var n := (b0 - 0xF0) * 0x4_0000 + (b[1] as int - 0x80) * 0x1000 + (b[2] as int - 0x80) * 0x40 + (b[3] as int - 0x80);
      if 0x1_0000 <= n < 0x11_0000 then Some((n as char, 4)) else None
    else None
  }

  /** Decodes a whole byte sequence; None when it is not well-formed UTF-8. */
  function Decode(b: seq<Byte>): Option<string>
    decreases |b|
  {
    if b == [] then Some([])
    else match DecodeChar(b)
      case None => None
      case Some((c, k)) =>
        match Decode(b[k..])
        case None => None
        case Some(s) => Some([c] + s)
  }

  /** Six-bit groups of a code point, as the encoder takes them apart. */
  lemma SixBitGroups(n: nat)
    ensures n == n / 0x40 * 0x40 + n % 0x40
    ensures n / 0x40 == n / 0x1000 * 0x40 + n / 0x40 % 0x40
    ensures n / 0x1000 == n / 0x4_0000 * 0x40 + n / 0x1000 % 0x40
  {
    assert n / 0x1000 == n / 0x40 / 0x40;
    assert n / 0x4_0000 == n / 0x1000 / 0x40;
  }

  lemma DecodeTwoBytes(c: char, rest: seq<Byte>)
    requires 0x80 <= c as int < 0x800
    ensures DecodeChar(EncodeChar(c) + rest) == Some((c, 2))
  {
    var n := c as int;
    var b := EncodeChar(c) + rest;
    SixBitGroups(n);
    assert b[0] == 0xC0 + n / 0x40 && b[1] == 0x80 + n % 0x40;
  }

  lemma DecodeThreeBytes(c: char, rest: seq<Byte>)
    requires 0x800 <= c as int < 0x1_0000
    ensures DecodeChar(EncodeChar(c) + rest) == Some((c, 3))
  {
    var n := c as int;
    var b := EncodeChar(c) + rest;
    SixBitGroups(n);
    var hi, mid, lo := n / 0x1000, n / 0x40 % 0x40, n % 0x40;
    assert n == hi * 0x1000 + mid * 0x40 + lo;
    assert b[0] == 0xE0 + hi && b[1] == 0x80 + mid && b[2] == 0x80 + lo;
  }

  lemma DecodeFourBytes(c: char, rest: seq<Byte>)
    requires 0x1_0000 <= c as int
    ensures DecodeChar(EncodeChar(c) + rest) == Some((c, 4))
  {
    var n := c as int;
    var b := EncodeChar(c) + rest;
    SixBitGroups(n);
    var top, hi, mid, lo := n / 0x4_0000, n / 0x1000 % 0x40, n / 0x40 % 0x40, n % 0x40;
    assert n == top * 0x4_0000 + hi * 0x1000 + mid * 0x40 + lo;
    assert b[0] == 0xF0 + top && b[1] == 0x80 + hi && b[2] == 0x80 + mid && b[3] == 0x80 + lo;
  }

  lemma DecodeEncodedChar(c: char, rest: seq<Byte>)
    ensures DecodeChar(EncodeChar(c) + rest) == Some((c, |EncodeChar(c)|))
  {
    var n := c as int;
    if n < 0x80 {
      assert (EncodeChar(c) + rest)[0] == n;
    } else if n < 0x800 {
      DecodeTwoBytes(c, rest);
    } else if n < 0x1_0000 {
      DecodeThreeBytes(c, rest);
    } else {
      DecodeFourBytes(c, rest);
    }
  }

  /** Decoding what `Encode` wrote gives back the string. */
  lemma {:induction false} RoundTrip(s: string)
    ensures Decode(Encode(s)) == Some(s)
  {
    if s != [] {
      var head := EncodeChar(s[0]);
      DecodeEncodedChar(s[0], Encode(s[1..]));
      assert (head + Encode(s[1..]))[|head|..] == Encode(s[1..]);
      RoundTrip(s[1..]);
      assert [s[0]] + s[1..] == s;
    }
  }

  lemma {:induction false} EncodeAppend(a: string, b: string)
    ensures Encode(a + b) == Encode(a) + Encode(b)
  {
    if a != [] {
      assert (a + b)[0] == a[0] && (a + b)[1..] == a[1..] + b;
      EncodeAppend(a[1..], b);
    } else {
      assert a + b == b;
    }
  }

  /** The newline byte appears in the encoding exactly where the string has a newline. */
  lemma {:induction false} NewlineByte(s: string)
    ensures (0x0A in Encode(s)) <==> '\n' in s
  {
    if s != [] {
      NewlineByte(s[1..]);
      assert s == [s[0]] + s[1..];
    }
  }

  /** ASCII text encodes to one byte per character, each its code. */
  lemma {:induction false} AsciiEncoding(s: string)
    requires forall i :: 0 <= i < |s| ==> s[i] as int < 0x80
    ensures |Encode(s)| == |s|
    ensures forall i :: 0 <= i < |s| ==> Encode(s)[i] == s[i] as int
  {
    if s != [] {
      AsciiEncoding(s[1..]);
    }
  }
}
