/**
 * The binary output file and the three field writers of pz_tilesheet.py:
 * `write_u32`, `write_i32` and `write_string`.
 */
module BinaryFile {
  import opened Results
  import opened Bytes
  import Utf8

  /** An output file opened in binary mode: the bytes written to it so far. */
  class ByteFile {
    var bytes: seq<Byte>

    constructor ()
      ensures bytes == []
    {
      bytes := [];
    }

    /** `f.write(b)` appends the bytes and changes nothing else. */
    method Write(b: seq<Byte>)
      modifies this
      ensures bytes == old(bytes) + b
    {
      bytes := bytes + b;
    }
  }

  /** The bytes `write_string` emits: the UTF-8 byte count (not the character count) as a u32, then those bytes. */
  function PrefixedString(s: string): (r: seq<Byte>)
    requires IsU32(|Utf8.Encode(s)|)
    ensures |r| == 4 + |Utf8.Encode(s)|
    ensures ValueU32(r[..4]) == |Utf8.Encode(s)| && Utf8.Decode(r[4..]) == Some(s)
  {
    Utf8.RoundTrip(s);
    PrefixedFields(U32(|Utf8.Encode(s)|), Utf8.Encode(s), []);
    U32(|Utf8.Encode(s)|) + Utf8.Encode(s)
  }

  /** Reads a u32 byte count and then that many bytes as a UTF-8 string. */
  function ReadString(b: seq<Byte>): Option<(string, seq<Byte>)>
  {
    if |b| < 4 then None
    else
      var n := ValueU32(b[..4]);
      if |b| < 4 + n then None
      else match Utf8.Decode(b[4..4 + n])
        case None => None
        case Some(s) => Some((s, b[4 + n..]))
  }

  /** Decoding the length prefix and then that many bytes gives back the string written. */
  lemma ReadStringWritten(s: string, rest: seq<Byte>)
    requires IsU32(|Utf8.Encode(s)|)
    ensures ReadString(PrefixedString(s) + rest) == Some((s, rest))
  {
    var e := Utf8.Encode(s);
    PrefixedFields(U32(|e|), e, rest);
    Utf8.RoundTrip(s);
  }

  /** `write_u32(f, value)`. */
  method WriteU32(f: ByteFile, v: int)
    requires IsU32(v)
    modifies f
    ensures f.bytes == old(f.bytes) + U32(v)
  {
    f.Write(U32(v));
  }

  /** `write_i32(f, value)`. */
  method WriteI32(f: ByteFile, v: int)
    requires IsI32(v)
    modifies f
    ensures f.bytes == old(f.bytes) + I32(v)
  {
    f.Write(I32(v));
  }

  /** `write_string(f, s)`. */
  method WriteString(f: ByteFile, s: string)
    requires IsU32(|Utf8.Encode(s)|)
    modifies f
    ensures f.bytes == old(f.bytes) + PrefixedString(s)
  {
    ghost var start := f.bytes;
    var encoded := Utf8.Encode(s);
    WriteU32(f, |encoded|);
    f.Write(encoded);
    Regroup(start, U32(|encoded|), [], encoded);
  }
}
