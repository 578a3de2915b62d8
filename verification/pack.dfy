/**
 * The V2 ".pack" texture container written by `write_pack`: a header, one
 * page record, one record per placement entry and the encoded atlas image.
 */
module Pack {
  import opened Results
  import opened Bytes
  import opened BinaryFile
  import Utf8
  import Decimal
  import opened Layout

  /** The ASCII magic "PZPK". */
  const Magic: seq<Byte> := [0x50, 0x5A, 0x50, 0x4B]

  /** `PACK_MASK`, written as the file's format mask and the page's mask. */
  const Mask := 1

  /** The name of the atlas page: `name + "0"`. */
  function PageName(name: string): string { name + "0" }

  /** The name of the sprite with index `i` in the game: `f"{name}_{i}"`. */
  function EntryName(name: string, i: nat): string { name + "_" + Decimal.NatToString(i) }

  /** A string `write_string` accepts: its UTF-8 byte count fits a u32. */
  predicate StringFits(s: string) { IsU32(|Utf8.Encode(s)|) }

  /** The name and fields of `e` are in the range `write_string` and `write_u32` accept. */
  predicate EntryFits(name: string, e: Entry)
  {
    StringFits(EntryName(name, e.index)) && IsU32(e.x) && IsU32(e.y) && IsU32(e.w) && IsU32(e.h)
  }

  predicate AllFit(name: string, entries: seq<Entry>)
  {
    forall i :: 0 <= i < |entries| ==> EntryFits(name, entries[i])
  }

  /** Every value `write_pack` passes to `write_u32`, `write_i32` or `write_string` is in range. */
  predicate Encodable(name: string, entries: seq<Entry>, spriteW: nat, spriteH: nat, png: seq<Byte>)
  {
    StringFits(PageName(name)) && IsU32(|entries|) && IsU32(spriteW) && IsU32(spriteH) && IsU32(|png|) &&
    AllFit(name, entries)
  }

  /** File header and page header. */
  function Header(name: string, count: nat): (r: seq<Byte>)
    requires StringFits(PageName(name)) && IsU32(count)
    ensures |r| == 4 + 4 + 4 + (4 + |Utf8.Encode(PageName(name))|) + 4 + 4
  {
    Magic + I32(Mask) + U32(1) + PrefixedString(PageName(name)) + U32(count) + I32(Mask)
  }

  /** The record of one entry: its name, then x, y, w, h, the two zero offsets and the full sprite size. */
  function Record(name: string, e: Entry, spriteW: nat, spriteH: nat): (r: seq<Byte>)
    requires EntryFits(name, e) && IsU32(spriteW) && IsU32(spriteH)
    ensures |r| == 4 + |Utf8.Encode(EntryName(name, e.index))| + 32
  {
    PrefixedString(EntryName(name, e.index)) + U32(e.x) + U32(e.y) + U32(e.w) + U32(e.h)
      + U32(0) + U32(0) + U32(spriteW) + U32(spriteH)
  }

  function Records(name: string, entries: seq<Entry>, spriteW: nat, spriteH: nat): seq<Byte>
    requires AllFit(name, entries) && IsU32(spriteW) && IsU32(spriteH)
  {
    if entries == [] then []
    else Record(name, entries[0], spriteW, spriteH) + Records(name, entries[1..], spriteW, spriteH)
  }

  /** The whole `.pack` file. */
  function PackBytes(name: string, entries: seq<Entry>, spriteW: nat, spriteH: nat, png: seq<Byte>): seq<Byte>
    requires Encodable(name, entries, spriteW, spriteH, png)
  {
    Header(name, |entries|) + Records(name, entries, spriteW, spriteH) + U32(|png|) + png
  }

  /** One entry record as a reader of the file sees it. */
  datatype PackedEntry = PackedEntry(
    name: string, x: int, y: int, w: int, h: int,
    xOffset: int, yOffset: int, totalWidth: int, totalHeight: int)

  /** A decoded `.pack` file with one page. */
  datatype PackFile = PackFile(
    formatMask: int, pageCount: int, pageName: string, pageMask: int,
    entries: seq<PackedEntry>, image: seq<Byte>)

  /** The entry a reader decodes from the record of `e`. */
  function Packed(name: string, e: Entry, spriteW: nat, spriteH: nat): PackedEntry
  {
    PackedEntry(EntryName(name, e.index), e.x, e.y, e.w, e.h, 0, 0, spriteW, spriteH)
  }

  /** What a reader decodes from the whole record table. */
  function PackedEntries(name: string, entries: seq<Entry>, spriteW: nat, spriteH: nat): (r: seq<PackedEntry>)
    ensures |r| == |entries|
    ensures forall i :: 0 <= i < |entries| ==> r[i] == Packed(name, entries[i], spriteW, spriteH)
  {
    seq(|entries|, i requires 0 <= i < |entries| => Packed(name, entries[i], spriteW, spriteH))
  }

  function ReadEntry(b: seq<Byte>): Option<(PackedEntry, seq<Byte>)>
  {
    match ReadString(b)
    case None => None
    case Some((s, b1)) =>
      if |b1| < 32 then None
      else Some((PackedEntry(s, ValueU32(b1[..4]), ValueU32(b1[4..8]), ValueU32(b1[8..12]),
                             ValueU32(b1[12..16]), ValueU32(b1[16..20]), ValueU32(b1[20..24]),
                             ValueU32(b1[24..28]), ValueU32(b1[28..32])), b1[32..]))
  }

  /** Reads `n` entry records. */
  function ReadEntries(b: seq<Byte>, n: nat): Option<(seq<PackedEntry>, seq<Byte>)>
    decreases n
  {
    if n == 0 then Some(([], b))
    else match ReadEntry(b)
      case None => None
      case Some((e, b1)) =>
        match ReadEntries(b1, n - 1)
        case None => None
        case Some((es, b2)) => Some(([e] + es, b2))
  }

  /** Reads a whole `.pack` file with one page; None when it is malformed or has bytes left over. */
  function DecodePack(b: seq<Byte>): Option<PackFile>
  {
    if |b| < 12 || b[..4] != Magic then None
    else ReadPage(ValueI32(b[4..8]), ValueU32(b[8..12]), b[12..])
  }

  /** Reads the page record, the entry records and the image that follow the file header. */
  function ReadPage(formatMask: int, pageCount: int, b: seq<Byte>): Option<PackFile>
  {
    match ReadString(b)
    case None => None
    case Some((pageName, b1)) =>
      if |b1| < 8 then None
      else
        match ReadEntries(b1[8..], ValueU32(b1[..4]))
        case None => None
        case Some((es, b2)) =>
          match ReadImage(b2)
          case None => None
          case Some(image) => Some(PackFile(formatMask, pageCount, pageName, ValueI32(b1[4..8]), es, image))
  }

  /** Reads the trailing image block, which must end the file. */
  function ReadImage(b: seq<Byte>): Option<seq<Byte>>
  {
    match ReadU32(b)
    case None => None
    case Some((n, b1)) => if |b1| != n then None else Some(b1)
  }

  lemma ReadRecord(name: string, e: Entry, spriteW: nat, spriteH: nat, rest: seq<Byte>)
    requires EntryFits(name, e) && IsU32(spriteW) && IsU32(spriteH)
    ensures ReadEntry(Record(name, e, spriteW, spriteH) + rest) == Some((Packed(name, e, spriteW, spriteH), rest))
  {
    var s := PrefixedString(EntryName(name, e.index));
    var fields := U32(e.x) + U32(e.y) + U32(e.w) + U32(e.h) + U32(0) + U32(0) + U32(spriteW) + U32(spriteH);
    RegroupAfterFirst(s, U32(e.x), U32(e.y), U32(e.w), U32(e.h), U32(0), U32(0), U32(spriteW), U32(spriteH), rest);
    ReadStringWritten(EntryName(name, e.index), fields + rest);
    EightFields(U32(e.x), U32(e.y), U32(e.w), U32(e.h), U32(0), U32(0), U32(spriteW), U32(spriteH), rest);
  }

  lemma ReadEntriesStep(b: seq<Byte>, n: nat, e: PackedEntry, b1: seq<Byte>, es: seq<PackedEntry>, b2: seq<Byte>)
    requires n > 0 && ReadEntry(b) == Some((e, b1)) && ReadEntries(b1, n - 1) == Some((es, b2))
    ensures ReadEntries(b, n) == Some(([e] + es, b2))
  {
  }

  lemma PackedEntriesCons(name: string, entries: seq<Entry>, spriteW: nat, spriteH: nat)
    requires entries != []
    ensures PackedEntries(name, entries, spriteW, spriteH)
         == [Packed(name, entries[0], spriteW, spriteH)] + PackedEntries(name, entries[1..], spriteW, spriteH)
  {
  }

  lemma AllFitTail(name: string, entries: seq<Entry>)
    requires AllFit(name, entries) && entries != []
    ensures AllFit(name, entries[1..]) && EntryFits(name, entries[0])
  {
    forall i | 0 <= i < |entries| - 1
      ensures EntryFits(name, entries[1..][i])
    {
      assert entries[1..][i] == entries[i + 1];
    }
  }

  lemma RecordsCons(name: string, entries: seq<Entry>, spriteW: nat, spriteH: nat, rest: seq<Byte>)
    requires AllFit(name, entries) && IsU32(spriteW) && IsU32(spriteH) && entries != []
    ensures AllFit(name, entries[1..]) && EntryFits(name, entries[0])
    ensures Records(name, entries, spriteW, spriteH) + rest
         == Record(name, entries[0], spriteW, spriteH) + (Records(name, entries[1..], spriteW, spriteH) + rest)
  {
    AllFitTail(name, entries);
    var r := Record(name, entries[0], spriteW, spriteH);
    var t := Records(name, entries[1..], spriteW, spriteH);
    assert Records(name, entries, spriteW, spriteH) == r + t;
    Regroup(r, t, [], rest);
  }

  /** Reading the record table gives back every entry's name, position and size, in order. */
  lemma {:induction false} ReadRecords(name: string, entries: seq<Entry>, spriteW: nat, spriteH: nat, rest: seq<Byte>)
    requires AllFit(name, entries) && IsU32(spriteW) && IsU32(spriteH)
    ensures ReadEntries(Records(name, entries, spriteW, spriteH) + rest, |entries|)
         == Some((PackedEntries(name, entries, spriteW, spriteH), rest))
  {
    if entries == [] {
      assert Records(name, entries, spriteW, spriteH) + rest == rest;
    } else {
      RecordsCons(name, entries, spriteW, spriteH, rest);
      var tail := Records(name, entries[1..], spriteW, spriteH) + rest;
      ReadRecord(name, entries[0], spriteW, spriteH, tail);
      ReadRecords(name, entries[1..], spriteW, spriteH, rest);
      ReadEntriesStep(Records(name, entries, spriteW, spriteH) + rest, |entries|,
        Packed(name, entries[0], spriteW, spriteH), tail,
        PackedEntries(name, entries[1..], spriteW, spriteH), rest);
      PackedEntriesCons(name, entries, spriteW, spriteH);
    }
  }

  /** The tail of the file after the page name. */
  function AfterPageName(name: string, entries: seq<Entry>, spriteW: nat, spriteH: nat, png: seq<Byte>): seq<Byte>
    requires Encodable(name, entries, spriteW, spriteH, png)
  {
    U32(|entries|) + I32(Mask) + (Records(name, entries, spriteW, spriteH) + (U32(|png|) + png))
  }

  lemma PackBytesSplit(name: string, entries: seq<Entry>, spriteW: nat, spriteH: nat, png: seq<Byte>)
    requires Encodable(name, entries, spriteW, spriteH, png)
    ensures PackBytes(name, entries, spriteW, spriteH, png)
         == Magic + I32(Mask) + U32(1) + (PrefixedString(PageName(name)) + AfterPageName(name, entries, spriteW, spriteH, png))
  {
    Regroup7(Magic + I32(Mask) + U32(1), PrefixedString(PageName(name)), U32(|entries|), I32(Mask),
             Records(name, entries, spriteW, spriteH), U32(|png|), png);
  }

  lemma ReadWrittenPage(name: string, entries: seq<Entry>, spriteW: nat, spriteH: nat, png: seq<Byte>)
    requires Encodable(name, entries, spriteW, spriteH, png)
    ensures ReadPage(Mask, 1, PrefixedString(PageName(name)) + AfterPageName(name, entries, spriteW, spriteH, png))
         == Some(PackFile(Mask, 1, PageName(name), Mask, PackedEntries(name, entries, spriteW, spriteH), png))
  {
    var after := AfterPageName(name, entries, spriteW, spriteH, png);
    var tail := U32(|png|) + png;
    ReadStringWritten(PageName(name), after);
    TwoFields(U32(|entries|), I32(Mask), Records(name, entries, spriteW, spriteH) + tail);
    ReadRecords(name, entries, spriteW, spriteH, tail);
    ReadU32Written(|png|, png);
  }

  /**
   * Decoding a written `.pack` file gives back the header constants, the page
   * name, one entry per placement with its name, x, y, w and h, and the image.
   */
  lemma RoundTrip(name: string, entries: seq<Entry>, spriteW: nat, spriteH: nat, png: seq<Byte>)
    requires Encodable(name, entries, spriteW, spriteH, png)
    ensures DecodePack(PackBytes(name, entries, spriteW, spriteH, png))
         == Some(PackFile(Mask, 1, PageName(name), Mask, PackedEntries(name, entries, spriteW, spriteH), png))
  {
    var b := PackBytes(name, entries, spriteW, spriteH, png);
    var rest := PrefixedString(PageName(name)) + AfterPageName(name, entries, spriteW, spriteH, png);
    PackBytesSplit(name, entries, spriteW, spriteH, png);
    ThreeFields(Magic, I32(Mask), U32(1), rest);
    ReadWrittenPage(name, entries, spriteW, spriteH, png);
  }

  /** The file is `4+4+4 + (4+|page|) + 4+4 + sum of (4+|entry name|+32) + 4+|png|` bytes long. */
  lemma {:induction false} RecordsLength(name: string, entries: seq<Entry>, spriteW: nat, spriteH: nat)
    requires AllFit(name, entries) && IsU32(spriteW) && IsU32(spriteH)
    ensures |Records(name, entries, spriteW, spriteH)| == NameBytes(name, entries) + 36 * |entries|
  {
    if entries != [] {
      RecordsLength(name, entries[1..], spriteW, spriteH);
    }
  }

  /** The total UTF-8 length of the entry names. */
  function NameBytes(name: string, entries: seq<Entry>): nat
  {
    if entries == [] then 0
    else |Utf8.Encode(EntryName(name, entries[0].index))| + NameBytes(name, entries[1..])
  }

  lemma PackLength(name: string, entries: seq<Entry>, spriteW: nat, spriteH: nat, png: seq<Byte>)
    requires Encodable(name, entries, spriteW, spriteH, png)
    ensures |PackBytes(name, entries, spriteW, spriteH, png)|
         == 4 + 4 + 4 + (4 + |Utf8.Encode(PageName(name))|) + 4 + 4
            + NameBytes(name, entries) + 36 * |entries| + 4 + |png|
  {
    RecordsLength(name, entries, spriteW, spriteH);
  }

  lemma AllFitSplit(name: string, a: seq<Entry>, b: seq<Entry>)
    requires AllFit(name, a + b)
    ensures AllFit(name, a) && AllFit(name, b)
  {
    forall i | 0 <= i < |a| ensures EntryFits(name, a[i]) {
      assert (a + b)[i] == a[i];
    }
    forall i | 0 <= i < |b| ensures EntryFits(name, b[i]) {
      assert (a + b)[|a| + i] == b[i];
    }
  }

  lemma RecordsSingle(name: string, e: Entry, spriteW: nat, spriteH: nat)
    requires EntryFits(name, e) && IsU32(spriteW) && IsU32(spriteH)
    ensures AllFit(name, [e])
    ensures Records(name, [e], spriteW, spriteH) == Record(name, e, spriteW, spriteH)
  {
    assert [e][1..] == [];
    var r := Record(name, e, spriteW, spriteH);
    assert r + [] == r;
  }

  lemma RecordsAppend(name: string, entries: seq<Entry>, spriteW: nat, spriteH: nat, k: nat)
    requires AllFit(name, entries) && IsU32(spriteW) && IsU32(spriteH) && k < |entries|
    ensures AllFit(name, entries[..k]) && AllFit(name, entries[..k + 1])
    ensures Records(name, entries[..k + 1], spriteW, spriteH)
         == Records(name, entries[..k], spriteW, spriteH) + Record(name, entries[k], spriteW, spriteH)
  {
    var prefix := entries[..k + 1];
    AllFitPrefix(name, entries, k + 1);
    assert entries[..k] + [entries[k]] == prefix;
    RecordsConcat(name, entries[..k], [entries[k]], spriteW, spriteH);
    RecordsSingle(name, entries[k], spriteW, spriteH);
  }

  lemma AllFitPrefix(name: string, entries: seq<Entry>, n: nat)
    requires AllFit(name, entries) && n <= |entries|
    ensures AllFit(name, entries[..n])
  {
    forall i | 0 <= i < n ensures EntryFits(name, entries[..n][i]) {
      assert entries[..n][i] == entries[i];
    }
  }

  lemma {:induction false} RecordsConcat(name: string, a: seq<Entry>, b: seq<Entry>, spriteW: nat, spriteH: nat)
    requires AllFit(name, a + b) && IsU32(spriteW) && IsU32(spriteH)
    ensures AllFit(name, a) && AllFit(name, b)
    ensures Records(name, a + b, spriteW, spriteH) == Records(name, a, spriteW, spriteH) + Records(name, b, spriteW, spriteH)
  {
    AllFitSplit(name, a, b);
    if a == [] {
      assert a + b == b;
    } else {
      var ab := a + b;
      assert ab[0] == a[0] && ab[1..] == a[1..] + b;
      AllFitTail(name, ab);
      AllFitTail(name, a);
      RecordsConcat(name, a[1..], b, spriteW, spriteH);
      Regroup(Record(name, a[0], spriteW, spriteH), Records(name, a[1..], spriteW, spriteH), [],
              Records(name, b, spriteW, spriteH));
    }
  }

  /** One iteration of the entry loop of `write_pack`. */
  method WriteRecord(f: ByteFile, name: string, entry: Entry, spriteW: nat, spriteH: nat)
    requires EntryFits(name, entry) && IsU32(spriteW) && IsU32(spriteH)
    modifies f
    ensures f.bytes == old(f.bytes) + Record(name, entry, spriteW, spriteH)
  {
    ghost var start := f.bytes;
    WriteString(f, EntryName(name, entry.index));
    ghost var written := PrefixedString(EntryName(name, entry.index));
    ghost var before := f.bytes;
    WriteU32(f, entry.x);
    AppendStep(before, start, written, U32(entry.x), written + U32(entry.x));
    written, before := written + U32(entry.x), f.bytes;
    WriteU32(f, entry.y);
    AppendStep(before, start, written, U32(entry.y), written + U32(entry.y));
    written, before := written + U32(entry.y), f.bytes;
    WriteU32(f, entry.w);
    AppendStep(before, start, written, U32(entry.w), written + U32(entry.w));
    written, before := written + U32(entry.w), f.bytes;
    WriteU32(f, entry.h);
    AppendStep(before, start, written, U32(entry.h), written + U32(entry.h));
    written, before := written + U32(entry.h), f.bytes;
    WriteU32(f, 0);  // x offset
    AppendStep(before, start, written, U32(0), written + U32(0));
    written, before := written + U32(0), f.bytes;
    WriteU32(f, 0);  // y offset
    AppendStep(before, start, written, U32(0), written + U32(0));
    written, before := written + U32(0), f.bytes;
    WriteU32(f, spriteW);  // total width
    AppendStep(before, start, written, U32(spriteW), written + U32(spriteW));
    written, before := written + U32(spriteW), f.bytes;
    WriteU32(f, spriteH);  // total height
    AppendStep(before, start, written, U32(spriteH), written + U32(spriteH));
  }

  /** The file header and page header `write_pack` writes before the entry records. */
  method WriteHeader(f: ByteFile, name: string, count: nat)
    requires StringFits(PageName(name)) && IsU32(count)
    modifies f
    ensures f.bytes == old(f.bytes) + Header(name, count)
  {
    ghost var start := f.bytes;
    f.Write(Magic);
    ghost var written, before := Magic, f.bytes;
    WriteI32(f, Mask);
    AppendStep(before, start, written, I32(Mask), written + I32(Mask));
    written, before := written + I32(Mask), f.bytes;
    WriteU32(f, 1);  // one page
    AppendStep(before, start, written, U32(1), written + U32(1));
    written, before := written + U32(1), f.bytes;
    WriteString(f, PageName(name));
    AppendStep(before, start, written, PrefixedString(PageName(name)), written + PrefixedString(PageName(name)));
    written, before := written + PrefixedString(PageName(name)), f.bytes;
    WriteU32(f, count);
    AppendStep(before, start, written, U32(count), written + U32(count));
    written, before := written + U32(count), f.bytes;
    WriteI32(f, Mask);
    AppendStep(before, start, written, I32(Mask), written + I32(Mask));
  }

  /**
   * `write_pack` without the directory and file handling: the bytes of the
   * `.pack` file, written field by field into a fresh file. The image is the
   * already encoded PNG of the atlas.
   */
  method WritePack(name: string, entries: seq<Entry>, spriteW: nat, spriteH: nat, png: seq<Byte>)
    returns (bytes: seq<Byte>)
    requires Encodable(name, entries, spriteW, spriteH, png)
    ensures bytes == PackBytes(name, entries, spriteW, spriteH, png)
  {
    var f := new ByteFile();
    WriteHeader(f, name, |entries|);
    ghost var header := Header(name, |entries|);
    assert f.bytes == header;
    assert entries[..0] == [];

    var k := 0;
    while k < |entries|
      invariant 0 <= k <= |entries|
      invariant AllFit(name, entries[..k])
      invariant f.bytes == header + Records(name, entries[..k], spriteW, spriteH)
    {
      ghost var before := f.bytes;
      WriteRecord(f, name, entries[k], spriteW, spriteH);
      RecordsAppend(name, entries, spriteW, spriteH, k);
      AppendStep(before, header, Records(name, entries[..k], spriteW, spriteH),
                 Record(name, entries[k], spriteW, spriteH), Records(name, entries[..k + 1], spriteW, spriteH));
      k := k + 1;
    }
    assert entries[..k] == entries;

    WriteU32(f, |png|);
    f.Write(png);
    bytes := f.bytes;
  }
}
