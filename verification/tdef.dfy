/**
 * The binary tile-definition file ("tdef") written by `write_tiles_bin`:
 * a header, the tileset record, and one tile record for EVERY cell of the
 * grid, padding cells included.
 */
module Tdef {
  import opened Results
  import opened Bytes
  import opened BinaryFile
  import Utf8
  import opened Layout
  import opened Props
  import Pack
  import Seqs

  /** The ASCII magic "tdef". */
  const Magic: seq<Byte> := [0x74, 0x64, 0x65, 0x66]

  const Version := 1

  /** `f"{s}\n".encode("utf-8")`: a newline-terminated string. */
  function Line(s: string): (r: seq<Byte>)
    ensures r == Utf8.Encode(s) + [0x0A]
  {
    Utf8.EncodeAppend(s, "\n");
    Utf8.Encode(s + "\n")
  }

  /** The key and value lines of a tile's properties. */
  function PropBytes(props: seq<(string, string)>): seq<Byte>
  {
    if props == [] then [] else Line(props[0].0) + Line(props[0].1) + PropBytes(props[1..])
  }

  /** One tile record: the property count, then each key and value line. */
  function TileRecord(props: seq<(string, string)>): seq<Byte>
    requires IsU32(|props|)
  {
    U32(|props|) + PropBytes(props)
  }

  predicate CountsFit(cells: seq<seq<(string, string)>>)
  {
    forall i :: 0 <= i < |cells| ==> IsU32(|cells[i]|)
  }

  function TileRecords(cells: seq<seq<(string, string)>>): seq<Byte>
    requires CountsFit(cells)
  {
    if cells == [] then [] else TileRecord(cells[0]) + TileRecords(cells[1..])
  }

  /** The keys of `entry_by_index`: the indices that have a placement entry. */
  function Indices(entries: seq<Entry>): set<nat>
  {
    set e | e in entries :: e.index
  }

  /** The properties of each of the `total` grid cells; a cell without an entry has none. */
  function Cells(name: string, entries: seq<Entry>, doc: Document, total: nat): (cells: seq<seq<(string, string)>>)
    ensures |cells| == total
  {
    seq(total, i requires 0 <= i < total =>
      if i in Indices(entries) then TileProps(doc, Pack.EntryName(name, i)) else [])
  }

  /** No sprite of the document has 2^32 or more properties. */
  predicate DocFits(doc: Document)
  {
    doc.Some? ==> forall k :: k in doc.value ==> IsU32(|doc.value[k]|)
  }

  lemma {:induction false} FilterShorter(ps: seq<(string, Value)>)
    ensures |Filter(ps)| <= |ps|
  {
    if ps != [] {
      FilterShorter(ps[1..]);
    }
  }

  lemma CellsFit(name: string, entries: seq<Entry>, doc: Document, total: nat)
    requires DocFits(doc)
    ensures CountsFit(Cells(name, entries, doc, total))
  {
    var cells := Cells(name, entries, doc, total);
    forall i | 0 <= i < total ensures IsU32(|cells[i]|) {
      var s := Pack.EntryName(name, i);
      if doc.Some? && s in doc.value {
        FilterShorter(doc.value[s]);
      }
    }
  }

  /** What `write_tiles_bin` accepts without `struct.pack` failing. */
  predicate Encodable(tilesetId: int, cols: nat, rows: nat, doc: Document)
  {
    IsU32(cols) && IsU32(rows) && IsU32(tilesetId) && IsU32(cols * rows) && DocFits(doc)
  }

  /** The file header and the tileset record. */
  function Header(name: string, tilesetId: int, cols: nat, rows: nat): seq<Byte>
    requires IsU32(cols) && IsU32(rows) && IsU32(tilesetId) && IsU32(cols * rows)
  {
    Magic + U32(Version) + U32(1) + Line(name) + Line(name + ".png")
      + U32(cols) + U32(rows) + U32(tilesetId) + U32(cols * rows)
  }

  /** The whole `.tiles` file. */
  function TilesBin(name: string, tilesetId: int, entries: seq<Entry>, cols: nat, rows: nat, doc: Document): seq<Byte>
    requires Encodable(tilesetId, cols, rows, doc)
  {
    CellsFit(name, entries, doc, cols * rows);
    Header(name, tilesetId, cols, rows) + TileRecords(Cells(name, entries, doc, cols * rows))
  }

  // ---------------------------------------------------------------- reading

  /** The position of the first newline byte, or `|b|` when there is none. */
  function FindNewline(b: seq<Byte>): (k: nat)
    ensures k <= |b|
    ensures forall j :: 0 <= j < k ==> b[j] != 0x0A
    ensures k < |b| ==> b[k] == 0x0A
  {
    if b == [] || b[0] == 0x0A then 0 else 1 + FindNewline(b[1..])
  }

  /** Reads one newline-terminated UTF-8 string. */
  function ReadLine(b: seq<Byte>): Option<(string, seq<Byte>)>
  {
    var k := FindNewline(b);
    if k == |b| then None
    else match Utf8.Decode(b[..k])
      case None => None
      case Some(s) => Some((s, b[k + 1..]))
  }

  /** Reads `n` key and value lines. */
  function ReadProps(b: seq<Byte>, n: nat): Option<(seq<(string, string)>, seq<Byte>)>
    decreases n
  {
    if n == 0 then Some(([], b))
    else match ReadLine(b)
      case None => None
      case Some((key, b1)) =>
        match ReadLine(b1)
        case None => None
        case Some((value, b2)) =>
          match ReadProps(b2, n - 1)
          case None => None
          case Some((ps, b3)) => Some(([(key, value)] + ps, b3))
  }

  /** Reads one tile record. */
  function ReadTile(b: seq<Byte>): Option<(seq<(string, string)>, seq<Byte>)>
  {
    match ReadU32(b)
    case None => None
    case Some((n, b1)) => ReadProps(b1, n)
  }

  /** Reads `n` tile records. */
  function ReadTiles(b: seq<Byte>, n: nat): Option<(seq<seq<(string, string)>>, seq<Byte>)>
    decreases n
  {
    if n == 0 then Some(([], b))
    else match ReadTile(b)
      case None => None
      case Some((t, b1)) =>
        match ReadTiles(b1, n - 1)
        case None => None
        case Some((ts, b2)) => Some(([t] + ts, b2))
  }

  /** A decoded `.tiles` file with one tileset. */
  datatype TileDefs = TileDefs(
    version: int, tilesetCount: int, name: string, imageFile: string,
    cols: int, rows: int, tilesetId: int, tileCount: int,
    tiles: seq<seq<(string, string)>>)

  /** Reads a whole `.tiles` file with one tileset; None when it is malformed or has bytes left over. */
  function DecodeTilesBin(b: seq<Byte>): Option<TileDefs>
  {
    if |b| < 12 || b[..4] != Magic then None
    else ReadTileset(ValueU32(b[4..8]), ValueU32(b[8..12]), b[12..])
  }

  /** Reads the tileset record that follows the file header. */
  function ReadTileset(version: int, tilesetCount: int, b: seq<Byte>): Option<TileDefs>
  {
    match ReadLine(b)
    case None => None
    case Some((name, b1)) =>
      match ReadLine(b1)
      case None => None
      case Some((image, b2)) =>
        if |b2| < 16 then None
        else
          var total := ValueU32(b2[12..16]);
          match ReadTiles(b2[16..], total)
          case None => None
          case Some((tiles, b3)) =>
            if b3 != [] then None
            else Some(TileDefs(version, tilesetCount, name, image,
                               ValueU32(b2[..4]), ValueU32(b2[4..8]), ValueU32(b2[8..12]), total, tiles))
  }

  // ---------------------------------------------------------------- round trip

  lemma ReadLineWritten(s: string, rest: seq<Byte>)
    requires NoNewline(s)
    ensures ReadLine(Line(s) + rest) == Some((s, rest))
  {
    var e := Utf8.Encode(s);
    var b := Line(s) + rest;
    Utf8.NewlineByte(s);
    assert b == e + ([0x0A] + rest);
    assert b[|e|] == 0x0A;
    assert forall j :: 0 <= j < |e| ==> b[j] == e[j];
    var k := FindNewline(b);
    assert k == |e|;
    assert b[..k] == e;
    assert b[k + 1..] == rest;
    Utf8.RoundTrip(s);
  }

  lemma ReadPropsStep(b: seq<Byte>, n: nat, key: string, b1: seq<Byte>, value: string, b2: seq<Byte>,
                      ps: seq<(string, string)>, b3: seq<Byte>)
    requires n > 0 && ReadLine(b) == Some((key, b1)) && ReadLine(b1) == Some((value, b2))
    requires ReadProps(b2, n - 1) == Some((ps, b3))
    ensures ReadProps(b, n) == Some(([(key, value)] + ps, b3))
  {
  }

  lemma {:induction false} ReadPropsWritten(props: seq<(string, string)>, rest: seq<Byte>)
    requires forall i :: 0 <= i < |props| ==> NoNewline(props[i].0) && NoNewline(props[i].1)
    ensures ReadProps(PropBytes(props) + rest, |props|) == Some((props, rest))
  {
    if props == [] {
      assert PropBytes(props) + rest == rest;
    } else {
      var tail := PropBytes(props[1..]);
      var key, value := Line(props[0].0), Line(props[0].1);
      assert PropBytes(props) == key + value + tail;
      Regroup(key, value, tail, rest);
      ReadLineWritten(props[0].0, value + (tail + rest));
      ReadLineWritten(props[0].1, tail + rest);
      assert forall i :: 0 <= i < |props| - 1 ==> props[1..][i] == props[i + 1];
      ReadPropsWritten(props[1..], rest);
      ReadPropsStep(PropBytes(props) + rest, |props|, props[0].0, value + (tail + rest), props[0].1, tail + rest,
                    props[1..], rest);
      assert (props[0].0, props[0].1) == props[0];
      Seqs.HeadTail(props);
    }
  }

  predicate CellsWithoutNewlines(cells: seq<seq<(string, string)>>)
  {
    forall i, j :: 0 <= i < |cells| && 0 <= j < |cells[i]| ==>
      NoNewline(cells[i][j].0) && NoNewline(cells[i][j].1)
  }

  lemma ReadTilesStep(b: seq<Byte>, n: nat, t: seq<(string, string)>, b1: seq<Byte>,
                      ts: seq<seq<(string, string)>>, b2: seq<Byte>)
    requires n > 0 && ReadTile(b) == Some((t, b1)) && ReadTiles(b1, n - 1) == Some((ts, b2))
    ensures ReadTiles(b, n) == Some(([t] + ts, b2))
  {
  }

  lemma ReadTileWritten(props: seq<(string, string)>, rest: seq<Byte>)
    requires IsU32(|props|)
    requires forall j :: 0 <= j < |props| ==> NoNewline(props[j].0) && NoNewline(props[j].1)
    ensures ReadTile(TileRecord(props) + rest) == Some((props, rest))
  {
    Regroup(U32(|props|), PropBytes(props), [], rest);
    ReadU32Written(|props|, PropBytes(props) + rest);
    ReadPropsWritten(props, rest);
  }

  lemma CellsTail(cells: seq<seq<(string, string)>>)
    requires CountsFit(cells) && CellsWithoutNewlines(cells) && cells != []
    ensures CountsFit(cells[1..]) && CellsWithoutNewlines(cells[1..])
    ensures IsU32(|cells[0]|)
    ensures forall j :: 0 <= j < |cells[0]| ==> NoNewline(cells[0][j].0) && NoNewline(cells[0][j].1)
  {
    assert forall i :: 0 <= i < |cells| - 1 ==> cells[1..][i] == cells[i + 1];
  }

  lemma {:induction false} ReadTilesWritten(cells: seq<seq<(string, string)>>, rest: seq<Byte>)
    requires CountsFit(cells) && CellsWithoutNewlines(cells)
    ensures ReadTiles(TileRecords(cells) + rest, |cells|) == Some((cells, rest))
  {
    if cells == [] {
      assert TileRecords(cells) + rest == rest;
    } else {
      CellsTail(cells);
      var head := TileRecord(cells[0]);
      var tail := TileRecords(cells[1..]);
      assert TileRecords(cells) == head + tail;
      Regroup(head, tail, [], rest);
      ReadTileWritten(cells[0], tail + rest);
      ReadTilesWritten(cells[1..], rest);
      ReadTilesStep(TileRecords(cells) + rest, |cells|, cells[0], tail + rest, cells[1..], rest);
      Seqs.HeadTail(cells);
    }
  }

  lemma CellsWithoutNewlinesFromDoc(name: string, entries: seq<Entry>, doc: Document, total: nat)
    requires DocWithoutNewlines(doc)
    ensures CellsWithoutNewlines(Cells(name, entries, doc, total))
  {
    var cells: seq<seq<(string, string)>> := Cells(name, entries, doc, total);
    forall i: int | 0 <= i < total
      ensures forall j: int :: 0 <= j < |cells[i]| ==> NoNewline(cells[i][j].0) && NoNewline(cells[i][j].1)
    {
      var s := Pack.EntryName(name, i);
      TilePropsWithoutNewlines(doc, s);
    }
  }

  /** The numeric fields of the tileset record followed by the tile records. */
  function Fields(tilesetId: int, cols: nat, rows: nat, records: seq<Byte>): seq<Byte>
    requires IsU32(cols) && IsU32(rows) && IsU32(tilesetId) && IsU32(cols * rows)
  {
    U32(cols) + U32(rows) + U32(tilesetId) + U32(cols * rows) + records
  }

  lemma Regroup9(m: seq<Byte>, v: seq<Byte>, o: seq<Byte>, l1: seq<Byte>, l2: seq<Byte>,
                 c: seq<Byte>, r: seq<Byte>, i: seq<Byte>, t: seq<Byte>, rec: seq<Byte>)
    ensures m + v + o + l1 + l2 + c + r + i + t + rec == (m + v + o) + (l1 + (l2 + (c + r + i + t + rec)))
  {
  }

  lemma TilesBinSplit(name: string, tilesetId: int, entries: seq<Entry>, cols: nat, rows: nat, doc: Document)
    requires Encodable(tilesetId, cols, rows, doc)
    ensures CountsFit(Cells(name, entries, doc, cols * rows))
    ensures TilesBin(name, tilesetId, entries, cols, rows, doc)
         == (Magic + U32(Version) + U32(1))
            + (Line(name) + (Line(name + ".png")
               + Fields(tilesetId, cols, rows, TileRecords(Cells(name, entries, doc, cols * rows)))))
  {
    CellsFit(name, entries, doc, cols * rows);
    Regroup9(Magic, U32(Version), U32(1), Line(name), Line(name + ".png"),
             U32(cols), U32(rows), U32(tilesetId), U32(cols * rows),
             TileRecords(Cells(name, entries, doc, cols * rows)));
  }

  lemma ReadWrittenTileset(name: string, tilesetId: int, cols: nat, rows: nat, cells: seq<seq<(string, string)>>)
    requires IsU32(cols) && IsU32(rows) && IsU32(tilesetId) && IsU32(cols * rows)
    requires CountsFit(cells) && CellsWithoutNewlines(cells) && |cells| == cols * rows
    requires NoNewline(name)
    ensures ReadTileset(Version, 1, Line(name) + (Line(name + ".png") + Fields(tilesetId, cols, rows, TileRecords(cells))))
         == Some(TileDefs(Version, 1, name, name + ".png", cols, rows, tilesetId, cols * rows, cells))
  {
    var records := TileRecords(cells);
    var fields := Fields(tilesetId, cols, rows, records);
    ReadLineWritten(name, Line(name + ".png") + fields);
    PngNoNewline();
    NoNewlineConcat(name, ".png");
    ReadLineWritten(name + ".png", fields);
    FourFields(U32(cols), U32(rows), U32(tilesetId), U32(cols * rows), records);
    Seqs.AppendEmpty(records);
    ReadTilesWritten(cells, []);
    ReadTilesetStep(Version, 1, Line(name) + (Line(name + ".png") + fields), name, Line(name + ".png") + fields,
                    name + ".png", fields, cells);
  }

  lemma ReadTilesetStep(version: int, tilesetCount: int, b: seq<Byte>, name: string, b1: seq<Byte>,
                        image: string, b2: seq<Byte>, tiles: seq<seq<(string, string)>>)
    requires ReadLine(b) == Some((name, b1)) && ReadLine(b1) == Some((image, b2)) && |b2| >= 16
    requires ReadTiles(b2[16..], ValueU32(b2[12..16])) == Some((tiles, []))
    ensures ReadTileset(version, tilesetCount, b)
         == Some(TileDefs(version, tilesetCount, name, image, ValueU32(b2[..4]), ValueU32(b2[4..8]),
                          ValueU32(b2[8..12]), ValueU32(b2[12..16]), tiles))
  {
  }

  /**
   * Decoding a written `.tiles` file gives back the header fields, the tileset
   * name and image file, and exactly `cols * rows` tile records with each
   * cell's properties, when no name, key or value contains a newline.
   */
  lemma RoundTrip(name: string, tilesetId: int, entries: seq<Entry>, cols: nat, rows: nat, doc: Document)
    requires Encodable(tilesetId, cols, rows, doc)
    requires NoNewline(name) && DocWithoutNewlines(doc)
    ensures DecodeTilesBin(TilesBin(name, tilesetId, entries, cols, rows, doc))
         == Some(TileDefs(Version, 1, name, name + ".png", cols, rows, tilesetId, cols * rows,
                          Cells(name, entries, doc, cols * rows)))
  {
    var cells := Cells(name, entries, doc, cols * rows);
    CellsWithoutNewlinesFromDoc(name, entries, doc, cols * rows);
    TilesBinSplit(name, tilesetId, entries, cols, rows, doc);
    var rest := Line(name) + (Line(name + ".png") + Fields(tilesetId, cols, rows, TileRecords(cells)));
    var b := TilesBin(name, tilesetId, entries, cols, rows, doc);
    ThreeFields(Magic, U32(Version), U32(1), rest);
    ReadWrittenTileset(name, tilesetId, cols, rows, cells);
  }

  // ---------------------------------------------------------------- writing

  lemma {:induction false} PropBytesConcat(a: seq<(string, string)>, b: seq<(string, string)>)
    ensures PropBytes(a + b) == PropBytes(a) + PropBytes(b)
  {
    if a == [] {
      assert a + b == b;
    } else {
      assert (a + b)[0] == a[0] && (a + b)[1..] == a[1..] + b;
      PropBytesConcat(a[1..], b);
    }
  }

  lemma PropBytesSnoc(props: seq<(string, string)>, j: nat)
    requires j < |props|
    ensures PropBytes(props[..j + 1]) == PropBytes(props[..j]) + (Line(props[j].0) + Line(props[j].1))
  {
    assert props[..j + 1] == props[..j] + [props[j]];
    PropBytesConcat(props[..j], [props[j]]);
    assert [props[j]][1..] == [];
  }

  lemma CountsFitSplit(a: seq<seq<(string, string)>>, b: seq<seq<(string, string)>>)
    requires CountsFit(a + b)
    ensures CountsFit(a) && CountsFit(b)
  {
    assert forall i :: 0 <= i < |a| ==> (a + b)[i] == a[i];
    assert forall i :: 0 <= i < |b| ==> (a + b)[|a| + i] == b[i];
  }

  lemma {:induction false} TileRecordsConcat(a: seq<seq<(string, string)>>, b: seq<seq<(string, string)>>)
    requires CountsFit(a + b)
    ensures CountsFit(a) && CountsFit(b)
    ensures TileRecords(a + b) == TileRecords(a) + TileRecords(b)
  {
    CountsFitSplit(a, b);
    if a == [] {
      assert a + b == b;
    } else {
      var ab := a + b;
      assert ab[0] == a[0] && ab[1..] == a[1..] + b;
      TileRecordsConcat(a[1..], b);
      assert TileRecords(ab) == TileRecord(a[0]) + (TileRecords(a[1..]) + TileRecords(b));
      Regroup(TileRecord(a[0]), TileRecords(a[1..]), [], TileRecords(b));
    }
  }

  lemma TileRecordsSnoc(cells: seq<seq<(string, string)>>, i: nat)
    requires CountsFit(cells) && i < |cells|
    ensures CountsFit(cells[..i]) && CountsFit(cells[..i + 1])
    ensures TileRecords(cells[..i + 1]) == TileRecords(cells[..i]) + TileRecord(cells[i])
  {
    assert cells[..i + 1] == cells[..i] + [cells[i]];
    TileRecordsConcat(cells[..i], [cells[i]]);
    TileRecordsConcat(cells[..i + 1], cells[i + 1..]);
    assert cells[..i + 1] + cells[i + 1..] == cells;
    assert [cells[i]][1..] == [];
  }

  /** Writes the key and value lines of one tile (the inner loop of `write_tiles_bin`). */
  method WriteProps(f: ByteFile, props: seq<(string, string)>)
    modifies f
    ensures f.bytes == old(f.bytes) + PropBytes(props)
  {
    ghost var start := f.bytes;
    assert props[..0] == [];
    for j := 0 to |props|
      invariant f.bytes == start + PropBytes(props[..j])
    {
      ghost var before := f.bytes;
      var (key, value) := props[j];
      f.Write(Line(key));
      f.Write(Line(value));
      PropBytesSnoc(props, j);
      Regroup(start, PropBytes(props[..j]), Line(key), Line(value));
    }
    assert props[..|props|] == props;
  }

  /** Writes one tile record: the property count, then the key and value lines. */
  method WriteTile(f: ByteFile, props: seq<(string, string)>)
    requires IsU32(|props|)
    modifies f
    ensures f.bytes == old(f.bytes) + TileRecord(props)
  {
    ghost var before := f.bytes;
    WriteU32(f, |props|);
    WriteProps(f, props);
    Regroup(before, U32(|props|), [], PropBytes(props));
  }

  /**
   * The set of indices that have a placement entry; the writer only asks
   * whether a cell's index is among them.
   */
  method EntryIndices(entries: seq<Entry>) returns (indices: set<nat>)
    ensures forall i :: i in indices <==> exists j :: 0 <= j < |entries| && entries[j].index == i
    ensures indices == Indices(entries)
  {
    indices := {};
    for j := 0 to |entries|
      invariant indices == Indices(entries[..j])
    {
      assert entries[..j + 1] == entries[..j] + [entries[j]];
      indices := indices + {entries[j].index};
    }
    assert entries[..|entries|] == entries;
  }

  /** The file header and tileset record `write_tiles_bin` writes before the tile records. */
  method WriteHeader(f: ByteFile, name: string, tilesetId: int, cols: nat, rows: nat)
    requires IsU32(cols) && IsU32(rows) && IsU32(tilesetId) && IsU32(cols * rows)
    modifies f
    ensures f.bytes == old(f.bytes) + Header(name, tilesetId, cols, rows)
  {
    ghost var start := f.bytes;
    f.Write(Magic);
    ghost var written, before := Magic, f.bytes;
    WriteU32(f, Version);
    AppendStep(before, start, written, U32(Version), written + U32(Version));
    written, before := written + U32(Version), f.bytes;
    WriteU32(f, 1);  // one tileset
    AppendStep(before, start, written, U32(1), written + U32(1));
    written, before := written + U32(1), f.bytes;
    f.Write(Line(name));
    AppendStep(before, start, written, Line(name), written + Line(name));
    written, before := written + Line(name), f.bytes;
    f.Write(Line(name + ".png"));
    AppendStep(before, start, written, Line(name + ".png"), written + Line(name + ".png"));
    written, before := written + Line(name + ".png"), f.bytes;
    WriteU32(f, cols);
    AppendStep(before, start, written, U32(cols), written + U32(cols));
    written, before := written + U32(cols), f.bytes;
    WriteU32(f, rows);
    AppendStep(before, start, written, U32(rows), written + U32(rows));
    written, before := written + U32(rows), f.bytes;
    WriteU32(f, tilesetId);
    AppendStep(before, start, written, U32(tilesetId), written + U32(tilesetId));
    written, before := written + U32(tilesetId), f.bytes;
    WriteU32(f, cols * rows);
    AppendStep(before, start, written, U32(cols * rows), written + U32(cols * rows));
  }

  /**
   * `write_tiles_bin` without the file handling: the header, the tileset
   * record and a record for every one of the `cols * rows` cells, padding
   * cells after the last entry getting a property count of zero.
   */
  method WriteTilesBin(name: string, tilesetId: int, entries: seq<Entry>, cols: nat, rows: nat, doc: Document)
    returns (bytes: seq<Byte>)
    requires Encodable(tilesetId, cols, rows, doc)
    ensures bytes == TilesBin(name, tilesetId, entries, cols, rows, doc)
  {
    var total := cols * rows;
    var f := new ByteFile();
    WriteHeader(f, name, tilesetId, cols, rows);
    ghost var header := Header(name, tilesetId, cols, rows);
    assert f.bytes == header;

    var indices := EntryIndices(entries);

    ghost var cells := Cells(name, entries, doc, total);
    CellsFit(name, entries, doc, total);
    assert cells[..0] == [];
    for i := 0 to total
      invariant f.bytes == header + TileRecords(cells[..i])
    {
      ghost var before := f.bytes;
      var props := [];
      if i in indices {
        props := GetTileProps(doc, Pack.EntryName(name, i));
      }
      assert props == cells[i];
      WriteTile(f, props);
      TileRecordsSnoc(cells, i);
      AppendStep(before, header, TileRecords(cells[..i]), TileRecord(props), TileRecords(cells[..i + 1]));
    }
    assert cells[..total] == cells;
    bytes := f.bytes;
  }

  // ---------------------------------------------------------------- padding

  /** The entries of a layout are exactly the indices `0 .. count-1`. */
  lemma LayoutIndices(entries: seq<Entry>, sprites: seq<Sprites.Sprite>, cols: nat, w: nat, h: nat)
    requires cols >= 1 && IsLayout(entries, sprites, cols, w, h)
    ensures forall i: nat :: i in Indices(entries) <==> i < |sprites|
  {
    forall i: nat ensures i in Indices(entries) <==> i < |sprites| {
      if i < |sprites| {
        assert entries[i] in entries;
      }
    }
  }

  /**
   * For the placement table of a layout, cell `i` of the `cols * rows` cells
   * carries the properties of sprite `i` when `i < count`, and none when it
   * is a padding cell.
   */
  lemma PaddingCells(name: string, entries: seq<Entry>, sprites: seq<Sprites.Sprite>, cols: nat, w: nat, h: nat, doc: Document)
    requires cols >= 1 && IsLayout(entries, sprites, cols, w, h)
    ensures |sprites| <= cols * Rows(|sprites|, cols)
    ensures forall i :: 0 <= i < |sprites| ==>
      Cells(name, entries, doc, cols * Rows(|sprites|, cols))[i] == TileProps(doc, Pack.EntryName(name, i))
    ensures forall i :: |sprites| <= i < cols * Rows(|sprites|, cols) ==>
      Cells(name, entries, doc, cols * Rows(|sprites|, cols))[i] == []
    ensures TileRecord([]) == U32(0)
  {
    LayoutIndices(entries, sprites, cols, w, h);
  }

  /** One sprite on an 8-column grid: one row, and eight tile records of which seven are empty padding. */
  lemma SingleSpriteEightColumns(name: string, sprite: Sprites.Sprite, entries: seq<Entry>, doc: Document)
    requires IsLayout(entries, [sprite], 8, sprite.width, sprite.height)
    ensures Rows(1, 8) == 1
    ensures entries[0].col == 0 && entries[0].row == 0 && entries[0].x == 0 && entries[0].y == 0
    ensures |Cells(name, entries, doc, 8 * Rows(1, 8))| == 8
    ensures forall i :: 1 <= i < 8 ==> Cells(name, entries, doc, 8 * Rows(1, 8))[i] == []
  {
    PaddingCells(name, entries, [sprite], 8, sprite.width, sprite.height, doc);
  }
}
