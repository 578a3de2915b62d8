/**
 * The human-readable tile-definition file written by `write_tiles_txt`:
 * a header, one `tile` block per placed sprite (never for padding cells)
 * and a closing brace, joined with "\n".
 */
module TilesTxt {
  import Decimal
  import opened Layout
  import opened Props
  import Pack

  /** The opening lines: version, tileset, brace, file, size and id. */
  function HeaderLines(name: string, tilesetId: int, cols: nat, rows: nat): seq<string>
  {
    ["version = 1", "tileset", "{",
     "    file = " + name,
     "    size = " + Decimal.NatToString(cols) + "," + Decimal.NatToString(rows),
     "    id = " + Decimal.IntToString(tilesetId)]
  }

  /** The line that opens a tile block. */
  const TileLine := "    tile"

  /** A property line: `key = value`, or `key =` when the value is empty (a flag). */
  function PropLine(p: (string, string)): string
  {
    if p.1 != "" then "        " + p.0 + " = " + p.1 else "        " + p.0 + " ="
  }

  function PropLines(props: seq<(string, string)>): (r: seq<string>)
    ensures |r| == |props|
  {
    seq(|props|, i requires 0 <= i < |props| => PropLine(props[i]))
  }

  /** The comment line naming the tile and the sprite file it comes from. */
  function CommentLine(name: string, e: Entry): string
  {
    "    // " + Pack.EntryName(name, e.index) + " (from " + e.source + ".png)"
  }

  function XyLine(e: Entry): string
  {
    "        xy = " + Decimal.NatToString(e.col) + "," + Decimal.NatToString(e.row)
  }

  /** The block of one placed sprite. */
  function Block(name: string, e: Entry, doc: Document): seq<string>
  {
    ["", CommentLine(name, e), TileLine, "    {", XyLine(e)]
      + PropLines(TileProps(doc, Pack.EntryName(name, e.index))) + ["    }"]
  }

  /** The blocks of all entries, in entry order. */
  function Blocks(name: string, entries: seq<Entry>, doc: Document): seq<string>
  {
    if entries == [] then []
    else Blocks(name, entries[..|entries| - 1], doc) + Block(name, entries[|entries| - 1], doc)
  }

  /** The list `lines` of `write_tiles_txt`. */
  function Lines(name: string, tilesetId: int, entries: seq<Entry>, cols: nat, rows: nat, doc: Document): seq<string>
  {
    HeaderLines(name, tilesetId, cols, rows) + Blocks(name, entries, doc) + ["}", ""]
  }

  /** `"\n".join(lines)`. */
  function Join(lines: seq<string>): string
  {
    if lines == [] then ""
    else if |lines| == 1 then lines[0]
    else lines[0] + "\n" + Join(lines[1..])
  }

  /** The contents of the `.tiles.txt` file. */
  function TilesText(name: string, tilesetId: int, entries: seq<Entry>, cols: nat, rows: nat, doc: Document): string
  {
    Join(Lines(name, tilesetId, entries, cols, rows, doc))
  }

  // ---------------------------------------------------------------- writing

  /** The inner loop of `write_tiles_txt`: one line per property, in order. */
  method AppendPropLines(lines: seq<string>, props: seq<(string, string)>) returns (r: seq<string>)
    ensures r == lines + PropLines(props)
  {
    r := lines;
    for j := 0 to |props|
      invariant r == lines + PropLines(props[..j])
    {
      var (key, value) := props[j];
      if value != "" {
        r := r + ["        " + key + " = " + value];
      } else {
        r := r + ["        " + key + " ="];
      }
      assert PropLines(props[..j + 1]) == PropLines(props[..j]) + [PropLine(props[j])];
    }
    assert props[..|props|] == props;
  }

  /** The lines `write_tiles_txt` appends for one placed sprite. */
  method AppendBlock(lines: seq<string>, name: string, entry: Entry, doc: Document) returns (r: seq<string>)
    ensures r == lines + Block(name, entry, doc)
  {
    var spriteName := Pack.EntryName(name, entry.index);
    r := lines + [""];
    r := r + ["    // " + spriteName + " (from " + entry.source + ".png)"];
    r := r + ["    tile"];
    r := r + ["    {"];
    r := r + ["        xy = " + Decimal.NatToString(entry.col) + "," + Decimal.NatToString(entry.row)];
    ghost var opening := r;
    assert opening == lines + ["", CommentLine(name, entry), TileLine, "    {", XyLine(entry)];
    var props := GetTileProps(doc, spriteName);
    r := AppendPropLines(r, props);
    r := r + ["    }"];
  }

  /**
   * `write_tiles_txt` without the file handling: builds the line list entry by
   * entry and property by property, then joins it with "\n".
   */
  method WriteTilesTxt(name: string, tilesetId: int, entries: seq<Entry>, cols: nat, rows: nat, doc: Document)
    returns (text: string)
    ensures text == TilesText(name, tilesetId, entries, cols, rows, doc)
  {
    var lines := ["version = 1", "tileset", "{"];
    lines := lines + ["    file = " + name];
    lines := lines + ["    size = " + Decimal.NatToString(cols) + "," + Decimal.NatToString(rows)];
    lines := lines + ["    id = " + Decimal.IntToString(tilesetId)];
    ghost var header := lines;
    assert header == HeaderLines(name, tilesetId, cols, rows);

    for k := 0 to |entries|
      invariant lines == header + Blocks(name, entries[..k], doc)
    {
      lines := AppendBlock(lines, name, entries[k], doc);
      BlocksSnoc(name, entries, k, doc);
      Assoc(header, Blocks(name, entries[..k], doc), Block(name, entries[k], doc));
    }
    assert entries[..|entries|] == entries;

    ghost var body := lines;
    lines := lines + ["}"];
    lines := lines + [""];
    assert lines == body + ["}", ""];
    text := Join(lines);
  }

  lemma BlocksSnoc(name: string, entries: seq<Entry>, k: nat, doc: Document)
    requires k < |entries|
    ensures Blocks(name, entries[..k + 1], doc) == Blocks(name, entries[..k], doc) + Block(name, entries[k], doc)
  {
    assert entries[..k + 1][..k] == entries[..k];
  }

  lemma Assoc(a: seq<string>, b: seq<string>, c: seq<string>)
    ensures a + b + c == a + (b + c)
  {
  }

  // ---------------------------------------------------------------- tile blocks

  /** How many lines are exactly `TileLine`. */
  function CountTileLines(lines: seq<string>): nat
  {
    if lines == [] then 0
    else (if lines[0] == TileLine then 1 else 0) + CountTileLines(lines[1..])
  }

  lemma {:induction false} CountConcat(a: seq<string>, b: seq<string>)
    ensures CountTileLines(a + b) == CountTileLines(a) + CountTileLines(b)
  {
    if a == [] {
      assert a + b == b;
    } else {
      assert (a + b)[0] == a[0] && (a + b)[1..] == a[1..] + b;
      CountConcat(a[1..], b);
    }
  }

  /** Lines that are not eight characters long are not tile lines. */
  lemma {:induction false} NoTileLines(lines: seq<string>)
    requires forall i :: 0 <= i < |lines| ==> |lines[i]| != 8
    ensures CountTileLines(lines) == 0
  {
    if lines != [] {
      NoTileLines(lines[1..]);
    }
  }

  lemma NoTileLinesInProps(props: seq<(string, string)>)
    ensures CountTileLines(PropLines(props)) == 0
  {
    var lines := PropLines(props);
    assert forall i :: 0 <= i < |lines| ==> |lines[i]| >= 10;
    NoTileLines(lines);
  }

  /** One tile line between lines of other lengths. */
  lemma OneTileLine(before: seq<string>, after: seq<string>)
    requires forall i :: 0 <= i < |before| ==> |before[i]| != 8
    requires forall i :: 0 <= i < |after| ==> |after[i]| != 8
    ensures CountTileLines(before + [TileLine] + after) == 1
  {
    NoTileLines(before);
    NoTileLines(after);
    CountConcat(before, [TileLine]);
    CountConcat(before + [TileLine], after);
    assert [TileLine][1..] == [];
  }

  lemma BlockShape(blank: string, comment: string, brace: string, xy: string, props: seq<string>, close: string)
    ensures [blank, comment, TileLine, brace, xy] + props + [close]
         == [blank, comment] + [TileLine] + ([brace, xy] + props + [close])
  {
  }

  /** Each block holds exactly one tile line. */
  lemma OneTileLinePerBlock(name: string, e: Entry, doc: Document)
    ensures CountTileLines(Block(name, e, doc)) == 1
  {
    var props := PropLines(TileProps(doc, Pack.EntryName(name, e.index)));
    var after := ["    {", XyLine(e)] + props + ["    }"];
    assert |CommentLine(name, e)| > 8 && |XyLine(e)| > 8;
    assert forall i :: 0 <= i < |props| ==> |props[i]| >= 10;
    assert forall i :: 0 <= i < |after| ==> |after[i]| != 8;
    OneTileLine(["", CommentLine(name, e)], after);
    BlockShape("", CommentLine(name, e), "    {", XyLine(e), props, "    }");
  }

  lemma {:induction false} TileLinesInBlocks(name: string, entries: seq<Entry>, doc: Document)
    ensures CountTileLines(Blocks(name, entries, doc)) == |entries|
  {
    if entries != [] {
      TileLinesInBlocks(name, entries[..|entries| - 1], doc);
      OneTileLinePerBlock(name, entries[|entries| - 1], doc);
      CountConcat(Blocks(name, entries[..|entries| - 1], doc), Block(name, entries[|entries| - 1], doc));
    }
  }

  lemma NoTileLineInHeader(name: string, tilesetId: int, cols: nat, rows: nat)
    ensures CountTileLines(HeaderLines(name, tilesetId, cols, rows)) == 0
  {
    var header := HeaderLines(name, tilesetId, cols, rows);
    assert forall i :: 0 <= i < |header| ==> |header[i]| != 8;
    NoTileLines(header);
  }

  /**
   * The line list holds exactly one `tile` line per placement entry, so
   * padding cells get no block.
   */
  lemma TileLinesMatchEntries(name: string, tilesetId: int, entries: seq<Entry>, cols: nat, rows: nat, doc: Document)
    ensures CountTileLines(Lines(name, tilesetId, entries, cols, rows, doc)) == |entries|
  {
    var header := HeaderLines(name, tilesetId, cols, rows);
    var blocks := Blocks(name, entries, doc);
    NoTileLineInHeader(name, tilesetId, cols, rows);
    TileLinesInBlocks(name, entries, doc);
    NoTileLines(["}", ""]);
    CountConcat(header, blocks);
    CountConcat(header + blocks, ["}", ""]);
  }

  /** The line list starts with the six header lines and ends with a closing brace and an empty line. */
  lemma LinesShape(name: string, tilesetId: int, entries: seq<Entry>, cols: nat, rows: nat, doc: Document)
    ensures var lines := Lines(name, tilesetId, entries, cols, rows, doc);
      |lines| >= 8 && lines[..6] == HeaderLines(name, tilesetId, cols, rows)
      && lines[|lines| - 2] == "}" && lines[|lines| - 1] == ""
  {
    var header := HeaderLines(name, tilesetId, cols, rows);
    var middle := header + Blocks(name, entries, doc);
    var lines := middle + ["}", ""];
    assert |header| == 6;
    assert middle[..6] == header;
    assert lines[..6] == middle[..6];
    assert lines[|middle|] == "}" && lines[|middle| + 1] == "";
  }

  // ---------------------------------------------------------------- lines of the file

  /** The position of the first newline, or `|s|` when there is none. */
  function FindNewline(s: string): (k: nat)
    ensures k <= |s|
    ensures forall j :: 0 <= j < k ==> s[j] != '\n'
    ensures k < |s| ==> s[k] == '\n'
  {
    if s == [] || s[0] == '\n' then 0 else 1 + FindNewline(s[1..])
  }

  /** `s.split("\n")`. */
  function Split(s: string): seq<string>
    decreases |s|
  {
    var k := FindNewline(s);
    if k == |s| then [s] else [s[..k]] + Split(s[k + 1..])
  }

  /** Splitting the joined text at newlines gives back the lines, when no line contains a newline. */
  lemma {:induction false} SplitJoin(lines: seq<string>)
    requires |lines| >= 1
    requires forall i :: 0 <= i < |lines| ==> NoNewline(lines[i])
    ensures Split(Join(lines)) == lines
  {
    if |lines| == 1 {
      assert FindNewline(lines[0]) == |lines[0]|;
    } else {
      var s := Join(lines);
      var first := lines[0];
      assert s == first + ("\n" + Join(lines[1..]));
      assert s[|first|] == '\n';
      assert forall j :: 0 <= j < |first| ==> s[j] == first[j];
      assert FindNewline(s) == |first|;
      assert s[..|first|] == first;
      assert s[|first| + 1..] == Join(lines[1..]);
      SplitJoin(lines[1..]);
      assert [first] + lines[1..] == lines;
    }
  }
}
