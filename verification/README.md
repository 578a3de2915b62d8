# pz-tilesheet, modelled in Dafny

`pz_tilesheet.py` turns a batch of equally sized PNG sprites into game assets:

- a texture atlas stored in a V2 `.pack` container;
- a binary tile-definition file, `.tiles` (the "tdef" format);
- a human-readable tile-definition file, `.tiles.txt`.

It places the sprites row-major on a grid of `cols` columns. The first tile file lists every grid cell, padding cells included. The text file lists only the placed sprites. Each tile carries its properties, taken from an optional property document.

This project models the deterministic core of the tool:

- the field writers `write_u32`, `write_i32` and `write_string`;
- the size check of `load_sprites`;
- the layout of `build_atlas`;
- the byte streams of `write_pack` and `write_tiles_bin`;
- the property filter `get_tile_props`;
- the line list of `write_tiles_txt`;
- the argument checks of `validate_args`.

The modules are:

- `Bytes`: bytes, and little-endian u32 and two's-complement i32 fields.
- `Utf8`: the UTF-8 encoding of strings, with a strict decoder.
- `Decimal`: Python's `str()` of an integer.
- `BinaryFile`: the output file as a `ByteFile` object. Its `Write` appends bytes. It also holds the three field writers.
- `Sprites`: `load_sprites` and `validate_args`. Every `sys.exit(1)` is an `Err` value.
- `Layout`: `build_atlas` without the pixels.
- `Pack`: the `.pack` writer.
- `Props`: `get_tile_props`.
- `Tdef`: the `.tiles` writer.
- `TilesTxt`: the `.tiles.txt` writer.

The writers are imperative methods that append to a `ByteFile` or to a line list. Each is proved equal to a specification function of its inputs. Properties are proved about those functions:

- A decoder for each binary format reads back everything written. For the `.pack` file that is the header constants, the page name, every entry's name, position and size in order, and the image. For the `.tiles` file it is the header, the tileset record and every cell's properties.
- The `.pack` file has an exact length.
- The `.tiles` file has one record for each of `cols * rows` cells. Padding cells have no properties.
- The text file holds exactly one `tile` block per placed sprite. It starts with the six header lines and ends with `}` and an empty line. Its lines are recovered by splitting at newlines.

File paths, the PNG pixels and the PNG encoder are not modelled. The encoded atlas image enters `Pack.WritePack` as a parameter, and the decoded sprites enter `Sprites.LoadSprites` as names with sizes. The property document enters `Props` as an already parsed value.

## Model

| member | source | states |
|---|---|---|
| Bytes.U32 | tools/pz-tilesheet/pz_tilesheet.py:33-34 | `struct.pack("<I", v)`: four bytes whose little-endian value is `v`, for `0 <= v < 2^32` |
| Bytes.I32 | tools/pz-tilesheet/pz_tilesheet.py:37-38 | `struct.pack("<i", v)`: four bytes whose two's-complement value is `v`; the same bytes as the u32 form for non-negative `v` |
| Bytes.ReadU32Written | tools/pz-tilesheet/pz_tilesheet.py:33-34 | reading a u32 from the front of `U32(v) + rest` gives `v` and leaves `rest` |
| Bytes.ReadI32Written | tools/pz-tilesheet/pz_tilesheet.py:37-38 | reading an i32 from the front of `I32(v) + rest` gives `v` and leaves `rest` |
| Utf8.EncodeChar | tools/pz-tilesheet/pz_tilesheet.py:42 | a character encodes to 1 to 4 bytes; they contain byte 0x0A exactly when the character is a newline; it is one byte exactly when the character is ASCII |
| Utf8.RoundTrip | tools/pz-tilesheet/pz_tilesheet.py:42 | the strict decoder gives back every encoded string |
| Utf8.EncodeAppend | tools/pz-tilesheet/pz_tilesheet.py:220-221 | encoding a concatenation is the concatenation of the encodings |
| Utf8.NewlineByte | tools/pz-tilesheet/pz_tilesheet.py:235-236 | byte 0x0A occurs in a string's encoding exactly when the string contains a newline |
| Utf8.AsciiEncoding | tools/pz-tilesheet/pz_tilesheet.py:42 | an ASCII string encodes to one byte per character, each equal to the character's code |
| Decimal.NatToString | tools/pz-tilesheet/pz_tilesheet.py:136 | `str(n)` of a natural is non-empty decimal digits; it starts with `0` only for `n == 0`, which gives `"0"` |
| Decimal.IntToString | tools/pz-tilesheet/pz_tilesheet.py:174 | `str(i)` starts with `-` exactly for negative `i`; the rest is digits |
| Decimal.ParseNatToString | tools/pz-tilesheet/pz_tilesheet.py:136 | parsing `str(n)` gives back `n` |
| Decimal.IntToStringRoundTrip | tools/pz-tilesheet/pz_tilesheet.py:163 | parsing `str(i)` gives back `i`, negative numbers included |
| Decimal.IntToStringInjective | tools/pz-tilesheet/pz_tilesheet.py:163 | different integers have different decimal forms |
| BinaryFile.ByteFile.constructor | tools/pz-tilesheet/pz_tilesheet.py:122 | a freshly opened output file is empty |
| BinaryFile.ByteFile.Write | tools/pz-tilesheet/pz_tilesheet.py:124 | `f.write(b)` appends exactly `b` and changes nothing else |
| BinaryFile.PrefixedString | tools/pz-tilesheet/pz_tilesheet.py:41-44 | the bytes of `write_string` are `4 + (UTF-8 byte count)` long; the prefix is the byte count, not the character count; the rest decodes to `s` |
| BinaryFile.ReadStringWritten | tools/pz-tilesheet/pz_tilesheet.py:41-44 | reading a length-prefixed string from `PrefixedString(s) + rest` gives `s` and leaves `rest` |
| BinaryFile.WriteU32 | tools/pz-tilesheet/pz_tilesheet.py:33-34 | `write_u32` appends exactly the four bytes of `U32(v)` |
| BinaryFile.WriteI32 | tools/pz-tilesheet/pz_tilesheet.py:37-38 | `write_i32` appends exactly the four bytes of `I32(v)` |
| BinaryFile.WriteString | tools/pz-tilesheet/pz_tilesheet.py:41-44 | `write_string` appends exactly `PrefixedString(s)`: the byte-count prefix, then the UTF-8 bytes |
| Sprites.LoadSprites | tools/pz-tilesheet/pz_tilesheet.py:54-69 | fails with `NoSprites` exactly when there are no sprites; succeeds exactly when every sprite has the first one's size, returning all sprites and that size; otherwise fails naming the first differing sprite, its size, the expected size and the first sprite's name |
| Sprites.RemoveUnderscores | tools/pz-tilesheet/pz_tilesheet.py:242 | `name.replace("_", "")` is never longer than `name` |
| Sprites.RemoveUnderscoresChars | tools/pz-tilesheet/pz_tilesheet.py:242 | `name.replace("_", "")` holds exactly the characters of `name` other than `_` |
| Sprites.NameCheck | tools/pz-tilesheet/pz_tilesheet.py:242 | `name.replace("_", "").isalnum()` holds exactly when the name has only letters, digits and underscores and at least one non-underscore |
| Sprites.ValidateArgs | tools/pz-tilesheet/pz_tilesheet.py:241-250 | accepts exactly a valid name with an id in 100..8190 and at least one column; a bad name is reported first, then a bad id, then a bad column count |
| Layout.Rows | tools/pz-tilesheet/pz_tilesheet.py:75 | `(count + cols - 1) // cols` is the fewest rows of `cols` cells holding `count` sprites; it is zero only for no sprites |
| Layout.BuildAtlas | tools/pz-tilesheet/pz_tilesheet.py:72-108 | returns that row count; the warning is raised exactly when the atlas width or height exceeds 2048; sprite `i` is placed at column `i % cols`, row `i // cols` and pixel `(col*w, row*h)`, with size `w x h` and the sprite's name, in order |
| Layout.PlacementInAtlas | tools/pz-tilesheet/pz_tilesheet.py:76-77 | every placement lies on the grid, at index `row*cols + col`, and wholly inside the `(cols*w) x (rows*h)` atlas |
| Layout.PlacementsDistinct | tools/pz-tilesheet/pz_tilesheet.py:89-93 | no two sprites share a grid cell |
| Pack.Header | tools/pz-tilesheet/pz_tilesheet.py:124-132 | the file and page headers are `4+4+4 + (4 + page-name bytes) + 4+4` bytes long |
| Pack.Record | tools/pz-tilesheet/pz_tilesheet.py:136-145 | an entry record is `4 + name bytes + 32` bytes long: the length-prefixed name, then eight u32 fields |
| Pack.ReadRecord | tools/pz-tilesheet/pz_tilesheet.py:136-145 | decoding one written record gives back that entry and leaves the rest |
| Pack.ReadRecords | tools/pz-tilesheet/pz_tilesheet.py:135-145 | decoding the record table gives back every entry, in order |
| Pack.RoundTrip | tools/pz-tilesheet/pz_tilesheet.py:124-149 | decoding a written `.pack` file gives the mask 1, one page named `name + "0"` with mask 1, every entry's fields in order, and the PNG bytes |
| Pack.RecordsLength | tools/pz-tilesheet/pz_tilesheet.py:135-145 | the record table is the entry-name bytes plus 36 bytes per entry |
| Pack.PackLength | tools/pz-tilesheet/pz_tilesheet.py:124-149 | the exact length of the `.pack` file |
| Pack.WriteHeader | tools/pz-tilesheet/pz_tilesheet.py:124-132 | the header writes append exactly `Header(name, count)` |
| Pack.WriteRecord | tools/pz-tilesheet/pz_tilesheet.py:136-145 | one pass of the entry loop appends exactly that entry's record |
| Pack.WritePack | tools/pz-tilesheet/pz_tilesheet.py:111-151 | the bytes written equal `PackBytes`, whose decoding `Pack.RoundTrip` gives |
| Props.FilterAppend | tools/pz-tilesheet/pz_tilesheet.py:159-163 | the filter handles each property on its own and keeps document order |
| Props.FilterLength | tools/pz-tilesheet/pz_tilesheet.py:159-163 | there is one output pair for each property whose value is not `false` |
| Props.FilterWithoutFalse | tools/pz-tilesheet/pz_tilesheet.py:159-163 | without `false` values, pair `i` is key `i` with `""` for `true` and `str(value)` otherwise |
| Props.FlagSkipHeight | tools/pz-tilesheet/pz_tilesheet.py:154-164 | `{flag: true, skip: false, height: 3}` gives `[(flag, ""), (height, "3")]` |
| Props.ShowWithoutNewline | tools/pz-tilesheet/pz_tilesheet.py:163 | `str()` of an integer contains no newline |
| Props.TilePropsWithoutNewlines | tools/pz-tilesheet/pz_tilesheet.py:154-164 | the keys and values given are newline-free when the document's are |
| Props.GetTileProps | tools/pz-tilesheet/pz_tilesheet.py:154-164 | empty for no document or an unknown sprite; otherwise one pair per non-`false` property, equal to the filtered properties in document order |
| Tdef.Line | tools/pz-tilesheet/pz_tilesheet.py:220-221 | `f"{s}\n".encode()` is the encoding of `s` followed by byte 0x0A |
| Tdef.CellsFit | tools/pz-tilesheet/pz_tilesheet.py:233 | every cell's property count fits a u32 when every sprite's property list does |
| Tdef.ReadLineWritten | tools/pz-tilesheet/pz_tilesheet.py:220-221 | reading up to the first newline byte of `Line(s) + rest` gives back `s` and leaves `rest`, for a newline-free `s` |
| Tdef.ReadPropsWritten | tools/pz-tilesheet/pz_tilesheet.py:234-236 | reading the key and value lines gives back the properties in order |
| Tdef.ReadTilesWritten | tools/pz-tilesheet/pz_tilesheet.py:229-236 | reading the tile records gives back every cell's properties in order |
| Tdef.RoundTrip | tools/pz-tilesheet/pz_tilesheet.py:211-236 | decoding a written `.tiles` file gives the version 1, one tileset, the name, `name.png`, cols, rows, id, total `cols*rows` and every cell's properties |
| Tdef.WriteProps | tools/pz-tilesheet/pz_tilesheet.py:234-236 | the property loop appends exactly the key and value lines |
| Tdef.WriteTile | tools/pz-tilesheet/pz_tilesheet.py:233-236 | one cell appends exactly its property count and its lines |
| Tdef.EntryIndices | tools/pz-tilesheet/pz_tilesheet.py:228 | the keys of `entry_by_index` are exactly the entries' indices |
| Tdef.WriteHeader | tools/pz-tilesheet/pz_tilesheet.py:214-225 | the header writes append exactly the magic, version, tileset count and tileset record |
| Tdef.WriteTilesBin | tools/pz-tilesheet/pz_tilesheet.py:201-238 | the bytes written equal `TilesBin`, whose decoding `Tdef.RoundTrip` gives |
| Tdef.LayoutIndices | tools/pz-tilesheet/pz_tilesheet.py:228 | the entries of a layout have exactly the indices `0 .. count-1` |
| Tdef.PaddingCells | tools/pz-tilesheet/pz_tilesheet.py:227-233 | for a layout, cell `i < count` carries sprite `i`'s properties; every later cell has none and is written as the single field `u32 0` |
| Tdef.SingleSpriteEightColumns | tools/pz-tilesheet/pz_tilesheet.py:211-233 | one sprite on eight columns gives one row, the sprite at (0,0) and eight cells, of which seven are empty |
| TilesTxt.AppendPropLines | tools/pz-tilesheet/pz_tilesheet.py:184-188 | the property loop appends `key = value`, or `key =` for an empty value, one line per property in order |
| TilesTxt.AppendBlock | tools/pz-tilesheet/pz_tilesheet.py:177-190 | one entry appends a blank line, the comment, `tile`, `{`, the xy line, its property lines and `}` |
| TilesTxt.WriteTilesTxt | tools/pz-tilesheet/pz_tilesheet.py:167-198 | the text written is the header lines, one block per entry in order, `}` and `""`, joined with `"\n"` |
| TilesTxt.OneTileLinePerBlock | tools/pz-tilesheet/pz_tilesheet.py:177-190 | every block holds exactly one `tile` line |
| TilesTxt.TileLinesMatchEntries | tools/pz-tilesheet/pz_tilesheet.py:171-193 | the line list holds exactly one `tile` line per placement entry, so padding cells get no block |
| TilesTxt.LinesShape | tools/pz-tilesheet/pz_tilesheet.py:171-193 | the list starts with the six header lines and ends with `}` and an empty line |
| TilesTxt.SplitJoin | tools/pz-tilesheet/pz_tilesheet.py:196 | splitting the joined text at newlines gives back the lines when none contains a newline |

## Left out

- Image decoding, compositing and PNG encoding. Sprites are names with sizes, and the encoded atlas is a byte-sequence parameter of `Pack.WritePack`.
- The file system: output directories, file names and paths, and opening and closing files. Each writer returns the bytes or text it would write.
- Glob expansion and path existence checks, `sorted(paths)` in `load_sprites`, and `Path(path).stem`. `Sprites.LoadSprites` takes the sprites already in sorted order, each with its name.
- `main`, argparse, reading the JSON property document, and the console summary.
- The error and warning messages on stderr. Errors are the `LoadError` and `ConfigError` values; the size warning is the `oversized` result of `Layout.BuildAtlas`.
- Property values that are floats, `None`, lists or objects. `Props.Value` has only booleans, integers and strings, so `str()` of the other kinds is not modelled.
- Strings holding lone surrogates, which a parsed JSON property document can contain: Python's UTF-8 encoder raises `UnicodeEncodeError` on them while `write_tiles_bin` runs, after the `.pack` file is written. A Dafny `char` is a Unicode scalar value, so the model cannot express these strings or that error path.
- The text encoding of the `.tiles.txt` file: `TilesTxt.WriteTilesTxt` gives the string written, not its bytes.
- Sprites.ValidateArgs: `Sprites.IsAlnumChar` accepts only ASCII letters and digits. Python's `str.isalnum` also accepts non-ASCII letters and digits, so names using them are rejected here but accepted by the tool.
- BinaryFile.WriteU32: the `struct.error` raised for a value outside the field's range is not modelled. The writers require every value to fit (`Pack.Encodable`, `Tdef.Encodable`).
- Tdef.RoundTrip: holds only when the name and every property key and string value are free of newlines. The tool does not check this, and a newline inside one of them splits a line of the format.
- TilesTxt.SplitJoin: the same restriction applies to the lines of the text file.
