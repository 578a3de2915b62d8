/**
 * The grid layout of `build_atlas`: sprites are placed row-major,
 * left to right and top to bottom, on a grid of `cols` columns.
 * Compositing the pixels is not modelled.
 */
module Layout {
  import opened Sprites

  /** One placement: where sprite `index` lies in the atlas, in grid cells and in pixels. */
  datatype Entry = Entry(index: nat, col: nat, row: nat, x: nat, y: nat, w: nat, h: nat, source: string)

  /** The side length above which the game may fail to load an atlas. */
  const MaxAtlasSide := 2048

  /** `(count + cols - 1) // cols`: the fewest rows of `cols` cells that hold `count` sprites. */
  function Rows(count: nat, cols: nat): (rows: nat)
    requires cols >= 1
    ensures rows * cols >= count
    ensures rows > 0 ==> (rows - 1) * cols < count
    ensures count > 0 <==> rows > 0
  {
    var rows := (count + cols - 1) / cols;
    assert count + cols - 1 == rows * cols + (count + cols - 1) % cols;
    rows
  }

  /** `e` is the placement `build_atlas` makes for the `i`-th sprite. */
  predicate IsPlacement(e: Entry, i: nat, cols: nat, w: nat, h: nat, source: string)
    requires cols >= 1
  {
    e.index == i && e.col == i % cols && e.row == i / cols &&
    e.x == e.col * w && e.y == e.row * h && e.w == w && e.h == h && e.source == source
  }

  /** `entries` is the placement table of `sprites`, one entry per sprite, in order. */
  predicate IsLayout(entries: seq<Entry>, sprites: seq<Sprite>, cols: nat, w: nat, h: nat)
    requires cols >= 1
  {
    |entries| == |sprites| &&
    forall i :: 0 <= i < |entries| ==> IsPlacement(entries[i], i, cols, w, h, sprites[i].name)
  }

  /**
   * `build_atlas` without the pixels: the placement table, the row count and
   * whether the size warning is printed. The warning changes nothing else.
   */
  method BuildAtlas(sprites: seq<Sprite>, spriteW: nat, spriteH: nat, cols: nat)
    returns (entries: seq<Entry>, rows: nat, oversized: bool)
    requires cols >= 1
    ensures rows == Rows(|sprites|, cols)
    ensures oversized <==> cols * spriteW > MaxAtlasSide || rows * spriteH > MaxAtlasSide
    ensures IsLayout(entries, sprites, cols, spriteW, spriteH)
  {
    var count := |sprites|;
    rows := (count + cols - 1) / cols;
    var atlasW := cols * spriteW;
    var atlasH := rows * spriteH;
    oversized := atlasW > MaxAtlasSide || atlasH > MaxAtlasSide;
    entries := [];
    var i := 0;
    while i < count
      invariant 0 <= i <= count
      invariant IsLayout(entries, sprites[..i], cols, spriteW, spriteH)
    {
      var col := i % cols;
      var row := i / cols;
      var x := col * spriteW;
      var y := row * spriteH;
      entries := entries + [Entry(i, col, row, x, y, spriteW, spriteH, sprites[i].name)];
      i := i + 1;
    }
    assert sprites[..count] == sprites;
  }

  lemma MulMonotone(a: nat, b: nat, w: nat)
    requires a <= b
    ensures a * w <= b * w
  {
  }

  /** Every placement lies on the grid and inside the `(cols*w) x (rows*h)` atlas, at cell `row*cols + col`. */
  lemma PlacementInAtlas(entries: seq<Entry>, sprites: seq<Sprite>, cols: nat, w: nat, h: nat, i: int)
    requires cols >= 1 && IsLayout(entries, sprites, cols, w, h) && 0 <= i < |entries|
    ensures entries[i].col < cols && entries[i].row < Rows(|sprites|, cols)
    ensures entries[i].index == entries[i].row * cols + entries[i].col
    ensures entries[i].x + entries[i].w <= cols * w
    ensures entries[i].y + entries[i].h <= Rows(|sprites|, cols) * h
  {
    var e := entries[i];
    var rows := Rows(|sprites|, cols);
    assert e.index == e.row * cols + e.col;
    if e.row >= rows {
      MulMonotone(rows, e.row, cols);
      assert false;
    }
    MulMonotone(e.col + 1, cols, w);
    MulMonotone(e.row + 1, rows, h);
  }

  /** Two different sprites never share a grid cell. */
  lemma PlacementsDistinct(entries: seq<Entry>, sprites: seq<Sprite>, cols: nat, w: nat, h: nat, i: int, j: int)
    requires cols >= 1 && IsLayout(entries, sprites, cols, w, h)
    requires 0 <= i < |entries| && 0 <= j < |entries| && i != j
    ensures entries[i].col != entries[j].col || entries[i].row != entries[j].row
  {
    PlacementInAtlas(entries, sprites, cols, w, h, i);
    PlacementInAtlas(entries, sprites, cols, w, h, j);
  }
}
