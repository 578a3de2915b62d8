/**
 * Sprite batch validation (`load_sprites`) and command-line argument
 * validation (`validate_args`). Each fatal `sys.exit(1)` of the tool is an
 * `Err` value here.
 */
module Sprites {
  import opened Results

  /** A decoded sprite: its name (the file stem) and its pixel size. Pixels are not modelled. */
  datatype Sprite = Sprite(name: string, width: nat, height: nat)

  /** A validated batch: the sprites and the size they all share. */
  datatype Batch = Batch(sprites: seq<Sprite>, width: nat, height: nat)

  datatype LoadError =
    | NoSprites
      /** `name` is `width`x`height` where `expectedWidth`x`expectedHeight`, the size of `firstName`, was expected. */
    | SizeMismatch(name: string, width: nat, height: nat, expectedWidth: nat, expectedHeight: nat, firstName: string)

  predicate HasSize(s: Sprite, w: nat, h: nat) { s.width == w && s.height == h }

  predicate Uniform(sprites: seq<Sprite>, w: nat, h: nat)
  {
    forall i :: 0 <= i < |sprites| ==> HasSize(sprites[i], w, h)
  }

  /** `k` is the first sprite after the first whose size differs from the first sprite's. */
  predicate FirstMismatch(sprites: seq<Sprite>, k: int)
  {
    0 < k < |sprites| && !HasSize(sprites[k], sprites[0].width, sprites[0].height) &&
    forall j :: 0 < j < k ==> HasSize(sprites[j], sprites[0].width, sprites[0].height)
  }

  function MismatchError(sprites: seq<Sprite>, k: int): LoadError
    requires 0 < k < |sprites|
  {
    SizeMismatch(sprites[k].name, sprites[k].width, sprites[k].height,
                 sprites[0].width, sprites[0].height, sprites[0].name)
  }

  /**
   * The size check of `load_sprites` over the sprites in load order: an empty
   * batch fails, the first sprite whose size differs from the first one's fails,
   * and otherwise the batch and its common size are returned.
   */
  method LoadSprites(sprites: seq<Sprite>) returns (r: Result<Batch, LoadError>)
    ensures sprites == [] <==> r == Err(NoSprites)
    ensures r.Ok? <==> sprites != [] && Uniform(sprites, sprites[0].width, sprites[0].height)
    ensures r.Ok? ==> r.value == Batch(sprites, sprites[0].width, sprites[0].height)
    ensures r.Ok? ==> Uniform(r.value.sprites, r.value.width, r.value.height)
    ensures r.Err? && sprites != [] ==>
      exists k :: FirstMismatch(sprites, k) && r.error == MismatchError(sprites, k)
  {
    if sprites == [] {
      return Err(NoSprites);
    }
    var w, h := sprites[0].width, sprites[0].height;
    var i := 1;
    while i < |sprites|
      invariant 1 <= i <= |sprites|
      invariant forall j :: 0 < j < i ==> HasSize(sprites[j], w, h)
    {
      if sprites[i].width != w || sprites[i].height != h {
        assert FirstMismatch(sprites, i);
        return Err(MismatchError(sprites, i));
      }
      i := i + 1;
    }
    return Ok(Batch(sprites, w, h));
  }

  /** The lowest and highest tileset ids `validate_args` accepts. */
  const MinTilesetId := 100
  const MaxTilesetId := 8190

  datatype ConfigError = BadName | BadTilesetId | BadColumns

  /** What `str.isalnum` accepts character by character; only ASCII letters and digits are modelled. */
  predicate IsAlnumChar(c: char)
  {
    'a' <= c <= 'z' || 'A' <= c <= 'Z' || '0' <= c <= '9'
  }

  /** `str.isalnum()`: true only for a non-empty string of alphanumeric characters. */
  predicate IsAlnum(s: string)
  {
    |s| > 0 && forall i :: 0 <= i < |s| ==> IsAlnumChar(s[i])
  }

  /** `s.replace("_", "")`. */
  function RemoveUnderscores(s: string): (r: string)
    ensures |r| <= |s|
  {
    if s == [] then []
    else if s[0] == '_' then RemoveUnderscores(s[1..])
    else [s[0]] + RemoveUnderscores(s[1..])
  }

  /** A tileset name: letters, digits and underscores, and not underscores only. */
  predicate ValidName(name: string)
  {
    (exists i :: 0 <= i < |name| && name[i] != '_') &&
    forall i :: 0 <= i < |name| ==> name[i] == '_' || IsAlnumChar(name[i])
  }

  lemma {:induction false} RemoveUnderscoresChars(s: string)
    ensures forall c :: c in RemoveUnderscores(s) <==> c in s && c != '_'
  {
    if s != [] {
      RemoveUnderscoresChars(s[1..]);
      assert s == [s[0]] + s[1..];
    }
  }

  /** The check `name.replace("_", "").isalnum()` accepts exactly the valid names. */
  lemma NameCheck(name: string)
    ensures IsAlnum(RemoveUnderscores(name)) <==> ValidName(name)
  {
    var r := RemoveUnderscores(name);
    RemoveUnderscoresChars(name);
    if ValidName(name) {
      var i :| 0 <= i < |name| && name[i] != '_';
      assert name[i] in r;
      forall j | 0 <= j < |r| ensures IsAlnumChar(r[j]) {
        assert r[j] in name;
      }
    }
    if IsAlnum(r) {
      assert r[0] in name;
      forall i | 0 <= i < |name| ensures name[i] == '_' || IsAlnumChar(name[i]) {
        if name[i] != '_' {
          assert name[i] in r;
        }
      }
    }
  }

  /**
   * `validate_args`: the name is checked first, then the tileset id, then the
   * column count; the first failing check decides the error.
   */
  function ValidateArgs(name: string, tilesetId: int, cols: int): (r: Result<(), ConfigError>)
    ensures r.Ok? <==> ValidName(name) && MinTilesetId <= tilesetId <= MaxTilesetId && cols >= 1
    ensures r == Err(BadName) <==> !ValidName(name)
    ensures r == Err(BadTilesetId) <==> ValidName(name) && !(MinTilesetId <= tilesetId <= MaxTilesetId)
    ensures r == Err(BadColumns) <==> ValidName(name) && MinTilesetId <= tilesetId <= MaxTilesetId && cols < 1
  {
    NameCheck(name);
    if !IsAlnum(RemoveUnderscores(name)) then Err(BadName)
    else if tilesetId < MinTilesetId || tilesetId > MaxTilesetId then Err(BadTilesetId)
    else if cols < 1 then Err(BadColumns)
    else Ok(())
  }
}
