/**
 * Tile properties (`get_tile_props`): the properties the document gives a
 * sprite, as the (key, value) string pairs both tile-definition files carry.
 */
module Props {
  import opened Results
  import Decimal

  /** A property value of the parsed document. Floats, null and nested values are not modelled. */
  datatype Value = Bool(b: bool) | Int(i: int) | Str(s: string)

  /**
   * The parsed property document: for each sprite name, its properties in the
   * document's key order. None when no document was given.
   */
  type Document = Option<map<string, seq<(string, Value)>>>

  /** `str(value)`, as used for a property that is not a boolean. */
  function Show(v: Value): string
    requires !v.Bool?
  {
    match v
    case Int(i) => Decimal.IntToString(i)
    case Str(s) => s
  }

  /** What one property contributes: a flag with an empty value for `true`, nothing for `false`, else its string. */
  function Kept(p: (string, Value)): seq<(string, string)>
  {
    match p.1
    case Bool(b) => if b then [(p.0, "")] else []
    case _ => [(p.0, Show(p.1))]
  }

  /** The properties of one sprite, filtered and stringified in order. */
  function Filter(ps: seq<(string, Value)>): seq<(string, string)>
  {
    if ps == [] then [] else Kept(ps[0]) + Filter(ps[1..])
  }

  /** The properties `get_tile_props` gives the sprite `spriteName`; none when there is no document or no entry. */
  function TileProps(doc: Document, spriteName: string): seq<(string, string)>
  {
    if doc.None? || spriteName !in doc.value then [] else Filter(doc.value[spriteName])
  }

  /** The value a property is written with: the empty string for `true`. */
  function Text(v: Value): string
  {
    match v
    case Bool(_) => ""
    case _ => Show(v)
  }

  predicate IsFalse(v: Value) { v == Bool(false) }

  /** The indices of the properties that are not `false`. */
  function KeptIndices(ps: seq<(string, Value)>, n: nat): set<nat>
    requires n <= |ps|
  {
    set i: nat | i < n && !IsFalse(ps[i].1)
  }

  lemma {:induction false} FilterAppend(a: seq<(string, Value)>, b: seq<(string, Value)>)
    ensures Filter(a + b) == Filter(a) + Filter(b)
  {
    if a == [] {
      assert a + b == b;
    } else {
      assert (a + b)[0] == a[0] && (a + b)[1..] == a[1..] + b;
      FilterAppend(a[1..], b);
    }
  }

  lemma FilterSnoc(ps: seq<(string, Value)>, n: nat)
    requires n < |ps|
    ensures Filter(ps[..n + 1]) == Filter(ps[..n]) + Kept(ps[n])
  {
    assert ps[..n + 1] == ps[..n] + [ps[n]];
    FilterAppend(ps[..n], [ps[n]]);
    assert [ps[n]][1..] == [];
  }

  lemma KeptIndicesStep(ps: seq<(string, Value)>, n: nat)
    requires 0 < n <= |ps|
    ensures n - 1 !in KeptIndices(ps, n - 1)
    ensures KeptIndices(ps, n) == KeptIndices(ps, n - 1) + (if IsFalse(ps[n - 1].1) then {} else {n - 1})
  {
  }

  /** There is one output pair for each property that is not `false`. */
  lemma {:induction false} FilterLength(ps: seq<(string, Value)>, n: nat)
    requires n <= |ps|
    ensures |Filter(ps[..n])| == |KeptIndices(ps, n)|
  {
    if n == 0 {
      assert ps[..0] == [];
      assert KeptIndices(ps, 0) == {};
    } else {
      FilterLength(ps, n - 1);
      FilterSnoc(ps, n - 1);
      KeptIndicesStep(ps, n);
      assert |Kept(ps[n - 1])| == if IsFalse(ps[n - 1].1) then 0 else 1;
    }
  }

  /** Without `false` values nothing is dropped: pair `i` is key `i` with its value's text, in order. */
  lemma {:induction false} FilterWithoutFalse(ps: seq<(string, Value)>)
    requires forall i :: 0 <= i < |ps| ==> !IsFalse(ps[i].1)
    ensures |Filter(ps)| == |ps|
    ensures forall i :: 0 <= i < |ps| ==> Filter(ps)[i] == (ps[i].0, Text(ps[i].1))
  {
    if ps != [] {
      FilterWithoutFalse(ps[1..]);
    }
  }

  /** For sprite `foo_0`, `{flag: true, skip: false, height: 3}` gives `[(flag, ""), (height, "3")]`. */
  lemma FlagSkipHeight()
    ensures TileProps(Some(map["foo_0" := [("flag", Bool(true)), ("skip", Bool(false)), ("height", Int(3))]]), "foo_0")
         == [("flag", ""), ("height", "3")]
  {
    var ps := [("flag", Bool(true)), ("skip", Bool(false)), ("height", Int(3))];
    assert Decimal.IntToString(3) == "3";
    assert Filter(ps[2..]) == [("height", "3")];
    assert Filter(ps[1..]) == Filter(ps[2..]);
  }

  predicate NoNewline(s: string) { '\n' !in s }

  /** The suffix of the image file name has no newline. */
  lemma PngNoNewline()
    ensures NoNewline(".png")
  {
    var png := ".png";
    assert |png| == 4 && png[0] == '.' && png[1] == 'p' && png[2] == 'n' && png[3] == 'g';
  }

  lemma NoNewlineConcat(a: string, b: string)
    requires NoNewline(a) && NoNewline(b)
    ensures NoNewline(a + b)
  {
  }

  /** Every key and every string value of the document is free of newlines. */
  predicate DocWithoutNewlines(doc: Document)
  {
    doc.Some? ==> forall k, p :: k in doc.value && p in doc.value[k] ==>
      NoNewline(p.0) && (p.1.Str? ==> NoNewline(p.1.s))
  }

  /** `str()` of an integer never contains a newline. */
  lemma ShowWithoutNewline(v: Value)
    requires !v.Bool? && (v.Str? ==> NoNewline(v.s))
    ensures NoNewline(Show(v))
  {
    if v.Int? {
      var s := Show(v);
      assert forall j :: 0 <= j < |s| ==> s[j] != '\n';
    }
  }

  lemma {:induction false} FilterWithoutNewlines(ps: seq<(string, Value)>)
    requires forall p :: p in ps ==> NoNewline(p.0) && (p.1.Str? ==> NoNewline(p.1.s))
    ensures forall j :: 0 <= j < |Filter(ps)| ==> NoNewline(Filter(ps)[j].0) && NoNewline(Filter(ps)[j].1)
  {
    if ps != [] {
      assert ps[0] in ps;
      assert forall p :: p in ps[1..] ==> p in ps;
      FilterWithoutNewlines(ps[1..]);
      if !ps[0].1.Bool? {
        ShowWithoutNewline(ps[0].1);
      }
    }
  }

  lemma TilePropsWithoutNewlines(doc: Document, spriteName: string)
    requires DocWithoutNewlines(doc)
    ensures forall j :: 0 <= j < |TileProps(doc, spriteName)| ==>
      NoNewline(TileProps(doc, spriteName)[j].0) && NoNewline(TileProps(doc, spriteName)[j].1)
  {
    if doc.Some? && spriteName in doc.value {
      FilterWithoutNewlines(doc.value[spriteName]);
    }
  }

  /**
   * `get_tile_props`: walks the sprite's properties in document order,
   * appending a flag for `true`, nothing for `false` and the string form of
   * any other value.
   */
  method GetTileProps(doc: Document, spriteName: string) returns (props: seq<(string, string)>)
    ensures doc.None? || spriteName !in doc.value ==> props == []
    ensures doc.Some? && spriteName in doc.value ==> |props| == |KeptIndices(doc.value[spriteName], |doc.value[spriteName]|)|
    ensures props == TileProps(doc, spriteName)
  {
    if doc.None? || spriteName !in doc.value {
      return [];
    }
    var items := doc.value[spriteName];
    props := [];
    for i := 0 to |items|
      invariant props == Filter(items[..i])
    {
      FilterSnoc(items, i);
      var (key, value) := items[i];
      match value {
        case Bool(b) =>
          if b {
            props := props + [(key, "")];
          }
        case _ =>
          props := props + [(key, Show(value))];
      }
    }
    assert items[..|items|] == items;
    FilterLength(items, |items|);
  }
}
