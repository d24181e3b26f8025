/**
 * facesvg/svg.rb: the XML tree of the output document. `Node` (a name, an
 * attribute hash, an optional text and an ordered list of children, written
 * out recursively) and `Canvas` (the `svg` root element with its attributes,
 * to which titles, descriptions and paths are added as children).
 */
module SvgDocument {
  import opened Wrappers

  // ---------------------------------------------------------------------------
  // Attribute hashes

  /** A Ruby hash of string attributes: its entries in insertion order. */
  type Attrs = seq<(string, string)>

  function Keys(a: Attrs): (ks: seq<string>)
    ensures |ks| == |a| && forall i :: 0 <= i < |a| ==> ks[i] == a[i].0
  {
    seq(|a|, i requires 0 <= i < |a| => a[i].0)
  }

  /** `hash[k]`, nil when `k` is not a key. */
  function Lookup(a: Attrs, k: string): Option<string>
    decreases |a|
  {
    if |a| == 0 then None else if a[0].0 == k then Some(a[0].1) else Lookup(a[1..], k)
  }

  /** The value of a key is the one at its first occurrence. */
  lemma {:induction false} LookupAt(a: Attrs, i: nat, k: string)
    requires i < |a| && a[i].0 == k && forall j :: 0 <= j < i ==> a[j].0 != k
    ensures Lookup(a, k) == Some(a[i].1)
    decreases i
  {
    if i > 0 {
      LookupAt(a[1..], i - 1, k);
    }
  }

  /** `hash[k] = v`: an existing key keeps its place and takes the value; a new key goes last. */
  function Put(a: Attrs, k: string, v: string): Attrs
    decreases |a|
  {
    if |a| == 0 then [(k, v)]
    else if a[0].0 == k then [(k, v)] + a[1..]
    else [a[0]] + Put(a[1..], k, v)
  }

  lemma {:induction false} LookupAbsent(a: Attrs, k: string)
    ensures Lookup(a, k).None? <==> k !in Keys(a)
    decreases |a|
  {
    if |a| > 0 {
      LookupAbsent(a[1..], k);
      assert Keys(a) == [a[0].0] + Keys(a[1..]);
    }
  }

  /** After `[]=`, the key maps to the new value and every other key to what it mapped to before. */
  lemma {:induction false} PutLookup(a: Attrs, k: string, v: string, j: string)
    ensures Lookup(Put(a, k, v), j) == if j == k then Some(v) else Lookup(a, j)
    decreases |a|
  {
    if |a| > 0 && a[0].0 != k {
      PutLookup(a[1..], k, v, j);
      assert Put(a, k, v)[1..] == Put(a[1..], k, v);
    }
  }

  /** After `[]=`, the keys keep their order, and a key not there before is added at the end. */
  lemma {:induction false} PutKeys(a: Attrs, k: string, v: string)
    ensures Keys(Put(a, k, v)) == if k in Keys(a) then Keys(a) else Keys(a) + [k]
    decreases |a|
  {
    if |a| > 0 {
      PutKeys(a[1..], k, v);
      assert Keys(a) == [a[0].0] + Keys(a[1..]);
      if a[0].0 == k {
        assert Keys(Put(a, k, v)) == [k] + Keys(a[1..]);
      } else {
        assert Keys(Put(a, k, v)) == [a[0].0] + Keys(Put(a[1..], k, v));
        assert k in Keys(a) <==> k in Keys(a[1..]);
      }
    }
  }

  /**
   * Assignment through `[]=`: the key then maps to the new value and every other
   * key to what it mapped to before; the keys keep their order, and a key not
   * there before is added at the end.
   */
  lemma PutSemantics(a: Attrs, k: string, v: string)
    ensures Lookup(Put(a, k, v), k) == Some(v)
    ensures forall j :: j != k ==> Lookup(Put(a, k, v), j) == Lookup(a, j)
    ensures Keys(Put(a, k, v)) == if k in Keys(a) then Keys(a) else Keys(a) + [k]
  {
    PutLookup(a, k, v, k);
    forall j | j != k
      ensures Lookup(Put(a, k, v), j) == Lookup(a, j)
    {
      PutLookup(a, k, v, j);
    }
    PutKeys(a, k, v);
  }

  /** A key not yet in the hash is appended. */
  lemma PutNew(a: Attrs, k: string, v: string)
    requires k !in Keys(a)
    ensures Put(a, k, v) == a + [(k, v)]
    decreases |a|
  {
    if |a| > 0 {
      assert Keys(a) == [a[0].0] + Keys(a[1..]);
      PutNew(a[1..], k, v);
      assert [a[0]] + (a[1..] + [(k, v)]) == a + [(k, v)];
    }
  }

  lemma KeysAppend(a: Attrs, b: Attrs)
    ensures Keys(a + b) == Keys(a) + Keys(b)
  {
  }

  /** Looking up in two hashes' entries one after the other finds the first's entry first. */
  lemma {:induction false} LookupAppend(a: Attrs, b: Attrs, k: string)
    ensures Lookup(a + b, k) == if k in Keys(a) then Lookup(a, k) else Lookup(b, k)
    decreases |a|
  {
    if |a| == 0 {
      assert a + b == b;
    } else {
      assert (a + b)[1..] == a[1..] + b;
      assert Keys(a) == [a[0].0] + Keys(a[1..]);
      LookupAppend(a[1..], b, k);
    }
  }

  // ---------------------------------------------------------------------------
  // Elements and their text

  /**
   * The value of a `Node`: a missing attribute hash is `None` (`attrs or {}`
   * leaves `@attrs` nil when no hash is passed), and so is a missing text.
   */
  datatype Element = Element(name: string, attrs: Option<Attrs>, text: Option<string>, children: seq<Element>)

  /** `k='v' ` for each entry, in order. */
  function AttrsText(a: Attrs): string
    decreases |a|
  {
    if |a| == 0 then "" else a[0].0 + "='" + a[0].1 + "' " + AttrsText(a[1..])
  }

  function Concat(ss: seq<string>): string
    decreases |ss|
  {
    if |ss| == 0 then "" else ss[0] + Concat(ss[1..])
  }

  /** Everything `write` puts out before the self-closing decision. */
  function StartTag(e: Element): string {
    "\n<" + e.name + " " + (if e.attrs.Some? then AttrsText(e.attrs.value) else "")
  }

  function EndTag(e: Element): string {
    "\n</" + e.name + ">"
  }

  /** A node with neither children nor text is written self-closed. */
  predicate IsLeaf(e: Element) {
    |e.children| == 0 && e.text.None?
  }

  /** `Node#write`, accumulated into a string instead of written to a file. */
  function Write(e: Element): string
    decreases e, 2
  {
    StartTag(e) + CloseOrContents(e)
  }

  /** What follows the start tag: `/>` for a leaf, else `>`, the text, the children and the closing tag. */
  function CloseOrContents(e: Element): string
    decreases e, 1
  {
    if IsLeaf(e) then "/>" else ">" + e.text.GetOr("") + ChildrenText(e) + EndTag(e)
  }

  /** The written children, in order. */
  function ChildrenText(e: Element): string
    decreases e, 0
  {
    Concat(seq(|e.children|, i requires 0 <= i < |e.children| => Write(e.children[i])))
  }

  /**
   * The self-closing rule: the character right after the start tag is `/`, and
   * the element is `start/>`, exactly when it has no children and no text;
   * otherwise it is `start>`, the text, the children and the closing tag.
   */
  lemma SelfClosing(e: Element)
    ensures var w, s := Write(e), StartTag(e);
      && |w| > |s| && w[..|s|] == s
      && (w[|s|] == '/' <==> IsLeaf(e))
      && (IsLeaf(e) ==> w == s + "/>")
      && (!IsLeaf(e) ==> w == s + ">" + e.text.GetOr("") + ChildrenText(e) + EndTag(e))
  {
    var s, t := StartTag(e), CloseOrContents(e);
    assert Write(e) == s + t;
    assert (s + t)[..|s|] == s;
    assert (s + t)[|s|] == t[0];
    if !IsLeaf(e) {
      assert t == ">" + (e.text.GetOr("") + ChildrenText(e) + EndTag(e));
    }
  }

  lemma {:induction false} ConcatAppend(ss: seq<string>, t: string)
    ensures Concat(ss + [t]) == Concat(ss) + t
    decreases |ss|
  {
    if |ss| == 0 {
      assert [] + [t] == [t];
    } else {
      assert (ss + [t])[1..] == ss[1..] + [t];
      ConcatAppend(ss[1..], t);
    }
  }

  /** A child added last is written after all earlier children, just before the closing tag. */
  lemma ChildAppended(e: Element, c: Element)
    ensures var e' := e.(children := e.children + [c]);
      Write(e') == StartTag(e) + ">" + e.text.GetOr("") + ChildrenText(e) + Write(c) + EndTag(e)
  {
    var e' := e.(children := e.children + [c]);
    var ws := seq(|e.children|, i requires 0 <= i < |e.children| => Write(e.children[i]));
    var ws' := seq(|e'.children|, i requires 0 <= i < |e'.children| => Write(e'.children[i]));
    assert ws' == ws + [Write(c)];
    ConcatAppend(ws, Write(c));
    assert ChildrenText(e') == ChildrenText(e) + Write(c);
    assert StartTag(e') == StartTag(e) && EndTag(e') == EndTag(e);
    assert !IsLeaf(e');
  }

  // ---------------------------------------------------------------------------
  // Nodes

  /** `Node`: the attribute hash and the children list are updated in place. */
  class Node {
    var name: string
    var attrs: Option<Attrs>
    var text: Option<string>
    var children: seq<Element>

    /** `Node.new(name, attrs:, text:)`, with no children. */
    constructor (name: string, attrs: Option<Attrs>, text: Option<string>)
      ensures Value() == Element(name, attrs, text, [])
    {
      this.name := name;
      this.attrs := attrs;
      this.text := text;
      this.children := [];
    }

    function Value(): Element
      reads this
    {
      Element(name, attrs, text, children)
    }

    /**
     * `add_attr`: `@attrs[k] = v`. On a node created without a hash `@attrs` is
     * nil and the call raises; `ok` is false then and nothing changes.
     */
    method AddAttr(k: string, v: string) returns (ok: bool)
      modifies this
      ensures ok <==> old(attrs).Some?
      ensures Value() == old(Value()).(attrs := if ok then Some(Put(old(attrs).value, k, v)) else old(attrs))
    {
      ok := attrs.Some?;
      if ok {
        attrs := Some(Put(attrs.value, k, v));
      }
    }

    /** `add_text`: replaces the text. */
    method AddText(t: Option<string>)
      modifies this
      ensures Value() == old(Value()).(text := t)
    {
      text := t;
    }

    /** `add_child`: appends the child, as it is now, after the existing children. */
    method AddChild(c: Node)
      modifies this
      ensures Value() == old(Value()).(children := old(children) + [old(c.Value())])
    {
      children := children + [c.Value()];
    }
  }

  // ---------------------------------------------------------------------------
  // The canvas

  /** The comment `Canvas#write` puts before the root element. */
  const HEADER := "<!-- ARC is A xrad yrad xrotation-degrees largearc sweep end_x end_y -->\n"

  /** `BKGBOX` and `VIEWBOX`: `new` and the four viewport numbers. */
  function BoxText(minx: real, miny: real, maxx: real, maxy: real, fmt: real -> string): string {
    "new " + fmt(minx) + " " + fmt(miny) + " " + fmt(maxx) + " " + fmt(maxy)
  }

  /** The attributes of the `svg` root, in order, with `y` written from the minimum y. */
  function RootAttrs(minx: real, miny: real, maxx: real, maxy: real, unit: string, version: string, fmt: real -> string): Attrs {
    [ ("enable-background", BoxText(minx, miny, maxx, maxy, fmt)),
      ("height", fmt(maxy - miny) + unit),
      ("width", fmt(maxx - minx) + unit),
      ("version", "1.1"),
      ("viewBox", BoxText(minx, miny, maxx, maxy, fmt)),
      ("x", fmt(minx) + unit),
      ("y", fmt(miny) + unit),
      ("xmlns", "http://www.w3.org/2000/svg"),
      ("xmlns:xlink", "http://www.w3.org/1999/xlink"),
      ("xmlns:shaper", "http://www.shapertools.com/namespaces/shaper"),
      ("shaper:sketchupaddin", version) ]
  }

  /** The root attributes as line 177 writes them: `y` from the minimum x. */
  function RootAttrsAsWritten(minx: real, miny: real, maxx: real, maxy: real, unit: string, version: string, fmt: real -> string): Attrs {
    RootAttrs(minx, miny, maxx, maxy, unit, version, fmt)[6 := ("y", fmt(minx) + unit)]
  }

  /** The root's keys, in the order they are written. */
  lemma RootAttrsKeys(minx: real, miny: real, maxx: real, maxy: real, unit: string, version: string, fmt: real -> string)
    ensures Keys(RootAttrs(minx, miny, maxx, maxy, unit, version, fmt))
         == ["enable-background", "height", "width", "version", "viewBox", "x", "y",
             "xmlns", "xmlns:xlink", "xmlns:shaper", "shaper:sketchupaddin"]
  {
  }

  /** The root's size is the viewport's extent, in the unit, and its origin is the viewport's minimum corner. */
  lemma RootAttrsValues(minx: real, miny: real, maxx: real, maxy: real, unit: string, version: string, fmt: real -> string)
    ensures var a := RootAttrs(minx, miny, maxx, maxy, unit, version, fmt);
      && Lookup(a, "height") == Some(fmt(maxy - miny) + unit)
      && Lookup(a, "width") == Some(fmt(maxx - minx) + unit)
      && Lookup(a, "x") == Some(fmt(minx) + unit)
      && Lookup(a, "y") == Some(fmt(miny) + unit)
  {
    var a := RootAttrs(minx, miny, maxx, maxy, unit, version, fmt);
    LookupAt(a, 1, "height");
    LookupAt(a, 2, "width");
    LookupAt(a, 5, "x");
    LookupAt(a, 6, "y");
  }

  lemma SuffixCancels(x: string, y: string, u: string)
    ensures x + u == y + u ==> x == y
  {
    if x + u == y + u {
      assert |x| == |y|;
      assert x == (x + u)[..|x|] == (y + u)[..|y|] == y;
    }
  }

  /**
   * As written, the root's `y` is the minimum x: whenever the two render
   * differently (a viewport [0, 5, 10, 15], say) the origin written is wrong.
   */
  lemma RootYAsWritten(minx: real, miny: real, maxx: real, maxy: real, unit: string, version: string, fmt: real -> string)
    requires fmt(minx) != fmt(miny)
    ensures Lookup(RootAttrsAsWritten(minx, miny, maxx, maxy, unit, version, fmt), "y") == Some(fmt(minx) + unit)
    ensures Lookup(RootAttrsAsWritten(minx, miny, maxx, maxy, unit, version, fmt), "y") != Some(fmt(miny) + unit)
  {
    var a := RootAttrsAsWritten(minx, miny, maxx, maxy, unit, version, fmt);
    LookupAt(a, 6, "y");
    SuffixCancels(fmt(minx), fmt(miny), unit);
  }

  /** Defaults of `Canvas#path`. */
  const DEFAULT_PATH_TYPE := "exterior"
  const DEFAULT_VECTOR_EFFECT := "non-scaling-stroke"
  const DEFAULT_CUT_DEPTH := "0.0125"

  /** The entry for `k` when a value is given, none otherwise. */
  function Optional(k: string, v: Option<string>): Attrs {
    if v.Some? then [(k, v.value)] else []
  }

  /** The four attributes `Canvas#path` always sets. */
  function FixedPathAttrs(data: string, pathType: string, vectorEffect: string, cutDepth: string): Attrs {
    [("d", data), ("vector-effect", vectorEffect), ("shaper:cutDepth", cutDepth), ("shaper:pathType", pathType)]
  }

  /** The four attributes `Canvas#path` always sets, then those of fill, stroke and stroke width that are given. */
  function PathAttrs(data: string, fill: Option<string>, stroke: Option<string>, strokeWidth: Option<string>,
                     pathType: string, vectorEffect: string, cutDepth: string): Attrs
  {
    FixedPathAttrs(data, pathType, vectorEffect, cutDepth)
      + Optional("fill", fill) + Optional("stroke", stroke) + Optional("stroke-width", strokeWidth)
  }

  /** The `path` element: the attributes, no text and no children. */
  function PathElement(data: string, fill: Option<string>, stroke: Option<string>, strokeWidth: Option<string>,
                       pathType: string, vectorEffect: string, cutDepth: string): Element
  {
    Element("path", Some(PathAttrs(data, fill, stroke, strokeWidth, pathType, vectorEffect, cutDepth)), None, [])
  }

  /**
   * A path always carries `d`, `vector-effect`, `shaper:cutDepth` and
   * `shaper:pathType`, and carries each of `fill`, `stroke` and `stroke-width`
   * exactly when it is given; it is written self-closed.
   */
  lemma PathFixedAttrs(data: string, fill: Option<string>, stroke: Option<string>, strokeWidth: Option<string>,
                       pathType: string, vectorEffect: string, cutDepth: string)
    ensures var a := PathAttrs(data, fill, stroke, strokeWidth, pathType, vectorEffect, cutDepth);
      && Keys(a)[..4] == ["d", "vector-effect", "shaper:cutDepth", "shaper:pathType"]
      && Lookup(a, "d") == Some(data)
      && Lookup(a, "vector-effect") == Some(vectorEffect)
      && Lookup(a, "shaper:cutDepth") == Some(cutDepth)
      && Lookup(a, "shaper:pathType") == Some(pathType)
  {
    var a := PathAttrs(data, fill, stroke, strokeWidth, pathType, vectorEffect, cutDepth);
    LookupAt(a, 0, "d");
    LookupAt(a, 1, "vector-effect");
    LookupAt(a, 2, "shaper:cutDepth");
    LookupAt(a, 3, "shaper:pathType");
  }

  lemma OptionalLookup(k: string, v: Option<string>, j: string)
    ensures Lookup(Optional(k, v), j) == if j == k then v else None
    ensures j in Keys(Optional(k, v)) <==> j == k && v.Some?
  {
  }

  /** Each of `fill`, `stroke` and `stroke-width` is carried exactly when it is given, with the value given. */
  lemma PathOptionalAttrs(data: string, fill: Option<string>, stroke: Option<string>, strokeWidth: Option<string>,
                          pathType: string, vectorEffect: string, cutDepth: string)
    ensures var a := PathAttrs(data, fill, stroke, strokeWidth, pathType, vectorEffect, cutDepth);
      && Lookup(a, "fill") == fill
      && Lookup(a, "stroke") == stroke
      && Lookup(a, "stroke-width") == strokeWidth
  {
    var base := FixedPathAttrs(data, pathType, vectorEffect, cutDepth);
    assert Keys(base) == ["d", "vector-effect", "shaper:cutDepth", "shaper:pathType"];
    LookupOptionals(base, "fill", fill, "stroke", stroke, "stroke-width", strokeWidth, "fill");
    LookupOptionals(base, "fill", fill, "stroke", stroke, "stroke-width", strokeWidth, "stroke");
    LookupOptionals(base, "fill", fill, "stroke", stroke, "stroke-width", strokeWidth, "stroke-width");
  }

  /** Looking up past a hash's own entries, in up to three optional entries appended to it. */
  lemma LookupOptionals(base: Attrs, k1: string, v1: Option<string>, k2: string, v2: Option<string>,
                        k3: string, v3: Option<string>, k: string)
    requires k !in Keys(base)
    ensures Lookup(base + Optional(k1, v1) + Optional(k2, v2) + Optional(k3, v3), k)
         == if k == k1 && v1.Some? then v1 else if k == k2 && v2.Some? then v2 else if k == k3 && v3.Some? then v3 else None
  {
    var f, s, w := Optional(k1, v1), Optional(k2, v2), Optional(k3, v3);
    assert base + f + s + w == base + (f + (s + w));
    LookupAppend(base, f + (s + w), k);
    LookupAppend(f, s + w, k);
    LookupAppend(s, w, k);
    OptionalLookup(k1, v1, k);
    OptionalLookup(k2, v2, k);
    OptionalLookup(k3, v3, k);
  }

  /** A path element is written self-closed. */
  lemma PathSelfClosed(data: string, fill: Option<string>, stroke: Option<string>, strokeWidth: Option<string>,
                       pathType: string, vectorEffect: string, cutDepth: string)
    ensures var e := PathElement(data, fill, stroke, strokeWidth, pathType, vectorEffect, cutDepth);
      Write(e) == StartTag(e) + "/>"
  {
    SelfClosing(PathElement(data, fill, stroke, strokeWidth, pathType, vectorEffect, cutDepth));
  }

  /** `p.add_attr(k, v) if v`, on a path node whose hash does not hold `k` yet. */
  method AddOptional(p: Node, k: string, v: Option<string>)
    requires p.attrs.Some? && k !in Keys(p.attrs.value)
    modifies p
    ensures p.Value() == old(p.Value()).(attrs := Some(old(p.attrs.value) + Optional(k, v)))
  {
    if v.Some? {
      PutNew(p.attrs.value, k, v.value);
      var ok := p.AddAttr(k, v.value);
    } else {
      assert p.attrs.value + [] == p.attrs.value;
    }
  }

  /** `Canvas`: the document's `svg` root element and the viewport it was built from. */
  class Canvas {
    const filename: string
    const minx: real
    const miny: real
    const maxx: real
    const maxy: real
    const width: real
    const height: real
    const unit: string
    const root: Node

    /** `Canvas.new(fname, viewport, unit, version)`: the root with its attributes and no children. */
    constructor (fname: string, viewport: (real, real, real, real), unit: string, version: string, fmt: real -> string)
      ensures filename == fname && this.unit == unit
      ensures width == maxx - minx && height == maxy - miny
      ensures (minx, miny, maxx, maxy) == viewport
      ensures fresh(root)
      ensures root.Value() == Element("svg", Some(RootAttrs(minx, miny, maxx, maxy, unit, version, fmt)), None, [])
    {
      filename := fname;
      minx, miny, maxx, maxy := viewport.0, viewport.1, viewport.2, viewport.3;
      width := viewport.2 - viewport.0;
      height := viewport.3 - viewport.1;
      this.unit := unit;
      root := new Node("svg", Some(RootAttrs(viewport.0, viewport.1, viewport.2, viewport.3, unit, version, fmt)), None);
    }

    /** `title`: a `title` child holding the text. */
    method Title(text: string)
      modifies root
      ensures root.Value() == old(root.Value()).(children := old(root.children) + [Element("title", None, Some(text), [])])
    {
      var n := new Node("title", None, Some(text));
      root.AddChild(n);
    }

    /** `desc`: a `desc` child holding the text. */
    method Desc(text: string)
      modifies root
      ensures root.Value() == old(root.Value()).(children := old(root.children) + [Element("desc", None, Some(text), [])])
    {
      var n := new Node("desc", None, Some(text));
      root.AddChild(n);
    }

    /**
     * `path`: a `path` child with the four fixed attributes, then `fill`,
     * `stroke` and `stroke-width` added through `add_attr` when given.
     */
    method Path(data: string, fill: Option<string>, stroke: Option<string>, strokeWidth: Option<string>,
                pathType: string, vectorEffect: string, cutDepth: string)
      modifies root
      ensures root.Value() == old(root.Value()).(children := old(root.children)
                + [PathElement(data, fill, stroke, strokeWidth, pathType, vectorEffect, cutDepth)])
    {
      var base := FixedPathAttrs(data, pathType, vectorEffect, cutDepth);
      var p := new Node("path", Some(base), None);
      AddOptional(p, "fill", fill);
      AddOptional(p, "stroke", stroke);
      AddOptional(p, "stroke-width", strokeWidth);
      assert p.Value() == PathElement(data, fill, stroke, strokeWidth, pathType, vectorEffect, cutDepth);
      root.AddChild(p);
    }

    /** `path` with its keyword defaults: an exterior cut, a non-scaling stroke and the default cut depth. */
    method DefaultPath(data: string, fill: Option<string>, stroke: Option<string>, strokeWidth: Option<string>)
      modifies root
      ensures root.Value() == old(root.Value()).(children := old(root.children)
                + [PathElement(data, fill, stroke, strokeWidth, DEFAULT_PATH_TYPE, DEFAULT_VECTOR_EFFECT, DEFAULT_CUT_DEPTH)])
    {
      Path(data, fill, stroke, strokeWidth, DEFAULT_PATH_TYPE, DEFAULT_VECTOR_EFFECT, DEFAULT_CUT_DEPTH);
    }

    /** `Canvas#write`, accumulated into a string: the header comment, then the root. */
    function Document(): string
      reads root
    {
      HEADER + Write(root.Value())
    }
  }

  /** A path added with the keyword defaults is an exterior cut of depth 0.0125 with a non-scaling stroke. */
  lemma DefaultPathAttrs(data: string, fill: Option<string>, stroke: Option<string>, strokeWidth: Option<string>)
    ensures var a := PathAttrs(data, fill, stroke, strokeWidth, DEFAULT_PATH_TYPE, DEFAULT_VECTOR_EFFECT, DEFAULT_CUT_DEPTH);
      && Lookup(a, "shaper:pathType") == Some("exterior")
      && Lookup(a, "vector-effect") == Some("non-scaling-stroke")
      && Lookup(a, "shaper:cutDepth") == Some("0.0125")
  {
    PathFixedAttrs(data, fill, stroke, strokeWidth, DEFAULT_PATH_TYPE, DEFAULT_VECTOR_EFFECT, DEFAULT_CUT_DEPTH);
  }

  /**
   * After a path has been added to the root, the root is written with the
   * path's element, self-closed, last among its children.
   */
  lemma RootWithPath(root: Element, data: string, fill: Option<string>, stroke: Option<string>, strokeWidth: Option<string>,
                     pathType: string, vectorEffect: string, cutDepth: string)
    ensures var p := PathElement(data, fill, stroke, strokeWidth, pathType, vectorEffect, cutDepth);
      Write(root.(children := root.children + [p]))
        == StartTag(root) + ">" + root.text.GetOr("") + ChildrenText(root) + StartTag(p) + "/>" + EndTag(root)
  {
    var p := PathElement(data, fill, stroke, strokeWidth, pathType, vectorEffect, cutDepth);
    var before := StartTag(root) + ">" + root.text.GetOr("") + ChildrenText(root);
    ChildAppended(root, p);
    assert Write(root.(children := root.children + [p])) == before + Write(p) + EndTag(root);
    PathSelfClosed(data, fill, stroke, strokeWidth, pathType, vectorEffect, cutDepth);
    assert before + Write(p) + EndTag(root) == before + StartTag(p) + "/>" + EndTag(root);
  }
}
