/**
 * facesvg/layout.rb: `ProfileCollection`, which lays the captured face groups
 * out left to right in rows on the working plane and turns them into SVG
 * canvases. The bounds of each group (`Bounds2d`) enter as given boxes.
 */
module FaceLayout {
  import opened Wrappers
  import opened Geometry
  import opened Packing
  import SvgDocument

  /** The state of `ProfileCollection` that the layout updates, with the two configuration values it reads. */
  class ProfileCollection {
    const title: string
    /** `CFG.layout_spacing`. */
    const spacing: real
    /** `CFG.layout_width`. */
    const layoutWidth: real
    var layoutx: real
    var layouty: real
    var rowheight: real

    function Position(): Cursor
      reads this
    {
      Cursor(layoutx, layouty, rowheight)
    }

    /** `ProfileCollection.new(title)`: runs `reset`. */
    constructor (title: string, spacing: real, layoutWidth: real)
      ensures this.title == title && this.spacing == spacing && this.layoutWidth == layoutWidth
      ensures Position() == Cursor(spacing, spacing, 0.0)
    {
      this.title := title;
      this.spacing := spacing;
      this.layoutWidth := layoutWidth;
      layoutx, layouty, rowheight := spacing, spacing, 0.0;
    }

    /** `reset`: the cursor back at (spacing, spacing) with an empty row. */
    method Reset()
      modifies this
      ensures Position() == Cursor(spacing, spacing, 0.0)
    {
      layoutx, layouty, rowheight := spacing, spacing, 0.0;
    }

    /**
     * One iteration of the block in `layout_facegrps`: the translation given to
     * the group, then the cursor update.
     */
    method PlaceGroup(b: Box) returns (offset: Vec)
      modifies this
      ensures offset == Offset(old(Position()), b)
      ensures Position() == Advance(old(Position()), b, spacing, layoutWidth)
    {
      offset := Vec(layoutx - b.minx, layouty - b.miny);
      layoutx := layoutx + spacing + b.maxx - b.minx;
      rowheight := Max(rowheight, b.maxy - b.miny);
      if layoutx > layoutWidth {
        layoutx := 0.0 + spacing;
        layouty := layouty + rowheight + spacing;
        rowheight := 0.0;
      }
    }

    /**
     * `layout_facegrps`: each group in turn is translated onto the cursor and
     * the cursor advanced; the translations are returned in order.
     */
    method LayoutFacegrps(groups: seq<Box>) returns (offsets: seq<Vec>)
      modifies this
      ensures offsets == Offsets(old(Position()), groups, spacing, layoutWidth)
      ensures Position() == Run(old(Position()), groups, spacing, layoutWidth)
    {
      ghost var start := Position();
      offsets := [];
      var k := 0;
      while k < |groups|
        invariant k <= |groups|
        invariant offsets + Offsets(Position(), groups[k..], spacing, layoutWidth) == Offsets(start, groups, spacing, layoutWidth)
        invariant Run(Position(), groups[k..], spacing, layoutWidth) == Run(start, groups, spacing, layoutWidth)
      {
        ghost var before := Position();
        assert groups[k..][1..] == groups[k + 1..];
        var offset := PlaceGroup(groups[k]);
        assert Offsets(before, groups[k..], spacing, layoutWidth)
            == [offset] + Offsets(Position(), groups[k + 1..], spacing, layoutWidth);
        offsets := offsets + [offset];
        k := k + 1;
      }
    }
  }

  /**
   * The layout of a fresh collection. Each group's min corner lands on the
   * cursor; the first goes to (spacing, spacing); and with non-negative spacing
   * the placed groups do not overlap and the rows only move down.
   */
  lemma FreshLayout(spacing: real, layoutWidth: real, groups: seq<Box>)
    requires spacing >= 0.0
    requires forall b :: b in groups ==> WellFormed(b)
    ensures var start := Cursor(spacing, spacing, 0.0);
      var placed := Placements(start, groups, spacing, layoutWidth);
      && (|groups| > 0 ==> placed[0].minx == spacing && placed[0].miny == spacing)
      && (forall i, j :: 0 <= i < j < |placed| ==> !Overlap(placed[i], placed[j]))
      && (forall i, j :: 0 <= i < j < |placed| ==> placed[i].miny <= placed[j].miny)
      && Run(start, groups, spacing, layoutWidth).y >= spacing
  {
    var start := Cursor(spacing, spacing, 0.0);
    if |groups| > 0 {
      PlacementsUnfold(start, groups, spacing, layoutWidth);
      OffsetLandsOnCursor(start, groups[0]);
    }
    PlacementsDoNotOverlap(start, groups, spacing, layoutWidth);
    PlacementsMoveDown(start, groups, spacing, layoutWidth);
  }

  /** The viewport `makesvg` gives the canvas: the origin and the extent of the groups' bounds. */
  function Viewport(bounds: Box): (v: (real, real, real, real))
    ensures v.0 == 0.0 && v.1 == 0.0
    ensures v.2 == Width(bounds) && v.3 == Height(bounds)
  {
    (0.0, 0.0, bounds.maxx - bounds.minx, bounds.maxy - bounds.miny)
  }

  /**
   * `makesvg`, up to the paths: a canvas over the viewport of the groups' bounds,
   * titled and described after the collection. The file name, the rendered
   * index, the unit and the version are given, as is the numeral format.
   */
  method MakeSvg(pc: ProfileCollection, fname: string, index: string, bounds: Box, unit: string, version: string,
                 fmt: real -> string) returns (svg: SvgDocument.Canvas)
    ensures fresh(svg) && fresh(svg.root)
    ensures svg.filename == fname
    ensures svg.minx == 0.0 && svg.miny == 0.0 && svg.width == Width(bounds) && svg.height == Height(bounds)
    ensures svg.root.Value() == SvgDocument.Element("svg",
              Some(SvgDocument.RootAttrs(0.0, 0.0, Width(bounds), Height(bounds), unit, version, fmt)), None,
              [ SvgDocument.Element("title", None, Some(pc.title + " cut profile " + index), []),
                SvgDocument.Element("desc", None, Some("Shaper cut profile from Sketchup model " + pc.title), []) ])
  {
    svg := new SvgDocument.Canvas(fname, Viewport(bounds), unit, version, fmt);
    svg.Title(pc.title + " cut profile " + index);
    svg.Desc("Shaper cut profile from Sketchup model " + pc.title);
  }

  /**
   * With the viewport `makesvg` passes, the minimum x and the minimum y are
   * both 0, so the root's `y`, written from the minimum x, is still right.
   */
  lemma MakeSvgOrigin(bounds: Box, unit: string, version: string, fmt: real -> string)
    ensures var v := Viewport(bounds);
      SvgDocument.RootAttrsAsWritten(v.0, v.1, v.2, v.3, unit, version, fmt)
        == SvgDocument.RootAttrs(v.0, v.1, v.2, v.3, unit, version, fmt)
  {
    var v := Viewport(bounds);
    var a := SvgDocument.RootAttrs(v.0, v.1, v.2, v.3, unit, version, fmt);
    assert a[6 := ("y", fmt(v.0) + unit)] == a;
  }
}
