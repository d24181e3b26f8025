/**
 * The greedy shelf-packing cursor that both layout versions advance once per
 * face group: facesvg/layout.rb (`layout_facegrps`) and shapersvg/layout.rb
 * (`layout_facegrp`) run the same arithmetic on `@layoutx`, `@layouty` and
 * `@rowheight`; they differ in the starting cursor and in the viewport the
 * older one also tracks.
 */
module Packing {
  import opened Geometry

  /** The bounds of a face group on the working plane. */
  datatype Box = Box(minx: real, miny: real, maxx: real, maxy: real)

  predicate WellFormed(b: Box) {
    b.minx <= b.maxx && b.miny <= b.maxy
  }

  function Width(b: Box): real {
    b.maxx - b.minx
  }

  function Height(b: Box): real {
    b.maxy - b.miny
  }

  /** `b` moved by `d`. */
  function Translate(b: Box, d: Vec): Box {
    Box(b.minx + d.x, b.miny + d.y, b.maxx + d.x, b.maxy + d.y)
  }

  /** Two boxes whose interiors meet. */
  predicate Overlap(a: Box, b: Box) {
    a.minx < b.maxx && b.minx < a.maxx && a.miny < b.maxy && b.miny < a.maxy
  }

  /** The layout cursor `@layoutx`, `@layouty` and the running `@rowheight`. */
  datatype Cursor = Cursor(x: real, y: real, rowHeight: real)

  /** Ruby's `[a, b].max`. */
  function Max(a: real, b: real): (m: real)
    ensures m >= a && m >= b && (m == a || m == b)
  {
    if a >= b then a else b
  }

  /** The translation `[@layoutx - minx, @layouty - miny]` applied to a group. */
  function Offset(c: Cursor, b: Box): Vec {
    Vec(c.x - b.minx, c.y - b.miny)
  }

  /**
   * The cursor after placing `b`: x grows by spacing plus the width, the row
   * height becomes the larger of itself and the box height, and when x then
   * lies strictly beyond `rowWidth` the cursor wraps to a new row.
   */
  function Advance(c: Cursor, b: Box, spacing: real, rowWidth: real): Cursor {
    var x := c.x + spacing + Width(b);
    var rowHeight := Max(c.rowHeight, Height(b));
    if x > rowWidth then Cursor(spacing, c.y + rowHeight + spacing, 0.0)
    else Cursor(x, c.y, rowHeight)
  }

  /** The cursor after placing every box of `boxes` in order. */
  function Run(c: Cursor, boxes: seq<Box>, spacing: real, rowWidth: real): Cursor
    decreases |boxes|
  {
    if |boxes| == 0 then c
    else Run(Advance(c, boxes[0], spacing, rowWidth), boxes[1..], spacing, rowWidth)
  }

  /** The translation given to each box of `boxes`, in order. */
  function Offsets(c: Cursor, boxes: seq<Box>, spacing: real, rowWidth: real): (offsets: seq<Vec>)
    ensures |offsets| == |boxes|
    decreases |boxes|
  {
    if |boxes| == 0 then []
    else [Offset(c, boxes[0])] + Offsets(Advance(c, boxes[0], spacing, rowWidth), boxes[1..], spacing, rowWidth)
  }

  /** Each box translated by its offset: where the layout puts it. */
  function Placements(c: Cursor, boxes: seq<Box>, spacing: real, rowWidth: real): (placed: seq<Box>)
    ensures |placed| == |boxes|
  {
    var offsets := Offsets(c, boxes, spacing, rowWidth);
    seq(|boxes|, i requires 0 <= i < |boxes| => Translate(boxes[i], offsets[i]))
  }

  lemma PlacementsUnfold(c: Cursor, boxes: seq<Box>, spacing: real, rowWidth: real)
    requires |boxes| > 0
    ensures Placements(c, boxes, spacing, rowWidth)
         == [Translate(boxes[0], Offset(c, boxes[0]))]
            + Placements(Advance(c, boxes[0], spacing, rowWidth), boxes[1..], spacing, rowWidth)
  {
  }

  /** The translation puts the group's min corner exactly on the cursor and keeps its size. */
  lemma OffsetLandsOnCursor(c: Cursor, b: Box)
    ensures var r := Translate(b, Offset(c, b));
      r.minx == c.x && r.miny == c.y && Width(r) == Width(b) && Height(r) == Height(b)
  {
  }

  /**
   * What one step does to the cursor: without a wrap x has grown by spacing
   * plus the width and the row height bounds the new box and every earlier
   * box of the row; a wrap happens exactly when that x exceeds the row width,
   * and then y has advanced by the row height plus spacing.
   */
  lemma AdvanceCursor(c: Cursor, b: Box, spacing: real, rowWidth: real)
    ensures var n := Advance(c, b, spacing, rowWidth);
      var wraps := c.x + spacing + Width(b) > rowWidth;
      && (!wraps ==> n.x == c.x + spacing + Width(b) && n.y == c.y
                       && n.rowHeight >= Height(b) && n.rowHeight >= c.rowHeight)
      && (wraps ==> n.x == spacing && n.rowHeight == 0.0
                      && n.y == c.y + Max(c.rowHeight, Height(b)) + spacing)
  {
  }

  /**
   * A box lies ahead of the cursor when it starts at or right of the cursor
   * in the cursor's row, or in a later row.
   */
  ghost predicate Ahead(r: Box, c: Cursor) {
    (r.minx >= c.x && r.miny >= c.y) || r.miny >= c.y + c.rowHeight
  }

  /** What lies ahead of the next cursor lies ahead of this one. */
  lemma AheadOfNext(c: Cursor, b: Box, spacing: real, rowWidth: real, r: Box)
    requires spacing >= 0.0 && WellFormed(b)
    requires Ahead(r, Advance(c, b, spacing, rowWidth))
    ensures Ahead(r, c)
  {
  }

  /** Every box placed from cursor `c` on lies ahead of `c`. */
  lemma {:induction false} PlacementsAhead(c: Cursor, boxes: seq<Box>, spacing: real, rowWidth: real)
    requires spacing >= 0.0
    requires forall b :: b in boxes ==> WellFormed(b)
    ensures var placed := Placements(c, boxes, spacing, rowWidth);
      forall i :: 0 <= i < |placed| ==> Ahead(placed[i], c)
    decreases |boxes|
  {
    if |boxes| > 0 {
      var next := Advance(c, boxes[0], spacing, rowWidth);
      PlacementsAhead(next, boxes[1..], spacing, rowWidth);
      PlacementsUnfold(c, boxes, spacing, rowWidth);
      var placed := Placements(c, boxes, spacing, rowWidth);
      var later := Placements(next, boxes[1..], spacing, rowWidth);
      forall i | 1 <= i < |placed|
        ensures Ahead(placed[i], c)
      {
        assert placed[i] == later[i - 1];
        AheadOfNext(c, boxes[0], spacing, rowWidth, later[i - 1]);
      }
    }
  }

  /**
   * Packing non-overlap: with non-negative spacing and well-formed bounds, no
   * two placed groups share interior points, across row wraps too.
   */
  lemma {:induction false} PlacementsDoNotOverlap(c: Cursor, boxes: seq<Box>, spacing: real, rowWidth: real)
    requires spacing >= 0.0
    requires forall b :: b in boxes ==> WellFormed(b)
    ensures var placed := Placements(c, boxes, spacing, rowWidth);
      forall i, j :: 0 <= i < j < |placed| ==> !Overlap(placed[i], placed[j])
    decreases |boxes|
  {
    if |boxes| > 0 {
      var next := Advance(c, boxes[0], spacing, rowWidth);
      PlacementsDoNotOverlap(next, boxes[1..], spacing, rowWidth);
      PlacementsAhead(next, boxes[1..], spacing, rowWidth);
      PlacementsUnfold(c, boxes, spacing, rowWidth);
      var placed := Placements(c, boxes, spacing, rowWidth);
      var later := Placements(next, boxes[1..], spacing, rowWidth);
      forall i, j | 0 <= i < j < |placed|
        ensures !Overlap(placed[i], placed[j])
      {
        assert placed[j] == later[j - 1];
        if i == 0 {
          assert Ahead(later[j - 1], next);
        } else {
          assert placed[i] == later[i - 1];
        }
      }
    }
  }

  /**
   * The rows only move down: every group is placed at or below the row of
   * every group placed before it.
   */
  lemma {:induction false} PlacementsMoveDown(c: Cursor, boxes: seq<Box>, spacing: real, rowWidth: real)
    requires spacing >= 0.0 && c.rowHeight >= 0.0
    requires forall b :: b in boxes ==> WellFormed(b)
    ensures var placed := Placements(c, boxes, spacing, rowWidth);
      forall i, j :: 0 <= i < j < |placed| ==> placed[i].miny <= placed[j].miny
    ensures Run(c, boxes, spacing, rowWidth).y >= c.y
    decreases |boxes|
  {
    if |boxes| > 0 {
      var next := Advance(c, boxes[0], spacing, rowWidth);
      PlacementsMoveDown(next, boxes[1..], spacing, rowWidth);
      PlacementsAhead(next, boxes[1..], spacing, rowWidth);
      PlacementsUnfold(c, boxes, spacing, rowWidth);
      var placed := Placements(c, boxes, spacing, rowWidth);
      var later := Placements(next, boxes[1..], spacing, rowWidth);
      forall i, j | 0 <= i < j < |placed|
        ensures placed[i].miny <= placed[j].miny
      {
        assert placed[j] == later[j - 1];
        if i == 0 {
          assert Ahead(later[j - 1], next);
        } else {
          assert placed[i] == later[i - 1];
        }
      }
    }
  }

  /**
   * Three boxes of width 2 with spacing 1 and row width 5, cursor starting at
   * (1, 1): the first two share the row at x = 1 and x = 4; the cursor then
   * stands at 7 > 5, so the third goes to x = 1 of the next row, one row height
   * plus spacing lower.
   */
  lemma ThreeBoxesWrap()
    ensures var b := Box(0.0, 0.0, 2.0, 1.0);
      Offsets(Cursor(1.0, 1.0, 0.0), [b, b, b], 1.0, 5.0)
        == [Vec(1.0, 1.0), Vec(4.0, 1.0), Vec(1.0, 3.0)]
  {
    var b := Box(0.0, 0.0, 2.0, 1.0);
    var c0 := Cursor(1.0, 1.0, 0.0);
    var c1 := Advance(c0, b, 1.0, 5.0);
    assert c1 == Cursor(4.0, 1.0, 1.0);
    var c2 := Advance(c1, b, 1.0, 5.0);
    assert c2 == Cursor(1.0, 3.0, 0.0);
    var c3 := Advance(c2, b, 1.0, 5.0);
    assert [b, b, b][1..] == [b, b];
    assert [b, b][1..] == [b];
    assert [b][1..] == [];
    assert Offsets(c3, [], 1.0, 5.0) == [];
    assert Offsets(c2, [b], 1.0, 5.0) == [Vec(1.0, 3.0)];
    assert Offsets(c1, [b, b], 1.0, 5.0) == [Vec(4.0, 1.0), Vec(1.0, 3.0)];
  }
}
