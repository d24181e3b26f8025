/**
 * facesvg/svg.rb: the path data of one loop. `SVGArc` (its ellipse parameters,
 * sweep flag and large-arc split), `SVGSegment`, and `Loop` (its attribute
 * table and the `svgdata` join). The `%0.3f` rendering of a number is the
 * parameter `fmt`; the trigonometry is the FloatMath parameter.
 */
module SvgPath {
  import opened Wrappers
  import opened Geometry

  // ---------------------------------------------------------------------------
  // Arcs

  /**
   * The arc curve of a glob as the host reports it: the centre (already in the
   * face's plane), the two axis vectors, the radius and the start and end angles.
   */
  datatype Curve = Curve(center: Vec, xaxis: Vec, yaxis: Vec, radius: real, startAngle: real, endAngle: real)

  /** The circle test of `ellipse_parameters`: orthogonal axes of equal length. */
  predicate IsCircle(c: Curve) {
    Dot(c.xaxis, c.yaxis) == 0.0 && AbsSq(c.xaxis) == AbsSq(c.yaxis)
  }

  /** `ellipseXY_at_angle`: the point of the ellipse at `ang`, relative to the centre. */
  function XYAt(c: Curve, ang: real, m: FloatMath): Vec {
    Add(Scale(c.xaxis, m.cos(ang)), Scale(c.yaxis, m.sin(ang)))
  }

  /** `ellipseXY_at_angle(ang, absolute: true)`. */
  function XYAtAbsolute(c: Curve, ang: real, m: FloatMath): Vec {
    Add(XYAt(c, ang, m), c.center)
  }

  /** SketchUp's `Numeric#radians`: the receiver, taken as radians, in degrees. */
  function RadiansToDegrees(r: real): real {
    r * 180.0 / PI
  }

  /** The instance fields `ellipse_parameters` sets. */
  datatype Ellipse = Ellipse(vx: Vec, vy: Vec, rx: real, ry: real, xrotDeg: real, mid: Vec, largeArc: bool)

  /** The middle of the arc's angular range. */
  function MidAngle(c: Curve): real {
    (c.endAngle + c.startAngle) / 2.0
  }

  /** `@largearc`: the arc spans more than half a turn. */
  predicate LargeArc(c: Curve) {
    c.endAngle - c.startAngle > PI
  }

  /** The rotation of the "x" vertex vector, in radians, with a vertical vector at a quarter turn. */
  function XRotation(vx: Vec, m: FloatMath): real {
    if vx.x == 0.0 then PI / 2.0 else m.atan(vx.y / vx.x)
  }

  /** The rotation as line 96 writes it: the literal 90 in the vertical case. */
  function XRotationAsWritten(vx: Vec, m: FloatMath): real {
    if vx.x == 0.0 then 90.0 else m.atan(vx.y / vx.x)
  }

  /** `ellipse_parameters`, with the vertical-axis rotation read as a quarter turn. */
  function EllipseParameters(c: Curve, m: FloatMath): (e: Ellipse)
    ensures IsCircle(c) ==> e.vx == c.xaxis && e.vy == c.yaxis && e.rx == c.radius && e.ry == c.radius
    ensures e.vx.x == 0.0 ==> e.xrotDeg == 90.0
    ensures e.mid == XYAtAbsolute(c, MidAngle(c), m)
    ensures e.largeArc <==> c.endAngle - c.startAngle > PI
  {
    var axes :=
      if IsCircle(c) then (c.xaxis, c.yaxis, c.radius, c.radius)
      else
        var f1, f2 := c.xaxis, c.yaxis;
        var vertexAngle := 0.5 * m.atan2(Dot(f1, f2) * 2.0, Dot(f1, f1) - Dot(f2, f2));
        var vx := XYAt(c, vertexAngle, m);
        var vy := XYAt(c, vertexAngle + PI / 2.0, m);
        (vx, vy, Abs(vx, m), Abs(vy, m));
    QuarterTurnInDegrees();
    Ellipse(axes.0, axes.1, axes.2, axes.3, RadiansToDegrees(XRotation(axes.0, m)), XYAtAbsolute(c, MidAngle(c), m), LargeArc(c))
  }

  lemma QuarterTurnInDegrees()
    ensures RadiansToDegrees(PI / 2.0) == 90.0
  {
  }

  /**
   * Line 96 gives 90 for a vertical "x" vertex vector, and line 97 converts it
   * from radians to degrees: the rotation written is not a quarter turn.
   */
  lemma VerticalRotationAsWritten(vx: Vec, m: FloatMath)
    requires vx.x == 0.0
    ensures RadiansToDegrees(XRotationAsWritten(vx, m)) == 90.0 * 180.0 / PI
    ensures RadiansToDegrees(XRotationAsWritten(vx, m)) > 5156.0
    ensures RadiansToDegrees(XRotation(vx, m)) == 90.0
  {
    QuarterTurnInDegrees();
    assert 90.0 * 180.0 == 16200.0;
    assert 5156.0 * PI < 16200.0;
  }

  /**
   * A large arc is drawn as two arcs that meet at the middle angle. For an arc
   * of at most a full turn each half spans at most half a turn, so neither
   * needs the large-arc flag, which the output always sets to 0.
   */
  lemma LargeArcHalves(c: Curve)
    requires LargeArc(c) && c.endAngle - c.startAngle <= 2.0 * PI
    ensures MidAngle(c) - c.startAngle == c.endAngle - MidAngle(c)
    ensures PI / 2.0 < MidAngle(c) - c.startAngle <= PI
  {
  }

  /**
   * `sweep`: '1' when the centre-to-middle vector has a positive component
   * along `cw_normal` of the centre-to-start vector.
   */
  predicate Sweep(start: Vec, mid: Vec, center: Vec) {
    Dot(Sub(mid, center), CwNormal(Sub(start, center))) > 0.0
  }

  /**
   * The sweep flag is the turn direction from start to middle about the centre:
   * '1' exactly when the cross product is positive, which with +y pointing down
   * is a clockwise turn on the drawing. Exchanging start and middle reverses it,
   * and a degenerate arc whose middle is its start has flag '0'.
   */
  lemma SweepIsTurnDirection(start: Vec, mid: Vec, center: Vec)
    ensures Sweep(start, mid, center) <==> Cross(Sub(start, center), Sub(mid, center)) > 0.0
    ensures Sweep(start, mid, center) ==> !Sweep(mid, start, center)
    ensures !Sweep(start, start, center)
  {
    var s, t := Sub(start, center), Sub(mid, center);
    assert Dot(t, CwNormal(s)) == Cross(s, t);
    assert Dot(s, CwNormal(t)) == Cross(t, s);
    assert Dot(s, CwNormal(s)) == 0.0;
  }

  // ---------------------------------------------------------------------------
  // Path parts

  /**
   * An `SVGSegment` (its start and end) or an `SVGArc` (its start, end, centre and
   * the fields `ellipse_parameters` set). Both are fixed once constructed.
   */
  datatype PathPart =
    | Segment(start: Vec, end: Vec)
    | Arc(start: Vec, end: Vec, center: Vec, e: Ellipse)

  /** What `Loop.create` is handed per glob: the glob's start and end, and its curve when it is an arc. */
  datatype GlobData = GlobData(start: Vec, end: Vec, curve: Option<Curve>)

  /** `SVGArc.new` / `SVGSegment.new` on one glob. */
  function MakePart(g: GlobData, m: FloatMath): (p: PathPart)
    ensures p.start == g.start && p.end == g.end
    ensures p.Arc? <==> g.curve.Some?
    ensures p.Arc? ==> p.center == g.curve.value.center && p.e == EllipseParameters(g.curve.value, m)
  {
    match g.curve
    case None => Segment(g.start, g.end)
    case Some(c) => Arc(g.start, g.end, c.center, EllipseParameters(c, m))
  }

  /** `Loop.create`'s mapping of globs to path parts, in order. */
  function MakeParts(globs: seq<GlobData>, m: FloatMath): (ps: seq<PathPart>)
    ensures |ps| == |globs| && forall k :: 0 <= k < |globs| ==> ps[k] == MakePart(globs[k], m)
  {
    seq(|globs|, k requires 0 <= k < |globs| => MakePart(globs[k], m))
  }

  // ---------------------------------------------------------------------------
  // Path commands

  /**
   * One command of the path data. An arc command carries radii, rotation in
   * degrees, the sweep flag and the end point; its large-arc field is not a
   * parameter, since the output always writes 0 there.
   */
  datatype Cmd =
    | MoveTo(p: Vec)
    | LineTo(p: Vec)
    | ArcTo(rx: real, ry: real, xrotDeg: real, sweep: bool, p: Vec)

  /** The command letter. */
  function Letter(c: Cmd): char {
    match c
    case MoveTo(_) => 'M'
    case LineTo(_) => 'L'
    case ArcTo(_, _, _, _, _) => 'A'
  }

  function Letters(cs: seq<Cmd>): (r: seq<char>)
    ensures |r| == |cs| && forall k :: 0 <= k < |cs| ==> r[k] == Letter(cs[k])
  {
    seq(|cs|, k requires 0 <= k < |cs| => Letter(cs[k]))
  }

  /** The commands `svgdata` emits for one part, `first` when `prev` is nil. */
  function PartCommands(p: PathPart, first: bool): seq<Cmd> {
    var move := if first then [MoveTo(p.start)] else [];
    match p
    case Segment(_, end) => move + [LineTo(end)]
    case Arc(start, end, center, e) =>
      var sweep := Sweep(start, e.mid, center);
      var half := if e.largeArc then [ArcTo(e.rx, e.ry, e.xrotDeg, sweep, e.mid)] else [];
      move + half + [ArcTo(e.rx, e.ry, e.xrotDeg, sweep, end)]
  }

  /**
   * One part's commands: a move to the start only when nothing precedes the
   * part; then a line to the end for a segment; for an arc, one arc command to
   * the end, or, when the arc is large, one to the middle point first. Both
   * arc commands carry the ellipse's radii and rotation and the sweep flag.
   */
  lemma PartCommandsShape(p: PathPart, first: bool)
    ensures var cs := PartCommands(p, first);
      && |cs| > 0 && cs[|cs| - 1].p == p.end
      && (forall k :: 0 <= k < |cs| ==> (cs[k].MoveTo? <==> first && k == 0))
      && (first ==> cs[0] == MoveTo(p.start))
      && (p.Segment? ==> |cs| == (if first then 2 else 1) && cs[|cs| - 1] == LineTo(p.end))
      && (p.Arc? ==> |cs| == (if first then 1 else 0) + (if p.e.largeArc then 2 else 1))
      && (p.Arc? ==> forall k :: (if first then 1 else 0) <= k < |cs| ==>
            cs[k] == ArcTo(p.e.rx, p.e.ry, p.e.xrotDeg, Sweep(p.start, p.e.mid, p.center), cs[k].p))
      && (p.Arc? && p.e.largeArc ==> cs[|cs| - 2].p == p.e.mid)
  {
  }

  /** The command letters of one part. */
  lemma PartLetters(p: PathPart, first: bool)
    ensures Letters(PartCommands(p, first))
         == (if first then "M" else "") + (if p.Segment? then "L" else if p.e.largeArc then "AA" else "A")
  {
  }

  /** The commands of a whole loop: only the first part is told that nothing precedes it. */
  function LoopCommands(parts: seq<PathPart>, first: bool): seq<Cmd>
    decreases |parts|
  {
    if |parts| == 0 then [] else PartCommands(parts[0], first) + LoopCommands(parts[1..], false)
  }

  function NumSegments(parts: seq<PathPart>): nat {
    if |parts| == 0 then 0 else (if parts[0].Segment? then 1 else 0) + NumSegments(parts[1..])
  }

  function NumArcs(parts: seq<PathPart>): nat {
    if |parts| == 0 then 0 else (if parts[0].Arc? then 1 else 0) + NumArcs(parts[1..])
  }

  function NumLargeArcs(parts: seq<PathPart>): nat {
    if |parts| == 0 then 0 else (if parts[0].Arc? && parts[0].e.largeArc then 1 else 0) + NumLargeArcs(parts[1..])
  }

  /** The number of occurrences of `x` in `s`. */
  function Count<T(==)>(s: seq<T>, x: T): nat {
    if |s| == 0 then 0 else (if s[0] == x then 1 else 0) + Count(s[1..], x)
  }

  lemma {:induction false} CountAppend<T>(a: seq<T>, b: seq<T>, x: T)
    ensures Count(a + b, x) == Count(a, x) + Count(b, x)
    decreases |a|
  {
    if |a| == 0 {
      assert a + b == b;
    } else {
      assert (a + b)[1..] == a[1..] + b;
      CountAppend(a[1..], b, x);
    }
  }

  lemma {:induction false} CountAbsent<T>(s: seq<T>, x: T)
    requires forall k :: 0 <= k < |s| ==> s[k] != x
    ensures Count(s, x) == 0
    decreases |s|
  {
    if |s| > 0 {
      CountAbsent(s[1..], x);
    }
  }

  lemma LettersAppend(a: seq<Cmd>, b: seq<Cmd>)
    ensures Letters(a + b) == Letters(a) + Letters(b)
  {
  }

  lemma PartLetterCounts(p: PathPart, first: bool)
    ensures var l := Letters(PartCommands(p, first));
      && Count(l, 'M') == (if first then 1 else 0)
      && Count(l, 'L') == (if p.Segment? then 1 else 0)
      && Count(l, 'A') == (if p.Arc? then (if p.e.largeArc then 2 else 1) else 0)
  {
    PartLetters(p, first);
    var m: string := if first then "M" else "";
    var w: string := if p.Segment? then "L" else if p.e.largeArc then "AA" else "A";
    CountAppend(m, w, 'M');
    CountAppend(m, w, 'L');
    CountAppend(m, w, 'A');
  }

  /**
   * The loop's path has exactly one move, and it is the first command, to the
   * first part's start; one line per segment; one arc command per arc plus one
   * more per large arc.
   */
  lemma {:induction false} LoopCommandCounts(parts: seq<PathPart>, first: bool)
    ensures var cs := LoopCommands(parts, first);
      var l := Letters(cs);
      && Count(l, 'M') == (if first && |parts| > 0 then 1 else 0)
      && Count(l, 'L') == NumSegments(parts)
      && Count(l, 'A') == NumArcs(parts) + NumLargeArcs(parts)
      && (first && |parts| > 0 ==> cs[0] == MoveTo(parts[0].start))
    decreases |parts|
  {
    if |parts| > 0 {
      var head, tail := PartCommands(parts[0], first), LoopCommands(parts[1..], false);
      LoopCommandCounts(parts[1..], false);
      PartLetterCounts(parts[0], first);
      PartCommandsShape(parts[0], first);
      LettersAppend(head, tail);
      CountAppend(Letters(head), Letters(tail), 'M');
      CountAppend(Letters(head), Letters(tail), 'L');
      CountAppend(Letters(head), Letters(tail), 'A');
    }
  }

  // ---------------------------------------------------------------------------
  // Path text

  /** `fmt` renders every number as a `%0.3f` numeral: digits, sign and point only. */
  predicate Numeral(s: string) {
    forall i :: 0 <= i < |s| ==> '0' <= s[i] <= '9' || s[i] == '.' || s[i] == '-'
  }

  /** The fields of a command, each preceded by a space. */
  function Fields(ws: seq<string>): string
    decreases |ws|
  {
    if |ws| == 0 then "" else " " + ws[0] + Fields(ws[1..])
  }

  /** The text of one command, in the formats `svgdata` uses (`M x y`, ` L x y`, ` A rx ry rot 0 sweep x y`). */
  function CmdText(c: Cmd, fmt: real -> string): string {
    match c
    case MoveTo(p) => "M" + Fields([fmt(p.x), fmt(p.y)])
    case LineTo(p) => " L" + Fields([fmt(p.x), fmt(p.y)])
    case ArcTo(rx, ry, rot, sweep, p) =>
      " A" + Fields([fmt(rx), fmt(ry), fmt(rot), "0", if sweep then "1" else "0", fmt(p.x), fmt(p.y)])
  }

  function CommandsText(cs: seq<Cmd>, fmt: real -> string): string
    decreases |cs|
  {
    if |cs| == 0 then "" else CmdText(cs[0], fmt) + CommandsText(cs[1..], fmt)
  }

  /** `SVGArc#svgdata(prev)` / `SVGSegment#svgdata(prev)`, `first` when `prev` is nil. */
  function PartText(p: PathPart, first: bool, fmt: real -> string): string {
    CommandsText(PartCommands(p, first), fmt)
  }

  /** `Array#join(sep)`. */
  function Join(pieces: seq<string>, sep: string): string
    decreases |pieces|
  {
    if |pieces| == 0 then ""
    else if |pieces| == 1 then pieces[0]
    else pieces[0] + sep + Join(pieces[1..], sep)
  }

  /** The texts of the parts; only the first of them, and only when `first`, has `prev` nil. */
  function PartTexts(parts: seq<PathPart>, first: bool, fmt: real -> string): (ts: seq<string>)
    ensures |ts| == |parts| && forall k :: 0 <= k < |parts| ==> ts[k] == PartText(parts[k], first && k == 0, fmt)
  {
    seq(|parts|, k requires 0 <= k < |parts| => PartText(parts[k], first && k == 0, fmt))
  }

  /** `Loop#svgdata`: the parts' texts joined by a space, then ` Z`. */
  function LoopText(parts: seq<PathPart>, fmt: real -> string): string {
    Join(PartTexts(parts, true, fmt), " ") + " Z"
  }

  /**
   * `Loop#svgdata`, as the source computes it: `map` over the parts threading
   * `prev`, which is nil only for the first part, then `join(' ') + ' Z'`.
   */
  method LoopSvgData(parts: seq<PathPart>, fmt: real -> string) returns (d: string)
    ensures d == LoopText(parts, fmt)
    ensures |d| >= 2 && d[|d| - 2..] == " Z"
  {
    var prev: Option<PathPart> := None;
    var pieces: seq<string> := [];
    var k := 0;
    while k < |parts|
      invariant k <= |parts| && |pieces| == k
      invariant forall j :: 0 <= j < k ==> pieces[j] == PartText(parts[j], j == 0, fmt)
      invariant prev.None? <==> k == 0
    {
      pieces := pieces + [PartText(parts[k], prev.None?, fmt)];
      prev := Some(parts[k]);
      k := k + 1;
    }
    assert pieces == PartTexts(parts, true, fmt);
    d := Join(pieces, " ") + " Z";
  }

  /** A capital letter. */
  predicate Capital(ch: char) {
    'A' <= ch <= 'Z'
  }

  lemma {:induction false} FieldsHaveNoCapitals(ws: seq<string>, ch: char)
    requires forall k :: 0 <= k < |ws| ==> Numeral(ws[k])
    requires Capital(ch)
    ensures Count(Fields(ws), ch) == 0
    decreases |ws|
  {
    if |ws| > 0 {
      FieldsHaveNoCapitals(ws[1..], ch);
      CountAbsent(" " + ws[0], ch);
      CountAppend(" " + ws[0], Fields(ws[1..]), ch);
    }
  }

  /** The capitals a command's text holds: its own command letter once, and no other. */
  lemma CmdTextLetters(c: Cmd, fmt: real -> string, ch: char)
    requires forall x :: Numeral(fmt(x))
    requires Capital(ch)
    ensures Count(CmdText(c, fmt), ch) == (if Letter(c) == ch then 1 else 0)
  {
    var split: (string, seq<string>) := match c
      case MoveTo(p) => ("M", [fmt(p.x), fmt(p.y)])
      case LineTo(p) => (" L", [fmt(p.x), fmt(p.y)])
      case ArcTo(rx, ry, rot, sweep, p) =>
        (" A", [fmt(rx), fmt(ry), fmt(rot), "0", if sweep then "1" else "0", fmt(p.x), fmt(p.y)]);
    var head, ws := split.0, split.1;
    assert CmdText(c, fmt) == head + Fields(ws);
    FieldsHaveNoCapitals(ws, ch);
    CountAppend(head, Fields(ws), ch);
  }

  lemma {:induction false} CommandsTextLetters(cs: seq<Cmd>, fmt: real -> string, ch: char)
    requires forall x :: Numeral(fmt(x))
    requires Capital(ch)
    ensures Count(CommandsText(cs, fmt), ch) == Count(Letters(cs), ch)
    decreases |cs|
  {
    if |cs| > 0 {
      CommandsTextLetters(cs[1..], fmt, ch);
      CmdTextLetters(cs[0], fmt, ch);
      CountAppend(CmdText(cs[0], fmt), CommandsText(cs[1..], fmt), ch);
      assert Letters(cs)[1..] == Letters(cs[1..]);
    }
  }

  lemma JoinLetters(pieces: seq<string>, ch: char)
    requires ch != ' ' && |pieces| > 0
    ensures Count(Join(pieces, " "), ch) == Count(pieces[0], ch) + Count(Join(pieces[1..], " "), ch)
  {
    if |pieces| == 1 {
      assert Join(pieces[1..], " ") == "";
      assert pieces[0] + "" == pieces[0];
    } else {
      CountAppend(pieces[0] + " ", Join(pieces[1..], " "), ch);
      CountAppend(pieces[0], " ", ch);
    }
  }

  lemma PartTextsTail(parts: seq<PathPart>, first: bool, fmt: real -> string)
    requires |parts| > 0
    ensures PartTexts(parts, first, fmt)[0] == PartText(parts[0], first, fmt)
    ensures PartTexts(parts, first, fmt)[1..] == PartTexts(parts[1..], false, fmt)
  {
  }

  lemma PartTextLetters(p: PathPart, first: bool, fmt: real -> string, ch: char)
    requires forall x :: Numeral(fmt(x))
    requires Capital(ch)
    ensures Count(PartText(p, first, fmt), ch) == Count(Letters(PartCommands(p, first)), ch)
  {
    CommandsTextLetters(PartCommands(p, first), fmt, ch);
  }

  lemma LoopCommandsLetters(parts: seq<PathPart>, first: bool, ch: char)
    requires |parts| > 0
    ensures Count(Letters(LoopCommands(parts, first)), ch)
         == Count(Letters(PartCommands(parts[0], first)), ch) + Count(Letters(LoopCommands(parts[1..], false)), ch)
  {
    LettersAppend(PartCommands(parts[0], first), LoopCommands(parts[1..], false));
    CountAppend(Letters(PartCommands(parts[0], first)), Letters(LoopCommands(parts[1..], false)), ch);
  }

  lemma {:induction false} PartTextsLetters(parts: seq<PathPart>, first: bool, fmt: real -> string, ch: char)
    requires forall x :: Numeral(fmt(x))
    requires Capital(ch)
    ensures Count(Join(PartTexts(parts, first, fmt), " "), ch) == Count(Letters(LoopCommands(parts, first)), ch)
    decreases |parts|
  {
    if |parts| > 0 {
      JoinLetters(PartTexts(parts, first, fmt), ch);
      PartTextsTail(parts, first, fmt);
      PartTextsLetters(parts[1..], false, fmt, ch);
      PartTextLetters(parts[0], first, fmt, ch);
      LoopCommandsLetters(parts, first, ch);
    }
  }

  /**
   * The text of a loop, given numerals for the numbers: exactly one `M` when the
   * loop has any part, one `L` per segment, one `A` per arc plus one per large
   * arc, and one `Z`, the last character.
   */
  lemma LoopTextLetters(parts: seq<PathPart>, fmt: real -> string)
    requires forall x :: Numeral(fmt(x))
    ensures var d := LoopText(parts, fmt);
      && Count(d, 'M') == (if |parts| > 0 then 1 else 0)
      && Count(d, 'L') == NumSegments(parts)
      && Count(d, 'A') == NumArcs(parts) + NumLargeArcs(parts)
      && Count(d, 'Z') == 1
      && d[|d| - 1] == 'Z'
  {
    LoopCommandCounts(parts, true);
    CountAbsent(Letters(LoopCommands(parts, true)), 'Z');
    LoopTextCount(parts, fmt, 'M');
    LoopTextCount(parts, fmt, 'L');
    LoopTextCount(parts, fmt, 'A');
    LoopTextCount(parts, fmt, 'Z');
  }

  lemma LoopTextCount(parts: seq<PathPart>, fmt: real -> string, ch: char)
    requires forall x :: Numeral(fmt(x))
    requires Capital(ch)
    ensures Count(LoopText(parts, fmt), ch) == Count(Letters(LoopCommands(parts, true)), ch) + (if ch == 'Z' then 1 else 0)
  {
    var body := Join(PartTexts(parts, true, fmt), " ");
    PartTextsLetters(parts, true, fmt, ch);
    CountAppend(body, " Z", ch);
  }

  // ---------------------------------------------------------------------------
  // Loop attributes

  /** The profile kinds: outer boundary, pocket, interior cut-out, and anything else (a guide). */
  datatype ProfileKind = Outer | Pocket | Inner | Guide

  /** The attribute hash of a `Loop`, one optional entry per key. */
  datatype LoopAttributes = LoopAttributes(
    pathType: ProfileKind,
    depth: Option<real>,
    fill: Option<string>,
    strokeWidth: Option<string>,
    stroke: Option<string>)

  /** The attribute table of `Loop#initialize`. */
  function Attributes(kind: ProfileKind, depth: real): LoopAttributes {
    match kind
    case Outer => LoopAttributes(kind, Some(depth), Some("rgb(0,0,0)"), None, None)
    case Pocket => LoopAttributes(kind, Some(depth), Some("rgb(128,128,128)"), Some("2"), Some("rgb(128,128,128)"))
    case Inner => LoopAttributes(kind, Some(depth), Some("rgb(255,255,255)"), Some("2"), Some("rgb(0,0,0)"))
    case Guide => LoopAttributes(kind, None, None, Some("2"), Some("rgb(20,110,255)"))
  }

  /**
   * How the table hangs together: the path type is the kind; every kind but a
   * guide is filled and carries the depth, a guide neither; a stroke comes with
   * a width of 2 and the outer boundary alone has none; a pocket's fill and
   * stroke are the same grey, an interior cut-out is white inside a black
   * stroke, the outer boundary is black and a guide is drawn in blue.
   */
  lemma AttributesTable(kind: ProfileKind, depth: real)
    ensures var a := Attributes(kind, depth);
      && a.pathType == kind
      && (a.fill.Some? <==> kind != Guide)
      && (a.depth.Some? <==> kind != Guide)
      && (a.depth.Some? ==> a.depth.value == depth)
      && (a.stroke.Some? <==> a.strokeWidth.Some?)
      && (a.strokeWidth.Some? ==> a.strokeWidth.value == "2")
      && (a.stroke.None? <==> kind == Outer)
      && (kind == Pocket ==> a.fill == a.stroke)
      && (kind == Inner ==> a.fill != a.stroke)
      && (kind == Outer ==> a.fill == Some("rgb(0,0,0)"))
      && (kind == Pocket ==> a.fill == Some("rgb(128,128,128)"))
      && (kind == Inner ==> a.fill == Some("rgb(255,255,255)") && a.stroke == Some("rgb(0,0,0)"))
      && (kind == Guide ==> a.stroke == Some("rgb(20,110,255)"))
  {
  }

  /** `Loop`: its parts, in order, and its attributes. */
  datatype Loop = Loop(parts: seq<PathPart>, attributes: LoopAttributes)

  /** `Loop.create`: one part per glob, in the globs' order, and the kind's attributes. */
  function CreateLoop(globs: seq<GlobData>, kind: ProfileKind, depth: real, m: FloatMath): (l: Loop)
    ensures |l.parts| == |globs| && l.attributes == Attributes(kind, depth)
    ensures forall k :: 0 <= k < |globs| ==> l.parts[k].start == globs[k].start && l.parts[k].end == globs[k].end
  {
    Loop(MakeParts(globs, m), Attributes(kind, depth))
  }

  function NumEdgeGlobs(globs: seq<GlobData>): nat {
    if |globs| == 0 then 0 else (if globs[0].curve.None? then 1 else 0) + NumEdgeGlobs(globs[1..])
  }

  function NumArcGlobs(globs: seq<GlobData>): nat {
    if |globs| == 0 then 0 else (if globs[0].curve.Some? then 1 else 0) + NumArcGlobs(globs[1..])
  }

  /** The arc globs whose curve spans more than half a turn. */
  function NumLargeArcGlobs(globs: seq<GlobData>): nat {
    if |globs| == 0 then 0
    else (if globs[0].curve.Some? && LargeArc(globs[0].curve.value) then 1 else 0) + NumLargeArcGlobs(globs[1..])
  }

  /** The parts made from the globs: a segment per plain edge, an arc per arc glob, large exactly when its curve is. */
  lemma {:induction false} MakePartsCounts(globs: seq<GlobData>, m: FloatMath)
    ensures var ps := MakeParts(globs, m);
      && NumSegments(ps) == NumEdgeGlobs(globs)
      && NumArcs(ps) == NumArcGlobs(globs)
      && NumLargeArcs(ps) == NumLargeArcGlobs(globs)
    decreases |globs|
  {
    if |globs| > 0 {
      assert MakeParts(globs, m)[1..] == MakeParts(globs[1..], m);
      MakePartsCounts(globs[1..], m);
    }
  }

  /**
   * The path data of a loop made by `Loop.create`, in terms of the globs it was
   * given: one `M` for a non-empty loop, one `L` per plain edge, one `A` per
   * arc glob plus one more for each arc over half a turn, and a single closing
   * `Z` at the end; the attributes are the kind's row of the table.
   */
  lemma CreateLoopText(globs: seq<GlobData>, kind: ProfileKind, depth: real, m: FloatMath, fmt: real -> string)
    requires forall x :: Numeral(fmt(x))
    ensures var l := CreateLoop(globs, kind, depth, m);
      var d := LoopText(l.parts, fmt);
      && l.attributes == Attributes(kind, depth)
      && Count(d, 'M') == (if |globs| > 0 then 1 else 0)
      && Count(d, 'L') == NumEdgeGlobs(globs)
      && Count(d, 'A') == NumArcGlobs(globs) + NumLargeArcGlobs(globs)
      && Count(d, 'Z') == 1
      && d[|d| - 1] == 'Z'
  {
    MakePartsCounts(globs, m);
    LoopTextLetters(MakeParts(globs, m), fmt);
  }
}
