# FaceSVG core, modelled in Dafny

FaceSVG is a SketchUp extension. It takes the faces a user selects, flattens
their boundary loops onto the working plane, and lays them out in rows. It
then writes them as SVG files for a Shaper Origin cutter. This project models
the sequential logic at the heart of that pipeline and proves properties of it.

- **Boundary reordering** (`ShaperLayout`). `samepos` matches end points. The
  edge and arc "globs" each carry a reversal flag. `reorder` chains the globs
  of a loop so that each one starts where the previous one ends, reversing a
  glob that only meets the chain with its own end. The value-level
  specification `Order` is proved to be a chained permutation, or to stop only
  when no glob connects. The imperative `Reorder` runs over `Glob` objects,
  reversing them in place, and is proved to compute `Order`.
- **Shelf packing** (`Packing`, `FaceLayout`, `ShaperLayout.Transformer`). The
  layout cursor `layoutx`/`layouty`/`rowheight` moves right per face group and
  wraps to a new row past the sheet width. `Packing` gives the cursor step as
  a function and proves that placed boxes do not overlap and that rows only
  move down. `ProfileCollection` (facesvg/layout.rb) and `Transformer`
  (shapersvg/layout.rb) are classes whose methods update those fields. For
  `Transformer`, the outer-loop extents fold and the viewport maxima are
  modelled as well.
- **Path data** (`SvgPath`). This covers the `Vn` helpers, the clockwise
  normal and sweep flag, the large-arc and midpoint decision of
  `ellipse_parameters`, the commands of `SVGArc`/`SVGSegment#svgdata`, and
  `Loop#svgdata`. The `d` string follows section 8.3 ("Path data") of the SVG
  1.1 recommendation. The model proves it has exactly one `M`, one `L` per
  segment, one `A` per arc or two for an arc over half a turn, and a final
  ` Z`.
- **SVG tree** (`SvgDocument`). This covers the ordered attribute hash of
  `Node`, `add_attr`/`add_text`/`add_child`, and `Node#write` as a string
  function with its self-closing rule. It also covers the `svg` root
  attributes of `Canvas.new` and the path nodes that `Canvas#path` adds.
  `Loop`'s attribute table per profile kind is in `SvgPath`.

External parts of the source enter as parameters:

- Floating-point library functions (`cos`, `sin`, `atan`, `atan2`, square
  root) are a `FloatMath` record.
- The `%0.3f` numeral rendering is a function `fmt: real -> string`. Where
  letters are counted, the model assumes only that it yields digits, `.` and
  `-`.
- Positions are pairs of reals. A face group's bounds are a `Box`.
- Ruby's Float arithmetic is exact real arithmetic in the model (see
  "## Left out").
- Tolerances are compared on squared distances (`0.05² = 0.0025` and
  `0.0005² = 0.00000025`). For exact reals this is equivalent to the source's
  `length < tol` tests, because both sides are non-negative.

## Model

Some functions are plain definitions with no row of their own. Their
properties are stated by the lemmas and methods that use them:

- `SvgDocument.Keys` gives the attribute names in order.
- `SvgPath.Letters` gives the command letters.
- `SvgPath.PartTexts` renders each part as text.
- `SvgPath.MakePart` and `SvgPath.MakeParts` build the path parts from the globs.
- `SvgPath.CreateLoop` builds a loop from its parts and attributes.
- `FaceLayout.Viewport` is the `makesvg` viewport.

| member | source | states |
|---|---|---|
| Geometry.CwNormal | facesvg/svg.rb:58-60 | `cw_normal(v)` is perpendicular to `v` and as long; the dot product with it is the cross product with `v` |
| Geometry.AddSubInverse | facesvg/svg.rb:19-20 | `Vn#+` and `Vn#-` are componentwise and undo each other |
| Geometry.NearReflexiveSymmetric | facesvg/svg.rb:22-23 | `Vn#==` (distance below 0.0005) is reflexive and symmetric; the squared tolerance is the tolerance squared |
| ShaperLayout.SamePosSymmetric | shapersvg/layout.rb:39-42 | `samepos` is symmetric and reflexive; the squared tolerance is 0.05 squared |
| ShaperLayout.FarApart | shapersvg/layout.rb:39-42 | points at least 0.05 apart on one axis are not `samepos` |
| ShaperLayout.FlipSwapsEnds | shapersvg/layout.rb:86-92 | `reverse` exchanges what `startpos` and `endpos` report, and is idempotent because it sets the flag rather than toggling it |
| ShaperLayout.FindNext | shapersvg/layout.rb:54-65 | the scan picks the first glob in list order whose start or end meets the tail's end; it marks an end match only when the start did not match; nothing before it connects; no result means no glob connects |
| ShaperLayout.OrderSucceeds | shapersvg/layout.rb:46-72 | on success: as many globs out as in, each input glob exactly once, the first input glob first and unreversed, and (for unreversed inputs) each adjacent pair chained end to start, with a reversal only when the start did not match |
| ShaperLayout.ScanFindsSuccessor | shapersvg/layout.rb:54-65 | on an unambiguous chain, the scan from a glob's end over unreversed copies of the globs still left stops at its successor; it reports an end match exactly when the successor is reversed in the chain, and orienting the found glob gives the successor |
| ShaperLayout.ExtendFollowsChain | shapersvg/layout.rb:52-71 | on an unambiguous chain, the loop completes the chain from any point, whatever order the remaining unreversed globs are in, reversing exactly the globs the chain has reversed |
| ShaperLayout.OrderFollowsLoop | shapersvg/layout.rb:46-72 | from the first input glob, `reorder` follows an unambiguous chain of all the globs to its end, whichever of them must be reversed |
| ShaperLayout.OrderClosesLoop | shapersvg/layout.rb:46-72 | for unreversed globs that close into an unambiguous loop once some are reversed (each reversed exactly when its own start misses the previous end, as the scan decides), and which starts with the first input glob, `reorder` succeeds and returns exactly that loop: every glob once, each adjacent pair matching, and the last ending where the first starts |
| ShaperLayout.OrderFails | shapersvg/layout.rb:46-67 | the raise happens only with globs left over, none of whose start or end meets the tail's end; the chain so far and the remainder hold every input glob once |
| ShaperLayout.OrderFailsUnreversed | shapersvg/layout.rb:58-63 | when the raise happens, the globs left over were not reversed |
| ShaperLayout.Glob.StartPos | shapersvg/layout.rb:86-88 | `startpos` is the first edge's start, or the last edge's end when reversed |
| ShaperLayout.Glob.EndPos | shapersvg/layout.rb:89-91 | `endpos` is the mirror of `startpos` |
| ShaperLayout.Glob.Reverse | shapersvg/layout.rb:92 | sets the flag in place and answers the receiver itself |
| ShaperLayout.Reorder | shapersvg/layout.rb:46-72 | the in-place run over glob objects gives the outcome of `Order` on their values, and its chain (with the remainder) is a permutation of the input globs; with OrderFailsUnreversed, when the raise happens no leftover glob object is reversed if none was beforehand |
| ShaperLayout.ExtentsBound | shapersvg/layout.rb:269-277 | the folded min/max extents contain every edge start, only widen, and each extent is attained by a point or by the starting value |
| ShaperLayout.Transformer.constructor | shapersvg/layout.rb:127-143 | a new transformer is cleared: cursor at the origin, extents at the 1e100 sentinels, viewport `[0, 0, -1e100, -1e100]`; the invariant `Valid` (four entries, origin at 0, 0) holds |
| ShaperLayout.Transformer.Clear | shapersvg/layout.rb:132-143 | the same reset state as a new transformer |
| ShaperLayout.Transformer.ChangeFace | shapersvg/layout.rb:189-192 | a new face starts with empty extents and keeps the layout cursor and viewport (its maxima through `Layout`, its origin at 0, 0 through `Valid`) |
| ShaperLayout.Transformer.AccumulateBounds | shapersvg/layout.rb:269-277 | the loop over edge starts leaves the extents at the fold `Extents` of the old extents, with the layout unchanged and the viewport origin at 0, 0 |
| ShaperLayout.Transformer.Transform | shapersvg/layout.rb:233-280 | only the outer loop updates the extents; the globs are then reordered as `Order` says, with the chain and, on failure, the remaining globs as `Order` gives them, and the glob objects permuted; the layout and viewport origin are unchanged |
| ShaperLayout.Transformer.LayoutFacegrp | shapersvg/layout.rb:205-223 | the face group moves by (layoutx − minx, layouty − miny); the cursor and viewport maxima take one `LayoutStep`, and the viewport origin stays at 0, 0 |
| ShaperLayout.LayoutRunIsRun | shapersvg/layout.rb:205-223 | the cursor of repeated `layout_facegrp` is the shared shelf cursor of `Packing.Run` |
| ShaperLayout.ViewportCovers | shapersvg/layout.rb:210-221 | the viewport maxima only grow and end beyond every placed group's right and bottom edges |
| ShaperExamples.SkipsUnconnected | shapersvg/layout.rb:54-65 | a glob that does not connect is skipped and taken up later in the chain |
| ShaperExamples.EndMatchReverses | shapersvg/layout.rb:60-63 | a glob meeting the tail only with its end is appended reversed |
| ShaperExamples.ReversedSideCloses | shapersvg/layout.rb:46-72 | three globs whose middle one arrives the wrong way round: `reorder` reverses it and the result is a closed loop |
| Packing.OffsetLandsOnCursor | facesvg/layout.rb:118-119 | the translation puts the group's min corner on the cursor and keeps its size |
| Packing.AdvanceCursor | facesvg/layout.rb:128-135 | x grows by spacing plus width and the row height bounds the box; past the strict width test x goes back to spacing, y drops by the row height plus spacing, and the row height becomes 0 |
| Packing.PlacementsDoNotOverlap | facesvg/layout.rb:118-135 | with non-negative spacing and sizes, no two placed groups overlap |
| Packing.PlacementsMoveDown | facesvg/layout.rb:128-135 | each placed group's top is at or below the previous one's, and the cursor's y never decreases |
| Packing.ThreeBoxesWrap | facesvg/layout.rb:128-135 | three 2×1 boxes on a width-5 sheet: two fit on the first row and the third wraps |
| FaceLayout.ProfileCollection.constructor | facesvg/layout.rb:19-37 | a new collection has its cursor at (spacing, spacing) with row height 0 |
| FaceLayout.ProfileCollection.Reset | facesvg/layout.rb:26-37 | `reset` puts the cursor at (spacing, spacing) with row height 0 |
| FaceLayout.ProfileCollection.PlaceGroup | facesvg/layout.rb:118-135 | one block iteration: the translation onto the cursor, and the cursor step `Advance` |
| FaceLayout.ProfileCollection.LayoutFacegrps | facesvg/layout.rb:116-137 | the translations are `Offsets` and the final cursor is `Run` of the groups in order |
| FaceLayout.FreshLayout | facesvg/layout.rb:116-137 | after `reset`, the first group goes to (spacing, spacing), no two groups overlap, and the rows move down |
| FaceLayout.MakeSvg | facesvg/layout.rb:40-46 | the canvas's viewport is [0, 0, maxx − minx, maxy − miny] of the groups' bounds (its minimum corner at the origin, its width and height the bounds' extents); its root holds exactly the title and description children |
| FaceLayout.MakeSvgOrigin | facesvg/layout.rb:41-43 | under that viewport the root `y` of line 177 is right, because the minimum x and the minimum y are both 0 |
| SvgPath.EllipseParameters | facesvg/svg.rb:77-105 | a circle takes the curve axes and radius for both radii; a vertical x axis gives a 90-degree rotation (corrected); the midpoint is the absolute point at the mean angle; `largearc` holds iff the span exceeds π |
| SvgPath.QuarterTurnInDegrees | facesvg/svg.rb:96-97 | a quarter turn is 90 degrees under `radians` |
| SvgPath.VerticalRotationAsWritten | facesvg/svg.rb:96-97 | as written, the vertical case gives 90·180/π (over 5156) degrees rather than 90 |
| SvgPath.LargeArcHalves | facesvg/svg.rb:104-134 | a large arc of at most a full turn splits at the mean angle into two equal halves, each over a quarter turn and at most a half turn |
| SvgPath.SweepIsTurnDirection | facesvg/svg.rb:62-69 | the sweep flag is '1' exactly when start→mid turns positively about the centre; exchanging start and mid clears it; a degenerate arc has '0' |
| SvgPath.PartCommandsShape | facesvg/svg.rb:116-154 | `M start` only when there is no previous part; a segment then draws `L end`; an arc draws one `A` to its end, or first one to the midpoint when large; every `A` carries the radii, the rotation and the sweep flag |
| SvgPath.PartLetters | facesvg/svg.rb:116-154 | a part's letters are `M` if first, then `L`, `AA` or `A` |
| SvgPath.PartLetterCounts | facesvg/svg.rb:116-154 | a part's count of each letter |
| SvgPath.LoopCommandCounts | facesvg/svg.rb:320-323 | over a loop: one `M` (at the first part's start), one `L` per segment, one `A` per arc plus one per large arc |
| SvgPath.LoopSvgData | facesvg/svg.rb:320-323 | the `map` threading `prev` yields the parts' texts, the first without a previous part, joined by spaces and ended by ` Z` |
| SvgPath.LoopTextLetters | facesvg/svg.rb:320-323 | the final `d` string has one `M` for a non-empty loop, one `L` per segment, one `A` per arc plus one per large arc, exactly one `Z`, and ends in `Z` |
| SvgPath.MakePartsCounts | facesvg/svg.rb:292-297 | `Loop.create` makes one segment per plain edge glob and one arc per arc glob; an arc is large exactly when its curve spans more than π |
| SvgPath.CreateLoopText | facesvg/svg.rb:292-323 | the `d` string of a created loop has one `M` if there are any globs, one `L` per edge glob, one `A` per arc glob plus one per arc over π, and a single final `Z`; the attributes are the kind's row of the table |
| SvgPath.AttributesTable | facesvg/svg.rb:301-315 | outer: black fill and the depth; pocket: grey fill and stroke, width 2; inner: white fill, black stroke, width 2; any other kind: blue stroke of width 2, no fill, no depth |
| SvgDocument.LookupAbsent | facesvg/svg.rb:264 | a key is missing from the hash exactly when it is not among its names |
| SvgDocument.PutSemantics | facesvg/svg.rb:264 | `@attrs[name] = value` makes `name` map to `value`, leaves every other key alone, and keeps the key order (a new key goes last) |
| SvgDocument.PutLookup | facesvg/svg.rb:264 | after `@attrs[name] = value`, a lookup of `name` gives `value` and a lookup of any other key is unchanged |
| SvgDocument.PutKeys | facesvg/svg.rb:264 | after `@attrs[name] = value`, the keys keep their order, and a new key is added last |
| SvgDocument.PutNew | facesvg/svg.rb:264 | a new key is appended at the end |
| SvgDocument.LookupAppend | facesvg/svg.rb:264 | a lookup in a hash extended by more entries finds the earlier entry first |
| SvgDocument.Node.constructor | facesvg/svg.rb:254-262 | a node with the given name, attributes and text, and no children |
| SvgDocument.Node.AddAttr | facesvg/svg.rb:264 | with a hash, the attribute is set as `PutSemantics` says; without one (`attrs` nil) nothing changes and failure is reported |
| SvgDocument.Node.AddText | facesvg/svg.rb:265 | replaces the text and nothing else |
| SvgDocument.Node.AddChild | facesvg/svg.rb:266 | appends the child after the existing children |
| SvgDocument.SelfClosing | facesvg/svg.rb:268-279 | after the start tag and attributes, `write` emits `/>` iff there are no children and no text; otherwise `>`, the text, the children in order, and the closing tag |
| SvgDocument.ConcatAppend | facesvg/svg.rb:276 | the children's texts of one more child are the old ones followed by the new |
| SvgDocument.ChildAppended | facesvg/svg.rb:266-279 | a child added last is written after the other children and before the closing tag |
| SvgDocument.RootAttrsKeys | facesvg/svg.rb:169-182 | the root's attributes in the order `Canvas.new` writes them |
| SvgDocument.RootAttrsValues | facesvg/svg.rb:163-177 | root height and width are the viewport extents; `x` is the minimum x; `y` is the minimum y (corrected) |
| SvgDocument.RootYAsWritten | facesvg/svg.rb:177 | as written, `y` is the minimum x, which differs from the minimum y whenever their renderings differ |
| SvgDocument.PathFixedAttrs | facesvg/svg.rb:202-211 | a path always has `d`, `vector-effect`, `shaper:cutDepth` and `shaper:pathType` first, with the given values |
| SvgDocument.OptionalLookup | facesvg/svg.rb:212-214 | an optional attribute is present only when its value is given |
| SvgDocument.PathOptionalAttrs | facesvg/svg.rb:212-214 | `fill`, `stroke` and `stroke-width` appear exactly when given, with their values |
| SvgDocument.LookupOptionals | facesvg/svg.rb:212-214 | the lookup of one key among the optional attributes |
| SvgDocument.PathSelfClosed | facesvg/svg.rb:205-216 | a path node is written self-closed |
| SvgDocument.AddOptional | facesvg/svg.rb:212-214 | adding an optional attribute appends it only when a value is given |
| SvgDocument.Canvas.constructor | facesvg/svg.rb:161-183 | the canvas keeps the file name, unit and viewport; width and height are the extents; the root `svg` has the root attributes, with `y` from the minimum y (corrected), and no children |
| SvgDocument.Canvas.Title | facesvg/svg.rb:188 | appends a `title` node with the text |
| SvgDocument.Canvas.Desc | facesvg/svg.rb:190 | appends a `desc` node with the text |
| SvgDocument.Canvas.Path | facesvg/svg.rb:202-217 | appends the path node built from the data, the optional attributes and the defaults |
| SvgDocument.Canvas.DefaultPath | facesvg/svg.rb:202-217 | `path` with its keyword defaults appends a path whose type, vector effect and cut depth are the defaults |
| SvgDocument.DefaultPathAttrs | facesvg/svg.rb:202-211 | the defaults are an `exterior` path type, a `non-scaling-stroke` vector effect and a `0.0125` cut depth |
| SvgDocument.RootWithPath | facesvg/svg.rb:268-279 | after `path`, the document holds the new self-closed path after everything written before, inside the root's closing tag |

## Left out

- Ruby's Float arithmetic is modelled as exact real arithmetic, so rounding is not captured. The tolerance results (`samepos`, `Vn#==`) and the packing results (no overlap, rows moving down, viewport covering) hold for exact values. With doubles they can fail by rounding, for example when `(layoutx − minx) + minx` is not `layoutx`.
- SketchUp host calls are not modelled: entity transforms, groups, layers, materials, `explode` and the regeneration of arc edges in `transform`. Positions enter as given values, and a face group's bounds (`Bounds2d`) enter as a given box.
- File and UI I/O (save panels, `File.open`, the streaming in `Canvas#write`) is left out. `Node#write` is a string function, and `Canvas.Document` prefixes the fixed header comment.
- Floating-point trigonometry and the square root are parameters (`FloatMath`). The model proves nothing about their values, only how their results are used.
- The `%0.3f` numeral formatting is a parameter `fmt`. The letter-count lemmas assume only that its output is made of digits, `.` and `-`.
- `Canvas#addpaths` is left out: it refers to an undefined `svg`, calls `Loop.create` with three of its four arguments, and its `||`/`?:` precedence classes a pocket as outer.
- `FaceSVG.capture_faceprofiles`, `face_offset`, `Bounds2d` and the facesvg reorder module are not part of this model.
- SvgPath.EllipseParameters: the circle test uses SketchUp's length tolerance on the axes; the model uses exact orthogonality and equal squared lengths.
- SvgPath.EllipseParameters: line 79 writes `(@crv.xaxis dot @crv.yaxis)` and line 87 writes `(f1 dot f2)`, `(f1 dot f1)` and `(f2 dot f2)`. These are not method calls on the vectors: they pass the result of a bare `dot` call, which no class shown defines, and `f1 dot f2` on a local variable `f1` does not parse. The model takes the dot product `Dot` at both places. The non-circular radii come from `atan2`, which is a parameter.
- SvgPath.SweepIsTurnDirection: line 68 calls `.dot`, which `Vn` does not define; the model uses the dot product `Vn#%`.
- SvgPath.AttributesTable: the source's kinds are strings whose last branch takes every other kind; the model has the four profile kinds, with the last branch as `Guide`.
- The `depth` key of a loop's attributes and the `cut_depth` keyword of `Canvas#path` differ, and the call that would join them is in `addpaths`. So `Canvas.Path` takes the cut depth as given, and `Canvas.DefaultPath` uses the keyword defaults.
- ShaperLayout.Reorder: an empty list gives `NoGlobs` where the source would start the chain with `nil`.
- ShaperLayout.Reorder requires the globs to be distinct objects. The source does not check this, but its callers build a fresh glob per edge or arc.
- ShaperLayout.Transformer.Transform: only the extent fold and the reordering are modelled; the duplicated edges and the glob construction are host calls.
- SvgDocument.Node.AddChild stores a snapshot of the child's value, so later changes to a child node through another reference are not modelled.
- SvgDocument.Node.AddAttr: `@attrs = attrs or {}` binds as `(@attrs = attrs) or {}`, so a node made without attributes keeps `nil`. The model reports failure where Ruby raises `NoMethodError`.
- `SVGArc.new`/`SVGSegment.new` apply the loop's transform to the glob's points; `MakePart` takes the points already transformed.
- `SVGArc` and `SVGSegment` are values (`PathPart`) built once by `MakePart`, since the source never changes them after construction. `ellipse_parameters`' instance fields are the `Ellipse` record.

## Findings

| source | as written | input that shows it | evidently intended | confidence | as-written member | corrected member |
|---|---|---|---|---|---|---|
| facesvg/svg.rb:96-97 | when the x vertex vector is vertical, the rotation is set to the literal 90 and then converted by `radians` (radians to degrees), giving about 5156.6 degrees | an arc whose x vertex vector has x component 0 | a rotation of 90 degrees (a quarter turn) | not executed | SvgPath.VerticalRotationAsWritten | SvgPath.EllipseParameters |
| facesvg/svg.rb:177 | the root's `y` attribute is formatted from `@minx` | a canvas with viewport [0, 5, 10, 15] gets `y` = 0 rather than 5 (latent under `makesvg`, whose viewport starts at 0, 0: FaceLayout.MakeSvgOrigin) | `y` formatted from `@miny` | not executed | SvgDocument.RootYAsWritten | SvgDocument.RootAttrsValues |
