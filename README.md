# INE5420 graphics editor core in Dafny

A model, with proofs, of the computational core of a small 2-D/3-D
graphics editor written in Python with tkinter and numpy.  The editor keeps
a display file of objects (points, lines, wireframes, Bezier and B-spline
curves and surfaces).  It transforms them with 4 x 4 row-vector matrices,
projects them through a camera (the Transformator) into the normalised
window, tessellates curves and surfaces there, clips everything against
the window and maps the result onto the canvas.  It imports and exports
Wavefront OBJ files.

The modules follow the editor's files:

| module | file | models |
|---|---|---|
| `Wrappers` | wrappers.dfy | `Option`, `Result`, and the no-duplicates predicate |
| `LinAlg` | linalg.dfy | points, 4-vectors and 4 x 4 matrices; products, transpose, associativity |
| `Trig` | trig.dfy | cosine, sine, arctangent and square root, in degrees, as parameters with the facts the proofs use |
| `Transformations` | transformations.dfy | `Transformations.py`: the rotation kinds and the three transformation records |
| `Objects` | objeto3d.dfy | `Objeto3D.py`: input normalisation, the transformation matrices, class `Objeto3D` and the perspective divide |
| `Camera` | transformator.dfy | `Transformator.py`: class `Transformator`, the camera state and its normalisation matrix |
| `Cubic` | cubic.dfy | the basis matrices, parameter sampling and the forward-difference accumulator shared by all curves |
| `Curves` | curves.dfy | `CurvaBezier.py` and `CurvaBSpline.py` |
| `BezierSurfaces` | bezier_surface.dfy | `BezierSurface.py` |
| `BSplineSurfaces` | bspline_surface.dfy | `BSplineSurface.py`, with its in-place table update on `array2<real>` |
| `ClipGeometry` | clip_geometry.dfy | windows, their presets and Cohen-Sutherland outcodes |
| `LineClip` | line_clip.dfy | Liang-Barsky, Cohen-Sutherland and the outcode loop the editor calls Nicholl-Lee-Nicholl |
| `PolygonClip` | polygon_clip.dfy | the Sutherland-Hodgman variant over edge lists |
| `CurveClip` | curve_clip.dfy | piecewise clipping of polylines |
| `Clipping` | clipper.dfy | class `Clipper`: window, algorithm selection and the clipping entry points |
| `Viewports` | viewport.dfy | `viewport_transform` |
| `DisplayFiles` | displayfile.dfy | class `DisplayFile`: the duplicate-free object list |
| `ObjFiles` | objfile.dfy | `OBJFileUtils.py`: the OBJ parser over token lists, and the exporter |

Each loop of the source is a method proved against a specification
function or against the property it promises.  The lemmas next to each
function state what the source promises of it: clipped points lie in the
window, the clip loop ends, curves pass through their end control points,
forward differencing equals direct evaluation, exported vertex numbers read
back as the same vertices, and so on.  Floating-point numbers are modelled
as `real`, and integers are unbounded.

## Model

| member | source | states |
|---|---|---|
| ClipGeometry.Preset | T1/src/TransformationUtils/Clipper.py:361-369 | the window presets exist for exactly "SCN", "NDC" and "DC", and each has min < max on both axes |
| ClipGeometry.Outcode | T1/src/TransformationUtils/Clipper.py:228-238 | the 4-bit region code of a point; pinned down by OutcodeBits (bit 1 left, 2 right, 4 below, 8 above, 0 exactly inside) and OutcodeOfLerp |
| ClipGeometry.OutcodeBits | T1/src/TransformationUtils/Clipper.py:228-238 | each outcode bit is set exactly when the point is beyond that side: 1 left, 2 right, 4 below, 8 above; code 0 means the point is in the window, borders included |
| ClipGeometry.OutcodeOfLerp | T1/src/TransformationUtils/Clipper.py:228-238 | a point between two endpoints has no outcode bit that neither endpoint has |
| ClipGeometry.Bits | T1/src/TransformationUtils/Clipper.py:308-337 | the number of set bits in an outcode is at most 4, and 0 only for code 0 (the measure by which the clipping loop ends) |
| ClipGeometry.BitsDecrease | T1/src/TransformationUtils/Clipper.py:308-337 | clearing a set bit, and adding none that was absent, strictly lowers the bit count |
| ClipGeometry.FirstBit | T1/src/TransformationUtils/Clipper.py:319-330 | the side tried first is a single bit, and one that is set in the code |
| ClipGeometry.GapSign | T1/src/TransformationUtils/Clipper.py:228-238 | an outcode bit is set exactly when the signed gap to that side is negative |
| ClipGeometry.InWindowGaps | T1/src/TransformationUtils/Clipper.py:16-19 | being in the window is the same as having no negative gap to any of the four sides |
| ClipGeometry.GapOfLerp | T1/src/TransformationUtils/Clipper.py:319-330 | the gap to a side varies affinely along a segment |
| ClipGeometry.LerpOfLerp | T1/src/TransformationUtils/Clipper.py:332-337 | a point of a sub-segment is the point of the whole segment at the composed parameter |
| ClipGeometry.CutParamInUnit | T1/src/TransformationUtils/Clipper.py:319-330 | when one end is beyond a side and the other is not, the crossing parameter g1/(g1-g2) exists and lies in [0, 1] |
| ClipGeometry.WindowEdges | T1/src/TransformationUtils/Clipper.py:141-148 | the window has four edges, each starting where the previous one ends, counter-clockwise and closing back on the first |
| ClipGeometry.Inside | T1/src/TransformationUtils/Clipper.py:66-83 | the cross-product test of `__inside`; pinned down by InsideIsPositiveSide (true exactly when the point is strictly left of the edge) |
| ClipGeometry.InsideIsPositiveSide | T1/src/TransformationUtils/Clipper.py:66-83 | __inside holds exactly when the point is strictly left of the directed edge; a point on the edge's line is outside |
| ClipGeometry.SideOfLerp | T1/src/TransformationUtils/Clipper.py:101-132 | the signed area term of the inside test varies affinely along a segment |
| ClipGeometry.ComputeIntersection | T1/src/TransformationUtils/Clipper.py:101-132 | None exactly when the segment is parallel to the edge's line (den == 0); otherwise a point on the edge's line, and the point of the segment at parameter s1/(s1-s2) |
| ClipGeometry.ProjectToWindowEdge | T1/src/TransformationUtils/Clipper.py:86-96 | each coordinate is clamped into the edge's bounding range, and left unchanged when it is already in it |
| LineClip.LBTerms | T1/src/TransformationUtils/Clipper.py:196-207 | there are four (p, q) tests: left, right, bottom, top |
| LineClip.MeetsIsInWindow | T1/src/TransformationUtils/Clipper.py:196-219 | a parameter passes all four tests p*u <= q exactly when its point is in the window |
| LineClip.DivideByDirection | T1/src/TransformationUtils/Clipper.py:214-219 | for p < 0 the test becomes a lower bound u >= q/p (u1 := max), and for p > 0 an upper bound u <= q/p (u2 := min) |
| LineClip.LBFold | T1/src/TransformationUtils/Clipper.py:208-219 | the loop over the four (p, q) tests narrowing [u1, u2], None for a parallel segment outside a side; pinned down by LBFoldExactAt (its interval is exactly the parameters meeting every test) and LBFoldBounds (each end is u1/u2 or some q / p) |
| LineClip.LBFoldExactAt | T1/src/TransformationUtils/Clipper.py:208-219 | the loop narrows [u1, u2] to exactly the parameters that pass every test; an early return means that none does |
| LineClip.LiangBarsky | T1/src/TransformationUtils/Clipper.py:196-225 | the result is empty or has two points |
| LineClip.LiangBarskyExact | T1/src/TransformationUtils/Clipper.py:196-225 | the parameter range found is exactly the set of visible parameters, and the result is the two endpoints of that range when u1 < u2, else empty |
| LineClip.LiangBarskyNonEmpty | T1/src/TransformationUtils/Clipper.py:220-225 | the result is non-empty exactly when the segment is visible at two distinct parameters u < v, and then both returned points are in the window; a segment whose two ends are one window point gives that point twice |
| LineClip.LiangBarskyInside | T1/src/TransformationUtils/Clipper.py:196-225 | a segment with both ends in the window comes back unchanged |
| LineClip.LiangBarskyOfVisible | T1/src/TransformationUtils/Clipper.py:196-225 | when the visible parameters are exactly [lo, hi] with lo < hi, the result is the points at lo and hi |
| LineClip.LiangBarskyAcross | T1/src/TransformationUtils/Clipper.py:196-225 | a horizontal segment inside the window's height that starts left of the window and ends right of it is cut at both vertical sides |
| LineClip.LiangBarskyCutsBothSides | T1/src/TransformationUtils/Clipper.py:196-225 | on the normalised window, (-2, 0)-(2, 0) is clipped to (-1, 0)-(1, 0) |
| LineClip.LBFoldBounds | T1/src/TransformationUtils/Clipper.py:208-219 | u1 ends as 0 or as the ratio q/p of a test with p < 0, and u2 ends as 1 or as the ratio of a test with p > 0 |
| LineClip.VerticalCrossing | T1/src/TransformationUtils/Clipper.py:319-324 | the crossing formula y = y1 + (y2-y1)(x-x1)/(x2-x1) is the segment point at parameter (x-x1)/(x2-x1) |
| LineClip.HorizontalCrossing | T1/src/TransformationUtils/Clipper.py:325-330 | likewise for the formula x = x1 + (x2-x1)(y-y1)/(y2-y1) |
| LineClip.CrossingIsCut | T1/src/TransformationUtils/Clipper.py:319-330 | the crossing computed for a side is the segment point where the gap to that side is zero |
| LineClip.NLNStep | T1/src/TransformationUtils/Clipper.py:308-337 | in one round, the end that is moved is the outside one and the crossing lies between the ends; the combined outcode loses a bit, so the loop terminates |
| LineClip.NLNClip | T1/src/TransformationUtils/Clipper.py:302-342 | the result is empty or has two points; the loop terminates on every input |
| LineClip.NLNCutFacts | T1/src/TransformationUtils/Clipper.py:308-337 | one round, followed on the original segment: the new parameter lies between the current ones, the bit count drops, and no visible parameter is cut away |
| LineClip.CutKeepsVisible | T1/src/TransformationUtils/Clipper.py:332-337 | moving the outside end to the boundary of the side it is beyond discards no visible parameter |
| LineClip.NLNRange | T1/src/TransformationUtils/Clipper.py:302-342 | the loop of nicholl_lee_nicholl followed on the original segment's parameters; pinned down by NLNRangeCorrect (the clip is the points at its two ends, and a parameter lies between them exactly when its point is in the window) |
| LineClip.NLNRangeCorrect | T1/src/TransformationUtils/Clipper.py:302-342 | starting from any sub-range that holds all visible parameters, the loop ends with exactly the visible range, or with nothing when no parameter is visible |
| LineClip.NLNExact | T1/src/TransformationUtils/Clipper.py:302-342 | on the whole segment, the result is the two ends of the visible range, or nothing when no parameter is visible |
| LineClip.NLNInside | T1/src/TransformationUtils/Clipper.py:339-342 | both returned points are in the window, and the result is empty exactly when no point of the segment is visible |
| LineClip.ClippersAgree | T1/src/TransformationUtils/Clipper.py:196-342 | when Liang-Barsky keeps something, Nicholl-Lee-Nicholl returns the same two points; when only one point is visible, it returns that point twice while Liang-Barsky returns nothing |
| LineClip.CSSlope | T1/src/TransformationUtils/Clipper.py:273 | the slope of a segment that is neither vertical nor horizontal is non-zero, so the divisions by m are defined |
| LineClip.CSClip | T1/src/TransformationUtils/Clipper.py:241-300 | the result is empty or has two points, for both ways of chaining the side tests |
| LineClip.CohenSutherlandAsWritten | T1/src/TransformationUtils/Clipper.py:279-296 | cohen_sutherland as written, with `elif` between left and right and between bottom and top; the result is empty or has two points |
| LineClip.CohenSutherland | T1/src/TransformationUtils/Clipper.py:241-300 | the corrected cohen_sutherland, which tries every side its outcode records; the result is empty or has two points |
| LineClip.CSPointAtX | T1/src/TransformationUtils/Clipper.py:274-275 | (x, yE) and (x, yD) are segment points at parameter (x-x1)/dx |
| LineClip.CSPointAtY | T1/src/TransformationUtils/Clipper.py:276-277 | (xT, y) and (xF, y) are segment points at parameter (y-y1)/dy |
| LineClip.CSRising | T1/src/TransformationUtils/Clipper.py:287-296 | with the ends ordered by x, xT > xF exactly when the segment rises, which decides which slot a bottom or top crossing fills |
| LineClip.CSHitIsVisible | T1/src/TransformationUtils/Clipper.py:279-298 | if some side test changed a slot, some point of the segment is visible |
| LineClip.CSEntryLeft | T1/src/TransformationUtils/Clipper.py:279-281 | when the visible part starts on the left side, the left test accepts |
| LineClip.CSEntryBottom | T1/src/TransformationUtils/Clipper.py:285-288 | when the visible part of a rising segment starts on the bottom side, the bottom test accepts and fills the first slot |
| LineClip.CSEntryTop | T1/src/TransformationUtils/Clipper.py:291-296 | when the visible part of a falling segment starts on the top side, the top test accepts and fills the first slot |
| LineClip.CSExitRight | T1/src/TransformationUtils/Clipper.py:282-284 | when the visible part ends on the right side, the right test accepts |
| LineClip.CSExitBottom | T1/src/TransformationUtils/Clipper.py:285-290 | when the visible part of a falling segment ends on the bottom side, the bottom test accepts and fills the second slot |
| LineClip.CSExitTop | T1/src/TransformationUtils/Clipper.py:291-294 | when the visible part of a rising segment ends on the top side, the top test accepts and fills the second slot |
| LineClip.CSSlots | T1/src/TransformationUtils/Clipper.py:279-296 | the two cut points the corrected cohen_sutherland fills, left/right before bottom/top; pinned down by CSFirstSlot and CSSecondSlot (each lands in the window when some part of the segment is visible) and CSGeneral |
| LineClip.CSFirstSlot | T1/src/TransformationUtils/Clipper.py:279-296 | with all sides tried, the first slot ends in the window whenever some point is visible |
| LineClip.CSSecondSlot | T1/src/TransformationUtils/Clipper.py:279-296 | with all sides tried, the second slot ends in the window whenever some point is visible |
| LineClip.CSAccept | T1/src/TransformationUtils/Clipper.py:250-252 | with both ends in the window the input comes back unchanged and in its original order |
| LineClip.CSReject | T1/src/TransformationUtils/Clipper.py:254-256 | with both ends beyond one side nothing comes back, and indeed no point of the segment is visible |
| LineClip.CSClamped | T1/src/TransformationUtils/Clipper.py:261-272 | a vertical or horizontal segment that is not rejected comes back clamped into the window coordinate by coordinate, and both points are in the window |
| LineClip.CSGeneral | T1/src/TransformationUtils/Clipper.py:273-298 | for a sloped segment, the slots change exactly when some point is visible, and then both slots are in the window |
| LineClip.CohenSutherlandInWindow | T1/src/TransformationUtils/Clipper.py:241-300 | the corrected clipper returns points in the window, and it returns something exactly when some point of the segment is visible |
| LineClip.CSSameVisible | T1/src/TransformationUtils/Clipper.py:244-245 | ordering the ends by x does not change whether the segment is visible |
| LineClip.CSClampedVisible | T1/src/TransformationUtils/Clipper.py:261-272 | a vertical or horizontal segment that is not rejected has a visible point |
| LineClip.CohenSutherlandAsWrittenLeavesEnd | T1/src/TransformationUtils/Clipper.py:279-284 | for the segment (-2, 0.5)-(2, 0.6) in the SCN window, the code as written returns the end (2, 0.6), which is outside the window; the corrected clipper returns (-1, 0.525)-(1, 0.575) |
| PolygonClip.EdgeOut | T1/src/TransformationUtils/Clipper.py:156-184 | both ends inside: the edge is kept; entering: the crossing, then the end point; leaving: the start point, then the crossing; both outside: both ends projected onto the window edge. The missing-intersection branch never happens |
| PolygonClip.Pass | T1/src/TransformationUtils/Clipper.py:150-187 | one pass against one window side yields two points per polygon edge, and the edge list (2k, 2k+1) |
| PolygonClip.PassAppend | T1/src/TransformationUtils/Clipper.py:156-184 | edge k appends its two points and the edge (2k, 2k+1) to what the earlier edges produced |
| PolygonClip.PassIndexes | T1/src/TransformationUtils/Clipper.py:156-187 | the edges a pass produces index the points it produces |
| PolygonClip.SidePasses | T1/src/TransformationUtils/Clipper.py:150-187 | the passes against the sides in turn keep the edges indexing the points; the loop stops early once the point list is empty |
| PolygonClip.MinOf | T1/src/TransformationUtils/Clipper.py:190-191 | Python's min of a non-empty list: a member that is at most every element |
| PolygonClip.MaxOf | T1/src/TransformationUtils/Clipper.py:190-191 | Python's max of a non-empty list: a member that is at least every element |
| PolygonClip.PassesShape | T1/src/TransformationUtils/Clipper.py:150-187 | after the four passes there are 2 * |edges| points and the edges (2k, 2k+1) |
| PolygonClip.InnerIsWindow | T1/src/TransformationUtils/Clipper.py:141-148 | a point is in the window exactly when it is on the inner side of all four window edges, borders included |
| PolygonClip.ProjectOntoSide | T1/src/TransformationUtils/Clipper.py:86-96 | a point projected onto a window side lies on that side's line and in the window |
| PolygonClip.CutStaysInner | T1/src/TransformationUtils/Clipper.py:159-177 | the crossing of an edge that straddles a side is on the inner side of every line both its ends are on |
| PolygonClip.EdgeOutInner | T1/src/TransformationUtils/Clipper.py:156-184 | both points an edge produces are on the inner side of the current side, and of every earlier side both its ends were on |
| PolygonClip.PassInner | T1/src/TransformationUtils/Clipper.py:150-187 | a pass against side m keeps the points on the inner side of the earlier sides and puts them on the inner side of m |
| PolygonClip.PassesInner | T1/src/TransformationUtils/Clipper.py:150-187 | the remaining passes end with every point on the inner side of all four sides |
| PolygonClip.SutherlandHodgmanInWindow | T1/src/TransformationUtils/Clipper.py:135-194 | every point sutherland_hodgman returns is in the window, and it returns either nothing or 2 * |edges| points with the edges (2k, 2k+1) |
| PolygonClip.SutherlandHodgmanEmpty | T1/src/TransformationUtils/Clipper.py:188-194 | the result is non-empty exactly when some clipped point lies left of xMax, some right of xMin, some below yMax and some above yMin |
| CurveClip.Step | T1/src/TransformationUtils/Clipper.py:50-60 | after a segment the new-curve flag is up exactly when that segment clipped to nothing, and pieces exist unless the flag is up |
| CurveClip.Pieces | T1/src/TransformationUtils/Clipper.py:44-62 | the flag is up at the start and after an empty segment; with the flag down there is at least one piece |
| CurveClip.StepShift | T1/src/TransformationUtils/Clipper.py:55-60 | a round never touches the pieces before the last one |
| CurveClip.PiecesNonEmpty | T1/src/TransformationUtils/Clipper.py:44-62 | no piece is empty |
| CurveClip.PiecesConcat | T1/src/TransformationUtils/Clipper.py:44-62 | the pieces hold exactly the points of the clipped segments, in order |
| CurveClip.PiecesSplit | T1/src/TransformationUtils/Clipper.py:50-53 | an empty segment splits the pieces: those before it and those after it |
| CurveClip.PiecesRun | T1/src/TransformationUtils/Clipper.py:55-60 | a run of segments that all keep something forms a single piece |
| Clipping.ClipLineWith | T1/src/TransformationUtils/Clipper.py:22-31 | the result is empty or two points; "L-B", "C-S" and "N-L-N" pick their algorithm, with C-S as written |
| Clipping.ClipLineWithCorrected | T1/src/TransformationUtils/Clipper.py:22-31 | the same dispatch with the corrected Cohen–Sutherland; it agrees with clip_line for every name but "C-S" |
| Clipping.ClipLineInWindow | T1/src/TransformationUtils/Clipper.py:22-31 | an unknown algorithm name gives nothing; whatever L-B and N-L-N return lies in the window; C-S as written returns a segment with both ends inside unchanged, nothing for a segment beyond one side, and window points for a vertical or horizontal segment |
| Clipping.ClipLineCorrectedInWindow | T1/src/TransformationUtils/Clipper.py:22-31 | with the corrected Cohen–Sutherland, whatever any algorithm returns lies in the window |
| Clipping.Segments | T1/src/TransformationUtils/Clipper.py:47-48 | fewer than two points give no segments; otherwise there is one clipped segment per pair of consecutive points |
| Clipping.ClipCurveInWindow | T1/src/TransformationUtils/Clipper.py:42-62 | no piece clip_curve returns is empty; with L-B or N-L-N every point of every piece is in the window |
| Clipping.ConcatInWindow | T1/src/TransformationUtils/Clipper.py:60 | joining lists of window points gives window points |
| Clipping.Clipper.constructor | T1/src/TransformationUtils/Clipper.py:2-13 | the window is the named preset, or the SCN bounds for an unknown name; the two algorithm names are stored as given |
| Clipping.Clipper.SetWindow | T1/src/TransformationUtils/Clipper.py:361-369 | SCN, NDC and DC replace the bounds; any other name leaves them unchanged; the bounds stay proper |
| Clipping.Clipper.SetClippingAlgorithm | T1/src/TransformationUtils/Clipper.py:372-378 | a line algorithm name replaces the line algorithm; "S-H", "NDC" or "DC" set the polygon algorithm to "S-H"; any other name changes nothing |
| Clipping.Clipper.ClipPoint | T1/src/TransformationUtils/Clipper.py:16-19 | the point comes back exactly when it is in the window, borders included, and otherwise nothing |
| Clipping.Clipper.LiangBarsky | T1/src/TransformationUtils/Clipper.py:196-225 | the loop over the four tests returns LineClip.LiangBarsky of the current window |
| Clipping.Clipper.NichollLeeNicholl | T1/src/TransformationUtils/Clipper.py:302-342 | the while loop returns LineClip.NLNClip of the current window |
| Clipping.Clipper.ClipLine | T1/src/TransformationUtils/Clipper.py:22-31 | dispatches on the stored line algorithm, as ClipLineWith, so "C-S" runs cohen_sutherland as written |
| Clipping.Clipper.ClipCurve | T1/src/TransformationUtils/Clipper.py:42-62 | the loop returns the pieces of the clipped consecutive segments |
| Clipping.Clipper.ClipAgainstEdge | T1/src/TransformationUtils/Clipper.py:151-187 | the inner loop over the polygon edges computes one pass against the side |
| Clipping.Clipper.SutherlandHodgman | T1/src/TransformationUtils/Clipper.py:135-194 | the two nested loops and the closing test compute PolygonClip.SutherlandHodgman of the current window |
| Clipping.Clipper.ClipPolygon | T1/src/TransformationUtils/Clipper.py:34-40 | Sutherland-Hodgman when the stored polygon algorithm is "S-H", otherwise two empty lists |
| Objects.CertifiedName | T1/src/Objetos/Objeto3D.py:246-248 | a name that is a string is kept; any other name becomes "obj" |
| Objects.CertifiedType | T1/src/Objetos/Objeto3D.py:261-270 | one point is always a Point and two points always a Line; with more points a Point or Line tag becomes a Wireframe, and every other tag is kept |
| Objects.NonEmptyInput | T1/src/Objetos/Objeto3D.py:249-251 | no coordinates at all become the single origin; a non-empty list is kept |
| Objects.CertifiedCoordsAsWritten | T1/src/Objetos/Objeto3D.py:245-300 | certify_format's coordinate rules as written (one 0.0 appended to a short point, the generator list for long points); one point per input point |
| Objects.CertifiedPoint | T1/src/Objetos/Objeto3D.py:282-293 | the intended treatment of a point: its first three values, with 0.0 for each missing one |
| Objects.CertifiedCoords | T1/src/Objetos/Objeto3D.py:245-302 | the corrected coordinate list: one 3-D point per input point, the origin for an empty input |
| Objects.CertifyAsWrittenCounterexamples | T1/src/Objetos/Objeto3D.py:282-293 | as written, [[5]] becomes [[5, 0]], still short of three values, and a 4-value point makes every point a copy of the last one; the corrected rules give (5, 0, 0), and (1, 2, 3), (5, 6, 7) |
| Objects.CertifyAgreesOnPlanarAndSpatial | T1/src/Objetos/Objeto3D.py:282-300 | when every point has two or three values, the code as written and the corrected rules agree |
| Objects.EdgeCycle | T1/src/Objetos/Objeto3D.py:29-32 | the default edge list has one edge per point |
| Objects.EdgeCycleIsClosed | T1/src/Objetos/Objeto3D.py:29-32 | edge i runs from point i to a valid point and the next edge starts where edge i ends; the last edge returns to point 0 |
| Objects.CalculateCoords | T1/src/Objetos/Objeto3D.py:219-227 | every point is mapped through the matrix as [x, y, z, 1] . M without the last entry, keeping count and order |
| Objects.SumApply | T1/src/Objetos/Objeto3D.py:141-142 | the sum of the mapped points is the map applied to the sum, with the point count as homogeneous coordinate |
| Objects.Mean | T1/src/Objetos/Objeto3D.py:141-142 | geometric_center, the mean of the points axis by axis; pinned down by MeanApply (the center of the image under a matrix is the image of the center) and ScaledKeepsCenter |
| Objects.MeanApply | T1/src/Objetos/Objeto3D.py:141-142 | the geometric center of the mapped points is the mapped geometric center, for any matrix |
| Objects.Translated | T1/src/Objetos/Objeto3D.py:34-36 | translation moves every point by (dx, dy, dz), keeping count and order |
| Objects.ScalingAboutIsProduct | T1/src/Objetos/Objeto3D.py:38-47 | the product T(-c) . S . T(c) that scaling builds is the scaling about c in closed form |
| Objects.ApplyScalingAbout | T1/src/Objetos/Objeto3D.py:38-47 | scaling about c sends p to c + s * (p - c), axis by axis |
| Objects.Scaled | T1/src/Objetos/Objeto3D.py:38-47 | scaling keeps the number of points |
| Objects.ScaledPoints | T1/src/Objetos/Objeto3D.py:38-47 | scaling sends each point p to c + s * (p - c), where c is the geometric center |
| Objects.ScaledKeepsCenter | T1/src/Objetos/Objeto3D.py:38-47 | scaling leaves the geometric center where it was |
| Objects.ScaledByOne | T1/src/Objetos/Objeto3D.py:38-47 | scaling by (1, 1, 1) changes nothing |
| Objects.ScaledFlattens | T1/src/Objetos/Objeto3D.py:38 | with scaling's default sz = 0, every point lands in the plane z = cz |
| Objects.AuxFactors | T1/src/Objetos/Objeto3D.py:157-185 | __aux_rotation multiplies seven factors |
| Objects.VectorAngle | T1/src/Objetos/Objeto3D.py:144-155 | the two angles that turn the direction p1 → p2 onto the z axis; pinned down by VectorAngleAlongZ (a direction already along z needs no turn) |
| Objects.VectorAngleAlongZ | T1/src/Objetos/Objeto3D.py:144-155 | a direction along the z axis has no x angle and no y angle |
| Objects.RotationsFixOrigin | T1/src/Objetos/Objeto3D.py:108-139 | the three axis rotation matrices fix the origin |
| Objects.AuxProductFixesPivot | T1/src/Objetos/Objeto3D.py:157-185 | the seven factors compose to a matrix that leaves the pivot P where it is, whatever the turn angles |
| Objects.AuxRotation | T1/src/Objetos/Objeto3D.py:157-185 | `__aux_rotation`, the product of the translation, the axis turns, the rotation and their undoing; pinned down by AuxRotationFixesPivot (the pivot point stays where it is) |
| Objects.AuxRotationFixesPivot | T1/src/Objetos/Objeto3D.py:157-185 | the matrix of __aux_rotation leaves its pivot P where it is |
| Objects.Rotated | T1/src/Objetos/Objeto3D.py:49-80 | rotation keeps the number of points, and an unknown type text leaves the points unchanged |
| Objects.RotatedAboutAxis | T1/src/Objetos/Objeto3D.py:58-63 | rotation about Z is the planar rotation of (x, y) with z kept; rotation about X keeps x; rotation about Y keeps y |
| Objects.ZRotationApply | T1/src/Objetos/Objeto3D.py:130-139 | the Z matrix maps (x, y, z) to (x c - y s, x s + y c, z) |
| Objects.TranslationMatrix | T1/src/Objetos/Objeto3D.py:102-104 | the homogeneous translation matrix; pinned down by Translated (every point moves by (dx, dy, dz)) |
| Objects.ScalingMatrix | T1/src/Objetos/Objeto3D.py:105-106 | the diagonal scaling matrix; pinned down by ScalingAboutIsProduct (with the two translations it scales about a center) and ScaledPoints |
| Objects.XRotationMatrix | T1/src/Objetos/Objeto3D.py:108-117 | rotation about x by an angle in degrees; pinned down by XRotationApply, XRotationKeepsRadius and RotationsFixOrigin |
| Objects.YRotationMatrix | T1/src/Objetos/Objeto3D.py:119-128 | rotation about y; pinned down by YRotationApply, YRotationKeepsRadius and RotationsFixOrigin |
| Objects.ZRotationMatrix | T1/src/Objetos/Objeto3D.py:130-139 | rotation about z; pinned down by ZRotationApply, ZRotationKeepsRadius and RotationsFixOrigin |
| Objects.XRotationApply | T1/src/Objetos/Objeto3D.py:108-117 | the X matrix maps (x, y, z) to (x, y c - z s, y s + z c) |
| Objects.YRotationApply | T1/src/Objetos/Objeto3D.py:119-128 | the Y matrix maps (x, y, z) to (x c + z s, y, z c - x s) |
| Objects.RotationKeepsRadius | T1/src/Objetos/Objeto3D.py:108-139 | rotation about a principal axis keeps each point's distance from that axis |
| Objects.RotatedKeepsPivot | T1/src/Objetos/Objeto3D.py:56-75 | the center rotations leave the geometric center unchanged, and an any-axis rotation leaves every point equal to p1 where it is |
| Objects.ApplyOne | T1/src/Objetos/Objeto3D.py:85-100 | one queued transformation keeps the number of points |
| Objects.ApplyAll | T1/src/Objetos/Objeto3D.py:82-100 | the whole queue keeps the number of points |
| Objects.ApplyAllAppend | T1/src/Objetos/Objeto3D.py:84 | applying two queues one after the other is applying their concatenation, so the queue order is the order of application |
| Objects.PerspectiveNormalized | T1/src/Objetos/Objeto3D.py:229-241 | any point in front of the plane z = d gives an empty result; otherwise one projected point per point, in order |
| Objects.Objeto3D.constructor | T1/src/Objetos/Objeto3D.py:19-32 | name, corrected coordinates and type are certified; the colour is stored; given edges are kept and their order matters; with none given, the edges form the closed cycle and order does not matter |
| Objects.Objeto3D.CertifyFormat | T1/src/Objetos/Objeto3D.py:243-303 | the name, the corrected coordinate list and the type tag are set by the certify rules |
| Objects.Objeto3D.PadPoint | T1/src/Objetos/Objeto3D.py:282-293 | the corrected padding loop gives the point's first three values, with 0.0 for each missing one |
| Objects.Objeto3D.Translation | T1/src/Objetos/Objeto3D.py:34-36 | the new coordinates are the old ones translated |
| Objects.Objeto3D.Scaling | T1/src/Objetos/Objeto3D.py:38-47 | the new coordinates are the old ones scaled about the old geometric center |
| Objects.RotationMatrix | T1/src/Objetos/Objeto3D.py:54-78 | the matrix rotation() picks for a type string, None for an unknown string; pinned down by RotatedAboutAxis, RotatedKeepsPivot and DefaultRotationApplied |
| Objects.Objeto3D.RotationMatrixFor | T1/src/Objetos/Objeto3D.py:54-78 | the if/elif chain picks the matrix RotationMatrix names, or none for an unknown type text |
| Objects.Objeto3D.Rotation | T1/src/Objetos/Objeto3D.py:49-80 | the new coordinates are the old ones rotated; an unknown type text, such as the default "RotationType.Z", leaves them unchanged |
| Objects.Objeto3D.ApplyTransformation | T1/src/Objetos/Objeto3D.py:85-100 | one request is dispatched on its kind, and a translation's deltas go through the vector function first |
| Objects.Objeto3D.ApplyTransformations | T1/src/Objetos/Objeto3D.py:82-100 | the loop applies the queue front to back |
| Objects.Objeto3D.PerspectiveNormalizedCoords | T1/src/Objetos/Objeto3D.py:229-241 | the loop returns PerspectiveNormalized of the current points |
| Transformations.Value | T1/src/TransformationUtils/Transformations.py:11-18 | every member's value is between 0 and 6 |
| Transformations.FromName | T1/src/Objetos/Objeto3D.py:56-78 | the member found for a text has that text as its str() form |
| Transformations.ValuesAreExactlyZeroToSix | T1/src/TransformationUtils/Transformations.py:11-18 | there are exactly seven members, valued 0 to 6 in declaration order, and distinct members have distinct values |
| Transformations.FromNameOfName | T1/src/Objetos/Objeto3D.py:56-78 | the rotation dispatch recognises the str() form of every member, and gives back that member |
| Transformations.DefaultRotationTypeUnknown | T1/src/Objetos/Objeto3D.py:50 | the default rotation text "RotationType.Z" matches no member |
| Objects.DefaultMovesApplied | T1/src/Objetos/Objeto3D.py:82-99 | a two-value translation request moves every point by the image of (dx, dy, 0) under the unrotation function; a two-value scaling request scales x and y about the geometric center, keeps every z and leaves the center where it was |
| Objects.DefaultRotationApplied | T1/src/Objetos/Objeto3D.py:82-99 | an any-axis rotation request about the default axis points (both the origin) keeps a point at the origin in place; a request whose type string names no rotation changes nothing |
| Camera.ParallelProjection | T1/src/TransformationUtils/Transformator.py:44-54 | the projection matrix built from the COP and the VPN; pinned down by ParallelProjectionIsTranslation (with the normal straight ahead it only moves the COP to the origin) |
| Camera.ParallelProjectionIsTranslation | T1/src/TransformationUtils/Transformator.py:44-54 | when the normal lies straight above the centre of projection, T . Rx(-Qx) . Ry(-Qy) is the bare translation by -cop |
| Camera.NoTurns | T1/src/TransformationUtils/Transformator.py:49-54 | the two turns drop out of the product when both vector angles are zero |
| Camera.Normalization | T1/src/TransformationUtils/Transformator.py:32-42 | the normalization matrix of set_normalization_matrix; pinned down by NormalizationTranslatesFirst (translate, rotate by θ, scale by 2 · factor / size) and NormalizationAtStart (the initial camera only scales) |
| Camera.NormalizationTranslatesFirst | T1/src/TransformationUtils/Transformator.py:32-42 | with the normal above a centre of projection on z = 0, the normalisation is the translation by -cop, then the view-up rotation, then the scaling by 2 f / width and 2 f / height |
| Camera.NormalizationAtStart | T1/src/TransformationUtils/Transformator.py:30-42 | at the start (centre of projection at the origin, no view-up angle) the normalisation is the bare scaling |
| Camera.Translate | T1/src/TransformationUtils/Transformator.py:104-107 | moving the centre by T(dx, dy, 0) adds (dx, dy) to it and keeps z and w |
| Camera.ZeroRotations | T1/src/Objetos/Objeto3D.py:108-139 | a rotation by zero degrees about any axis is the identity |
| Camera.UnrotateUndoesRotate | T1/src/TransformationUtils/Transformator.py:65-69 | rotating about z by -a undoes rotating by a |
| Camera.Transformator.constructor | T1/src/TransformationUtils/Transformator.py:6-30 | the window is [0, width] x [0, height]; centre (0, 0, dop, 1), centre of projection at the origin, normal (0, 0, dop + 1), view-up (0, 1, 0, 1) at angle 0, scaling factor 1, and the normalisation matrix the scaling by 2 / width and 2 / height |
| Camera.Transformator.SetNormalizationMatrix | T1/src/TransformationUtils/Transformator.py:32-42 | a non-zero angle turns the view-up vector by that angle, angle 0 keeps it; the matrix is the normalisation for the current centre of projection, normal, view-up angle, scaling factor and window size |
| Camera.Transformator.UpdateViewUpVector | T1/src/TransformationUtils/Transformator.py:56-63 | a non-zero angle turns the view-up vector about z by that angle and the view-up angle is recomputed from it; angle 0 changes neither |
| Camera.Transformator.UnrotateVector | T1/src/TransformationUtils/Transformator.py:65-69 | (dx, dy, dz) turned about z by minus the view-up angle |
| Camera.Transformator.UnrotateInvertsViewUp | T1/src/TransformationUtils/Transformator.py:65-69 | unrotating a vector that was turned by the view-up angle gives it back |
| Camera.Transformator.SetScalingFactor | T1/src/TransformationUtils/Transformator.py:96-98 | the scaling factor takes the new value |
| Camera.Transformator.UpdateCenter | T1/src/TransformationUtils/Transformator.py:104-109 | the centre moves by the unrotated (dx, dy) in its plane; the normal becomes the centre plus one in z, and the centre of projection the centre dropped to z = 0 |
| Camera.PerspectiveWithMper | T1/src/Objetos/Objeto3D.py:229-241 | with the camera's Mper no point at or beyond the projection plane divides by zero, and each projects to the first two entries of (x d / z, y d / z, d, 1) . N |
| Camera.PerspectiveMatrix | T1/src/TransformationUtils/Transformator.py:18-21 | Mper, the identity with last row (0, 0, 1/d, 0); pinned down by PerspectivePoint (a point at depth z ≥ d projects to (x · d / z, y · d / z)) and PerspectiveWithMper |
| Camera.PerspectivePoint | T1/src/TransformationUtils/Transformator.py:18-21 | Mper gives w = z / d, so dividing by w multiplies x and y by d / z |
| Cubic.SpacedEnds | T1/src/Objetos/CurvaBezier.py:34 | the evenly spaced parameters start at 0 and end at 1 |
| Cubic.AccumulateStep | T1/src/Objetos/CurvaBSpline.py:51-64 | one round of the accumulator turns the value after k rounds into the value after k + 1 rounds |
| Cubic.AccumulatedEvaluates | T1/src/Objetos/CurvaBSpline.py:27-34 | started from E(d) . c, the accumulator holds after k rounds the value of the cubic c at k d |
| Cubic.FwdDiff | T1/src/Objetos/CurvaBSpline.py:51-64 | the loop returns n + 1 points, point k being the start value plus k times the first difference, C(k,2) times the second and C(k,3) times the third |
| Cubic.BezierBasisStart | T1/src/Objetos/CurvaBezier.py:12-19 | at t = 0 the Bezier basis selects the first control value |
| Cubic.BezierBasisEnd | T1/src/Objetos/CurvaBezier.py:12-19 | at t = 1 the Bezier basis selects the last control value |
| Cubic.SplineBasisEnds | T1/src/Objetos/CurvaBSpline.py:17-22 | the B-spline weights are (1, 4, 1, 0) / 6 at t = 0 and (0, 1, 4, 1) / 6 at t = 1 |
| Cubic.SplineConstant | T1/src/Objetos/CurvaBSpline.py:17-22 | the B-spline weights sum to one, so equal control values give a constant cubic |
| Cubic.DeltaMatrix | T1/src/Objetos/CurvaBSpline.py:27-34 | the forward-difference matrix E for step d; pinned down by BinomialsDelta and AccumulatedEvaluates (accumulating E · c k times evaluates the cubic at k · d) |
| Cubic.Powers | T1/src/Objetos/BezierSurface.py:86-88 | the vector [u³, u², u, 1]; pinned down by PowersEnds and BinomialsDelta |
| Cubic.BinomialsDelta | T1/src/Objetos/CurvaBSpline.py:27-34 | the binomial weights times E(d) are the powers of k d |
| Cubic.GridFromAt | T1/src/Objetos/BSplineSurface.py:98-111 | entry (r, q) of a 4 x 4 patch taken from the points with row stride n is point start + r n + q |
| Curves.SegmentsFit | T1/src/Objetos/CurvaBezier.py:24-28 | the last segment's four control points are in range |
| Curves.LoopBound | T1/src/Objetos/CurvaBezier.py:25 | `range(0, N - 2 - (N - 1) % 3, 3)` visits 3 j exactly for j below (N - 1) / 3, and nothing when N < 4 |
| Curves.CalculateCurvePiece | T1/src/Objetos/CurvaBezier.py:32-46 | the loop gives the 100 points T . MB . G at the evenly spaced t |
| Curves.GenerateBezierCurve | T1/src/Objetos/CurvaBezier.py:21-30 | the loop gives the segments one after the other |
| Curves.BezierPointStart | T1/src/Objetos/CurvaBezier.py:32-46 | a segment passes through its first control point at t = 0 |
| Curves.BezierPointEnd | T1/src/Objetos/CurvaBezier.py:32-46 | a segment passes through its last control point at t = 1 |
| Curves.BezierPieceStart | T1/src/Objetos/CurvaBezier.py:32-46 | a segment has 100 points and starts at its first control point |
| Curves.BezierPieceEnd | T1/src/Objetos/CurvaBezier.py:32-46 | a segment has 100 points and ends at its last control point |
| Curves.BezierUpToSamples | T1/src/Objetos/CurvaBezier.py:21-30 | j segments give 100 j points, point 100 j + k being point k of segment j |
| Curves.BezierPiece | T1/src/Objetos/CurvaBezier.py:32-46 | one segment sampled at 100 evenly spaced parameters; pinned down by BezierPieceStart and BezierPieceEnd (it starts at the first control point and ends at the fourth) |
| Curves.BezierCurve | T1/src/Objetos/CurvaBezier.py:21-30 | the segments of a control polygon, 3 points apart; pinned down by BezierCurveSamples (sample n is segment n / 100 at parameter (n mod 100) / 99; fewer than 4 points give nothing) |
| Curves.BezierCurveSamples | T1/src/Objetos/CurvaBezier.py:21-46 | fewer than 4 control points give nothing; otherwise (N - 1) / 3 segments of 100 points, point n being segment n / 100 sampled at t = (n % 100) / 99 |
| Curves.BezierCurveAt | T1/src/Objetos/CurvaBezier.py:21-30 | point 100 j + k of the curve is point k of segment j, whose control points are 3 j .. 3 j + 3 |
| Curves.BezierSegmentsJoin | T1/src/Objetos/CurvaBezier.py:23-28 | consecutive segments join: the last point of one and the first point of the next are both control point 3 j + 3 |
| Curves.BezierSegmentLast | T1/src/Objetos/CurvaBezier.py:23-28 | the last point of segment j is control point 3 j + 3 |
| Curves.BezierSegmentFirst | T1/src/Objetos/CurvaBezier.py:23-28 | the first point of segment j is control point 3 j |
| Curves.BezierUpToPrefix | T1/src/Objetos/CurvaBezier.py:25-28 | control points after the last segment it uses are never read |
| Curves.BezierIgnoresTail | T1/src/Objetos/CurvaBezier.py:25 | the curve of N control points is the curve of its first 3 S + 1 points |
| Curves.FwdDiffWindow | T1/src/Objetos/CurvaBSpline.py:36-64 | forward differencing a window with step 1/10 gives the window's cubic evaluated directly at t = k / 10 |
| Curves.GenerateBSplineCurve | T1/src/Objetos/CurvaBSpline.py:36-49 | the loop gives the windows one after the other |
| Curves.SplineEvalEnds | T1/src/Objetos/CurvaBSpline.py:17-22 | the B-spline cubic of control values v is (v0 + 4 v1 + v2) / 6 at t = 0 and (v1 + 4 v2 + v3) / 6 at t = 1 |
| Curves.SplineWindowEnds | T1/src/Objetos/CurvaBSpline.py:36-49 | a window has 11 points, from (g0 + 4 g1 + g2) / 6 to (g1 + 4 g2 + g3) / 6 |
| Curves.SplineUpToSamples | T1/src/Objetos/CurvaBSpline.py:36-49 | i windows give 11 i points, point n being point n % 11 of window n / 11 |
| Curves.SplineWindow | T1/src/Objetos/CurvaBSpline.py:39-64 | the cubic of one window of 4 control points evaluated at k / 10; pinned down by FwdDiffWindow (the forward-difference loop computes it) and SplineWindowEnds |
| Curves.BSplineCurve | T1/src/Objetos/CurvaBSpline.py:36-49 | the windows of a control polygon, one point apart; pinned down by BSplineCurveSamples (11 samples per window, fewer than 4 points give nothing) |
| Curves.BSplineCurveSamples | T1/src/Objetos/CurvaBSpline.py:36-64 | fewer than 4 control points give nothing; otherwise 11 (N - 3) points, point n being window n / 11's cubic at t = (n % 11) / 10 |
| Curves.BSplineWindowsJoin | T1/src/Objetos/CurvaBSpline.py:36-49 | the last point of a window is the first point of the next, so it appears twice in the output |
| Curves.SplineWindowConstant | T1/src/Objetos/CurvaBSpline.py:36-64 | four equal control points give a window that stays at that point |
| BezierSurfaces.BezierPatch | T1/src/Objetos/BezierSurface.py:65-73 | calculate_piece, 50 sub-curves of 50 samples of Q; pinned down by CalculatePiece, BezierPatchCorners and BezierPatchTranspose |
| BezierSurfaces.CalculatePiece | T1/src/Objetos/BezierSurface.py:65-73 | the two nested loops give the 50 sub-curves of 50 points Q(s_m, t_k) of the patch |
| BezierSurfaces.GenerateCurve | T1/src/Objetos/BezierSurface.py:49-62 | one grid gives its patch followed by the patch of its transpose |
| BezierSurfaces.GenerateCurves | T1/src/Objetos/BezierSurface.py:33-47 | the result is the surface of the control points: an error unless their number is a multiple of 16, otherwise the patches block by block |
| BezierSurfaces.BezierSurface | T1/src/Objetos/BezierSurface.py:33-47 | the surface of a list of control points, in blocks of 16; pinned down by BezierSurfaceErrors (an error exactly when the count is no multiple of 16) and BezierBlocksShape |
| BezierSurfaces.BezierSurfaceErrors | T1/src/Objetos/BezierSurface.py:33-37 | the error comes exactly when the count is not a multiple of 16; no control points give no curves |
| BezierSurfaces.BezierBlocksShape | T1/src/Objetos/BezierSurface.py:33-47 | b blocks give 100 b sub-curves; sub-curve n comes from block n / 100, whose grid is laid out row by row from point 16 (n / 100) |
| BezierSurfaces.BezierPatchCurvesShape | T1/src/Objetos/BezierSurface.py:49-73 | a block gives 100 sub-curves of 50 points: the first 50 are Q of the grid along t, the other 50 Q of the transposed grid |
| BezierSurfaces.BezierWeights | T1/src/Objetos/BezierSurface.py:76-83 | the right-hand weights MB^T . T(t) are the left-hand weights S(t) . MB |
| BezierSurfaces.BezierQ | T1/src/Objetos/BezierSurface.py:76-83 | Q(s, t, G); pinned down by BezierCorner00 to BezierCorner11 (the corners are the corner control points) and BezierQTranspose |
| BezierSurfaces.BezierCorner00 | T1/src/Objetos/BezierSurface.py:76-83 | Q(0, 0) is control point G[0][0] |
| BezierSurfaces.BezierCorner01 | T1/src/Objetos/BezierSurface.py:76-83 | Q(0, 1) is control point G[0][3] |
| BezierSurfaces.BezierCorner10 | T1/src/Objetos/BezierSurface.py:76-83 | Q(1, 0) is control point G[3][0] |
| BezierSurfaces.BezierCorner11 | T1/src/Objetos/BezierSurface.py:76-83 | Q(1, 1) is control point G[3][3] |
| BezierSurfaces.BezierPatchCorners | T1/src/Objetos/BezierSurface.py:65-88 | the patch passes through its four corner control points, at the ends of its first and last sub-curves |
| BezierSurfaces.BezierQTranspose | T1/src/Objetos/BezierSurface.py:49-62 | Q of the transposed grid at (s, t) is Q of the grid at (t, s) |
| BezierSurfaces.BezierPatchTranspose | T1/src/Objetos/BezierSurface.py:49-62 | point k of transposed sub-curve m is point m of direct sub-curve k, so the second half draws the other direction of the same surface |
| BSplineSurfaces.FloorSqrt | T1/src/Objetos/BSplineSurface.py:26 | the integer square root: r^2 <= count < (r + 1)^2 |
| BSplineSurfaces.RootBelow | T1/src/Objetos/BSplineSurface.py:26-28 | the root is below k exactly when the count is below k^2 |
| BSplineSurfaces.BSplineSurface | T1/src/Objetos/BSplineSurface.py:24-42 | the surface of a square grid of control points; pinned down by GridSideSpec (which counts are errors) and BSplineSurfaceRows (a grid of side n gives the rows of patches) |
| BSplineSurfaces.GridSideSpec | T1/src/Objetos/BSplineSurface.py:24-31 | the size error comes exactly for fewer than 16 or at least 441 points; the side is returned exactly when the count is n^2 with 4 <= n <= 20; the square error comes exactly for the other counts between |
| BSplineSurfaces.RowStartIsProduct | T1/src/Objetos/BSplineSurface.py:38 | grid row r starts at control point r n |
| BSplineSurfaces.SplinePatchLayout | T1/src/Objetos/BSplineSurface.py:36-41 | entry (r, q) of patch (i, j) is control point (i + r) n + j + q |
| BSplineSurfaces.SplinePatchSweeps | T1/src/Objetos/BSplineSurface.py:44-69 | a patch's curves are the sweep of its two difference tables followed by the sweep of their transposes |
| BSplineSurfaces.SweptTableRow | T1/src/Objetos/BSplineSurface.py:98-111 | after m row updates, row 0 of the difference table is the bicubic's coefficient row at s = m d times E(d)^T |
| BSplineSurfaces.TableRowAt | T1/src/Objetos/BSplineSurface.py:51-61 | the binomial weights for m taken through E . C . E^T give the coefficient row at s = m d times E^T |
| BSplineSurfaces.RowThroughProduct | T1/src/Objetos/BSplineSurface.py:51-61 | a weight vector b with b . E = p, taken through E . C . E^T, gives p . C . E^T |
| BSplineSurfaces.Coefficients | T1/src/Objetos/BSplineSurface.py:55-59 | MBS · G · MBSᵀ; pinned down by CoefficientsBlend (the bicubic it gives is the B-spline blend of the 16 points) |
| BSplineSurfaces.DifferenceTable | T1/src/Objetos/BSplineSurface.py:52-62 | E_s · C · E_tᵀ; pinned down by TableRowAt and SweptTableRow (after m row updates the table's first row is the curve at s = m · d) |
| BSplineSurfaces.Sweep | T1/src/Objetos/BSplineSurface.py:98-111 | the sub-curves `__create_subcurve` collects; pinned down by SweepEvaluates (each sample is the bicubic at (m · d, k · d)) and SplinePatchDirect |
| BSplineSurfaces.SweepEvaluates | T1/src/Objetos/BSplineSurface.py:71-111 | after m row updates and k accumulation rounds the table holds the bicubic at (m d, k d) |
| BSplineSurfaces.SplinePatchDirect | T1/src/Objetos/BSplineSurface.py:44-111 | point k of sub-curve m, for m, k <= 20, is S(s) . MBS . G . MBS^T . T(t)^T at s = m / 19 and t = k / 19 |
| BSplineSurfaces.SplinePatchTransposed | T1/src/Objetos/BSplineSurface.py:62-67 | point k of sub-curve 21 + m is point m of sub-curve k: the second sweep draws the other direction |
| BSplineSurfaces.SplinePatchStart | T1/src/Objetos/BSplineSurface.py:44-111 | the first point of a patch is w . G . w^T for w = (1, 4, 1, 0) / 6 |
| BSplineSurfaces.SplinePatchConstant | T1/src/Objetos/BSplineSurface.py:44-111 | a patch whose control points are all P draws 42 sub-curves of 21 points, every one of them P |
| BSplineSurfaces.SplineRowsAt | T1/src/Objetos/BSplineSurface.py:33-42 | patch (ii, jj) supplies the 42 sub-curves starting at 42 ((n - 3) ii + jj), and the rows hold 42 (n - 3) per patch row |
| BSplineSurfaces.BSplineSurfaceRows | T1/src/Objetos/BSplineSurface.py:24-42 | an accepted n x n grid is drawn as its patch rows 0 .. n - 4 |
| BSplineSurfaces.NewTable | T1/src/Objetos/BSplineSurface.py:63-64 | a fresh 4 x 4 array holding the matrix |
| BSplineSurfaces.RowUpdate | T1/src/Objetos/BSplineSurface.py:106-109 | the in-place update adds to each of rows 0 to 2 the row below it, row 3 unchanged, on both tables |
| BSplineSurfaces.CreateSubcurve | T1/src/Objetos/BSplineSurface.py:98-111 | main_n + 1 sub-curves, sub-curve m being minor_n rounds of forward differencing on row 0 of the table after m row updates; afterwards each table holds its contents after main_n + 1 row updates |
| BSplineSurfaces.GenerateSplinePatch | T1/src/Objetos/BSplineSurface.py:44-69 | the curves of one patch |
| BSplineSurfaces.GenerateCurves | T1/src/Objetos/BSplineSurface.py:24-42 | the result is the surface of the control points, with the size error and the square error in the source's order |
| BSplineSurfaces.GeneratePatches | T1/src/Objetos/BSplineSurface.py:33-42 | the outer loop gives patch rows 0 .. n - 4 one after the other |
| BSplineSurfaces.GeneratePatchRow | T1/src/Objetos/BSplineSurface.py:35-42 | the inner loop gives patches 0 .. n - 4 of the row, left to right |
| LinAlg.VecMatMul | T1/src/Objetos/Objeto3D.py:82-100 | multiplying a point by a . b is multiplying by a, then by b, so a chain of transformations can be folded into one matrix |
| LinAlg.VecMatProduct | T1/src/Objetos/Objeto3D.py:82-100 | multiplying by a product of several factors is multiplying by all but the last, then by the last |
| LinAlg.MatVecTranspose | T1/src/Objetos/BezierSurface.py:76-83 | M^T . v is v . M |
| LinAlg.DotTranspose | T1/src/Objetos/BezierSurface.py:76-83 | transposing the matrix of a bilinear form swaps its arguments |
| LinAlg.VecMatAdd | T1/src/Objetos/BSplineSurface.py:106-109 | the row product distributes over a sum of row vectors |
| Viewports.ViewportTransform | T1/src/ViewPort.py:67-70 | vx = (x + 1) / 2 · width + border and vy = (1 − (y + 1) / 2) · height + border; pinned down by ViewportCorners, ViewportMonotone and ViewportRoundTrip |
| Viewports.ViewportCorners | T1/src/ViewPort.py:67-70 | the normalised corner (-1, 1) lands at (border, border), (1, -1) one width and one height further, and the centre in the middle of the drawing area |
| Viewports.ViewportMonotone | T1/src/ViewPort.py:67-70 | for a drawing area of positive size vx grows strictly with x and vy falls strictly as y grows |
| Viewports.ViewportRoundTrip | T1/src/ViewPort.py:67-70 | the viewport transform and the mapping from canvas pixels back to the normalised plane undo each other |
| DisplayFiles.Added | T1/src/WindowUtilis/DisplayFile.py:12-15 | add_object's list; pinned down by AddedSpec (appended once when new and not None, otherwise unchanged; adding twice is adding once) |
| DisplayFiles.AddedSpec | T1/src/WindowUtilis/DisplayFile.py:12-15 | adding keeps the list duplicate-free and its old entries in front; the object is in the result exactly when it is an object; a listed object is not added again, and adding twice is adding once |
| DisplayFiles.FirstIndex | T1/src/WindowUtilis/DisplayFile.py:19 | the position `list.remove` finds: it holds the object and no earlier position does |
| DisplayFiles.Removed | T1/src/WindowUtilis/DisplayFile.py:17-19 | the list after list.remove; pinned down by RemovedSpec (the first occurrence is deleted, an absent object changes nothing) and RemovedKeepsDistinct |
| DisplayFiles.RemovedSpec | T1/src/WindowUtilis/DisplayFile.py:17-19 | removing an absent object changes nothing; removing a listed one cuts out its first occurrence and keeps the rest in order |
| DisplayFiles.RemovedKeepsDistinct | T1/src/WindowUtilis/DisplayFile.py:17-19 | on a duplicate-free list, removing leaves it duplicate-free, with exactly the other objects |
| DisplayFiles.DisplayFile.constructor | T1/src/WindowUtilis/DisplayFile.py:7-8 | the display file starts empty |
| DisplayFiles.DisplayFile.AddObject | T1/src/WindowUtilis/DisplayFile.py:12-15 | the list becomes the list with the object appended when it is a new object, and keeps no duplicates |
| DisplayFiles.DisplayFile.RemoveObject | T1/src/WindowUtilis/DisplayFile.py:17-19 | the list loses the first occurrence of the object, and keeps no duplicates |
| BSplineSurfaces.GridSideOfSquare | T1/src/Objetos/BSplineSurface.py:24-31 | every n x n grid with 4 <= n <= 20 is accepted with side n |
| BSplineSurfaces.SplinePatchShape | T1/src/Objetos/BSplineSurface.py:44-69 | each patch gives 42 sub-curves of 21 points |
| BSplineSurfaces.PatchCurvesAt | T1/src/Objetos/BSplineSurface.py:36-41 | the patch taken from control point i n + j is patch (i, j) of the grid |
| BSplineSurfaces.SweepTransposed | T1/src/Objetos/BSplineSurface.py:63-67 | sweeping the transposed table swaps the roles of the row updates and the accumulation rounds |
| ObjFiles.Decimal | T1-10-grupo3/src/OBJFileUtils.py:289 | `str` of a natural number is a non-empty run of digits |
| ObjFiles.DecimalValue | T1-10-grupo3/src/OBJFileUtils.py:98 | the digits of `str(n)` read back as n |
| ObjFiles.ParseDecimal | T1-10-grupo3/src/OBJFileUtils.py:98 | `int(str(n))` is n, and `str(n)` holds no "-" |
| ObjFiles.ParseNegative | T1-10-grupo3/src/OBJFileUtils.py:113-115 | a "-" before a run of digits parses as minus their value and is a token with "-" in it |
| ObjFiles.ParseIntString | T1-10-grupo3/src/OBJFileUtils.py:265 | `int(str(i))` is i for every integer |
| ObjFiles.DecimalInjective | T1-10-grupo3/src/OBJFileUtils.py:283-289 | distinct vertex numbers are written as distinct tokens |
| ObjFiles.IndexTokens | T1-10-grupo3/src/OBJFileUtils.py:98-116 | token k + 1 names vertex k; a "-n" token of `l` and `f` lines is used as the index -n, counting from the end of the vertex list, while `p` subtracts one from every token, so "-n" names -n - 1 and "0" names the last vertex |
| ObjFiles.LineIndices | T1-10-grupo3/src/OBJFileUtils.py:113-115 | the list of indices, when every token parses, has one index per token |
| ObjFiles.Resolve | T1-10-grupo3/src/OBJFileUtils.py:116 | the looked-up vertices, when every index is in range, one per index |
| ObjFiles.ResolveSpec | T1-10-grupo3/src/OBJFileUtils.py:116 | the lookup succeeds exactly when every index lies in -len .. len - 1, and then gives the vertex Python's indexing gives for each |
| ObjFiles.Put | T1-10-grupo3/src/OBJFileUtils.py:104 | storing an object under a name keeps the names consistent and changes only that entry |
| ObjFiles.ObjectName | T1-10-grupo3/src/OBJFileUtils.py:84-90 | the object name is used while it is set and not yet taken; otherwise the group name |
| ObjFiles.MissingSpec | T1-10-grupo3/src/OBJFileUtils.py:138-142 | the listed difference holds each vertex of the face not yet in the object exactly once |
| ObjFiles.LastIndex | T1-10-grupo3/src/OBJFileUtils.py:162 | the dict built by enumerating a list keeps the last position of each vertex |
| ObjFiles.EdgeList | T1-10-grupo3/src/OBJFileUtils.py:161-177 | one edge per face vertex, from the vertex's position in the current list to the next face vertex's, the last edge closing the face |
| ObjFiles.EdgeAt | T1-10-grupo3/src/OBJFileUtils.py:161-177 | edge i joins positions holding face vertices i and i + 1 (mod the face size) |
| ObjFiles.EdgeListCycle | T1-10-grupo3/src/OBJFileUtils.py:161-177 | each edge starts where the previous one ends, so the edges of a face form a closed cycle |
| ObjFiles.AddFace | T1-10-grupo3/src/OBJFileUtils.py:127-159 | `__add_face_to_current_group` with its error paths; pinned down by AddFaceMerges (the new face's missing vertices are appended once each, old ones keep their place, and its edges are added) |
| ObjFiles.AddFaceMerges | T1-10-grupo3/src/OBJFileUtils.py:137-148 | a face added to an existing faced object keeps its kind, colour and old vertices in front, appends each missing face vertex once, and appends the face's edges over the new vertex list |
| ObjFiles.DifferenceListed | T1-10-grupo3/src/OBJFileUtils.py:138-142 | a listing of the set difference always exists |
| ObjFiles.HexPair | T1-10-grupo3/src/OBJFileUtils.py:181 | `:02x` of a byte is two hex digits that read back as the byte |
| ObjFiles.HexFromRgb | T1-10-grupo3/src/OBJFileUtils.py:179-181 | the "#rrggbb" text of int(c · 255) per channel, None for fewer than three; pinned down by RgbRoundTrip |
| ObjFiles.RgbFromHex | T1-10-grupo3/src/OBJFileUtils.py:271-273 | the three integers of a "#rrggbb" text; pinned down by RgbRoundTrip and HexThree (it reads back the channels HexFromRgb wrote) |
| ObjFiles.RgbRoundTrip | T1-10-grupo3/src/OBJFileUtils.py:179-181 | the colour written by `__get_hex_from_rgb` is read back by `__get_rgb_str_from_hex` as int(255 r), int(255 g), int(255 b) |
| ObjFiles.HexThree | T1-10-grupo3/src/OBJFileUtils.py:271-273 | "#rrggbb" splits into its three bytes |
| ObjFiles.LStrip | T1-10-grupo3/src/OBJFileUtils.py:272 | `lstrip` drops a prefix and leaves no leading instance of the character |
| ObjFiles.ColorNamesDistinct | T1-10-grupo3/src/OBJFileUtils.py:277-278 | the material names "color0", "color1", ... are pairwise distinct |
| ObjFiles.Floats | T1-10-grupo3/src/OBJFileUtils.py:93 | the parsed coordinates, when every token is a float, one per token |
| ObjFiles.Step | T1-10-grupo3/src/OBJFileUtils.py:37-78 | one line of `__import_obj` dispatched on its keyword, with its exception; pinned down by StepConsistent, ImportVertices, CreatePointCases and CreateLineCases |
| ObjFiles.Import | T1-10-grupo3/src/OBJFileUtils.py:33-78 | `__import_obj` over all lines, the first exception ending it; pinned down by ImportConsistent, ImportVertices and WireframeRoundTrip |
| ObjFiles.StepConsistent | T1-10-grupo3/src/OBJFileUtils.py:37-78 | every accepted line keeps the object names consistent |
| ObjFiles.ImportConsistent | T1-10-grupo3/src/OBJFileUtils.py:37-78 | an accepted file keeps the object names consistent |
| ObjFiles.ImportVertices | T1-10-grupo3/src/OBJFileUtils.py:43-44 | a run of `v` lines appends their vertices in order and changes nothing else |
| ObjFiles.ObjParser.constructor | T1-10-grupo3/src/OBJFileUtils.py:8-12 | the parser starts with no vertices, objects or materials |
| ObjFiles.ObjParser.SetElement | T1-10-grupo3/src/OBJFileUtils.py:104 | the store after `self.__objects[name] = e` |
| ObjFiles.ObjParser.CreateVertex | T1-10-grupo3/src/OBJFileUtils.py:92-93 | the vertex is appended |
| ObjFiles.CreatePoint | T1-10-grupo3/src/OBJFileUtils.py:95-104 | `__create_point`; pinned down by CreatePointCases |
| ObjFiles.CreatePointCases | T1-10-grupo3/src/OBJFileUtils.py:95-104 | `p n` for 1 ≤ n ≤ the vertex count stores vertex n − 1, a larger n raises IndexError, and `p 0` stores the last vertex (Python's index −1) |
| ObjFiles.CreateLineOrWireframe | T1-10-grupo3/src/OBJFileUtils.py:106-125 | `__create_line_or_wireframe`; pinned down by CreateLineCases and WireframeRoundTrip |
| ObjFiles.CreateLineCases | T1-10-grupo3/src/OBJFileUtils.py:106-125 | two valid vertex numbers give the line through those vertices; a single number gives a wireframe with no vertex, its one vertex popped as the closing one; no number raises IndexError from popping an empty list |
| ObjFiles.ObjParser.CreatePointHere | T1-10-grupo3/src/OBJFileUtils.py:95-104 | fails exactly when the point's token is not an integer or names no vertex; otherwise stores a point of that vertex under the name |
| ObjFiles.ObjParser.CreateLineOrWireframeHere | T1-10-grupo3/src/OBJFileUtils.py:106-125 | fails exactly when a token is not an integer, names no vertex, or there are no tokens; two vertices make a line, any other count a wireframe without its last (closing) vertex |
| ObjFiles.ObjParser.AddFaceToCurrentGroup | T1-10-grupo3/src/OBJFileUtils.py:127-159 | fails exactly when a token is not an integer or names no vertex, the face is empty, or the name holds an object of another kind; otherwise merges the face into the faced object of that name or starts one |
| ObjFiles.ParseMtl | T1-10-grupo3/src/OBJFileUtils.py:183-200 | `__parse_mtl` over the library's lines; pinned down by ParseMtlDefinesAll and ParseMtlKeeps |
| ObjFiles.Defined | T1-10-grupo3/src/OBJFileUtils.py:191-200 | the materials after each name is given its hex in turn, as the `Kd` assignments write them: every name defined is present, a later definition of a name replaces an earlier one, and every other entry is kept |
| ObjFiles.ParseMtlDefinesAll | T1-10-grupo3/src/OBJFileUtils.py:191-200 | a library of `newmtl n` / `Kd r g b` pairs with good values gives each name the hex of its values in turn, as Defined states: every name defined is present, the last definition of a name wins, other entries are kept |
| ObjFiles.ParseMtlKeeps | T1-10-grupo3/src/OBJFileUtils.py:191-200 | a name that is not the current material and that no `newmtl` line names keeps its entry, or its absence |
| ObjFiles.ObjParser.ParseMtlLines | T1-10-grupo3/src/OBJFileUtils.py:183-200 | `newmtl` sets the current material and `Kd` names its colour; fails when a `Kd` comes before any `newmtl` or its values are not colours |
| ObjFiles.ObjParser.ReadLine | T1-10-grupo3/src/OBJFileUtils.py:37-78 | one line of the file: the store and the current names and colour after its keyword's action, or failure where Python raises |
| ObjFiles.ObjParser.ImportObj | T1-10-grupo3/src/OBJFileUtils.py:33-78 | the whole file read from the start names `default_group` and black; fails exactly when some line does |
| ObjFiles.AddOneSpec | T1-10-grupo3/src/OBJFileUtils.py:281-283 | a new vertex gets the next number and goes to the end; a known one changes nothing; old numbers are kept |
| ObjFiles.AddedVerticesSpec | T1-10-grupo3/src/OBJFileUtils.py:280-283 | the numbering stays consistent (vertex k of the order has number k + 1), old numbers are kept and the old order is a prefix of the new |
| ObjFiles.AddedFromList | T1-10-grupo3/src/OBJFileUtils.py:280-283 | every vertex appended comes from the list and was not numbered before |
| ObjFiles.AddedCovers | T1-10-grupo3/src/OBJFileUtils.py:280-283 | afterwards every vertex of the list and every old vertex has a number |
| ObjFiles.VertexNumbers | T1-10-grupo3/src/OBJFileUtils.py:288-289 | one token per coordinate, the decimal of its number |
| ObjFiles.FaceLines | T1-10-grupo3/src/OBJFileUtils.py:263-265 | one `f` line of three vertex tokens per three edges |
| ObjFiles.FaceLinesAt | T1-10-grupo3/src/OBJFileUtils.py:263-265 | the face lines of a non-empty list of edge triples are the face of its first two edges followed by the face lines from its fourth edge on |
| ObjFiles.ObjectLines | T1-10-grupo3/src/OBJFileUtils.py:244-265 | the lines one object writes; pinned down by ObjectLinesShape |
| ObjFiles.ObjectLinesShape | T1-10-grupo3/src/OBJFileUtils.py:244-265 | an object writes its "o" (or, as faces, "g") line and its "usemtl" line, then one `p`, one `l`, one closed `l` line, or one `f` line per three edges, by kind |
| ObjFiles.MaterialSpec | T1-10-grupo3/src/OBJFileUtils.py:237-242 | a colour keeps the name it first got; a new colour gets the next "colorN"; the vertices and lines are untouched |
| ObjFiles.ExportStep | T1-10-grupo3/src/OBJFileUtils.py:234-265 | one object of `__generate_obj`; pinned down by ExportStepValid (the numbering and material invariants are kept, vertices are numbered in order of first appearance, earlier lines are kept) |
| ObjFiles.ExportStepValid | T1-10-grupo3/src/OBJFileUtils.py:234-265 | one object keeps the exporter's state consistent, numbers its vertices and only appends lines |
| ObjFiles.ExportFromValid | T1-10-grupo3/src/OBJFileUtils.py:234-265 | the object loop keeps the state consistent and only appends lines |
| ObjFiles.Generate | T1-10-grupo3/src/OBJFileUtils.py:221-314 | `__generate_obj` over all objects; pinned down by GenerateValid and WireframeRoundTrip |
| ObjFiles.GenerateValid | T1-10-grupo3/src/OBJFileUtils.py:221-314 | an export writes each vertex once; material i is "color<i>", and no colour and no name appears twice |
| ObjFiles.WireframeRoundTrip | T1-10-grupo3/src/OBJFileUtils.py:106-125 | the closed `l` line the exporter writes for a wireframe, read back against the written vertex list, gives the wireframe's own vertices |
| ObjFiles.LineIndicesOf | T1-10-grupo3/src/OBJFileUtils.py:113-115 | decimal tokens name their numbers minus one |
| ObjFiles.ObjGenerator.constructor | T1-10-grupo3/src/OBJFileUtils.py:204-205 | the generator starts with no numbered vertices |
| ObjFiles.ObjGenerator.AddVertices | T1-10-grupo3/src/OBJFileUtils.py:280-283 | the numbering after the loop is the numbering with the vertices added one by one |
| ObjFiles.ObjGenerator.VerticesIndexes | T1-10-grupo3/src/OBJFileUtils.py:285-293 | the vertex numbers of the coordinates, with the first repeated at the end |
| ObjFiles.ObjGenerator.FaceLinesOf | T1-10-grupo3/src/OBJFileUtils.py:263-265 | the loop gives the face lines of the edges |
| ObjFiles.ObjGenerator.WriteObject | T1-10-grupo3/src/OBJFileUtils.py:244-265 | the lines so far followed by the object's lines |
| ObjFiles.ObjGenerator.GenerateObj | T1-10-grupo3/src/OBJFileUtils.py:221-314 | the export of the object list: its vertex lines, whether a material library is written, its lines and its materials |

## Left out

- All tkinter code is outside the model: the application window and its dialogs, the canvas drawing calls of `ViewPort.py`, and the display-file frame widget.
- File I/O is outside the model: the file dialogs, `open`, `readlines` and `write`. The OBJ parser receives the file as a sequence of token lists, as `str.split` gives them. A `.mtl` library arrives as the token lists the `library` function of `Env` returns for its name. So a name containing blanks cannot occur.
- The printed warnings and diagnostics of `certify_format`, the clippers and the OBJ parser are not modelled.
- Floating point is modelled as exact `real` arithmetic. Rounding, NaN and infinities are not modelled.
- Cosine, sine, arctangent and square root are parameters of the model: a `Trig` record in degrees. Each lemma requires only the facts it needs: cos 0 = 1, sin 0 = 0, sin^2 + cos^2 = 1, cos even and sin odd, atan2(0, r) = 0 for r >= 0, atan2(1, 0) = 90, and square roots non-negative. No value of these functions is computed.
- Camera.Transformator.constructor: the projection distance round(width * sqrt(3) / 2) is given as a positive integer, because the model has no square root.
- Camera.Transformator.constructor: the window sizes are required to be positive. With a zero width or height the source divides by zero.
- Objects.Objeto3D.constructor: the subclasses `Ponto3D`, `Linha3D` and `WireFrame` only fix the type tag, so they are folded into this constructor. WireFrame's `fill` flag is not modelled.
- Objects.Objeto3D.constructor: the random padding of short curves is never reached, so it is left out. The source compares `obj_type.name`, a string, with enum members.
- Objects.Objeto3D.constructor: an object type given as a bare int, the default of `obj_type`, has no `.name` and crashes. Every type in the model is an `ObjectType`.
- Objects.Objeto3D.constructor: stores the corrected coordinates of `CertifiedCoords`, not those of the code as written (Findings). The two agree when every point has two or three values (`CertifyAgreesOnPlanarAndSpatial`). On other points the as-written rule can leave a point with two values or copy the last point, which a 3-D point cannot hold.
- Objects.Objeto3D.CertifyFormat: stores the corrected coordinates, for the same reason as the constructor. It agrees with the source only when every point has two or three values.
- Objects.Objeto3D.PadPoint: pads to three values with as many zeros as are missing. The source's loop appends a single 0.0, so the two agree only on points of two or more values.
- Objects.CertifiedCoordsAsWritten: the points that `float()` cannot convert, which the source replaces by (i, i, i), are not modelled, because the model's coordinates are already numbers. The same goes for the tuple conversion of non-tuple points.
- Clipping.ClipLineInWindow: for "C-S" the in-window promise is not made, because cohen_sutherland as written can return an end outside the window (Findings). For "C-S" it promises only the accepted, rejected and axis-parallel cases. `ClipLineCorrectedInWindow` makes the full promise for the corrected dispatch.
- Clipping.ClipCurveInWindow: for "C-S" only non-empty pieces are promised, for the same reason.
- Clipping.Clipper.ClipCurve: with "C-S" selected, the pieces can hold points outside the window, as in the source.
- LineClip.CohenSutherland: the `dx == dy == 0` branch that calls `clip_point` cannot be reached. Two equal endpoints have equal outcodes, so they are either accepted or rejected earlier. The model marks that branch impossible.
- PolygonClip.SutherlandHodgman: the precondition requires at least one edge, with every edge index valid for the polygon in Python's sense (a negative index counts from the end). The error paths it excludes are not modelled. With no edges, the first pass yields no points, the next pass stops the loop on the empty polygon, and the final `min()` raises ValueError. An index out of range raises IndexError in the first pass. For an empty polygon, the loop stops at once, and `min()` raises ValueError.
- Curves and surfaces receive points that are already projected (`Point2`). Their z is never read after projection.
- Curves and surfaces use the source's fixed sample counts: 100 per Bezier segment, 10 steps per B-spline window, 50 x 50 per Bezier patch and 20 steps for the B-spline surface.
- BSplineSurfaces.FloorSqrt: `int(math.sqrt(NN))` is modelled as the exact integer square root. Float rounding of the root is neglected.
- BSplineSurfaces.PatchCurvesFrom: the branch that returns `[]` for a patch running past the grid is never taken on a validated grid. It exists only so that the function is total.
- BezierSurfaces.GenerateCurve: the inner `range(0, N, 4)` loop of `generate_curve` runs exactly once on the 4-row grid that `generate_curves` passes. It is modelled as that single pass. Its unused `L` is dropped.
- ObjFiles.Floats: `float(k)` of a token is the `toReal` parameter.
- ObjFiles.ParseInt: accepts an optional "+" or "-" followed by ASCII digits. Python's `int` also accepts surrounding whitespace, underscores between digits and non-ASCII digits.
- ObjFiles.ParseHex: accepts an optional "+" or "-" followed by hex digits. Python's `int(s, 16)` also strips surrounding whitespace and accepts underscores and a "0x" prefix.
- ObjFiles.Trunc: `int(x * 255)` truncates toward zero. Beyond that no bound on x is assumed, and a value outside 0..255 is written with more than two hex digits.
- ObjFiles.Env: the order in which `list(set(face).difference(...))` lists the new face vertices is Python's unspecified set order. It is a parameter of the model, and the merge lemma holds for every listing of the right set.
- ObjFiles.Step: the error kinds (ValueError, IndexError, KeyError, TypeError, UnboundLocalError) name the exception the source would raise, in the order Python evaluates the failing expressions. No exception object is modelled.
- ObjFiles.ObjParser.constructor: the source's constructor runs the whole import. The model splits it into this empty constructor followed by `ImportObj`.
- ObjFiles.ObjGenerator.constructor: the source's constructor runs the whole export. The model splits it into this empty constructor followed by `GenerateObj`.
- ObjFiles.Generate: the `:.5f` and `:.6f` text of coordinates and colours is not modelled. Vertices and colours are kept as numbers.
- ObjFiles.Generate: the `.mtl` file name, built with `str.strip(".obj")`, is not modelled.
- ObjFiles.Generate: faces are written with the object's own edge indices plus one, not the global vertex numbers. The model writes what the source writes and claims no consistency between the two.
- DisplayFiles.DisplayFile.AddObject: a value that is not an `Objeto3D` is represented by `null`.
- The whole-window pipeline order of `Window.py` lies outside the model: projection, then tessellation, then clipping, then the viewport. So is the zoom of the drawing window.

## Findings

| source | as written | input that shows it | evidently intended | confidence | as-written member | corrected member |
|---|---|---|---|---|---|---|
| T1/src/TransformationUtils/Clipper.py:279-296 | the left/right and bottom/top cuts are `elif` chains, so a segment leaving the window through both x sides (or both y sides) is cut on one side only, and an endpoint outside the window is returned | the segment (-2, 0.5)-(2, 0.6) on the normalised window gives (-1, 0.525), (2, 0.6) | every side the segment crosses is tried, so both returned points lie in the window | not executed | LineClip.CohenSutherlandAsWrittenLeavesEnd | LineClip.CohenSutherlandInWindow |
| T1/src/Objetos/Objeto3D.py:282-293 | a point with fewer than 3 values gets one 0.0 appended, not enough for a 1-value point; truncation builds lazy generators over the comprehension variable, so every point becomes a copy of the last one | [[5.0]] gives [[5.0, 0.0]]; [[1, 2, 3, 4], [5, 6, 7]] gives [[5, 6, 7], [5, 6, 7]] | each point padded with 0.0 to 3 values and cut to its own first 3 values | not executed | Objects.CertifyAsWrittenCounterexamples | Objects.CertifiedCoords |
