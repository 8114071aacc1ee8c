/** The editor's Sutherland–Hodgman variant.  It works on a vertex list
    and an edge list of index pairs: each window side is one pass over the
    edges, and every polygon edge comes out of a pass as two fresh points
    and one fresh edge between them, so the passes explode the polygon into
    independent segments. */
module PolygonClip {
  import opened LinAlg
  import opened Wrappers
  import opened ClipGeometry

  /** An edge of the polygon: two indices into its vertex list. */
  type IndexPair = (int, int)

  /** A Python list index is valid from -n (counting from the end) to n - 1. */
  predicate PyIndexOk(n: int, i: int) {
    -n <= i < n
  }

  /** The element a Python index selects. */
  function PyAt(s: seq<Point2>, i: int): Point2
    requires PyIndexOk(|s|, i)
  {
    if i < 0 then s[|s| + i] else s[i]
  }

  /** Every edge indexes the vertex list validly. */
  predicate EdgesIndex(poly: seq<Point2>, edges: seq<IndexPair>) {
    forall k :: 0 <= k < |edges| ==> PyIndexOk(|poly|, edges[k].0) && PyIndexOk(|poly|, edges[k].1)
  }

  /** What the polygon edge from prev to point contributes to the pass
      against window side e: its kept or cut ends when one of them is
      strictly inside, and both ends projected onto the side otherwise.
      None is the source's "intersection not found" branch, in which the
      edge contributes nothing; it never happens (see below). */
  function EdgeOut(prev: Point2, point: Point2, e: Edge): (r: Option<(Point2, Point2)>)
    ensures r.Some?
    ensures Inside(point, e) && Inside(prev, e) ==> r.value == (prev, point)
    ensures Inside(point, e) && !Inside(prev, e) ==> r.value.1 == point && Side(r.value.0, e) == 0.0
    ensures !Inside(point, e) && Inside(prev, e) ==> r.value.0 == prev && Side(r.value.1, e) == 0.0
  {
    InsideIsPositiveSide(prev, e);
    InsideIsPositiveSide(point, e);
    if Inside(point, e) then
      var q := if !Inside(prev, e) then ComputeIntersection(prev, point, e) else Some(prev);
      if q.Some? then Some((q.value, point)) else None
    else if Inside(prev, e) then
      var q := ComputeIntersection(prev, point, e);
      if q.Some? then Some((prev, q.value)) else None
    else
      Some((ProjectToWindowEdge(prev, e), ProjectToWindowEdge(point, e)))
  }

  /** One pass against window side e over the first |edges| polygon edges:
      the new vertex list holds two points per edge and edge k of the new
      list is (2k, 2k + 1). */
  function Pass(poly: seq<Point2>, edges: seq<IndexPair>, e: Edge): (r: (seq<Point2>, seq<IndexPair>))
    requires EdgesIndex(poly, edges)
    ensures |r.0| == 2 * |edges| && |r.1| == |edges|
    ensures forall k :: 0 <= k < |edges| ==> r.1[k] == (2 * k, 2 * k + 1)
    decreases |edges|
  {
    if edges == [] then ([], [])
    else
      var n := |edges| - 1;
      var done := Pass(poly, edges[..n], e);
      var o := EdgeOut(PyAt(poly, edges[n].0), PyAt(poly, edges[n].1), e);
      if o.Some? then
        var ps := done.0 + [o.value.0, o.value.1];
        (ps, done.1 + [(|ps| - 2, |ps| - 1)])
      else done
  }

  /** One more polygon edge: the pass over the first k + 1 edges is the
      pass over the first k followed by the two points edge k contributes
      and the edge (2k, 2k + 1) between them. */
  lemma PassAppend(poly: seq<Point2>, edges: seq<IndexPair>, k: int, e: Edge)
    requires EdgesIndex(poly, edges) && 0 <= k < |edges|
    ensures var before := Pass(poly, edges[..k], e);
            var o := EdgeOut(PyAt(poly, edges[k].0), PyAt(poly, edges[k].1), e).value;
            Pass(poly, edges[..k + 1], e) == (before.0 + [o.0, o.1], before.1 + [(2 * k, 2 * k + 1)])
  {
    assert edges[..k + 1][..k] == edges[..k] && edges[..k + 1][k] == edges[k];
  }

  /** The edges a pass produces index the points it produces. */
  lemma PassIndexes(poly: seq<Point2>, edges: seq<IndexPair>, e: Edge)
    requires EdgesIndex(poly, edges)
    ensures EdgesIndex(Pass(poly, edges, e).0, Pass(poly, edges, e).1)
  {
    var next := Pass(poly, edges, e);
    forall k | 0 <= k < |next.1| ensures PyIndexOk(|next.0|, next.1[k].0) && PyIndexOk(|next.0|, next.1[k].1) {
      assert next.1[k] == (2 * k, 2 * k + 1);
    }
  }

  /** The passes against the window sides es in turn; the loop stops early
      once the vertex list is empty. */
  function SidePasses(poly: seq<Point2>, edges: seq<IndexPair>, es: seq<Edge>): (r: (seq<Point2>, seq<IndexPair>))
    requires EdgesIndex(poly, edges)
    ensures EdgesIndex(r.0, r.1)
    decreases |es|
  {
    if es == [] || poly == [] then (poly, edges)
    else
      var next := Pass(poly, edges, es[0]);
      PassIndexes(poly, edges, es[0]);
      SidePasses(next.0, next.1, es[1..])
  }

  /** The x and y coordinates of a vertex list. */
  function Xs(ps: seq<Point2>): (xs: seq<real>)
    ensures |xs| == |ps| && forall i :: 0 <= i < |ps| ==> xs[i] == ps[i].x
  {
    seq(|ps|, i requires 0 <= i < |ps| => ps[i].x)
  }

  function Ys(ps: seq<Point2>): (ys: seq<real>)
    ensures |ys| == |ps| && forall i :: 0 <= i < |ps| ==> ys[i] == ps[i].y
  {
    seq(|ps|, i requires 0 <= i < |ps| => ps[i].y)
  }

  /** Python's min and max of a non-empty list. */
  function MinOf(s: seq<real>): (m: real)
    requires |s| > 0
    ensures m in s && forall i :: 0 <= i < |s| ==> m <= s[i]
    decreases |s|
  {
    if |s| == 1 then s[0] else Min(s[0], MinOf(s[1..]))
  }

  function MaxOf(s: seq<real>): (m: real)
    requires |s| > 0
    ensures m in s && forall i :: 0 <= i < |s| ==> s[i] <= m
    decreases |s|
  {
    if |s| == 1 then s[0] else Max(s[0], MaxOf(s[1..]))
  }

  /** The closing test: the clipped points all lie at or beyond one window
      side (min x >= xMax, max x <= xMin, and likewise for y). */
  predicate Degenerate(w: Window, ps: seq<Point2>)
    requires |ps| > 0
  {
    || MinOf(Xs(ps)) >= w.xMax || MaxOf(Xs(ps)) <= w.xMin
    || MinOf(Ys(ps)) >= w.yMax || MaxOf(Ys(ps)) <= w.yMin
  }

  /** sutherland_hodgman.  The source's min() raises on an empty list,
      which happens exactly when the edge list is empty; with valid indices
      and at least one edge every pass yields two points per edge. */
  function SutherlandHodgman(w: Window, poly: seq<Point2>, edges: seq<IndexPair>): (r: (seq<Point2>, seq<IndexPair>))
    requires |edges| > 0 && EdgesIndex(poly, edges)
  {
    var c := SidePasses(poly, edges, WindowEdges(w));
    PassesShape(poly, edges, WindowEdges(w));
    if Degenerate(w, c.0) then ([], []) else c
  }

  // ------------------------------------------------------------ properties

  /** Four passes from a polygon with edges give 2 * |edges| points and the
      edges (2k, 2k + 1): the per-pass shape is kept to the end. */
  lemma {:induction false} PassesShape(poly: seq<Point2>, edges: seq<IndexPair>, es: seq<Edge>)
    requires |edges| > 0 && EdgesIndex(poly, edges)
    ensures var r := SidePasses(poly, edges, es);
            (es == [] ==> r == (poly, edges))
            && (es != [] ==> |r.0| == 2 * |edges| && |r.1| == |edges|
                             && forall k :: 0 <= k < |edges| ==> r.1[k] == (2 * k, 2 * k + 1))
    decreases |es|
  {
    if es != [] {
      assert poly != [] by { assert PyIndexOk(|poly|, edges[0].0); }
      var next := Pass(poly, edges, es[0]);
      PassesShape(next.0, next.1, es[1..]);
    }
  }

  /** A window side is the edge between two consecutive corners, so a
      point on its inner side (Side >= 0) of all four sides is in the
      window, and conversely. */
  lemma InnerIsWindow(w: Window, p: Point2)
    requires Proper(w)
    ensures InWindow(w, p) <==> forall j :: 0 <= j < 4 ==> Side(p, WindowEdges(w)[j]) >= 0.0
  {
    var es := WindowEdges(w);
    var dx, dy := w.xMax - w.xMin, w.yMax - w.yMin;
    assert Side(p, es[0]) == dx * (p.y - w.yMin);
    assert Side(p, es[1]) == dy * (w.xMax - p.x);
    assert Side(p, es[2]) == dx * (w.yMax - p.y);
    assert Side(p, es[3]) == dy * (p.x - w.xMin);
    ScaledSign(dx, p.y - w.yMin);
    ScaledSign(dy, w.xMax - p.x);
    ScaledSign(dx, w.yMax - p.y);
    ScaledSign(dy, p.x - w.xMin);
  }

  /** A positive factor keeps the sign. */
  lemma ScaledSign(k: real, v: real)
    requires k > 0.0
    ensures k * v >= 0.0 <==> v >= 0.0
  {
    if v >= 0.0 { MulNonneg(k, v); } else { MulPos(k, -v); }
  }

  /** Projecting onto a window side lands on that side's line and in the
      window. */
  lemma ProjectOntoSide(w: Window, p: Point2, j: int)
    requires Proper(w) && 0 <= j < 4
    ensures InWindow(w, ProjectToWindowEdge(p, WindowEdges(w)[j]))
    ensures Side(ProjectToWindowEdge(p, WindowEdges(w)[j]), WindowEdges(w)[j]) == 0.0
  {
    var e := WindowEdges(w)[j];
    var lo, hi := Point2(w.xMin, w.yMin), Point2(w.xMax, w.yMax);
    if j == 0 {
      assert e == (lo, Point2(w.xMax, w.yMin));
    } else if j == 1 {
      assert e == (Point2(w.xMax, w.yMin), hi);
    } else if j == 2 {
      assert e == (hi, Point2(w.xMin, w.yMax));
    } else {
      assert e == (Point2(w.xMin, w.yMax), lo);
    }
    ProjectInBox(w, p, e);
    if j == 0 || j == 2 {
      ProjectOntoLevel(p, e);
    } else {
      ProjectOntoUpright(p, e);
    }
  }

  /** Projecting onto an edge whose ends lie in the window lands in it. */
  lemma ProjectInBox(w: Window, p: Point2, e: Edge)
    requires InWindow(w, e.0) && InWindow(w, e.1)
    ensures InWindow(w, ProjectToWindowEdge(p, e))
  {
  }

  /** Projecting onto a horizontal edge lands on its line. */
  lemma ProjectOntoLevel(p: Point2, e: Edge)
    requires e.0.y == e.1.y
    ensures Side(ProjectToWindowEdge(p, e), e) == 0.0
  {
    var r := ProjectToWindowEdge(p, e);
    assert r.y == e.0.y;
    assert Side(r, e) == (e.1.x - e.0.x) * 0.0 - 0.0 * (r.x - e.0.x);
  }

  /** Projecting onto a vertical edge lands on its line. */
  lemma ProjectOntoUpright(p: Point2, e: Edge)
    requires e.0.x == e.1.x
    ensures Side(ProjectToWindowEdge(p, e), e) == 0.0
  {
    var r := ProjectToWindowEdge(p, e);
    assert r.x == e.0.x;
    assert Side(r, e) == 0.0 * (r.y - e.0.y) - (e.1.y - e.0.y) * 0.0;
  }

  /** The crossing a straddling edge is cut at lies between its ends, and
      so on the inner side of every line both ends are on. */
  lemma CutStaysInner(prev: Point2, point: Point2, e: Edge, f: Edge)
    requires Inside(point, e) != Inside(prev, e)
    requires Side(prev, f) >= 0.0 && Side(point, f) >= 0.0
    ensures Side(ComputeIntersection(prev, point, e).value, f) >= 0.0
  {
    InsideIsPositiveSide(prev, e);
    InsideIsPositiveSide(point, e);
    var g1, g2 := Side(prev, e), Side(point, e);
    var t := g1 / (g1 - g2);
    UnitRatioEither(g1, g1 - g2);
    SideOfLerp(prev, point, t, f);
    BetweenBounds(Side(prev, f), Side(point, f), t, 0.0, 0.0);
  }

  /** What an edge contributes to the pass against side j lies on the inner
      side of j, and on the inner side of any other window side that both
      of its ends are on. */
  lemma EdgeOutInner(w: Window, prev: Point2, point: Point2, j: int, jf: int)
    requires Proper(w) && 0 <= j < 4 && 0 <= jf < 4
    requires jf == j || (Side(prev, WindowEdges(w)[jf]) >= 0.0 && Side(point, WindowEdges(w)[jf]) >= 0.0)
    ensures var o := EdgeOut(prev, point, WindowEdges(w)[j]).value;
            Side(o.0, WindowEdges(w)[jf]) >= 0.0 && Side(o.1, WindowEdges(w)[jf]) >= 0.0
  {
    var e, f := WindowEdges(w)[j], WindowEdges(w)[jf];
    InsideIsPositiveSide(prev, e);
    InsideIsPositiveSide(point, e);
    if !Inside(point, e) && !Inside(prev, e) {
      ProjectOntoSide(w, prev, j);
      ProjectOntoSide(w, point, j);
      InnerIsWindow(w, ProjectToWindowEdge(prev, e));
      InnerIsWindow(w, ProjectToWindowEdge(point, e));
    } else if Inside(point, e) != Inside(prev, e) && jf != j {
      CutStaysInner(prev, point, e, f);
    }
  }

  /** All points of ps are on the inner side of the first m window sides. */
  ghost predicate InnerUpTo(w: Window, ps: seq<Point2>, m: int) {
    forall i, j :: 0 <= i < |ps| && 0 <= j < m && j < 4 ==> Side(ps[i], WindowEdges(w)[j]) >= 0.0
  }

  /** A pass against side m keeps the points on the inner side of the
      sides before it and puts them on the inner side of m too. */
  lemma {:induction false} PassInner(w: Window, poly: seq<Point2>, edges: seq<IndexPair>, m: int)
    requires Proper(w) && 0 <= m < 4 && EdgesIndex(poly, edges) && InnerUpTo(w, poly, m)
    ensures InnerUpTo(w, Pass(poly, edges, WindowEdges(w)[m]).0, m + 1)
    decreases |edges|
  {
    if edges != [] {
      var n := |edges| - 1;
      var e := WindowEdges(w)[m];
      assert EdgesIndex(poly, edges[..n]);
      PassInner(w, poly, edges[..n], m);
      var prev, point := PyAt(poly, edges[n].0), PyAt(poly, edges[n].1);
      var o := EdgeOut(prev, point, e).value;
      forall jf | 0 <= jf < m + 1
        ensures Side(o.0, WindowEdges(w)[jf]) >= 0.0 && Side(o.1, WindowEdges(w)[jf]) >= 0.0
      {
        EdgeOutInner(w, prev, point, m, jf);
      }
      var done := Pass(poly, edges[..n], e);
      assert Pass(poly, edges, e).0 == done.0 + [o.0, o.1];
      AppendInner(w, done.0, o.0, o.1, m + 1);
    }
  }

  /** Appending two points on the inner side of the first m sides keeps
      InnerUpTo. */
  lemma AppendInner(w: Window, ps: seq<Point2>, a: Point2, b: Point2, m: int)
    requires InnerUpTo(w, ps, m)
    requires forall j :: 0 <= j < m && j < 4 ==> Side(a, WindowEdges(w)[j]) >= 0.0 && Side(b, WindowEdges(w)[j]) >= 0.0
    ensures InnerUpTo(w, ps + [a, b], m)
  {
    var qs := ps + [a, b];
    forall i, j | 0 <= i < |qs| && 0 <= j < m && j < 4 ensures Side(qs[i], WindowEdges(w)[j]) >= 0.0 {
      if i < |ps| { assert qs[i] == ps[i]; }
    }
  }

  /** The remaining passes, from side m on, end with every point on the
      inner side of all four sides. */
  lemma {:induction false} PassesInner(w: Window, poly: seq<Point2>, edges: seq<IndexPair>, m: int)
    requires Proper(w) && 0 <= m <= 4 && EdgesIndex(poly, edges) && InnerUpTo(w, poly, m)
    ensures InnerUpTo(w, SidePasses(poly, edges, WindowEdges(w)[m..]).0, 4)
    decreases 4 - m
  {
    var es := WindowEdges(w)[m..];
    if m < 4 && poly != [] {
      assert es[0] == WindowEdges(w)[m];
      assert es[1..] == WindowEdges(w)[m + 1..];
      var next := Pass(poly, edges, es[0]);
      PassInner(w, poly, edges, m);
      PassIndexes(poly, edges, es[0]);
      PassesInner(w, next.0, next.1, m + 1);
    }
  }

  /** Everything sutherland_hodgman returns lies in the closed window; it
      returns the exploded polygon, 2 * |edges| points and the edges
      (2k, 2k + 1), unless the clipped points all sit at or beyond one
      side, and then nothing. */
  lemma SutherlandHodgmanInWindow(w: Window, poly: seq<Point2>, edges: seq<IndexPair>)
    requires Proper(w) && |edges| > 0 && EdgesIndex(poly, edges)
    ensures var r := SutherlandHodgman(w, poly, edges);
            forall i :: 0 <= i < |r.0| ==> InWindow(w, r.0[i])
    ensures var r := SutherlandHodgman(w, poly, edges);
            r == ([], []) || (|r.0| == 2 * |edges| && |r.1| == |edges|
                              && forall k :: 0 <= k < |edges| ==> r.1[k] == (2 * k, 2 * k + 1))
  {
    var c := SidePasses(poly, edges, WindowEdges(w));
    PassesShape(poly, edges, WindowEdges(w));
    assert WindowEdges(w)[0..] == WindowEdges(w);
    PassesInner(w, poly, edges, 0);
    forall i | 0 <= i < |c.0| ensures InWindow(w, c.0[i]) {
      InnerIsWindow(w, c.0[i]);
    }
  }

  /** The closing test in other words: the result is empty exactly when
      no clipped point lies strictly inside the window's x range on one
      side, or none on the other, or likewise for y. */
  lemma SutherlandHodgmanEmpty(w: Window, poly: seq<Point2>, edges: seq<IndexPair>)
    requires |edges| > 0 && EdgesIndex(poly, edges)
    ensures var c := SidePasses(poly, edges, WindowEdges(w)).0;
            SutherlandHodgman(w, poly, edges).0 != [] <==>
              && (exists i :: 0 <= i < |c| && c[i].x < w.xMax)
              && (exists i :: 0 <= i < |c| && c[i].x > w.xMin)
              && (exists i :: 0 <= i < |c| && c[i].y < w.yMax)
              && (exists i :: 0 <= i < |c| && c[i].y > w.yMin)
  {
    var c := SidePasses(poly, edges, WindowEdges(w)).0;
    PassesShape(poly, edges, WindowEdges(w));
    NotDegenerate(w, c);
  }

  /** A clip result is kept exactly when some point is left of the right
      side, some right of the left side, and likewise vertically. */
  lemma NotDegenerate(w: Window, c: seq<Point2>)
    requires |c| > 0
    ensures !Degenerate(w, c) <==>
              && (exists i :: 0 <= i < |c| && c[i].x < w.xMax)
              && (exists i :: 0 <= i < |c| && c[i].x > w.xMin)
              && (exists i :: 0 <= i < |c| && c[i].y < w.yMax)
              && (exists i :: 0 <= i < |c| && c[i].y > w.yMin)
  {
    LeastBelow(Xs(c), w.xMax);
    GreatestAbove(Xs(c), w.xMin);
    LeastBelow(Ys(c), w.yMax);
    GreatestAbove(Ys(c), w.yMin);
  }

  lemma LeastBelow(s: seq<real>, m: real)
    requires |s| > 0
    ensures MinOf(s) < m <==> exists i :: 0 <= i < |s| && s[i] < m
  {
    var k :| 0 <= k < |s| && s[k] == MinOf(s);
  }

  lemma GreatestAbove(s: seq<real>, m: real)
    requires |s| > 0
    ensures MaxOf(s) > m <==> exists i :: 0 <= i < |s| && s[i] > m
  {
    var k :| 0 <= k < |s| && s[k] == MaxOf(s);
  }
}
