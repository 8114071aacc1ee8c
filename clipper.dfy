/** The Clipper object: the window bounds and the names of the line and
    polygon algorithms, with the operations that dispatch on them. */
module Clipping {
  import opened LinAlg
  import opened Wrappers
  import opened ClipGeometry
  import opened LineClip
  import opened PolygonClip
  import opened CurveClip

  /** clip_line's dispatch on the stored line algorithm name; C-S is
      cohen_sutherland as written, and an unknown name gives nothing. */
  function ClipLineWith(alg: string, w: Window, p1: Point2, p2: Point2): (r: seq<Point2>)
    requires Proper(w)
    ensures r == [] || |r| == 2
  {
    if alg == "L-B" then LiangBarsky(w, p1, p2)
    else if alg == "C-S" then CohenSutherlandAsWritten(w, p1, p2)
    else if alg == "N-L-N" then NLNClip(w, p1, p2)
    else []
  }

  /** The same dispatch with the corrected Cohen–Sutherland. */
  function ClipLineWithCorrected(alg: string, w: Window, p1: Point2, p2: Point2): (r: seq<Point2>)
    requires Proper(w)
    ensures r == [] || |r| == 2
    ensures alg != "C-S" ==> r == ClipLineWith(alg, w, p1, p2)
  {
    if alg == "C-S" then CohenSutherland(w, p1, p2) else ClipLineWith(alg, w, p1, p2)
  }

  /** The three algorithm names clip_line knows. */
  predicate KnownLineAlgorithm(alg: string) {
    alg in {"L-B", "C-S", "N-L-N"}
  }

  /** An unknown algorithm name gives nothing; whatever L-B and N-L-N
      return lies in the window; and C-S as written returns the segment
      itself when both ends are inside, nothing when both ends are beyond
      one side, and window points for a vertical or horizontal segment. */
  lemma ClipLineInWindow(alg: string, w: Window, p1: Point2, p2: Point2)
    requires Proper(w)
    ensures !KnownLineAlgorithm(alg) ==> ClipLineWith(alg, w, p1, p2) == []
    ensures var r := ClipLineWith(alg, w, p1, p2);
            alg != "C-S" && r != [] ==> InWindow(w, r[0]) && InWindow(w, r[1])
    ensures alg == "C-S" && InWindow(w, p1) && InWindow(w, p2) ==> ClipLineWith(alg, w, p1, p2) == [p1, p2]
    ensures alg == "C-S" && Outcode(w, p1) & Outcode(w, p2) != 0 ==> ClipLineWith(alg, w, p1, p2) == []
    ensures var r := ClipLineWith(alg, w, p1, p2);
            alg == "C-S" && (p1.x == p2.x || p1.y == p2.y) && r != [] ==> InWindow(w, r[0]) && InWindow(w, r[1])
  {
    LiangBarskyNonEmpty(w, p1, p2);
    NLNInside(w, p1, p2);
    OutcodeBits(w, p1);
    OutcodeBits(w, p2);
    if InWindow(w, p1) && InWindow(w, p2) {
      CSAccept(w, p1, p2, true);
    } else if Outcode(w, p1) & Outcode(w, p2) != 0 {
      CSReject(w, p1, p2, true);
    } else if p1.x == p2.x || p1.y == p2.y {
      CSClamped(w, p1, p2, true);
    }
  }

  /** With the corrected Cohen–Sutherland, whatever any of the three
      algorithms returns lies in the window. */
  lemma ClipLineCorrectedInWindow(alg: string, w: Window, p1: Point2, p2: Point2)
    requires Proper(w)
    ensures !KnownLineAlgorithm(alg) ==> ClipLineWithCorrected(alg, w, p1, p2) == []
    ensures var r := ClipLineWithCorrected(alg, w, p1, p2);
            r != [] ==> InWindow(w, r[0]) && InWindow(w, r[1])
  {
    ClipLineInWindow(alg, w, p1, p2);
    CohenSutherlandInWindow(w, p1, p2);
  }

  /** The clipped consecutive segments of a polyline: coords[j] to
      coords[j + 1] for j below |coords| - 1. */
  function Segments(alg: string, w: Window, coords: seq<Point2>): (rs: seq<seq<Point2>>)
    requires Proper(w)
    ensures |coords| < 2 ==> rs == []
    ensures |coords| >= 2 ==> |rs| == |coords| - 1
  {
    if |coords| < 2 then []
    else seq(|coords| - 1, j requires 0 <= j < |coords| - 1 => ClipLineWith(alg, w, coords[j], coords[j + 1]))
  }

  /** No piece clip_curve returns is empty, and with L-B or N-L-N (or an
      unknown name) every point of every piece lies in the window. */
  lemma ClipCurveInWindow(alg: string, w: Window, coords: seq<Point2>)
    requires Proper(w)
    ensures var ps := Pieces(Segments(alg, w, coords)).0;
            (forall i :: 0 <= i < |ps| ==> ps[i] != [])
            && (alg != "C-S" ==> forall p :: p in Concat(ps) ==> InWindow(w, p))
  {
    var rs := Segments(alg, w, coords);
    PiecesNonEmpty(rs);
    PiecesConcat(rs);
    if alg != "C-S" {
      forall j | 0 <= j < |rs| ensures forall p :: p in rs[j] ==> InWindow(w, p) {
        SegmentInWindow(alg, w, coords, j);
      }
      ConcatInWindow(w, rs);
    }
  }

  /** Segment j of a curve clipped with L-B or N-L-N lies in the window. */
  lemma SegmentInWindow(alg: string, w: Window, coords: seq<Point2>, j: nat)
    requires Proper(w) && alg != "C-S" && j + 1 < |coords|
    ensures forall p :: p in Segments(alg, w, coords)[j] ==> InWindow(w, p)
  {
    assert Segments(alg, w, coords)[j] == ClipLineWith(alg, w, coords[j], coords[j + 1]);
    ClipLineInWindow(alg, w, coords[j], coords[j + 1]);
  }

  /** The points of lists of window points are window points. */
  lemma {:induction false} ConcatInWindow(w: Window, rs: seq<seq<Point2>>)
    requires forall j :: 0 <= j < |rs| ==> forall p :: p in rs[j] ==> InWindow(w, p)
    ensures forall p :: p in Concat(rs) ==> InWindow(w, p)
    decreases |rs|
  {
    if rs != [] {
      ConcatInWindow(w, rs[..|rs| - 1]);
    }
  }

  class Clipper {
    var xMin: real
    var yMin: real
    var xMax: real
    var yMax: real
    var lineAlgorithm: string
    var polygonAlgorithm: string

    /** The window the bounds describe. */
    function Win(): Window
      reads this
    {
      Window(xMin, yMin, xMax, yMax)
    }

    /** The bounds always have min < max on both axes. */
    predicate Valid()
      reads this
    {
      Proper(Win())
    }

    /** Starts from the normalized bounds and then installs the named
        preset, keeping the normalized one for an unknown name. */
    constructor (worldLimitsType: string := "SCN", algorithmLine: string := "L-B",
                 algorithmPolygon: string := "S-H")
      ensures Valid()
      ensures Win() == if Preset(worldLimitsType).Some? then Preset(worldLimitsType).value else SCN
      ensures lineAlgorithm == algorithmLine && polygonAlgorithm == algorithmPolygon
    {
      lineAlgorithm := algorithmLine;
      polygonAlgorithm := algorithmPolygon;
      xMin, yMin, xMax, yMax := -1.0, -1.0, 1.0, 1.0;
      new;
      SetWindow(worldLimitsType);
    }

    /** set_window: SCN, NDC or DC replace the bounds; any other name
        leaves them as they are. */
    method SetWindow(limitType: string)
      requires Valid()
      modifies this`xMin, this`yMin, this`xMax, this`yMax
      ensures Valid()
      ensures Win() == if Preset(limitType).Some? then Preset(limitType).value else old(Win())
    {
      if limitType == "SCN" {
        xMin, yMin, xMax, yMax := -1.0, -1.0, 1.0, 1.0;
      } else if limitType == "NDC" {
        xMin, yMin, xMax, yMax := 0.0, 0.0, 1.0, 1.0;
      } else if limitType == "DC" {
        xMin, yMin, xMax, yMax := 0.0, 0.0, 800.0, 600.0;
      }
    }

    /** set_clipping_algorithm: a line algorithm name replaces the line
        algorithm; "S-H", "NDC" or "DC" set the polygon algorithm to
        "S-H"; anything else changes nothing. */
    method SetClippingAlgorithm(algorithm: string)
      modifies this`lineAlgorithm, this`polygonAlgorithm
      ensures lineAlgorithm == if KnownLineAlgorithm(algorithm) then algorithm else old(lineAlgorithm)
      ensures polygonAlgorithm == if algorithm in {"S-H", "NDC", "DC"} then "S-H" else old(polygonAlgorithm)
    {
      if algorithm in ["C-S", "L-B", "N-L-N"] {
        lineAlgorithm := algorithm;
      } else if algorithm in ["S-H", "NDC", "DC"] {
        polygonAlgorithm := "S-H";
      }
    }

    /** clip_point: the point itself when it is in the window, borders
        included, and nothing otherwise. */
    function ClipPoint(p: Point2): (r: Option<Point2>)
      reads this
      ensures r.Some? <==> xMin <= p.x <= xMax && yMin <= p.y <= yMax
      ensures r.Some? ==> r.value == p
    {
      if InWindow(Win(), p) then Some(p) else None
    }

    /** liang_barsky's loop over the four (p, q) tests. */
    method LiangBarsky(p1: Point2, p2: Point2) returns (r: seq<Point2>)
      ensures r == LineClip.LiangBarsky(Win(), p1, p2)
    {
      var dx := p2.x - p1.x;
      var dy := p2.y - p1.y;
      var p := [-dx, dx, -dy, dy];
      var q := [p1.x - xMin, xMax - p1.x, p1.y - yMin, yMax - p1.y];
      ghost var ts := LBTerms(Win(), p1, p2);
      var u1, u2 := 0.0, 1.0;
      assert ts == [(p[0], q[0]), (p[1], q[1]), (p[2], q[2]), (p[3], q[3])];
      for i := 0 to 4
        invariant LBFold(ts[i..], u1, u2) == LBRange(Win(), p1, p2)
      {
        assert ts[i] == (p[i], q[i]);
        LBFoldAt(ts, i, u1, u2);
        if p[i] == 0.0 {
          if q[i] < 0.0 {
            assert LBRange(Win(), p1, p2).None?;
            return [];
          }
        } else {
          var u := q[i] / p[i];
          if p[i] < 0.0 {
            u1 := Max(u1, u);
          } else {
            u2 := Min(u2, u);
          }
        }
      }
      assert ts[4..] == [];
      assert LBRange(Win(), p1, p2) == Some((u1, u2));
      r := [];
      if u1 < u2 {
        r := [Point2(p1.x + u1 * dx, p1.y + u1 * dy), Point2(p1.x + u2 * dx, p1.y + u2 * dy)];
        assert r[0] == Lerp(p1, p2, u1) && r[1] == Lerp(p1, p2, u2);
      }
    }

    /** nicholl_lee_nicholl's loop: move the end that is outside to the
        boundary of its first side until both ends are inside or both are
        beyond one side. */
    method NichollLeeNicholl(p1: Point2, p2: Point2) returns (r: seq<Point2>)
      requires Valid()
      ensures r == NLNClip(Win(), p1, p2)
    {
      var w := Win();
      var a, b := p1, p2;
      var o1, o2 := Outcode(w, a), Outcode(w, b);
      var accept := false;
      while true
        invariant o1 == Outcode(w, a) && o2 == Outcode(w, b)
        invariant NLNClip(w, a, b) == NLNClip(w, p1, p2)
        decreases Bits(o1 | o2)
      {
        if o1 | o2 == 0 {
          accept := true;
          break;
        } else if o1 & o2 != 0 {
          break;
        }
        var out := if o1 != 0 then o1 else o2;
        NLNStep(w, a, b);
        var q := Crossing(w, a, b, FirstBit(out));
        if out == o1 {
          a := q;
          o1 := Outcode(w, a);
        } else {
          b := q;
          o2 := Outcode(w, b);
        }
      }
      if accept {
        r := [a, b];
      } else {
        r := [];
      }
    }

    /** clip_line: dispatch on the stored line algorithm. */
    method ClipLine(p1: Point2, p2: Point2) returns (r: seq<Point2>)
      requires Valid()
      ensures r == ClipLineWith(lineAlgorithm, Win(), p1, p2)
    {
      if lineAlgorithm == "L-B" {
        r := LiangBarsky(p1, p2);
      } else if lineAlgorithm == "C-S" {
        r := CohenSutherlandAsWritten(Win(), p1, p2);
      } else if lineAlgorithm == "N-L-N" {
        r := NichollLeeNicholl(p1, p2);
      } else {
        r := [];
      }
    }

    /** clip_curve: clip each consecutive segment and gather the results
        into pieces, starting a new piece after a segment clipped to
        nothing. */
    method ClipCurve(coords: seq<Point2>) returns (clipped: seq<seq<Point2>>)
      requires Valid()
      ensures clipped == Pieces(Segments(lineAlgorithm, Win(), coords)).0
    {
      ghost var rs := Segments(lineAlgorithm, Win(), coords);
      clipped := [];
      var newCurve := true;
      var n := if |coords| < 2 then 0 else |coords| - 1;
      for j := 0 to n
        invariant (clipped, newCurve) == Pieces(rs[..j])
      {
        var line := ClipLine(coords[j], coords[j + 1]);
        assert rs[..j + 1][..j] == rs[..j] && rs[..j + 1][j] == line;
        ghost var next := Step((clipped, newCurve), line);
        assert Pieces(rs[..j + 1]) == next;
        ghost var before := clipped;
        if line == [] {
          newCurve := true;
        } else {
          if newCurve {
            clipped := clipped + [[]];
            newCurve := false;
            assert clipped[..|clipped| - 1] == before && clipped[|clipped| - 1] + line == line;
          }
          clipped := clipped[..|clipped| - 1] + [clipped[|clipped| - 1] + line];
        }
      }
      assert rs[..n] == rs;
    }

    /** The inner loop of sutherland_hodgman: one pass of the edge list
        against the window side e. */
    method ClipAgainstEdge(cp: seq<Point2>, ce: seq<IndexPair>, e: Edge)
      returns (np: seq<Point2>, ne: seq<IndexPair>)
      requires EdgesIndex(cp, ce)
      ensures (np, ne) == Pass(cp, ce, e)
    {
      np, ne := [], [];
      for k := 0 to |ce|
        invariant (np, ne) == Pass(cp, ce[..k], e)
      {
        PassAppend(cp, ce, k, e);
        var prev := PyAt(cp, ce[k].0);
        var point := PyAt(cp, ce[k].1);
        if Inside(point, e) {
          var cut := if !Inside(prev, e) then ComputeIntersection(prev, point, e) else Some(prev);
          if cut.Some? {
            np := np + [cut.value, point];
            ne := ne + [(|np| - 2, |np| - 1)];
          }
        } else if Inside(prev, e) {
          var cut := ComputeIntersection(prev, point, e);
          if cut.Some? {
            np := np + [prev, cut.value];
            ne := ne + [(|np| - 2, |np| - 1)];
          }
        } else {
          np := np + [ProjectToWindowEdge(prev, e), ProjectToWindowEdge(point, e)];
          ne := ne + [(|np| - 2, |np| - 1)];
        }
      }
      assert ce[..|ce|] == ce;
    }

    /** sutherland_hodgman: one pass per window side over the current edge
        list, each edge adding two points and one edge, then the closing
        bounding-box test. */
    method SutherlandHodgman(polygon: seq<Point2>, edges: seq<IndexPair>)
      returns (rp: seq<Point2>, re: seq<IndexPair>)
      requires |edges| > 0 && EdgesIndex(polygon, edges)
      ensures (rp, re) == PolygonClip.SutherlandHodgman(Win(), polygon, edges)
    {
      var cp, ce := polygon, edges;
      var window := WindowEdges(Win());
      var i := 0;
      while i < 4
        invariant 0 <= i <= 4 && EdgesIndex(cp, ce)
        invariant SidePasses(cp, ce, window[i..]) == SidePasses(polygon, edges, window)
      {
        if cp == [] {
          break;
        }
        var e := window[i];
        var np, ne := ClipAgainstEdge(cp, ce, e);
        assert window[i..][0] == e && window[i..][1..] == window[i + 1..];
        PassIndexes(cp, ce, e);
        cp, ce := np, ne;
        i := i + 1;
      }
      assert i == 4 ==> window[i..] == [];
      assert (cp, ce) == SidePasses(polygon, edges, window);
      PassesShape(polygon, edges, window);
      var xs := Xs(cp);
      var ys := Ys(cp);
      var cx := MinOf(xs) >= xMax || MaxOf(xs) <= xMin;
      var cy := MinOf(ys) >= yMax || MaxOf(ys) <= yMin;
      assert cx || cy <==> Degenerate(Win(), cp);
      if cx || cy {
        return [], [];
      }
      return cp, ce;
    }

    /** clip_polygon: Sutherland–Hodgman when that is the stored polygon
        algorithm, nothing otherwise. */
    method ClipPolygon(coords: seq<Point2>, edges: seq<IndexPair>) returns (rp: seq<Point2>, re: seq<IndexPair>)
      requires polygonAlgorithm == "S-H" ==> |edges| > 0 && EdgesIndex(coords, edges)
      ensures (rp, re) == if polygonAlgorithm == "S-H" then PolygonClip.SutherlandHodgman(Win(), coords, edges) else ([], [])
    {
      if polygonAlgorithm == "S-H" {
        rp, re := SutherlandHodgman(coords, edges);
        return;
      }
      return [], [];
    }
  }
}
