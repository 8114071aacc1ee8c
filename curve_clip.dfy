/** clip_curve's bookkeeping: the clipped segments of a polyline are
    gathered into pieces, a segment clipped to nothing ending the current
    piece. */
module CurveClip {
  import opened LinAlg

  /** The points of a list of point lists, in order. */
  function Concat(xs: seq<seq<Point2>>): seq<Point2>
    decreases |xs|
  {
    if xs == [] then [] else Concat(xs[..|xs| - 1]) + xs[|xs| - 1]
  }

  /** One round of the loop: an empty segment raises the new_curve flag;
      a non-empty one opens a new piece while the flag is up and extends
      the last piece otherwise. */
  function Step(prior: (seq<seq<Point2>>, bool), last: seq<Point2>): (r: (seq<seq<Point2>>, bool))
    requires prior.1 || prior.0 != []
    ensures r.1 <==> last == []
    ensures r.0 != [] || r.1
  {
    if last == [] then (prior.0, true)
    else if prior.1 then (prior.0 + [last], false)
    else (prior.0[..|prior.0| - 1] + [prior.0[|prior.0| - 1] + last], false)
  }

  /** The pieces after the clipped segments rs, with the new_curve flag,
      which is up at the start and after an empty segment. */
  function Pieces(rs: seq<seq<Point2>>): (r: (seq<seq<Point2>>, bool))
    ensures r.1 <==> rs == [] || rs[|rs| - 1] == []
    ensures !r.1 ==> r.0 != []
    decreases |rs|
  {
    if rs == [] then ([], true)
    else Step(Pieces(rs[..|rs| - 1]), rs[|rs| - 1])
  }

  /** Pieces before a round are untouched by it. */
  lemma StepShift(a: seq<seq<Point2>>, b: seq<seq<Point2>>, f: bool, last: seq<Point2>)
    requires f || b != []
    ensures Step((a + b, f), last) == (a + Step((b, f), last).0, Step((b, f), last).1)
  {
    if last != [] && f {
      assert a + b + [last] == a + (b + [last]);
    } else if last != [] {
      var n := |b| - 1;
      assert (a + b)[..|a + b| - 1] == a + b[..n];
      assert (a + b)[|a + b| - 1] == b[n];
      assert a + b[..n] + [b[n] + last] == a + (b[..n] + [b[n] + last]);
    }
  }

  /** No piece is empty. */
  lemma {:induction false} PiecesNonEmpty(rs: seq<seq<Point2>>)
    ensures forall i :: 0 <= i < |Pieces(rs).0| ==> Pieces(rs).0[i] != []
    decreases |rs|
  {
    if rs != [] {
      PiecesNonEmpty(rs[..|rs| - 1]);
    }
  }

  lemma ConcatAppend(xs: seq<seq<Point2>>, x: seq<Point2>)
    ensures Concat(xs + [x]) == Concat(xs) + x
  {
    assert (xs + [x])[..|xs|] == xs;
  }

  /** The pieces hold exactly the points of the clipped segments, in order. */
  lemma {:induction false} PiecesConcat(rs: seq<seq<Point2>>)
    ensures Concat(Pieces(rs).0) == Concat(rs)
    decreases |rs|
  {
    if rs != [] {
      var init, last := rs[..|rs| - 1], rs[|rs| - 1];
      PiecesConcat(init);
      StepConcat(Pieces(init), last);
    }
  }

  /** One round adds the segment's points at the end of the pieces. */
  lemma StepConcat(prior: (seq<seq<Point2>>, bool), last: seq<Point2>)
    requires prior.1 || prior.0 != []
    ensures Concat(Step(prior, last).0) == Concat(prior.0) + last
  {
    var ps := prior.0;
    if last == [] {
      assert Concat(ps) + last == Concat(ps);
    } else if prior.1 {
      ConcatAppend(ps, last);
    } else {
      var n := |ps| - 1;
      assert ps == ps[..n] + [ps[n]];
      ConcatAppend(ps[..n], ps[n]);
      ConcatAppend(ps[..n], ps[n] + last);
    }
  }

  /** A segment that clips to nothing separates the pieces before it from
      those after it: the pieces of rs, [], ts are those of rs followed by
      those of ts. */
  lemma {:induction false} PiecesSplit(rs: seq<seq<Point2>>, ts: seq<seq<Point2>>)
    ensures Pieces(rs + [[]] + ts) == (Pieces(rs).0 + Pieces(ts).0, Pieces(ts).1)
    decreases |ts|
  {
    var all := rs + [[]] + ts;
    if ts == [] {
      assert all[..|all| - 1] == rs;
      assert Pieces(rs).0 + Pieces(ts).0 == Pieces(rs).0;
    } else {
      var init := ts[..|ts| - 1];
      assert all[..|all| - 1] == rs + [[]] + init;
      assert all[|all| - 1] == ts[|ts| - 1];
      PiecesSplit(rs, init);
      StepShift(Pieces(rs).0, Pieces(init).0, Pieces(init).1, ts[|ts| - 1]);
    }
  }

  /** A run of segments that all keep something forms one piece. */
  lemma {:induction false} PiecesRun(rs: seq<seq<Point2>>)
    requires rs != [] && forall i :: 0 <= i < |rs| ==> rs[i] != []
    ensures Pieces(rs) == ([Concat(rs)], false)
    decreases |rs|
  {
    var init := rs[..|rs| - 1];
    if init != [] {
      PiecesRun(init);
      var p := [Concat(init)];
      assert Pieces(rs) == Step((p, false), rs[|rs| - 1]);
      assert p[..0] + [p[0] + rs[|rs| - 1]] == [Concat(rs)];
    } else {
      assert Pieces(init) == ([], true);
      assert Concat(rs) == Concat(init) + rs[0];
      assert Pieces(rs) == Step(([], true), rs[0]);
      assert [] + [rs[0]] == [rs[0]] && [] + rs[0] == rs[0];
    }
  }
}
