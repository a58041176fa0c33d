/** What get_polygons does with the contours of a mask once the contour
    tracer (marching squares over the mask padded by one pixel) has found
    them: undo the padding offset, close each ring, drop rings shorter than
    three points, emit (x, y) = (column, row), flatten, and clamp negative
    coordinates to 0. The tracer itself is not modelled: its contours are an
    input. */
module Polygons {

  /** A contour point as the tracer reports it: (row, column), sub-pixel. */
  datatype Point = Point(row: real, col: real)

  /** The tracer never reports an empty contour. */
  type Contour = c: seq<Point> | |c| > 0 witness [Point(0.0, 0.0)]

  /** A segmentation ring: x0, y0, x1, y1, ... */
  type Ring = seq<real>

  /** Every ring that get_polygons emits is closed, has at least three
      points, holds whole (x, y) pairs and has no negative coordinate. */
  predicate WellFormedRing(s: Ring)
  {
    && |s| >= 6 && |s| % 2 == 0
    && s[0] == s[|s| - 2] && s[1] == s[|s| - 1]
    && forall i :: 0 <= i < |s| ==> s[i] >= 0.0
  }

  /** Coordinates on the padded mask, shifted by -1 back to the mask's own. */
  function Unpad(c: Contour): (r: Contour)
    ensures |r| == |c|
    ensures forall i :: 0 <= i < |c| ==> r[i] == Point(c[i].row - 1.0, c[i].col - 1.0)
  {
    seq(|c|, i requires 0 <= i < |c| => Point(c[i].row - 1.0, c[i].col - 1.0))
  }

  function UnpadAll(cs: seq<Contour>): (r: seq<Contour>)
    ensures |r| == |cs|
    ensures forall k :: 0 <= k < |cs| ==> r[k] == Unpad(cs[k])
  {
    seq(|cs|, k requires 0 <= k < |cs| => Unpad(cs[k]))
  }

  /** Appends the first point when the contour does not already end on it. */
  function Close(c: Contour): (r: Contour)
    ensures |c| <= |r| <= |c| + 1
    ensures r[0] == r[|r| - 1]
    ensures r[..|c|] == c
    ensures c[0] == c[|c| - 1] ==> r == c
    ensures c[0] != c[|c| - 1] ==> r == c + [c[0]]
  {
    if c[0] == c[|c| - 1] then c else c + [c[0]]
  }

  /** Swaps each point to (x, y) = (column, row) and flattens the points. */
  function Ravel(ps: seq<Point>): (s: seq<real>)
    ensures |s| == 2 * |ps|
    ensures forall i :: 0 <= i < |ps| ==> s[2 * i] == ps[i].col && s[2 * i + 1] == ps[i].row
  {
    if ps == [] then [] else [ps[0].col, ps[0].row] + Ravel(ps[1..])
  }

  function ClampNegatives(s: seq<real>): (r: seq<real>)
    ensures |r| == |s|
    ensures forall i :: 0 <= i < |s| ==> r[i] == Clamp(s[i])
  {
    seq(|s|, i requires 0 <= i < |s| => Clamp(s[i]))
  }

  function Clamp(v: real): real
  {
    if v < 0.0 then 0.0 else v
  }

  /** The ring emitted for a closed contour of at least three points: a
      well-formed ring whose k-th pair is the k-th point's (column, row),
      with negative values clamped to 0. */
  function RingOf(closed: Contour): (s: Ring)
    requires |closed| >= 3 && closed[0] == closed[|closed| - 1]
    ensures WellFormedRing(s)
    ensures |s| == 2 * |closed|
    ensures forall i :: 0 <= i < |closed| ==>
      s[2 * i] == Clamp(closed[i].col) && s[2 * i + 1] == Clamp(closed[i].row)
  {
    var flat := Ravel(closed);
    var n := |closed| - 1;
    assert flat[0] == flat[2 * n] && flat[1] == flat[2 * n + 1];
    ClampNegatives(flat)
  }

  /** The rings get_polygons emits for (already shifted) contours, in order. */
  function PolygonsOf(cs: seq<Contour>): (rings: seq<Ring>)
    ensures |rings| <= |cs|
    ensures forall k :: 0 <= k < |rings| ==> WellFormedRing(rings[k])
  {
    if cs == [] then []
    else
      var closed := Close(cs[|cs| - 1]);
      if |closed| < 3 then PolygonsOf(cs[..|cs| - 1])
      else PolygonsOf(cs[..|cs| - 1]) + [RingOf(closed)]
  }

  /** A contour yields a ring exactly when it has at least three points once
      closed: three or more points, or two distinct ones. */
  predicate Kept(c: Contour)
  {
    |c| >= 3 || (|c| == 2 && c[0] != c[1])
  }

  lemma KeptIffLongOnceClosed(c: Contour)
    ensures Kept(c) <==> |Close(c)| >= 3
  {
  }

  /** No ring comes out exactly when every contour is too short. */
  lemma PolygonsEmptyIff(cs: seq<Contour>)
    ensures PolygonsOf(cs) == [] <==> forall k :: 0 <= k < |cs| ==> !Kept(cs[k])
  {
    PolygonsCount(cs);
    KeptCountZero(cs);
  }

  lemma {:induction false} KeptCountZero(cs: seq<Contour>)
    ensures KeptCount(cs) == 0 <==> forall k :: 0 <= k < |cs| ==> !Kept(cs[k])
  {
    if cs != [] {
      var init := cs[..|cs| - 1];
      KeptCountZero(init);
      assert forall k :: 0 <= k < |init| ==> init[k] == cs[k];
    }
  }

  /** The number of rings is the number of contours long enough to keep. */
  function KeptCount(cs: seq<Contour>): nat
  {
    if cs == [] then 0 else KeptCount(cs[..|cs| - 1]) + (if Kept(cs[|cs| - 1]) then 1 else 0)
  }

  lemma {:induction false} PolygonsCount(cs: seq<Contour>)
    ensures |PolygonsOf(cs)| == KeptCount(cs)
  {
    if cs != [] {
      PolygonsCount(cs[..|cs| - 1]);
      KeptIffLongOnceClosed(cs[|cs| - 1]);
    }
  }

  /** The -1 shift of the padding commutes with closing and never changes
      whether a contour yields a ring: moving a point moves its copy too. */
  lemma UnpadKeepsShape(c: Contour)
    ensures Close(Unpad(c)) == Unpad(Close(c))
    ensures Kept(Unpad(c)) <==> Kept(c)
  {
    var u := Unpad(c);
    assert u[0] == u[|c| - 1] <==> c[0] == c[|c| - 1];
    if |c| == 2 {
      assert u[0] == u[1] <==> c[0] == c[1];
    }
  }

  /** Hence the traced contours and the shifted ones keep the same number of
      rings, and that is the number of rings get_polygons returns. */
  lemma {:induction false} UnpadKeptCount(cs: seq<Contour>)
    ensures KeptCount(UnpadAll(cs)) == KeptCount(cs)
    ensures |PolygonsOf(UnpadAll(cs))| == KeptCount(cs)
  {
    if cs != [] {
      var init := cs[..|cs| - 1];
      UnpadKeptCount(init);
      assert UnpadAll(cs)[..|cs| - 1] == UnpadAll(init);
      UnpadKeepsShape(cs[|cs| - 1]);
    }
    PolygonsCount(UnpadAll(cs));
  }

  /** The step of the loop, with the contour closed as the loop closes it. */
  lemma PolygonsStepClosed(cs: seq<Contour>, i: nat, contour: seq<Point>, segmentation: Ring)
    requires i < |cs|
    requires contour == if cs[i][0] != cs[i][|cs[i]| - 1] then cs[i] + [cs[i][0]] else cs[i]
    requires |contour| >= 3 ==> segmentation == ClampNegatives(Ravel(contour))
    ensures PolygonsOf(cs[..i + 1]) == if |contour| < 3 then PolygonsOf(cs[..i]) else PolygonsOf(cs[..i]) + [segmentation]
  {
    PolygonsStep(cs, i);
  }

  lemma PolygonsStep(cs: seq<Contour>, i: nat)
    requires i < |cs|
    ensures var closed := Close(cs[i]);
      PolygonsOf(cs[..i + 1]) == if |closed| < 3 then PolygonsOf(cs[..i]) else PolygonsOf(cs[..i]) + [ClampNegatives(Ravel(closed))]
  {
    assert cs[..i + 1][..i] == cs[..i];
  }

  /** get_polygons with tolerance 0, after the tracer: approximate_polygon
      returns its input unchanged at tolerance 0, so it is the identity here. */
  method GetPolygons(traced: seq<Contour>) returns (polygons: seq<Ring>)
    ensures polygons == PolygonsOf(UnpadAll(traced))
    ensures forall k :: 0 <= k < |polygons| ==> WellFormedRing(polygons[k])
  {
    var contours := UnpadAll(traced);
    polygons := [];
    var i := 0;
    while i < |contours|
      invariant 0 <= i <= |contours|
      invariant polygons == PolygonsOf(contours[..i])
    {
      var contour := contours[i];
      if contour[0] != contour[|contour| - 1] {
        contour := contour + [contour[0]];
      }
      if |contour| >= 3 {
        var segmentation := ClampNegatives(Ravel(contour));
        PolygonsStepClosed(contours, i, contour, segmentation);
        polygons := polygons + [segmentation];
      } else {
        PolygonsStepClosed(contours, i, contour, []);
      }
      i := i + 1;
    }
    assert contours[..i] == contours;
  }
}
