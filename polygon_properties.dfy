/** Properties of the area/centroid computation: invariance under the choice of
    starting vertex and under reversal of the winding, the two failure modes,
    and worked cases. */
module PolygonProperties {
  import opened PolygonAnalysis

  /** The vertex list started at vertex `r` instead of vertex 0. */
  function Rotate(vs: seq<Point>, r: nat): (rs: seq<Point>)
    requires r <= |vs|
    ensures |rs| == |vs|
    ensures forall i :: 0 <= i < |vs| - r ==> rs[i] == vs[r + i]
    ensures forall i :: |vs| - r <= i < |vs| ==> rs[i] == vs[i - (|vs| - r)]
  {
    vs[r..] + vs[..r]
  }

  /** The vertex list in the opposite winding order. */
  function Reverse(vs: seq<Point>): (rs: seq<Point>)
    ensures |rs| == |vs|
    ensures forall i :: 0 <= i < |vs| ==> rs[i] == vs[|vs| - 1 - i]
  {
    if vs == [] then [] else Reverse(vs[1..]) + [vs[0]]
  }

  // ---------------------------------------------------------------------------
  // Rotation

  /** The edge leaving vertex `i` of the rotated list is the edge leaving vertex
      `(i + r) mod n` of the original. */
  lemma RotateEdgeTerm(vs: seq<Point>, r: nat, k: Quantity, i: nat)
    requires r < |vs| && i < |vs|
    ensures EdgeTerm(Rotate(vs, r), k, i) ==
            EdgeTerm(vs, k, if i + r < |vs| then i + r else i + r - |vs|)
  {
  }

  /** Over the first `n - r` edges the rotated list sums the original's edges r .. n-1. */
  lemma {:induction false} RotateHead(vs: seq<Point>, r: nat, k: Quantity, m: nat)
    requires r < |vs| && m <= |vs| - r
    ensures EdgeSum(Rotate(vs, r), k, m) == EdgeSum(vs, k, r + m) - EdgeSum(vs, k, r)
  {
    if m > 0 {
      RotateHead(vs, r, k, m - 1);
      RotateEdgeTerm(vs, r, k, m - 1);
    }
  }

  /** Past edge `n - r` the rotated list wraps round to the original's edges 0 .. r-1. */
  lemma {:induction false} RotateTail(vs: seq<Point>, r: nat, k: Quantity, m: nat)
    requires r < |vs| && |vs| - r <= m <= |vs|
    ensures EdgeSum(Rotate(vs, r), k, m) ==
            EdgeSum(vs, k, |vs|) - EdgeSum(vs, k, r) + EdgeSum(vs, k, m - (|vs| - r))
  {
    if m == |vs| - r {
      RotateHead(vs, r, k, m);
    } else {
      RotateTail(vs, r, k, m - 1);
      RotateEdgeTerm(vs, r, k, m - 1);
    }
  }

  /** Every cyclic sum is the same whichever vertex the list starts at. */
  lemma RotateEdgeSum(vs: seq<Point>, r: nat, k: Quantity)
    requires r <= |vs|
    ensures EdgeSum(Rotate(vs, r), k, |vs|) == EdgeSum(vs, k, |vs|)
  {
    if r == |vs| {
      assert vs[r..] == [] && vs[..r] == vs;
      assert Rotate(vs, r) == vs;
    } else {
      RotateTail(vs, r, k, |vs|);
      assert |vs| - (|vs| - r) == r;
    }
  }

  /** Starting the cycle at another vertex changes neither the area, nor the
      centroid, nor which failure (if any) is reported. */
  lemma RotationInvariant(vs: seq<Point>, r: nat)
    requires r <= |vs|
    ensures SignedArea(Rotate(vs, r)) == SignedArea(vs)
    ensures MomentXSum(Rotate(vs, r)) == MomentXSum(vs)
    ensures MomentYSum(Rotate(vs, r)) == MomentYSum(vs)
    ensures Analysis(Rotate(vs, r)) == Analysis(vs)
  {
    RotateEdgeSum(vs, r, Shoelace);
    RotateEdgeSum(vs, r, MomentX);
    RotateEdgeSum(vs, r, MomentY);
  }

  // ---------------------------------------------------------------------------
  // Reversal

  /** Walking an edge backwards negates each of its three terms. */
  lemma TermAntisymmetric(k: Quantity, p: Point, q: Point)
    ensures Term(k, q, p) == -Term(k, p, q)
  {
  }

  /** The first `m < n` edges of the reversed list are the original's edges
      n-2, n-3, ..., n-1-m walked backwards. */
  lemma {:induction false} ReverseHead(vs: seq<Point>, k: Quantity, m: nat)
    requires 0 < |vs| && m < |vs|
    ensures EdgeSum(Reverse(vs), k, m) ==
            EdgeSum(vs, k, |vs| - 1 - m) - EdgeSum(vs, k, |vs| - 1)
  {
    if m > 0 {
      var n := |vs|;
      var rs := Reverse(vs);
      ReverseHead(vs, k, m - 1);
      assert rs[m - 1] == vs[n - m] && rs[Succ(n, m - 1)] == vs[n - 1 - m];
      assert Succ(n, n - 1 - m) == n - m;
      TermAntisymmetric(k, vs[n - 1 - m], vs[n - m]);
    }
  }

  /** Reversing the winding negates every cyclic sum. */
  lemma ReverseEdgeSum(vs: seq<Point>, k: Quantity)
    ensures EdgeSum(Reverse(vs), k, |vs|) == -EdgeSum(vs, k, |vs|)
  {
    var n := |vs|;
    if n > 0 {
      var rs := Reverse(vs);
      ReverseHead(vs, k, n - 1);
      assert rs[n - 1] == vs[0] && rs[Succ(n, n - 1)] == vs[n - 1];
      TermAntisymmetric(k, vs[n - 1], vs[0]);
    }
  }

  /** Reversing the vertex order negates the signed area and both moment sums;
      the outcome kind, and on success the area and the centroid, are unchanged. */
  lemma ReversalInvariant(vs: seq<Point>)
    ensures SignedArea(Reverse(vs)) == -SignedArea(vs)
    ensures MomentXSum(Reverse(vs)) == -MomentXSum(vs)
    ensures MomentYSum(Reverse(vs)) == -MomentYSum(vs)
    ensures Analysis(Reverse(vs)).Ok? <==> Analysis(vs).Ok?
    ensures Analysis(vs).Ok? ==> Analysis(Reverse(vs)) == Analysis(vs)
    ensures Analysis(vs).Err? ==>
              Analysis(Reverse(vs)).error.InsufficientVertices? == Analysis(vs).error.InsufficientVertices?
  {
    ReverseEdgeSum(vs, Shoelace);
    ReverseEdgeSum(vs, MomentX);
    ReverseEdgeSum(vs, MomentY);
    var a := SignedArea(vs);
    if |vs| >= 3 && Abs(a) >= Epsilon {
      assert MomentXSum(Reverse(vs)) / (6.0 * -a) == MomentXSum(vs) / (6.0 * a);
      assert MomentYSum(Reverse(vs)) / (6.0 * -a) == MomentYSum(vs) / (6.0 * a);
    }
  }

  // ---------------------------------------------------------------------------
  // Outcomes

  /** Fewer than three vertices always fail with the vertex count; at least
      three never fail that way. */
  lemma InsufficientIff(vs: seq<Point>)
    ensures Analysis(vs) == Err(InsufficientVertices(|vs|)) <==> |vs| < 3
  {
  }

  /** On success the area is the absolute shoelace area and at least the
      threshold, and the centroid is each moment over six times the signed area. */
  lemma SuccessCharacterised(vs: seq<Point>)
    ensures Analysis(vs).Ok? <==> |vs| >= 3 && Abs(CrossSum(vs)) >= 2.0 * Epsilon
    ensures Analysis(vs).Ok? ==>
              var m := Analysis(vs).value;
              m.area >= Epsilon && m.area == Abs(CrossSum(vs)) / 2.0 &&
              m.centroid.x * 6.0 * SignedArea(vs) == MomentXSum(vs) &&
              m.centroid.y * 6.0 * SignedArea(vs) == MomentYSum(vs)
  {
  }

  /** A triangle has the three edges a -> b, b -> c and c -> a. */
  lemma TriangleEdgeSum(a: Point, b: Point, c: Point, k: Quantity)
    ensures EdgeSum([a, b, c], k, 3) == Term(k, a, b) + Term(k, b, c) + Term(k, c, a)
  {
    var vs := [a, b, c];
    assert EdgeTerm(vs, k, 0) == Term(k, a, b);
    assert EdgeTerm(vs, k, 1) == Term(k, b, c);
    assert Succ(3, 2) == 0;
    assert EdgeTerm(vs, k, 2) == Term(k, c, a);
    assert EdgeSum(vs, k, 1) == Term(k, a, b);
    assert EdgeSum(vs, k, 2) == Term(k, a, b) + Term(k, b, c);
  }

  /** A quadrilateral has the four edges a -> b, b -> c, c -> d and d -> a. */
  lemma QuadrilateralEdgeSum(a: Point, b: Point, c: Point, d: Point, k: Quantity)
    ensures EdgeSum([a, b, c, d], k, 4) ==
            Term(k, a, b) + Term(k, b, c) + Term(k, c, d) + Term(k, d, a)
  {
    var vs := [a, b, c, d];
    assert EdgeTerm(vs, k, 0) == Term(k, a, b);
    assert EdgeTerm(vs, k, 1) == Term(k, b, c);
    assert EdgeTerm(vs, k, 2) == Term(k, c, d);
    assert Succ(4, 3) == 0;
    assert EdgeTerm(vs, k, 3) == Term(k, d, a);
    assert EdgeSum(vs, k, 1) == Term(k, a, b);
    assert EdgeSum(vs, k, 2) == Term(k, a, b) + Term(k, b, c);
    assert EdgeSum(vs, k, 3) == Term(k, a, b) + Term(k, b, c) + Term(k, c, d);
  }

  /** Twice the signed area of a triangle is the cross product of two of its sides. */
  lemma TriangleCrossSum(a: Point, b: Point, c: Point)
    ensures CrossSum([a, b, c]) == (b.x - a.x) * (c.y - a.y) - (c.x - a.x) * (b.y - a.y)
  {
    TriangleEdgeSum(a, b, c, Shoelace);
  }

  /** A triangle succeeds exactly when its area reaches the threshold. */
  lemma TriangleOutcome(a: Point, b: Point, c: Point)
    ensures Analysis([a, b, c]).Ok? <==>
              Abs((b.x - a.x) * (c.y - a.y) - (c.x - a.x) * (b.y - a.y)) >= 2.0 * Epsilon
  {
    TriangleCrossSum(a, b, c);
  }

  /** Three collinear vertices (c = a + t * (b - a)) are degenerate. */
  lemma CollinearDegenerate(a: Point, b: Point, t: real)
    ensures Analysis([a, b, Point(a.x + t * (b.x - a.x), a.y + t * (b.y - a.y))]) ==
            Err(DegeneratePolygon(0.0))
  {
    var c := Point(a.x + t * (b.x - a.x), a.y + t * (b.y - a.y));
    TriangleCrossSum(a, b, c);
    calc {
      (b.x - a.x) * (c.y - a.y) - (c.x - a.x) * (b.y - a.y);
      (b.x - a.x) * (t * (b.y - a.y)) - (t * (b.x - a.x)) * (b.y - a.y);
      0.0;
    }
  }

  /** Every edge between copies of one point contributes nothing. */
  lemma {:induction false} ConstantEdgeSum(vs: seq<Point>, p: Point, k: Quantity, m: nat)
    requires m <= |vs|
    requires forall i :: 0 <= i < |vs| ==> vs[i] == p
    ensures EdgeSum(vs, k, m) == 0.0
  {
    if m > 0 {
      ConstantEdgeSum(vs, p, k, m - 1);
      assert Cross(p, p) == 0.0;
      assert vs[m - 1] == p && vs[Succ(|vs|, m - 1)] == p;
    }
  }

  /** Any number (three or more) of coincident vertices is degenerate. */
  lemma CoincidentDegenerate(vs: seq<Point>, p: Point)
    requires |vs| >= 3
    requires forall i :: 0 <= i < |vs| ==> vs[i] == p
    ensures Analysis(vs) == Err(DegeneratePolygon(0.0))
  {
    ConstantEdgeSum(vs, p, Shoelace, |vs|);
  }

  // ---------------------------------------------------------------------------
  // Worked cases

  /** The 4 x 4 square, counter-clockwise. */
  lemma SquareExample()
    ensures Analysis([Point(0.0, 0.0), Point(4.0, 0.0), Point(4.0, 4.0), Point(0.0, 4.0)]) ==
            Ok(Metrics(16.0, Point(2.0, 2.0)))
  {
    var a, b, c, d := Point(0.0, 0.0), Point(4.0, 0.0), Point(4.0, 4.0), Point(0.0, 4.0);
    QuadrilateralEdgeSum(a, b, c, d, Shoelace);
    QuadrilateralEdgeSum(a, b, c, d, MomentX);
    QuadrilateralEdgeSum(a, b, c, d, MomentY);
  }

  /** The same square, clockwise. */
  lemma ReversedSquareExample()
    ensures Analysis([Point(0.0, 0.0), Point(0.0, 4.0), Point(4.0, 4.0), Point(4.0, 0.0)]) ==
            Ok(Metrics(16.0, Point(2.0, 2.0)))
  {
    var a, b, c, d := Point(0.0, 0.0), Point(0.0, 4.0), Point(4.0, 4.0), Point(4.0, 0.0);
    QuadrilateralEdgeSum(a, b, c, d, Shoelace);
    QuadrilateralEdgeSum(a, b, c, d, MomentX);
    QuadrilateralEdgeSum(a, b, c, d, MomentY);
  }

  /** The right triangle with legs 4 and 3. */
  lemma TriangleExample()
    ensures Analysis([Point(0.0, 0.0), Point(4.0, 0.0), Point(0.0, 3.0)]) ==
            Ok(Metrics(6.0, Point(4.0 / 3.0, 1.0)))
  {
    var a, b, c := Point(0.0, 0.0), Point(4.0, 0.0), Point(0.0, 3.0);
    TriangleEdgeSum(a, b, c, Shoelace);
    TriangleEdgeSum(a, b, c, MomentX);
    TriangleEdgeSum(a, b, c, MomentY);
  }

  /** Three collinear points on the x axis. */
  lemma CollinearExample()
    ensures Analysis([Point(0.0, 0.0), Point(1.0, 0.0), Point(2.0, 0.0)]) ==
            Err(DegeneratePolygon(0.0))
  {
    CollinearDegenerate(Point(0.0, 0.0), Point(1.0, 0.0), 2.0);
  }

  /** Two vertices are not a polygon. */
  lemma TwoVerticesExample()
    ensures Analysis([Point(0.0, 0.0), Point(1.0, 1.0)]) == Err(InsufficientVertices(2))
  {
  }
}
