/** Area and centroid of a polygon given as an ordered, implicitly closed list of
    vertices: the shoelace formula with first-moment accumulation. Arithmetic is
    exact (`real`); the source's doubles are not modelled bit for bit. */
module PolygonAnalysis {

  /** A vertex (x, y). */
  datatype Point = Point(x: real, y: real)

  /** What the computation reports on success. */
  datatype Metrics = Metrics(area: real, centroid: Point)

  /** The two ways the computation refuses its input. */
  datatype Failure =
    | InsufficientVertices(count: nat)      // fewer than three vertices
    | DegeneratePolygon(signedArea: real)   // |signed area| below the threshold

  datatype Result = Ok(value: Metrics) | Err(error: Failure)

  /** The fixed, absolute degeneracy threshold on the signed area. */
  const Epsilon: real := 1e-10

  function Abs(a: real): (r: real)
    ensures r >= 0.0 && (r == a || r == -a)
  {
    if a < 0.0 then -a else a
  }

  /** Index of the cyclic successor of vertex `i`: the polygon is closed. */
  function Succ(n: nat, i: nat): (j: nat)
    requires i < n
    ensures j < n
    ensures j == if i + 1 < n then i + 1 else 0
  {
    (i + 1) % n
  }

  /** The three quantities the loop accumulates, one term per edge. */
  datatype Quantity = Shoelace | MomentX | MomentY

  /** Cross product of the edge p -> q (twice the signed area of the
      triangle it forms with the origin). */
  function Cross(p: Point, q: Point): real
  {
    p.x * q.y - q.x * p.y
  }

  /** The contribution of the edge p -> q to quantity `k`. */
  function Term(k: Quantity, p: Point, q: Point): real
  {
    match k
    case Shoelace => Cross(p, q)
    case MomentX => (p.x + q.x) * Cross(p, q)
    case MomentY => (p.y + q.y) * Cross(p, q)
  }

  /** The term of quantity `k` for the edge leaving vertex `i`. */
  function EdgeTerm(vs: seq<Point>, k: Quantity, i: nat): real
    requires i < |vs|
  {
    Term(k, vs[i], vs[Succ(|vs|, i)])
  }

  /** Sum of the terms of quantity `k` over the edges leaving vertices 0 .. m-1. */
  function EdgeSum(vs: seq<Point>, k: Quantity, m: nat): real
    requires m <= |vs|
  {
    if m == 0 then 0.0 else EdgeSum(vs, k, m - 1) + EdgeTerm(vs, k, m - 1)
  }

  /** The cyclic cross sum: twice the signed area. */
  function CrossSum(vs: seq<Point>): real
  {
    EdgeSum(vs, Shoelace, |vs|)
  }

  /** The cyclic sum of (x_i + x_next) * cross. */
  function MomentXSum(vs: seq<Point>): real
  {
    EdgeSum(vs, MomentX, |vs|)
  }

  /** The cyclic sum of (y_i + y_next) * cross. */
  function MomentYSum(vs: seq<Point>): real
  {
    EdgeSum(vs, MomentY, |vs|)
  }

  /** Signed area: positive for counter-clockwise winding, negative for clockwise. */
  function SignedArea(vs: seq<Point>): real
  {
    CrossSum(vs) / 2.0
  }

  /** Reference definition of the outcome of the computation. */
  function Analysis(vs: seq<Point>): Result
  {
    if |vs| < 3 then
      Err(InsufficientVertices(|vs|))
    else
      var a := SignedArea(vs);
      if Abs(a) < Epsilon then
        Err(DegeneratePolygon(a))
      else
        Ok(Metrics(Abs(a), Point(MomentXSum(vs) / (6.0 * a), MomentYSum(vs) / (6.0 * a))))
  }

  /** The single pass over the vertices with three accumulators. */
  method CalculatePolygonAreaCentroid(vs: seq<Point>) returns (r: Result)
    ensures r == Analysis(vs)
    ensures |vs| < 3 <==> r == Err(InsufficientVertices(|vs|))
    ensures r.Err? && r.error.DegeneratePolygon? <==>
              |vs| >= 3 && Abs(CrossSum(vs) / 2.0) < Epsilon
    ensures r.Err? && r.error.DegeneratePolygon? ==>
              r.error.signedArea == CrossSum(vs) / 2.0
    ensures r.Ok? ==> r.value.area >= Epsilon
    ensures r.Ok? ==> r.value.area == Abs(CrossSum(vs) / 2.0)
    ensures r.Ok? ==> r.value.centroid.x == MomentXSum(vs) / (3.0 * CrossSum(vs))
    ensures r.Ok? ==> r.value.centroid.y == MomentYSum(vs) / (3.0 * CrossSum(vs))
  {
    var n := |vs|;
    if n < 3 {
      return Err(InsufficientVertices(n));
    }
    var area, centroidX, centroidY := 0.0, 0.0, 0.0;
    var i := 0;
    while i < n
      invariant 0 <= i <= n
      invariant area == EdgeSum(vs, Shoelace, i)
      invariant centroidX == EdgeSum(vs, MomentX, i)
      invariant centroidY == EdgeSum(vs, MomentY, i)
    {
      var p, q := vs[i], vs[(i + 1) % n];
      var crossProduct := p.x * q.y - q.x * p.y;
      area := area + crossProduct;
      centroidX := centroidX + (p.x + q.x) * crossProduct;
      centroidY := centroidY + (p.y + q.y) * crossProduct;
      i := i + 1;
    }
    area := area / 2.0;
    if Abs(area) < Epsilon {
      return Err(DegeneratePolygon(area));
    }
    centroidX := centroidX / (6.0 * area);
    centroidY := centroidY / (6.0 * area);
    return Ok(Metrics(Abs(area), Point(centroidX, centroidY)));
  }
}
