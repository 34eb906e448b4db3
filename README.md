# Polygon area and centroid

A Dafny model of `calculate_polygon_area_centroid`, the core of a small polygon
analysis script. The function takes an ordered list of 2D vertices. It treats the
list as a closed cycle, where the last vertex connects back to the first. In one
pass it computes the polygon's unsigned area and its centroid:

- the shoelace formula gives twice the signed area: the cyclic sum of
  `x_i*y_next - x_next*y_i`, where `next = (i + 1) mod n`;
- the first-moment sums are `Σ (x_i + x_next) * cross` and `Σ (y_i + y_next) * cross`;
- the centroid is each moment divided by `6 * A`, where `A` is the **signed** area;
- the area reported is `|A|`.

The function fails in two ways:

- with `InsufficientVertices(n)` when fewer than three vertices are given;
- with `DegeneratePolygon(A)` when `|A| < 1e-10`.

The source raises `ValueError` for both. The model returns a `Result` datatype
instead.

Files:

- `polygon_analysis.dfy` (module `PolygonAnalysis`) holds the data types and the
  per-edge terms. It defines the recursive prefix sum `EdgeSum` and the cyclic
  sums built on it: `CrossSum`, `MomentXSum` and `MomentYSum`. The reference
  outcome `Analysis` is defined from these sums. The method
  `CalculatePolygonAreaCentroid` mirrors the source's loop: its three
  accumulators are tied to prefixes of the cyclic sums by loop invariants.
- `polygon_properties.dfy` (module `PolygonProperties`) proves properties of the
  reference outcome:
  - rotating the start vertex changes nothing;
  - reversing the winding negates the signed area and both moments, but leaves
    the area and the centroid unchanged;
  - when each failure occurs;
  - triangles, collinear points and coincident points;
  - the worked examples.

The arithmetic uses exact `real`. The threshold is the literal `1e-10`.

## Model

| member | source | states |
|---|---|---|
| `PolygonAnalysis.CalculatePolygonAreaCentroid` | polygon_analysis.py:38-63 | The loop's result equals the reference `Analysis`. Fewer than 3 vertices gives exactly `InsufficientVertices(n)`. Degenerate failure happens exactly when n ≥ 3 and \|½·cross sum\| < 1e-10, and it carries the signed area. On success the area is \|½·cross sum\| and is ≥ 1e-10, and each centroid coordinate is its moment sum over 3·cross sum (i.e. over 6·signed area). |
| `PolygonAnalysis.Succ` | polygon_analysis.py:49 | The successor index `(i + 1) % n` is `i + 1`, wrapping to `0` after the last vertex. |
| `PolygonProperties.RotateEdgeSum` | polygon_analysis.py:47-53 | Each of the three cyclic sums is unchanged when the list starts at another vertex. |
| `PolygonProperties.RotationInvariant` | polygon_analysis.py:47-53 | A rotated vertex list gives the same signed area, the same moment sums and the same outcome (area, centroid, or failure): exactly equal results. |
| `PolygonProperties.TermAntisymmetric` | polygon_analysis.py:50-53 | Walking an edge backwards negates its cross term and both of its moment terms. |
| `PolygonProperties.ReverseEdgeSum` | polygon_analysis.py:47-53 | Reversing the vertex order negates each cyclic sum. |
| `PolygonProperties.ReversalInvariant` | polygon_analysis.py:50-63 | Reversal negates the signed area and both moment sums. Reversal succeeds exactly when the original does, with the same area and centroid. Reversal fails with the same kind of failure. |
| `PolygonProperties.InsufficientIff` | polygon_analysis.py:39-41 | The outcome is `InsufficientVertices(n)` if and only if n < 3. |
| `PolygonProperties.SuccessCharacterised` | polygon_analysis.py:55-63 | Success happens exactly when n ≥ 3 and \|cross sum\| ≥ 2·1e-10. On success the area is \|cross sum\|/2 and is ≥ 1e-10, and centroid·6·signed area equals each moment sum. |
| `PolygonProperties.TriangleCrossSum` | polygon_analysis.py:47-51 | For a triangle the cross sum is the cross product (b − a) × (c − a). |
| `PolygonProperties.TriangleOutcome` | polygon_analysis.py:55-58 | A triangle succeeds if and only if \|(b − a) × (c − a)\| ≥ 2·1e-10. |
| `PolygonProperties.CollinearDegenerate` | polygon_analysis.py:55-58 | Any three collinear vertices a, b, a + t·(b − a) fail with `DegeneratePolygon(0)`. |
| `PolygonProperties.CoincidentDegenerate` | polygon_analysis.py:55-58 | Three or more copies of one point fail with `DegeneratePolygon(0)`. |
| `PolygonProperties.SquareExample` | polygon_analysis.py:38-63 | The square (0,0),(4,0),(4,4),(0,4) gives area 16 and centroid (2, 2). |
| `PolygonProperties.ReversedSquareExample` | polygon_analysis.py:38-63 | The clockwise square (0,0),(0,4),(4,4),(4,0) gives area 16 and centroid (2, 2). |
| `PolygonProperties.TriangleExample` | polygon_analysis.py:38-63 | The triangle (0,0),(4,0),(0,3) gives area 6 and centroid (4/3, 1). |
| `PolygonProperties.CollinearExample` | polygon_analysis.py:55-58 | The points (0,0),(1,0),(2,0) fail as degenerate. |
| `PolygonProperties.TwoVerticesExample` | polygon_analysis.py:39-41 | Two vertices fail with `InsufficientVertices(2)`. |

## Left out

- Configuration discovery and parsing (polygon_analysis.py:5-21) are left out. They are file-system checks and `configparser` reads into module-level globals.
- CSV loading (polygon_analysis.py:24-35) is left out. It covers file I/O, `csv.DictReader`, `float()` conversion and the re-raised `KeyError`. The model takes the already-parsed vertex list as its input.
- The top-level `try`/`except` and printing (polygon_analysis.py:66-75) are left out. They are presentation only.
- IEEE-754 rounding is not modelled. Arithmetic is exact over `real`. Cases where floating-point error would move a result across the `1e-10` threshold are not captured.
- Self-intersection is not detected. The source does not detect it either.
- The source's error messages are human-readable strings. The model replaces them with the tagged `Failure` values. The degenerate message in the source carries no number. The model's `DegeneratePolygon` carries the halved signed area, including its sign, for diagnostics. This is why `ReversalInvariant` promises only the same failure kind under reversal: the signed area it carries is negated.
- The input is not modified. Here that holds because the vertex list is an immutable `seq`. No contract has to state it.
