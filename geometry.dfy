/** Planar points and the exact arithmetic the stages do on coordinates
    (midpoints, averages, cross products and their signs), and the spatial
    library calls the queries make, passed in as a `Spatial` value. */
module Geometry {
  import opened Sql

  datatype Point = Point(x: real, y: real)

  /** A two-point LINESTRING: `ST_PointN(g, 1)` is `start`, `ST_PointN(g, 2)`
      is `end`. Every crosswalk edge is one. */
  datatype Segment = Segment(start: Point, end: Point)

  /** A LINESTRING with any number of points (a street segment, a ring of a
      crosswalk boundary). */
  type Line = seq<Point>

  /** The spatial-library calls of the queries. Their internals are not part
      of this model; their points stand for the geometries they return.
      - `wkt`: ST_AsText of a point, the text stored in geometry columns;
      - `edgeIntersects`: ST_Intersects of a crosswalk edge and a street;
      - `boundaryIntersects`: ST_Intersects of ST_Boundary(crosswalk) and a street;
      - `boundaryHits`: the points of ST_Dump(ST_Intersection(ST_Boundary(crosswalk), street));
      - `dWithinSpheroid`: ST_DWithin_Spheroid(light, centre, metres);
      - `distanceSphere`: ST_Distance_Sphere(light, centre);
      - `fromText`: ST_GeomFromText of a point text (NULL when it does not
        read as a point). */
  datatype Spatial = Spatial(
    wkt: Point -> string,
    edgeIntersects: (Segment, Line) -> bool,
    boundaryIntersects: (seq<Line>, Line) -> bool,
    boundaryHits: (seq<Line>, Line) -> seq<Point>,
    dWithinSpheroid: (Point, Point, real) -> bool,
    distanceSphere: (Point, Point) -> real,
    fromText: string -> Option<Point>)

  /** The text a geometry column holds for a point that may be NULL. */
  function TextOf(sp: Spatial, p: Option<Point>): (r: Option<string>)
    ensures r.Some? <==> p.Some?
  {
    if p.Some? then Some(sp.wkt(p.value)) else None
  }

  /** `ST_Point((a.x + b.x) / 2.0, (a.y + b.y) / 2.0)`. */
  function Midpoint(a: Point, b: Point): Point
  {
    Point((a.x + b.x) / 2.0, (a.y + b.y) / 2.0)
  }

  /** The midpoint lies between the two points on both axes, at equal
      distance from each, and does not depend on their order. */
  lemma MidpointBetween(a: Point, b: Point)
    ensures var m := Midpoint(a, b);
      && (a.x <= m.x <= b.x || b.x <= m.x <= a.x)
      && (a.y <= m.y <= b.y || b.y <= m.y <= a.y)
      && m.x - a.x == b.x - m.x && m.y - a.y == b.y - m.y
      && m == Midpoint(b, a)
  {
  }

  function SumX(ps: seq<Point>): real
  {
    if ps == [] then 0.0 else ps[0].x + SumX(ps[1..])
  }

  function SumY(ps: seq<Point>): real
  {
    if ps == [] then 0.0 else ps[0].y + SumY(ps[1..])
  }

  /** `c` is the average of the points: n times its X is the sum of their
      X, and likewise for Y. */
  predicate IsAverage(ps: seq<Point>, c: Point)
  {
    |ps| as real * c.x == SumX(ps) && |ps| as real * c.y == SumY(ps)
  }

  /** `ST_Point(AVG(ST_X(p)), AVG(ST_Y(p)))` over a group of points, which is
      also `ST_Centroid` of a set of points; NULL for no points. */
  function Mean(ps: seq<Point>): (r: Option<Point>)
    ensures r.Some? <==> |ps| > 0
    ensures r.Some? ==> IsAverage(ps, r.value)
  {
    if ps == [] then None
    else Some(Point(SumX(ps) / |ps| as real, SumY(ps) / |ps| as real))
  }

  /** Lower and upper bounds on the coordinates of a group of points. */
  ghost predicate InBox(ps: seq<Point>, lo: Point, hi: Point)
  {
    forall i :: 0 <= i < |ps| ==> lo.x <= ps[i].x <= hi.x && lo.y <= ps[i].y <= hi.y
  }

  lemma {:induction false} SumXInBox(ps: seq<Point>, lo: real, hi: real)
    requires forall i :: 0 <= i < |ps| ==> lo <= ps[i].x <= hi
    ensures |ps| as real * lo <= SumX(ps) <= |ps| as real * hi
  {
    if ps != [] {
      assert forall i :: 0 <= i < |ps[1..]| ==> ps[1..][i] == ps[i + 1];
      SumXInBox(ps[1..], lo, hi);
      var k := |ps[1..]| as real;
      assert |ps| as real * lo == k * lo + lo && |ps| as real * hi == k * hi + hi;
    }
  }

  lemma {:induction false} SumYInBox(ps: seq<Point>, lo: real, hi: real)
    requires forall i :: 0 <= i < |ps| ==> lo <= ps[i].y <= hi
    ensures |ps| as real * lo <= SumY(ps) <= |ps| as real * hi
  {
    if ps != [] {
      assert forall i :: 0 <= i < |ps[1..]| ==> ps[1..][i] == ps[i + 1];
      SumYInBox(ps[1..], lo, hi);
      var k := |ps[1..]| as real;
      assert |ps| as real * lo == k * lo + lo && |ps| as real * hi == k * hi + hi;
    }
  }

  /** The average of a group of points lies within any box that holds all of
      them (in particular within the bounding box of the points). */
  lemma MeanInBox(ps: seq<Point>, lo: Point, hi: Point)
    requires |ps| > 0 && InBox(ps, lo, hi)
    ensures lo.x <= Mean(ps).value.x <= hi.x && lo.y <= Mean(ps).value.y <= hi.y
  {
    var n, sx, sy := |ps| as real, SumX(ps), SumY(ps);
    SumXInBox(ps, lo.x, hi.x);
    DivBounds(sx, n, lo.x, hi.x);
    SumYInBox(ps, lo.y, hi.y);
    DivBounds(sy, n, lo.y, hi.y);
    assert Mean(ps).value == Point(sx / n, sy / n);
  }

  lemma DivBounds(s: real, n: real, lo: real, hi: real)
    requires n > 0.0 && n * lo <= s <= n * hi
    ensures lo <= s / n <= hi
  {
    assert s / n * n == s;
  }

  /** The mean of two points is their midpoint. */
  lemma MeanOfTwo(a: Point, b: Point)
    ensures Mean([a, b]) == Some(Midpoint(a, b))
  {
    assert [a, b][1..] == [b];
    assert [b][1..] == [];
    assert SumX([b]) == b.x && SumY([b]) == b.y;
    assert SumX([a, b]) == a.x + b.x && SumY([a, b]) == a.y + b.y;
    assert |[a, b]| as real == 2.0;
  }

  /** The vector from `a` to `b`. */
  function Vector(a: Point, b: Point): Point
  {
    Point(b.x - a.x, b.y - a.y)
  }

  /** The z-component of the 2D cross product `u x v`. */
  function Cross(u: Point, v: Point): real
  {
    u.x * v.y - u.y * v.x
  }

  /** SQL `SIGN(r)`. */
  function Sign(r: real): (s: int)
    ensures s == -1 || s == 0 || s == 1
    ensures (s > 0 <==> r > 0.0) && (s == 0 <==> r == 0.0)
  {
    if r > 0.0 then 1 else if r < 0.0 then -1 else 0
  }

  /** Reversing the first vector negates the cross product, and so its sign. */
  lemma CrossReversed(a: Point, b: Point, v: Point)
    ensures Cross(Vector(b, a), v) == -Cross(Vector(a, b), v)
    ensures Sign(Cross(Vector(b, a), v)) == -Sign(Cross(Vector(a, b), v))
  {
  }

  /** The squared planar distance: it orders pairs of points as
      `ST_Distance` does, and does not depend on the order of the two. */
  function SqDistance(a: Point, b: Point): (d: real)
    ensures d >= 0.0
  {
    var dx, dy := a.x - b.x, a.y - b.y;
    SquareNonNegative(dx);
    SquareNonNegative(dy);
    dx * dx + dy * dy
  }

  lemma SqDistanceSymmetric(a: Point, b: Point)
    ensures SqDistance(a, b) == SqDistance(b, a)
  {
    NegatedSquare(a.x - b.x);
    NegatedSquare(a.y - b.y);
  }

  lemma SquareNonNegative(d: real)
    ensures d * d >= 0.0
  {
    if d < 0.0 {
      var e := -d;
      assert d * d == e * e;
    }
  }

  lemma NegatedSquare(d: real)
    ensures (-d) * (-d) == d * d
  {
  }
}
