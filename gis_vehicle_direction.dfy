/** The traffic direction of the GIS predictor (identify_vehicle_direction):
    which vertex of a centre's pedestrian edge traffic comes from and which
    it goes to, decided by where the centre lies relative to the street
    centre. The analyzer reuses this rule for its two-way crossings. */
module GisVehicleDirection {
  import opened Sql
  import opened Geometry
  import opened Tables

  /** The from_coord and to_coord the CASE expressions compute from the
      centre (geometry), the street centre and the pedestrian edge:
      - a NULL centre or street centre, or equal ones, give 'undefined'
        (every WHEN is NULL or false);
      - otherwise the first WHEN that holds -- centre x greater, x smaller,
        y greater, y smaller -- picks the vertex of the edge by its y (the
        first two) or its x (the last two); when the two vertices tie on
        that coordinate both CASEs fall to vertex 2;
      - without a pedestrian edge the chosen vertex is NULL. */
  function DirectionRule(center: Option<Point>, sc: Option<Point>, ped: Option<Segment>): (Coord, Coord)
  {
    if center.None? || sc.None? || center == sc then (Undefined, Undefined)
    else if ped.None? then (NullCoord, NullCoord)
    else
      var c, s, a, b := center.value, sc.value, ped.value.start, ped.value.end;
      if c.x > s.x then (Vertex(if a.y < b.y then a else b), Vertex(if a.y > b.y then a else b))
      else if c.x < s.x then (Vertex(if a.y > b.y then a else b), Vertex(if a.y < b.y then a else b))
      else if c.y > s.y then (Vertex(if a.x > b.x then a else b), Vertex(if a.x < b.x then a else b))
      else (Vertex(if a.x < b.x then a else b), Vertex(if a.x > b.x then a else b))
  }

  /** The coordinate the rule compares the two vertices on: y when the
      centres differ in x, otherwise x. */
  function ComparedCoordinate(c: Point, s: Point, p: Point): real
  {
    if c.x != s.x then p.y else p.x
  }

  /** 'undefined' exactly when a centre is NULL or the two centres
      coincide; NULL exactly when there is no pedestrian edge besides. */
  lemma DirectionUndefinedOrNull(center: Option<Point>, sc: Option<Point>, ped: Option<Segment>)
    ensures var r := DirectionRule(center, sc, ped);
      && (r.0 == Undefined <==> center.None? || sc.None? || center == sc)
      && (r.1 == Undefined <==> center.None? || sc.None? || center == sc)
      && (r.0 == NullCoord <==> center.Some? && sc.Some? && center != sc && ped.None?)
      && (r.1 == NullCoord <==> center.Some? && sc.Some? && center != sc && ped.None?)
  {
  }

  /** With two distinct centres and an edge, both coordinates are vertices
      of the edge: its two different ends when they differ on the compared
      coordinate, and its end vertex twice when they tie. */
  lemma DirectionVertices(c: Point, s: Point, e: Segment)
    requires c != s
    ensures var r := DirectionRule(Some(c), Some(s), Some(e));
      var a, b := e.start, e.end;
      && r.0.Vertex? && r.1.Vertex?
      && (ComparedCoordinate(c, s, a) != ComparedCoordinate(c, s, b) ==>
            {r.0.p, r.1.p} == {a, b} && r.0 != r.1)
      && (ComparedCoordinate(c, s, a) == ComparedCoordinate(c, s, b) ==> r.0.p == r.1.p == b)
  {
  }

  /** The four cases: a centre east of the street centre sees traffic go
      from the lower vertex to the higher, one west the reverse; on a
      vertical tie a centre north sees traffic go from the larger x to the
      smaller, one south the reverse. */
  lemma DirectionOrientation(c: Point, s: Point, e: Segment)
    requires c != s
    ensures var r := DirectionRule(Some(c), Some(s), Some(e));
      r.0.Vertex? && r.1.Vertex?
      && (c.x > s.x ==> r.0.p.y <= r.1.p.y)
      && (c.x < s.x ==> r.0.p.y >= r.1.p.y)
      && (c.x == s.x && c.y > s.y ==> r.0.p.x >= r.1.p.x)
      && (c.x == s.x && c.y < s.y ==> r.0.p.x <= r.1.p.x)
  {
  }

  /** The direction does not depend on which way the pedestrian edge was
      digitised, as long as its ends differ on the compared coordinate. */
  lemma DirectionIgnoresEdgeOrientation(c: Point, s: Point, a: Point, b: Point)
    requires ComparedCoordinate(c, s, a) != ComparedCoordinate(c, s, b)
    ensures DirectionRule(Some(c), Some(s), Some(Segment(a, b)))
         == DirectionRule(Some(c), Some(s), Some(Segment(b, a)))
  {
  }

  /** Two centres on opposite sides of the street centre see traffic in
      opposite directions: from and to swap. */
  lemma OppositeSidesSwap(c1: Point, c2: Point, s: Point, e: Segment)
    requires (c1.x > s.x && c2.x < s.x) || (c1.x == s.x == c2.x && c1.y > s.y && c2.y < s.y)
    requires ComparedCoordinate(c1, s, e.start) != ComparedCoordinate(c1, s, e.end)
    ensures var r1, r2 := DirectionRule(Some(c1), Some(s), Some(e)), DirectionRule(Some(c2), Some(s), Some(e));
      r1.0 == r2.1 && r1.1 == r2.0
  {
  }

  /** The row after the UPDATE. */
  function Directed(r: CenterRow): CenterRow
  {
    var d := DirectionRule(r.geometry, r.streetCenter, r.pedEdge);
    r.(fromCoord := d.0, toCoord := d.1)
  }

  /** identify_vehicle_direction: the columns are dropped and added back,
      then every row gets the rule's coordinates; nothing else changes. */
  method IdentifyVehicleDirection(t: CentersTable)
    modifies t
    ensures |t.rows| == |old(t.rows)|
    ensures forall i :: 0 <= i < |t.rows| ==> t.rows[i] == Directed(old(t.rows)[i])
  {
    var rows := t.rows;
    t.rows := seq(|rows|, i requires 0 <= i < |rows| => rows[i].(fromCoord := NullCoord, toCoord := NullCoord));
    var reset := t.rows;
    t.rows := seq(|reset|, i requires 0 <= i < |reset| => Directed(reset[i]));
  }
}
