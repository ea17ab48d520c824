/** The traffic direction of the analyzer (identify_vehicle_direction):
    the columns are reset, then one UPDATE sets them for one-way crossings
    (the vertex nearer the street's first point is where traffic comes
    from) and another for two-way crossings (the rule of the GIS
    predictor). */
module AnalyzerVehicleDirection {
  import opened Sql
  import opened Geometry
  import opened Tables
  import Gis = GisVehicleDirection

  /** The first street segment whose OBJECTID is `id` (the UPDATE ... FROM
      join; with duplicate ids the model takes the first). */
  function StreetById(streets: seq<Street>, id: int): (r: Option<Street>)
    ensures r.Some? ==> r.value in streets && r.value.id == id
    ensures r.None? <==> forall k :: 0 <= k < |streets| ==> streets[k].id != id
  {
    if streets == [] then None
    else if streets[0].id == id then Some(streets[0])
    else
      assert forall k :: 1 <= k < |streets| ==> streets[k] == streets[1..][k - 1];
      StreetById(streets[1..], id)
  }

  /** ST_PointN(street, 1); NULL for an empty line. */
  function FirstPoint(l: Line): Option<Point>
  {
    if l == [] then None else Some(l[0])
  }

  /** The one-way CASEs: vertex 1 is from_coord and vertex 2 to_coord when
      vertex 1 is strictly nearer the street's first point; otherwise (also
      when that point is NULL and the comparison is NULL) the reverse.
      Squared distances order pairs of points as ST_Distance does. */
  function OneWayRule(first: Option<Point>, ped: Option<Segment>): (Coord, Coord)
  {
    if ped.None? then (NullCoord, NullCoord)
    else
      var a, b := ped.value.start, ped.value.end;
      if first.Some? && SqDistance(first.value, a) < SqDistance(first.value, b)
      then (Vertex(a), Vertex(b))
      else (Vertex(b), Vertex(a))
  }

  /** Traffic comes from the vertex nearer the street's first point: the
      two coordinates are the two ends of the edge, and from_coord is no
      farther from the first point than to_coord (strictly nearer when the
      distances differ). */
  lemma OneWayFromIsNearer(first: Point, e: Segment)
    ensures var r := OneWayRule(Some(first), Some(e));
      && r.0.Vertex? && r.1.Vertex? && {r.0.p, r.1.p} == {e.start, e.end}
      && SqDistance(first, r.0.p) <= SqDistance(first, r.1.p)
      && (SqDistance(first, e.start) != SqDistance(first, e.end) ==>
            SqDistance(first, r.0.p) < SqDistance(first, r.1.p))
  {
  }

  /** The one-way direction does not depend on which way the edge was
      digitised when its ends are at different distances. */
  lemma OneWayIgnoresEdgeOrientation(first: Point, a: Point, b: Point)
    requires SqDistance(first, a) != SqDistance(first, b)
    ensures OneWayRule(Some(first), Some(Segment(a, b))) == OneWayRule(Some(first), Some(Segment(b, a)))
  {
  }

  /** The ALTER TABLE statements: both columns are NULL afterwards. */
  function Reset(r: CenterRow): CenterRow
  {
    r.(fromCoord := NullCoord, toCoord := NullCoord)
  }

  /** A row the one-way UPDATE writes: is_oneway TRUE and a street segment
      whose OBJECTID is its street_segment_id. */
  predicate OneWayTarget(r: CenterRow, streets: seq<Street>)
  {
    r.isOneway == Some(true) && r.streetSegmentId.Some? && StreetById(streets, r.streetSegmentId.value).Some?
  }

  function OneWayUpdated(r: CenterRow, streets: seq<Street>): CenterRow
  {
    if OneWayTarget(r, streets) then
      var d := OneWayRule(FirstPoint(StreetById(streets, r.streetSegmentId.value).value.geometry), r.pedEdge);
      r.(fromCoord := d.0, toCoord := d.1)
    else r
  }

  /** The two-way UPDATE: rows with is_oneway FALSE get the GIS rule; the
      others keep their values (ELSE from_coord, ELSE to_coord). */
  function TwoWayUpdated(r: CenterRow): CenterRow
  {
    if r.isOneway == Some(false) then Gis.Directed(r) else r
  }

  /** The row after identify_vehicle_direction. */
  function Directed(r: CenterRow, streets: seq<Street>): CenterRow
  {
    TwoWayUpdated(OneWayUpdated(Reset(r), streets))
  }

  /** Where each row's coordinates come from: the one-way rule for one-way
      rows with a street, the GIS rule for two-way rows, NULL otherwise
      (is_oneway NULL, or no street with the row's id); the other columns
      never change. */
  lemma {:induction false} DirectedByKind(r: CenterRow, streets: seq<Street>)
    ensures var d := Directed(r, streets);
      && d.(fromCoord := r.fromCoord, toCoord := r.toCoord) == r
      && (OneWayTarget(r, streets) ==>
            (d.fromCoord, d.toCoord)
            == OneWayRule(FirstPoint(StreetById(streets, r.streetSegmentId.value).value.geometry), r.pedEdge))
      && (r.isOneway == Some(false) ==>
            (d.fromCoord, d.toCoord) == Gis.DirectionRule(r.geometry, r.streetCenter, r.pedEdge))
      && (!OneWayTarget(r, streets) && r.isOneway != Some(false) ==>
            d.fromCoord == NullCoord && d.toCoord == NullCoord)
  {
    var r0 := Reset(r);
    assert OneWayTarget(r0, streets) == OneWayTarget(r, streets);
  }

  /** Running the stage twice gives the same table as running it once:
      the reset discards what the first run wrote. */
  lemma DirectedIdempotent(r: CenterRow, streets: seq<Street>)
    ensures Directed(Directed(r, streets), streets) == Directed(r, streets)
  {
    DirectedByKind(r, streets);
    DirectedByKind(Directed(r, streets), streets);
  }

  /** A one-way centre sits on the street centre (its geometry is
      street_center_point), where the two-way rule of the GIS predictor
      would give 'undefined'; the analyzer's one-way pass instead gives it
      the two ends of its pedestrian edge. */
  lemma OneWayCentreNeedsOneWayRule(r: CenterRow, streets: seq<Street>)
    requires OneWayTarget(r, streets) && r.geometry == r.streetCenter && r.pedEdge.Some?
    ensures Gis.DirectionRule(r.geometry, r.streetCenter, r.pedEdge) == (Undefined, Undefined)
    ensures Directed(r, streets).fromCoord.Vertex? && Directed(r, streets).toCoord.Vertex?
  {
    DirectedByKind(r, streets);
  }

  method ResetDirections(t: CentersTable)
    modifies t
    ensures |t.rows| == |old(t.rows)|
    ensures forall i :: 0 <= i < |t.rows| ==> t.rows[i] == Reset(old(t.rows)[i])
  {
    var rows := t.rows;
    t.rows := seq(|rows|, i requires 0 <= i < |rows| => Reset(rows[i]));
  }

  /** _identify_vehicle_direction_oneway. */
  method IdentifyOneWay(t: CentersTable, streets: seq<Street>)
    modifies t
    ensures |t.rows| == |old(t.rows)|
    ensures forall i :: 0 <= i < |t.rows| ==> t.rows[i] == OneWayUpdated(old(t.rows)[i], streets)
  {
    var rows := t.rows;
    t.rows := seq(|rows|, i requires 0 <= i < |rows| => OneWayUpdated(rows[i], streets));
  }

  /** _identify_vehicle_direction_twoway. */
  method IdentifyTwoWay(t: CentersTable)
    modifies t
    ensures |t.rows| == |old(t.rows)|
    ensures forall i :: 0 <= i < |t.rows| ==> t.rows[i] == TwoWayUpdated(old(t.rows)[i])
  {
    var rows := t.rows;
    t.rows := seq(|rows|, i requires 0 <= i < |rows| => TwoWayUpdated(rows[i]));
  }

  /** identify_vehicle_direction: the reset, then the one-way pass, then
      the two-way pass. */
  method IdentifyVehicleDirection(t: CentersTable, streets: seq<Street>)
    modifies t
    ensures |t.rows| == |old(t.rows)|
    ensures forall i :: 0 <= i < |t.rows| ==> t.rows[i] == Directed(old(t.rows)[i], streets)
  {
    ResetDirections(t);
    IdentifyOneWay(t, streets);
    IdentifyTwoWay(t);
  }
}
