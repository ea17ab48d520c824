/** The unlabelled crossing-centre query of the GIS predictor
    (find_crosswalk_centers): for every pedestrian edge of a crosswalk whose
    boundary meets the streets in at least two points, the centre halfway
    between the edge's midpoint and the average of those points. The
    intersection helpers here are shared with the labelled variant. */
module GisCrosswalkCenter {
  import opened Sql
  import opened Geometry
  import opened Tables

  /** The points of ST_Dump(ST_Intersection(ST_Boundary(cw), s)) over the
      street segments s that meet the boundary (JOIN ... ON ST_Intersects),
      in street order. */
  function CrosswalkHits(sp: Spatial, cw: Crosswalk, streets: seq<Street>): seq<Point>
  {
    if streets == [] then []
    else
      (if sp.boundaryIntersects(cw.rings, streets[0].geometry)
       then sp.boundaryHits(cw.rings, streets[0].geometry) else [])
      + CrosswalkHits(sp, cw, streets[1..])
  }

  /** The intersection_points rows of one crosswalk_id, over every crosswalk
      row with that OBJECTID. */
  function IntersectionPoints(sp: Spatial, crosswalks: seq<Crosswalk>, streets: seq<Street>, id: int): seq<Point>
  {
    if crosswalks == [] then []
    else
      (if crosswalks[0].id == id then CrosswalkHits(sp, crosswalks[0], streets) else [])
      + IntersectionPoints(sp, crosswalks[1..], streets, id)
  }

  /** intersection_mid: the average point of a crosswalk's intersection
      points, for the groups with at least `minPoints` of them
      (HAVING COUNT(*) >= minPoints). It lies in every box holding all the
      points. */
  function IntersectionCenter(sp: Spatial, crosswalks: seq<Crosswalk>, streets: seq<Street>, id: int, minPoints: nat)
    : (r: Option<Point>)
    requires minPoints >= 1
    ensures r.Some? <==> |IntersectionPoints(sp, crosswalks, streets, id)| >= minPoints
    ensures r.Some? ==> forall lo, hi :: InBox(IntersectionPoints(sp, crosswalks, streets, id), lo, hi)
                                         ==> InBox([r.value], lo, hi)
  {
    var ps := IntersectionPoints(sp, crosswalks, streets, id);
    if |ps| >= minPoints then
      assert forall lo, hi :: InBox(ps, lo, hi) ==> InBox([Mean(ps).value], lo, hi) by {
        forall lo, hi | InBox(ps, lo, hi) ensures InBox([Mean(ps).value], lo, hi) {
          MeanInBox(ps, lo, hi);
        }
      }
      Mean(ps)
    else None
  }

  /** The intersection centre's X and Y are the averages of the X and Y
      of the crosswalk's intersection points. */
  lemma IntersectionCenterIsMean(sp: Spatial, crosswalks: seq<Crosswalk>, streets: seq<Street>, id: int, minPoints: nat)
    requires minPoints >= 1
    ensures IntersectionCenter(sp, crosswalks, streets, id, minPoints).Some? ==>
      IsAverage(IntersectionPoints(sp, crosswalks, streets, id), IntersectionCenter(sp, crosswalks, streets, id, minPoints).value)
  {
    var ps := IntersectionPoints(sp, crosswalks, streets, id);
    if |ps| >= minPoints {
      assert IntersectionCenter(sp, crosswalks, streets, id, minPoints).value == Mean(ps).value;
    }
  }

  /** ped_edge_mid: the midpoint of an edge's points 1 and 2. */
  function EdgeMid(e: Segment): Point
  {
    Midpoint(e.start, e.end)
  }

  /** The centre row of one pedestrian edge and its crosswalk's intersection
      centre; the unlabelled table has no center_id and no is_oneway. */
  function EdgeCenterRow(e: EdgeRow, c: Point): CenterRow
  {
    CenterRow(e.crosswalkId, e.streetSegmentId, Some(e.geometry), Some(c),
              Some(Midpoint(EdgeMid(e.geometry), c)), None, None, NullCoord, NullCoord)
  }

  /** An edge yields a centre when it is not a vehicle edge and its
      crosswalk has at least two intersection points. */
  predicate Qualifies(sp: Spatial, crosswalks: seq<Crosswalk>, streets: seq<Street>, e: EdgeRow)
  {
    e.isVehicleEdge == Some(false) && IntersectionCenter(sp, crosswalks, streets, e.crosswalkId, 2).Some?
  }

  /** find_crosswalk_centers: the centres table (JOIN of ped_edge_mid and
      intersection_mid USING crosswalk_id), in edge order. */
  function GisCenters(sp: Spatial, crosswalks: seq<Crosswalk>, streets: seq<Street>, segments: seq<EdgeRow>)
    : seq<CenterRow>
  {
    if segments == [] then []
    else
      var e := segments[0];
      (if Qualifies(sp, crosswalks, streets, e)
       then [EdgeCenterRow(e, IntersectionCenter(sp, crosswalks, streets, e.crosswalkId, 2).value)]
       else [])
      + GisCenters(sp, crosswalks, streets, segments[1..])
  }

  /** The qualifying edges, in order. */
  function QualifyingEdges(sp: Spatial, crosswalks: seq<Crosswalk>, streets: seq<Street>, segments: seq<EdgeRow>)
    : (r: seq<EdgeRow>)
    ensures forall i :: 0 <= i < |r| ==> Qualifies(sp, crosswalks, streets, r[i])
  {
    if segments == [] then []
    else
      (if Qualifies(sp, crosswalks, streets, segments[0]) then [segments[0]] else [])
      + QualifyingEdges(sp, crosswalks, streets, segments[1..])
  }

  /** Every qualifying edge yields exactly one centre, in edge order, with no
      cap per crosswalk: the table is the qualifying edges, each mapped to
      its centre row. */
  lemma {:induction false} GisCentersPerEdge(sp: Spatial, crosswalks: seq<Crosswalk>, streets: seq<Street>, segments: seq<EdgeRow>)
    ensures var out := GisCenters(sp, crosswalks, streets, segments);
      var q := QualifyingEdges(sp, crosswalks, streets, segments);
      |out| == |q|
      && forall i :: 0 <= i < |out| ==>
           out[i] == EdgeCenterRow(q[i], IntersectionCenter(sp, crosswalks, streets, q[i].crosswalkId, 2).value)
  {
    if segments != [] {
      GisCentersPerEdge(sp, crosswalks, streets, segments[1..]);
    }
  }

  /** Each centre is halfway between its pedestrian edge's midpoint and its
      crosswalk's intersection centre, and all centres of one crosswalk
      share that intersection centre as street_center_point. */
  lemma GisCenterShape(sp: Spatial, crosswalks: seq<Crosswalk>, streets: seq<Street>, segments: seq<EdgeRow>)
    ensures var out := GisCenters(sp, crosswalks, streets, segments);
      forall i :: 0 <= i < |out| ==>
        out[i].pedEdge.Some? && out[i].streetCenter.Some?
        && out[i].geometry == Some(Midpoint(EdgeMid(out[i].pedEdge.value), out[i].streetCenter.value))
        && out[i].streetCenter == IntersectionCenter(sp, crosswalks, streets, out[i].crosswalkId, 2)
        && out[i].centerId.None?
  {
    GisCentersPerEdge(sp, crosswalks, streets, segments);
  }

  lemma GisSharedStreetCenter(sp: Spatial, crosswalks: seq<Crosswalk>, streets: seq<Street>, segments: seq<EdgeRow>)
    ensures var out := GisCenters(sp, crosswalks, streets, segments);
      forall i, j :: 0 <= i < |out| && 0 <= j < |out| && out[i].crosswalkId == out[j].crosswalkId
        ==> out[i].streetCenter == out[j].streetCenter
  {
    GisCenterShape(sp, crosswalks, streets, segments);
  }

  /** A crosswalk with fewer than two intersection points gets no centre. */
  lemma GisFewPointsNoCenter(sp: Spatial, crosswalks: seq<Crosswalk>, streets: seq<Street>, segments: seq<EdgeRow>, id: int)
    requires |IntersectionPoints(sp, crosswalks, streets, id)| < 2
    ensures forall r :: r in GisCenters(sp, crosswalks, streets, segments) ==> r.crosswalkId != id
  {
    GisCenterShape(sp, crosswalks, streets, segments);
  }

  /** The row's edge is a non-vehicle edge of the table, of its crosswalk. */
  ghost predicate FromPedestrianEdge(segments: seq<EdgeRow>, r: CenterRow)
  {
    exists k :: 0 <= k < |segments| && segments[k].isVehicleEdge == Some(false)
      && r.pedEdge == Some(segments[k].geometry) && r.crosswalkId == segments[k].crosswalkId
  }

  /** Only non-vehicle edges yield centres. */
  lemma {:induction false} GisCentersFromPedestrianEdges(sp: Spatial, crosswalks: seq<Crosswalk>, streets: seq<Street>, segments: seq<EdgeRow>)
    ensures forall r :: r in GisCenters(sp, crosswalks, streets, segments) ==> FromPedestrianEdge(segments, r)
  {
    if segments != [] {
      GisCentersFromPedestrianEdges(sp, crosswalks, streets, segments[1..]);
      forall r | r in GisCenters(sp, crosswalks, streets, segments)
        ensures FromPedestrianEdge(segments, r)
      {
        if r !in GisCenters(sp, crosswalks, streets, segments[1..]) {
          assert r.pedEdge == Some(segments[0].geometry);
        } else {
          assert FromPedestrianEdge(segments[1..], r);
          var k :| 0 <= k < |segments[1..]| && segments[1..][k].isVehicleEdge == Some(false)
            && r.pedEdge == Some(segments[1..][k].geometry) && r.crosswalkId == segments[1..][k].crosswalkId;
          assert segments[1..][k] == segments[k + 1];
        }
      }
    }
  }
}
