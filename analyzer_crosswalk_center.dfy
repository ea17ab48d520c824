/** The labelled crossing-centre queries of the analyzer
    (find_crosswalk_centers): one centre per street segment for one-way
    crossings, and at most two centres, labelled 'A' and 'B', for two-way
    crossings; the result is the one-way rows followed by the two-way rows. */
module AnalyzerCrosswalkCenter {
  import opened Sql
  import opened Geometry
  import opened Tables
  import opened Text
  import Gis = GisCrosswalkCenter

  // ----- one-way crossings -----

  /** The crosswalk has an edge marked is_oneway = TRUE. */
  predicate OneWayCrosswalk(segments: seq<EdgeRow>, id: int)
  {
    exists k :: 0 <= k < |segments| && segments[k].crosswalkId == id && segments[k].isOneway == Some(true)
  }

  predicate PedEdgeOf(e: EdgeRow, id: int)
  {
    e.crosswalkId == id && e.isVehicleEdge == Some(false)
  }

  /** MIN(edge_id) over the crosswalk's edges with is_vehicle_edge = FALSE;
      None when there are none (the group is then absent). */
  function MinPedEdgeId(segments: seq<EdgeRow>, id: int): (r: Option<int>)
    ensures r.None? <==> forall k :: 0 <= k < |segments| ==> !PedEdgeOf(segments[k], id)
    ensures r.Some? ==> exists k :: 0 <= k < |segments| && PedEdgeOf(segments[k], id) && segments[k].edgeId == r.value
    ensures r.Some? ==> forall k :: 0 <= k < |segments| && PedEdgeOf(segments[k], id) ==> r.value <= segments[k].edgeId
  {
    if segments == [] then None
    else
      var rest := MinPedEdgeId(segments[1..], id);
      assert forall k :: 1 <= k < |segments| ==> segments[k] == segments[1..][k - 1];
      if !PedEdgeOf(segments[0], id) then
        if rest.Some? then
          var k :| 0 <= k < |segments[1..]| && PedEdgeOf(segments[1..][k], id) && segments[1..][k].edgeId == rest.value;
          assert segments[k + 1] == segments[1..][k];
          rest
        else rest
      else if rest.None? || segments[0].edgeId <= rest.value then Some(segments[0].edgeId)
      else
        var k :| 0 <= k < |segments[1..]| && PedEdgeOf(segments[1..][k], id) && segments[1..][k].edgeId == rest.value;
        assert segments[k + 1] == segments[1..][k];
        rest
  }

  /** The geometries of the crosswalk's edges whose edge_id is `m` (the join
      on crosswalk_id and min_edge_id, which does not look at
      is_vehicle_edge again). */
  function EdgesWithId(segments: seq<EdgeRow>, id: int, m: int): (r: seq<Segment>)
    ensures forall p :: p in r <==>
      exists k :: 0 <= k < |segments| && segments[k].crosswalkId == id && segments[k].edgeId == m
                  && segments[k].geometry == p
  {
    if segments == [] then []
    else
      var rest := EdgesWithId(segments[1..], id, m);
      assert forall k :: 1 <= k < |segments| ==> segments[k] == segments[1..][k - 1];
      (if segments[0].crosswalkId == id && segments[0].edgeId == m then [segments[0].geometry] else []) + rest
  }

  /** The pedestrian edge rows of the LEFT JOIN for one crosswalk. */
  function SelectedPedEdges(segments: seq<EdgeRow>, id: int): seq<Segment>
  {
    match MinPedEdgeId(segments, id)
    case None => []
    case Some(m) => EdgesWithId(segments, id, m)
  }

  /** The one-way rows of one crosswalk and one street: the centroid of the
      boundary/street intersection as both street_center_point and
      geometry, one row per selected pedestrian edge, or one row with a NULL
      ped_edge_geom when there is none (LEFT JOIN). */
  function OneWayPairRows(cwId: int, streetId: int, c: Option<Point>, peds: seq<Segment>): (r: seq<CenterRow>)
    ensures |r| == if peds == [] then 1 else |peds|
  {
    var row := (ped: Option<Segment>) => CenterRow(cwId, Some(streetId), ped, c, c, Some("A"), Some(true), NullCoord, NullCoord);
    if peds == [] then [row(None)]
    else seq(|peds|, k requires 0 <= k < |peds| => row(Some(peds[k])))
  }

  function OneWayCrosswalkRows(sp: Spatial, cw: Crosswalk, streets: seq<Street>, segments: seq<EdgeRow>): seq<CenterRow>
  {
    if streets == [] then []
    else
      (if sp.boundaryIntersects(cw.rings, streets[0].geometry)
       then OneWayPairRows(cw.id, streets[0].id, Mean(sp.boundaryHits(cw.rings, streets[0].geometry)),
                           SelectedPedEdges(segments, cw.id))
       else [])
      + OneWayCrosswalkRows(sp, cw, streets[1..], segments)
  }

  /** _find_crosswalk_centers_oneway: the crosswalks with a one-way edge,
      joined with every street segment meeting their boundary. */
  function OneWayCenters(sp: Spatial, crosswalks: seq<Crosswalk>, streets: seq<Street>, segments: seq<EdgeRow>): seq<CenterRow>
  {
    if crosswalks == [] then []
    else
      (if OneWayCrosswalk(segments, crosswalks[0].id)
       then OneWayCrosswalkRows(sp, crosswalks[0], streets, segments) else [])
      + OneWayCenters(sp, crosswalks[1..], streets, segments)
  }

  /** What every one-way row is: labelled 'A', is_oneway TRUE, geometry equal
      to street_center_point, and a pedestrian edge that is either NULL (the
      crosswalk has no non-vehicle edge) or an edge of the crosswalk with
      the smallest non-vehicle edge_id. */
  ghost predicate OneWayRow(segments: seq<EdgeRow>, r: CenterRow)
  {
    && r.centerId == Some("A") && r.isOneway == Some(true)
    && r.geometry == r.streetCenter && r.streetSegmentId.Some?
    && OneWayCrosswalk(segments, r.crosswalkId)
    && (r.pedEdge.None? <==> SelectedPedEdges(segments, r.crosswalkId) == [])
    && (r.pedEdge.Some? ==> r.pedEdge.value in SelectedPedEdges(segments, r.crosswalkId))
  }

  lemma {:induction false} OneWayCrosswalkRowsShape(sp: Spatial, cw: Crosswalk, streets: seq<Street>, segments: seq<EdgeRow>)
    requires OneWayCrosswalk(segments, cw.id)
    ensures forall r :: r in OneWayCrosswalkRows(sp, cw, streets, segments) ==> r.crosswalkId == cw.id && OneWayRow(segments, r)
  {
    if streets != [] {
      OneWayCrosswalkRowsShape(sp, cw, streets[1..], segments);
    }
  }

  lemma {:induction false} OneWayCentersShape(sp: Spatial, crosswalks: seq<Crosswalk>, streets: seq<Street>, segments: seq<EdgeRow>)
    ensures forall r :: r in OneWayCenters(sp, crosswalks, streets, segments) ==> OneWayRow(segments, r)
  {
    if crosswalks != [] {
      OneWayCentersShape(sp, crosswalks[1..], streets, segments);
      if OneWayCrosswalk(segments, crosswalks[0].id) {
        OneWayCrosswalkRowsShape(sp, crosswalks[0], streets, segments);
      }
    }
  }

  /** Edge k belongs to the crosswalk and no non-vehicle edge of it has a
      smaller edge_id. */
  ghost predicate FirstPedestrianEdge(segments: seq<EdgeRow>, id: int, k: nat)
    requires k < |segments|
  {
    segments[k].crosswalkId == id
    && forall j :: 0 <= j < |segments| && PedEdgeOf(segments[j], id) ==> segments[k].edgeId <= segments[j].edgeId
  }

  /** A selected pedestrian edge is an edge of the crosswalk whose edge_id is
      the smallest among its non-vehicle edges. */
  lemma SelectedEdgeIsFirstPedestrianEdge(segments: seq<EdgeRow>, id: int, p: Segment)
    requires p in SelectedPedEdges(segments, id)
    ensures exists k :: 0 <= k < |segments| && FirstPedestrianEdge(segments, id, k) && segments[k].geometry == p
  {
  }

  /** When the crosswalk meets a street, the one-way centre is the average
      of the intersection points: the centroid of a set of points. */
  lemma OneWayCenterIsCentroid(sp: Spatial, cw: Crosswalk, s: Street, segments: seq<EdgeRow>)
    requires OneWayCrosswalk(segments, cw.id) && sp.boundaryIntersects(cw.rings, s.geometry)
    ensures forall r :: r in OneWayCrosswalkRows(sp, cw, [s], segments) ==>
      r.geometry == r.streetCenter == Mean(sp.boundaryHits(cw.rings, s.geometry)) && r.streetSegmentId == Some(s.id)
  {
    assert [s][1..] == [];
  }

  // ----- two-way crossings -----

  predicate TwoWayEdge(sp: Spatial, crosswalks: seq<Crosswalk>, streets: seq<Street>, e: EdgeRow)
  {
    e.isVehicleEdge == Some(false) && e.isOneway == Some(false)
    && Gis.IntersectionCenter(sp, crosswalks, streets, e.crosswalkId, 1).Some?
  }

  /** The centres CTE of _find_crosswalk_centers_twoway: one per edge with
      is_vehicle_edge = FALSE and is_oneway = FALSE whose crosswalk has at
      least one intersection point. */
  function TwoWayCandidates(sp: Spatial, crosswalks: seq<Crosswalk>, streets: seq<Street>, segments: seq<EdgeRow>)
    : seq<CenterRow>
  {
    if segments == [] then []
    else
      var e := segments[0];
      (if TwoWayEdge(sp, crosswalks, streets, e)
       then [Gis.EdgeCenterRow(e, Gis.IntersectionCenter(sp, crosswalks, streets, e.crosswalkId, 1).value)
               .(isOneway := e.isOneway)]
       else [])
      + TwoWayCandidates(sp, crosswalks, streets, segments[1..])
  }

  lemma {:induction false} TwoWayCandidatesShape(sp: Spatial, crosswalks: seq<Crosswalk>, streets: seq<Street>, segments: seq<EdgeRow>)
    ensures forall r :: r in TwoWayCandidates(sp, crosswalks, streets, segments) ==>
      r.isOneway == Some(false) && r.pedEdge.Some? && r.streetCenter.Some?
      && r.streetCenter == Gis.IntersectionCenter(sp, crosswalks, streets, r.crosswalkId, 1)
      && r.geometry == Some(Midpoint(Gis.EdgeMid(r.pedEdge.value), r.streetCenter.value))
  {
    if segments != [] {
      TwoWayCandidatesShape(sp, crosswalks, streets, segments[1..]);
    }
  }

  /** The ORDER BY key: the centre's WKT text, NULL sorting last. */
  function SortKey(sp: Spatial, r: CenterRow): Option<string>
  {
    if r.geometry.Some? then Some(sp.wkt(r.geometry.value)) else None
  }

  predicate TextLess(a: string, b: string)
  {
    LexLeq(a, b) && a != b
  }

  predicate KeyLess(a: Option<string>, b: Option<string>)
  {
    a.Some? && (b.None? || TextLess(a.value, b.value))
  }

  /** Row j comes before row i in the ROW_NUMBER order of i's partition;
      rows with equal keys keep their table order. */
  predicate Precedes(sp: Spatial, rows: seq<CenterRow>, j: nat, i: nat)
    requires j < |rows| && i < |rows|
  {
    rows[j].crosswalkId == rows[i].crosswalkId
    && (KeyLess(SortKey(sp, rows[j]), SortKey(sp, rows[i]))
        || (SortKey(sp, rows[j]) == SortKey(sp, rows[i]) && j < i))
  }

  /** The number of rows among the first n that precede row i. */
  function CountPreceding(sp: Spatial, rows: seq<CenterRow>, i: nat, n: nat): nat
    requires i < |rows| && n <= |rows|
  {
    if n == 0 then 0
    else CountPreceding(sp, rows, i, n - 1) + (if Precedes(sp, rows, n - 1, i) then 1 else 0)
  }

  /** ROW_NUMBER() OVER (PARTITION BY crosswalk_id ORDER BY geometry). */
  function RowNumber(sp: Spatial, rows: seq<CenterRow>, i: nat): nat
    requires i < |rows|
  {
    CountPreceding(sp, rows, i, |rows|) + 1
  }

  lemma TextLessTransitive(a: string, b: string, c: string)
    requires TextLess(a, b) && TextLess(b, c)
    ensures TextLess(a, c)
  {
    LexTransitive(a, b, c);
    if a == c { LexAntisymmetric(a, b); }
  }

  lemma PrecedesTransitive(sp: Spatial, rows: seq<CenterRow>, i: nat, j: nat, k: nat)
    requires i < |rows| && j < |rows| && k < |rows|
    requires Precedes(sp, rows, i, j) && Precedes(sp, rows, j, k)
    ensures Precedes(sp, rows, i, k)
  {
    var a, b, c := SortKey(sp, rows[i]), SortKey(sp, rows[j]), SortKey(sp, rows[k]);
    if KeyLess(a, b) && KeyLess(b, c) && c.Some? {
      TextLessTransitive(a.value, b.value, c.value);
    }
  }

  lemma PrecedesIrreflexive(sp: Spatial, rows: seq<CenterRow>, i: nat)
    requires i < |rows|
    ensures !Precedes(sp, rows, i, i)
  {
  }

  /** Within a partition, of two different rows one precedes the other. */
  lemma PrecedesTotal(sp: Spatial, rows: seq<CenterRow>, i: nat, j: nat)
    requires i < |rows| && j < |rows| && i != j && rows[i].crosswalkId == rows[j].crosswalkId
    ensures Precedes(sp, rows, i, j) || Precedes(sp, rows, j, i)
  {
    var a, b := SortKey(sp, rows[i]), SortKey(sp, rows[j]);
    if a.Some? && b.Some? && a != b {
      LexTotal(a.value, b.value);
    }
  }

  lemma {:induction false} CountPrecedingMonotone(sp: Spatial, rows: seq<CenterRow>, i: nat, j: nat, n: nat)
    requires i < |rows| && j < |rows| && n <= |rows|
    requires Precedes(sp, rows, i, j)
    ensures CountPreceding(sp, rows, i, n) <= CountPreceding(sp, rows, j, n)
    ensures i < n ==> CountPreceding(sp, rows, i, n) < CountPreceding(sp, rows, j, n)
  {
    if n > 0 {
      CountPrecedingMonotone(sp, rows, i, j, n - 1);
      if Precedes(sp, rows, n - 1, i) {
        PrecedesTransitive(sp, rows, n - 1, i, j);
      }
      if n - 1 == i {
        PrecedesIrreflexive(sp, rows, i);
      }
    }
  }

  /** Row numbers follow the order: a preceding row has a smaller number. */
  lemma RowNumberOrdered(sp: Spatial, rows: seq<CenterRow>, i: nat, j: nat)
    requires i < |rows| && j < |rows| && Precedes(sp, rows, i, j)
    ensures RowNumber(sp, rows, i) < RowNumber(sp, rows, j)
  {
    CountPrecedingMonotone(sp, rows, i, j, |rows|);
  }

  /** Two different rows of one partition never share a row number. */
  lemma RowNumberDistinct(sp: Spatial, rows: seq<CenterRow>, i: nat, j: nat)
    requires i < |rows| && j < |rows| && i != j && rows[i].crosswalkId == rows[j].crosswalkId
    ensures RowNumber(sp, rows, i) != RowNumber(sp, rows, j)
  {
    PrecedesTotal(sp, rows, i, j);
    if Precedes(sp, rows, i, j) {
      RowNumberOrdered(sp, rows, i, j);
    } else {
      RowNumberOrdered(sp, rows, j, i);
    }
  }

  /** CASE WHEN rn = 1 THEN 'A' WHEN rn = 2 THEN 'B' END. */
  function CenterLabel(rn: nat): Option<string>
  {
    if rn == 1 then Some("A") else if rn == 2 then Some("B") else None
  }

  /** The rows from position k on whose row number is at most 2, labelled. */
  function LabelledFrom(sp: Spatial, rows: seq<CenterRow>, k: nat): seq<CenterRow>
    requires k <= |rows|
    decreases |rows| - k
  {
    if k == |rows| then []
    else
      (if RowNumber(sp, rows, k) <= 2
       then [rows[k].(centerId := CenterLabel(RowNumber(sp, rows, k)))] else [])
      + LabelledFrom(sp, rows, k + 1)
  }

  /** The row at input position k survives WHERE rn <= 2 with its label. */
  ghost predicate LabelledRowOf(sp: Spatial, rows: seq<CenterRow>, r: CenterRow, k: nat)
  {
    k < |rows| && RowNumber(sp, rows, k) <= 2
    && r == rows[k].(centerId := CenterLabel(RowNumber(sp, rows, k)))
  }

  lemma {:induction false} LabelledFromMembers(sp: Spatial, rows: seq<CenterRow>, k: nat, r: CenterRow)
    requires k <= |rows|
    ensures r in LabelledFrom(sp, rows, k) <==> exists m :: k <= m < |rows| && LabelledRowOf(sp, rows, r, m)
    decreases |rows| - k
  {
    if k < |rows| {
      LabelledFromMembers(sp, rows, k + 1, r);
      if LabelledRowOf(sp, rows, r, k) {
        assert r in LabelledFrom(sp, rows, k);
      }
    }
  }

  /** The labelled two-way centres: every surviving row is labelled 'A' or
      'B'; no two centres of one crosswalk share a label, so there are at
      most two; and 'A' comes first in the order of the centre text. */
  lemma TwoWayLabels(sp: Spatial, rows: seq<CenterRow>, r1: CenterRow, r2: CenterRow, i: nat, j: nat)
    requires LabelledRowOf(sp, rows, r1, i) && LabelledRowOf(sp, rows, r2, j)
    requires i != j && r1.crosswalkId == r2.crosswalkId
    ensures r1.centerId == Some("A") || r1.centerId == Some("B")
    ensures r1.centerId != r2.centerId
    ensures r1.centerId == Some("A") ==> Precedes(sp, rows, i, j)
  {
    RowNumberDistinct(sp, rows, i, j);
    if r1.centerId == Some("A") {
      PrecedesTotal(sp, rows, i, j);
      if Precedes(sp, rows, j, i) {
        RowNumberOrdered(sp, rows, j, i);
      }
    }
  }

  /** The 'A' centre's text sorts no later than that of any other centre
      of its crosswalk. */
  lemma LabelAFirst(sp: Spatial, rows: seq<CenterRow>, i: nat, j: nat)
    requires i < |rows| && j < |rows| && i != j && rows[i].crosswalkId == rows[j].crosswalkId
    requires RowNumber(sp, rows, i) == 1
    ensures SortKey(sp, rows[i]).Some? && SortKey(sp, rows[j]).Some? ==>
      LexLeq(SortKey(sp, rows[i]).value, SortKey(sp, rows[j]).value)
  {
    PrecedesTotal(sp, rows, i, j);
    if Precedes(sp, rows, j, i) {
      RowNumberOrdered(sp, rows, j, i);
    }
    var a, b := SortKey(sp, rows[i]), SortKey(sp, rows[j]);
    if a.Some? && a == b {
      LexTotal(a.value, a.value);
    }
  }

  /** _find_crosswalk_centers_twoway. */
  function TwoWayCenters(sp: Spatial, crosswalks: seq<Crosswalk>, streets: seq<Street>, segments: seq<EdgeRow>)
    : seq<CenterRow>
  {
    LabelledFrom(sp, TwoWayCandidates(sp, crosswalks, streets, segments), 0)
  }

  /** find_crosswalk_centers: UNION ALL of the one-way and two-way tables. */
  function FindCrosswalkCenters(sp: Spatial, crosswalks: seq<Crosswalk>, streets: seq<Street>, segments: seq<EdgeRow>)
    : seq<CenterRow>
  {
    OneWayCenters(sp, crosswalks, streets, segments) + TwoWayCenters(sp, crosswalks, streets, segments)
  }

  /** The combined table is the one-way rows, every one of them with
      is_oneway TRUE, followed by the two-way rows, every one of them with
      is_oneway FALSE. */
  lemma UnionOrder(sp: Spatial, crosswalks: seq<Crosswalk>, streets: seq<Street>, segments: seq<EdgeRow>)
    ensures var one := OneWayCenters(sp, crosswalks, streets, segments);
      var all := FindCrosswalkCenters(sp, crosswalks, streets, segments);
      all[..|one|] == one
      && (forall k :: 0 <= k < |one| ==> all[k].isOneway == Some(true))
      && (forall k :: |one| <= k < |all| ==> all[k].isOneway == Some(false))
  {
    var one := OneWayCenters(sp, crosswalks, streets, segments);
    var cands := TwoWayCandidates(sp, crosswalks, streets, segments);
    var two := TwoWayCenters(sp, crosswalks, streets, segments);
    var all := FindCrosswalkCenters(sp, crosswalks, streets, segments);
    OneWayCentersShape(sp, crosswalks, streets, segments);
    TwoWayCandidatesShape(sp, crosswalks, streets, segments);
    forall k | 0 <= k < |one| ensures all[k].isOneway == Some(true) {
      assert all[k] == one[k] && one[k] in one;
    }
    forall k | |one| <= k < |all| ensures all[k].isOneway == Some(false) {
      var r := all[k];
      assert r == two[k - |one|] && r in two;
      LabelledFromMembers(sp, cands, 0, r);
      var m :| 0 <= m < |cands| && LabelledRowOf(sp, cands, r, m);
      assert cands[m] in cands;
    }
  }
}
