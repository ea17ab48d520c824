/** The crosswalk edge table: every boundary ring of a crosswalk is cut into
    its edges (decompose_crosswalk_edges), and every edge is then marked as a
    vehicle edge when some street segment crosses it
    (classify_edges_by_intersection). */
module EdgeClassifier {
  import opened Sql
  import opened Geometry
  import opened Tables
  import opened Seqs

  /** The edges of one ring with n points: edges 1..n-1, edge i running from
      point i to point i+1 (generate_series(1, ST_NPoints - 1)). */
  function RingEdges(crosswalkId: int, ring: Line): (r: seq<EdgeRow>)
    ensures |r| == if |ring| == 0 then 0 else |ring| - 1
    ensures forall i :: 0 <= i < |r| ==>
      r[i].crosswalkId == crosswalkId && r[i].edgeId == i + 1
      && r[i].isVehicleEdge.None? && r[i].streetSegmentId.None? && r[i].isOneway.None?
  {
    var n := if |ring| < 2 then 0 else |ring| - 1;
    seq(n, i requires 0 <= i < n => EdgeRow(crosswalkId, i + 1, Segment(ring[i], ring[i + 1]), None, None, None))
  }

  /** The points an edge sequence passes through: the start of the first
      edge, then the end of every edge. */
  function PathOf(edges: seq<EdgeRow>): Line
  {
    if edges == [] then []
    else [edges[0].geometry.start] + seq(|edges|, i requires 0 <= i < |edges| => edges[i].geometry.end)
  }

  /** Consecutive edges share a vertex: the end of edge i is the start of
      edge i+1. */
  lemma RingEdgesChain(crosswalkId: int, ring: Line)
    ensures var r := RingEdges(crosswalkId, ring);
      forall i :: 0 <= i < |r| - 1 ==> r[i].geometry.end == r[i + 1].geometry.start
  {
  }

  /** Walking the edges of a ring gives back the ring. */
  lemma RingEdgesPath(crosswalkId: int, ring: Line)
    requires |ring| >= 2
    ensures PathOf(RingEdges(crosswalkId, ring)) == ring
  {
    var r := RingEdges(crosswalkId, ring);
    var p := PathOf(r);
    assert |p| == |ring|;
    forall k | 0 <= k < |ring| ensures p[k] == ring[k] {
      if k > 0 { assert p[k] == r[k - 1].geometry.end; }
    }
  }

  /** The edges of every ring of one crosswalk; the numbering restarts at 1
      for each ring. */
  function CrosswalkEdges(cw: Crosswalk): seq<EdgeRow>
  {
    Flatten(seq(|cw.rings|, k requires 0 <= k < |cw.rings| => RingEdges(cw.id, cw.rings[k])))
  }

  function AllEdges(crosswalks: seq<Crosswalk>): seq<EdgeRow>
  {
    Flatten(seq(|crosswalks|, k requires 0 <= k < |crosswalks| => CrosswalkEdges(crosswalks[k])))
  }

  /** A crosswalk whose boundary has two rings (a polygon with a hole)
      holds two rows with edge_id 1. */
  lemma EdgeIdsRepeatAcrossRings(cw: Crosswalk)
    requires |cw.rings| == 2 && |cw.rings[0]| >= 2 && |cw.rings[1]| >= 2
    ensures var e := CrosswalkEdges(cw);
      exists i, j :: 0 <= i < j < |e| && e[i].crosswalkId == e[j].crosswalkId == cw.id
        && e[i].edgeId == e[j].edgeId == 1
  {
    var parts := seq(|cw.rings|, k requires 0 <= k < |cw.rings| => RingEdges(cw.id, cw.rings[k]));
    var a, b := parts[0], parts[1];
    assert parts == [a] + [b];
    assert parts[1..] == [b] && parts[1..][1..] == [];
    assert Flatten(parts[1..]) == b + Flatten(parts[1..][1..]);
    assert Flatten(parts) == a + b;
    var e := CrosswalkEdges(cw);
    assert e[0] == a[0] && e[|a|] == b[0];
  }

  /** One row per ring edge: the table holds n-1 rows per ring of n points. */
  function EdgeCount(cw: Crosswalk): nat
  {
    TotalLength(seq(|cw.rings|, k requires 0 <= k < |cw.rings| => RingEdges(cw.id, cw.rings[k])))
  }

  lemma CrosswalkEdgesCount(cw: Crosswalk)
    ensures |CrosswalkEdges(cw)| == EdgeCount(cw)
  {
    FlattenLength(seq(|cw.rings|, k requires 0 <= k < |cw.rings| => RingEdges(cw.id, cw.rings[k])));
  }

  /** Every row of the edge table belongs to a crosswalk that was cut, and
      every row of a crosswalk's edges is in the table. */
  lemma AllEdgesMembership(crosswalks: seq<Crosswalk>, e: EdgeRow)
    ensures e in AllEdges(crosswalks) <==>
      exists k :: 0 <= k < |crosswalks| && e in CrosswalkEdges(crosswalks[k])
  {
    var parts := seq(|crosswalks|, k requires 0 <= k < |crosswalks| => CrosswalkEdges(crosswalks[k]));
    FlattenMembership(parts, e);
    if e in AllEdges(crosswalks) {
      var k :| 0 <= k < |parts| && e in parts[k];
      assert e in CrosswalkEdges(crosswalks[k]);
    }
    if exists k :: 0 <= k < |crosswalks| && e in CrosswalkEdges(crosswalks[k]) {
      var k :| 0 <= k < |crosswalks| && e in CrosswalkEdges(crosswalks[k]);
      assert e in parts[k];
    }
  }

  /** decompose_crosswalk_edges: CREATE OR REPLACE TABLE crosswalk_segments.
      The old rows are replaced and the new table has no is_vehicle_edge
      column. */
  method DecomposeCrosswalkEdges(t: SegmentsTable, crosswalks: seq<Crosswalk>)
    modifies t
    ensures t.rows == AllEdges(crosswalks)
    ensures !t.hasVehicleEdge
  {
    t.rows := AllEdges(crosswalks);
    t.hasVehicleEdge := false;
  }

  /** `SELECT COUNT(*) FROM street_segments s WHERE ST_Intersects(edge, s)`. */
  function CountIntersecting(sp: Spatial, e: Segment, streets: seq<Street>): nat
  {
    if streets == [] then 0
    else (if sp.edgeIntersects(e, streets[0].geometry) then 1 else 0)
         + CountIntersecting(sp, e, streets[1..])
  }

  /** The count is positive exactly when some street segment intersects the
      edge. */
  lemma {:induction false} CountPositive(sp: Spatial, e: Segment, streets: seq<Street>)
    ensures CountIntersecting(sp, e, streets) > 0 <==>
      exists k :: 0 <= k < |streets| && sp.edgeIntersects(e, streets[k].geometry)
  {
    if streets != [] {
      CountPositive(sp, e, streets[1..]);
      if CountIntersecting(sp, e, streets[1..]) > 0 {
        var k :| 0 <= k < |streets[1..]| && sp.edgeIntersects(e, streets[1..][k].geometry);
        assert streets[1..][k] == streets[k + 1];
      } else if !sp.edgeIntersects(e, streets[0].geometry) {
        forall k | 0 <= k < |streets| ensures !sp.edgeIntersects(e, streets[k].geometry) {
          if k > 0 { assert streets[k] == streets[1..][k - 1]; }
        }
      }
    }
  }

  /** The value the UPDATE writes into is_vehicle_edge. */
  function VehicleEdge(sp: Spatial, e: Segment, streets: seq<Street>): (r: bool)
    ensures r <==> exists k :: 0 <= k < |streets| && sp.edgeIntersects(e, streets[k].geometry)
  {
    CountPositive(sp, e, streets);
    CountIntersecting(sp, e, streets) > 0
  }

  /** classify_edges_by_intersection: ADD COLUMN is_vehicle_edge (which fails
      if the column is already there, as on a second call), then set it in
      every row. */
  method ClassifyEdgesByIntersection(t: SegmentsTable, streets: seq<Street>, sp: Spatial)
    returns (r: Result<()>)
    modifies t
    ensures old(t.hasVehicleEdge) ==> r == Err(DuplicateColumn) && t.rows == old(t.rows) && t.hasVehicleEdge
    ensures !old(t.hasVehicleEdge) ==> r.Ok? && t.hasVehicleEdge && |t.rows| == |old(t.rows)|
    ensures !old(t.hasVehicleEdge) ==> forall i :: 0 <= i < |t.rows| ==>
      t.rows[i] == old(t.rows)[i].(isVehicleEdge := Some(VehicleEdge(sp, old(t.rows)[i].geometry, streets)))
  {
    if t.hasVehicleEdge {
      return Err(DuplicateColumn);
    }
    t.hasVehicleEdge := true;
    var rows := t.rows;
    t.rows := seq(|rows|, i requires 0 <= i < |rows| =>
      rows[i].(isVehicleEdge := Some(VehicleEdge(sp, rows[i].geometry, streets))));
    r := Ok(());
  }
}
