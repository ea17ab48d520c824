/** Streetlight proximity (the analyzer's distance stage): the lat/long
    swap of both point tables, the copy of the centres into
    crosswalk_centers_lights, and the lists of nearby streetlight ids and
    distances written into every centre row whose point text matches. */
module Distance {
  import opened Sql
  import opened Geometry
  import opened Tables
  import opened Seqs

  // ----- long_lat_flipper -----

  /** `ST_Point(ST_Y(g), ST_X(g))`: the coordinates in the other order. */
  function Flip(p: Point): (r: Point)
    ensures r.x == p.y && r.y == p.x
  {
    Point(p.y, p.x)
  }

  /** Flipping twice gives the point back. */
  lemma FlipTwice(p: Point)
    ensures Flip(Flip(p)) == p
  {
  }

  function FlippedLight(l: Streetlight): Streetlight
  {
    l.(latLong := Some(Flip(l.geometry)))
  }

  /** A NULL geometry gives a NULL geometry_lat_long. */
  function FlippedCenter(r: LightsRow): LightsRow
  {
    r.(latLong := if r.center.geometry.Some? then Some(Flip(r.center.geometry.value)) else None)
  }

  /** The flipper reads only the original geometry column, so a second run
      writes what the first one wrote. */
  lemma FlipperIdempotent(l: Streetlight, r: LightsRow)
    ensures FlippedLight(FlippedLight(l)) == FlippedLight(l)
    ensures FlippedCenter(FlippedCenter(r)) == FlippedCenter(r)
    ensures FlippedCenter(r).center == r.center && FlippedCenter(r).streetlightIds == r.streetlightIds
  {
  }

  function FlippedRows(rows: seq<LightsRow>): seq<LightsRow>
  {
    seq(|rows|, i requires 0 <= i < |rows| => FlippedCenter(rows[i]))
  }

  function FlippedLights(lights: seq<Streetlight>): seq<Streetlight>
  {
    seq(|lights|, i requires 0 <= i < |lights| => FlippedLight(lights[i]))
  }

  /** long_lat_flipper(con, "streetlights"). */
  method FlipStreetlights(t: StreetlightsTable)
    modifies t
    ensures t.rows == FlippedLights(old(t.rows))
  {
    t.rows := FlippedLights(t.rows);
  }

  /** long_lat_flipper(con, "crosswalk_centers_lights"); the ALTER fails
      when the table has not been created. */
  method FlipCenterLights(t: CenterLightsTable) returns (r: Result<()>)
    modifies t
    ensures !old(t.created) ==> r == Err(MissingTable) && t.rows == old(t.rows)
    ensures old(t.created) ==> r.Ok? && t.rows == FlippedRows(old(t.rows))
    ensures t.created == old(t.created)
  {
    if !t.created {
      return Err(MissingTable);
    }
    t.rows := FlippedRows(t.rows);
    r := Ok(());
  }

  // ----- create_crosswalk_centers_lights -----

  /** A copied centre row, with the added columns NULL. */
  function NewLightsRow(c: CenterRow): LightsRow
  {
    LightsRow(c, None, None, None, None, None)
  }

  /** CREATE TABLE IF NOT EXISTS ... AS SELECT * FROM crosswalk_centers,
      then the ADD COLUMN IF NOT EXISTS statements: an existing table keeps
      its rows, so a later run does not pick up new centres. */
  method CreateCrosswalkCentersLights(t: CenterLightsTable, centers: seq<CenterRow>)
    modifies t
    ensures t.created
    ensures old(t.created) ==> t.rows == old(t.rows)
    ensures !old(t.created) ==> |t.rows| == |centers|
    ensures !old(t.created) ==> forall i :: 0 <= i < |centers| ==> t.rows[i] == NewLightsRow(centers[i])
  {
    if !t.created {
      t.rows := seq(|centers|, i requires 0 <= i < |centers| => NewLightsRow(centers[i]));
      t.created := true;
    }
  }

  // ----- find_streetlights_crosswalk_centers: the query -----

  /** A row of filtered_pairs: a centre and a light within the distance. */
  datatype Pair = Pair(crosswalkId: int, crossGeom: Point, lightId: int, lightGeom: Point)

  /** The JOIN condition; a NULL geometry_lat_long joins nothing. */
  predicate Accepted(sp: Spatial, r: LightsRow, l: Streetlight, dist: real)
  {
    r.latLong.Some? && l.latLong.Some? && sp.dWithinSpheroid(l.latLong.value, r.latLong.value, dist)
  }

  function CenterPairs(sp: Spatial, r: LightsRow, lights: seq<Streetlight>, dist: real): seq<Pair>
  {
    if lights == [] then []
    else
      (if Accepted(sp, r, lights[0], dist)
       then [Pair(r.center.crosswalkId, r.latLong.value, lights[0].id, lights[0].latLong.value)] else [])
      + CenterPairs(sp, r, lights[1..], dist)
  }

  function Pairs(sp: Spatial, rows: seq<LightsRow>, lights: seq<Streetlight>, dist: real): seq<Pair>
  {
    if rows == [] then [] else CenterPairs(sp, rows[0], lights, dist) + Pairs(sp, rows[1..], lights, dist)
  }

  /** The pair is made of centre row `r` and some light accepted with it. */
  ghost predicate PairOf(sp: Spatial, r: LightsRow, lights: seq<Streetlight>, dist: real, p: Pair)
  {
    exists j :: 0 <= j < |lights| && Accepted(sp, r, lights[j], dist)
      && p == Pair(r.center.crosswalkId, r.latLong.value, lights[j].id, lights[j].latLong.value)
  }

  lemma {:induction false} CenterPairsMembers(sp: Spatial, r: LightsRow, lights: seq<Streetlight>, dist: real, p: Pair)
    ensures p in CenterPairs(sp, r, lights, dist) <==> PairOf(sp, r, lights, dist, p)
  {
    if lights != [] {
      CenterPairsMembers(sp, r, lights[1..], dist, p);
      if PairOf(sp, r, lights[1..], dist, p) {
        var j :| 0 <= j < |lights[1..]| && Accepted(sp, r, lights[1..][j], dist)
          && p == Pair(r.center.crosswalkId, r.latLong.value, lights[1..][j].id, lights[1..][j].latLong.value);
        assert lights[1..][j] == lights[j + 1];
      }
      if PairOf(sp, r, lights, dist, p) {
        var j :| 0 <= j < |lights| && Accepted(sp, r, lights[j], dist)
          && p == Pair(r.center.crosswalkId, r.latLong.value, lights[j].id, lights[j].latLong.value);
        if j > 0 {
          assert lights[j] == lights[1..][j - 1];
        }
      }
    }
  }

  /** Exactly the (centre, light) combinations the within-distance test
      accepts are aggregated. */
  lemma {:induction false} PairsMembers(sp: Spatial, rows: seq<LightsRow>, lights: seq<Streetlight>, dist: real, p: Pair)
    ensures p in Pairs(sp, rows, lights, dist) <==>
      exists i :: 0 <= i < |rows| && PairOf(sp, rows[i], lights, dist, p)
  {
    if rows != [] {
      PairsMembers(sp, rows[1..], lights, dist, p);
      CenterPairsMembers(sp, rows[0], lights, dist, p);
      if exists i :: 0 <= i < |rows[1..]| && PairOf(sp, rows[1..][i], lights, dist, p) {
        var i :| 0 <= i < |rows[1..]| && PairOf(sp, rows[1..][i], lights, dist, p);
        assert rows[1..][i] == rows[i + 1];
      }
      if exists i :: 0 <= i < |rows| && PairOf(sp, rows[i], lights, dist, p) {
        var i :| 0 <= i < |rows| && PairOf(sp, rows[i], lights, dist, p);
        if i > 0 {
          assert rows[i] == rows[1..][i - 1];
        }
      }
    }
  }

  /** The GROUP BY key. */
  function KeyOf(p: Pair): (int, Point)
  {
    (p.crosswalkId, p.crossGeom)
  }

  /** The pairs of one group, in order. */
  function GroupPairs(pairs: seq<Pair>, key: (int, Point)): (r: seq<Pair>)
    ensures forall p :: p in r <==> p in pairs && KeyOf(p) == key
  {
    if pairs == [] then []
    else (if KeyOf(pairs[0]) == key then [pairs[0]] else []) + GroupPairs(pairs[1..], key)
  }

  /** One output row of the query: crosswalk_id, ST_AsText(cross_geom) and
      the two array_agg lists, aggregated over the same rows. */
  datatype Group = Group(crosswalkId: int, text: string, ids: seq<int>, dists: seq<real>)

  function GroupOf(sp: Spatial, pairs: seq<Pair>, key: (int, Point)): Group
  {
    var g := GroupPairs(pairs, key);
    Group(key.0, sp.wkt(key.1),
          seq(|g|, k requires 0 <= k < |g| => g[k].lightId),
          seq(|g|, k requires 0 <= k < |g| => sp.distanceSphere(g[k].lightGeom, g[k].crossGeom)))
  }

  function Groups(sp: Spatial, pairs: seq<Pair>): seq<Group>
  {
    var keys := Distinct(seq(|pairs|, k requires 0 <= k < |pairs| => KeyOf(pairs[k])));
    seq(|keys|, i requires 0 <= i < |keys| => GroupOf(sp, pairs, keys[i]))
  }

  /** The id list and the distance list of a group have equal length and
      are index-aligned: position k of both comes from one accepted pair of
      the group's centre, and the group has at least one. */
  lemma GroupsAligned(sp: Spatial, pairs: seq<Pair>, i: nat)
    requires i < |Groups(sp, pairs)|
    ensures var g := Groups(sp, pairs)[i];
      && |g.ids| == |g.dists| && |g.ids| >= 1
      && forall k :: 0 <= k < |g.ids| ==>
           exists p :: p in pairs && p.crosswalkId == g.crosswalkId && sp.wkt(p.crossGeom) == g.text
             && p.lightId == g.ids[k] && g.dists[k] == sp.distanceSphere(p.lightGeom, p.crossGeom)
  {
    var keys := Distinct(seq(|pairs|, k requires 0 <= k < |pairs| => KeyOf(pairs[k])));
    var key := keys[i];
    var gp := GroupPairs(pairs, key);
    assert key in seq(|pairs|, k requires 0 <= k < |pairs| => KeyOf(pairs[k]));
    var j :| 0 <= j < |pairs| && KeyOf(pairs[j]) == key;
    assert pairs[j] in gp;
    var g := Groups(sp, pairs)[i];
    forall k | 0 <= k < |g.ids|
      ensures exists p :: (p in pairs && p.crosswalkId == g.crosswalkId && sp.wkt(p.crossGeom) == g.text
                           && p.lightId == g.ids[k] && g.dists[k] == sp.distanceSphere(p.lightGeom, p.crossGeom))
    {
      assert gp[k] in gp;
    }
  }

  /** Every id in a centre's list is a light the spheroidal test accepted
      for one of the centre rows with that crosswalk id and point. */
  lemma GroupIdsAccepted(sp: Spatial, rows: seq<LightsRow>, lights: seq<Streetlight>, dist: real, i: nat, k: nat)
    requires i < |Groups(sp, Pairs(sp, rows, lights, dist))|
    requires k < |Groups(sp, Pairs(sp, rows, lights, dist))[i].ids|
    ensures var g := Groups(sp, Pairs(sp, rows, lights, dist))[i];
      exists r, j :: 0 <= r < |rows| && 0 <= j < |lights| && Accepted(sp, rows[r], lights[j], dist)
        && rows[r].center.crosswalkId == g.crosswalkId && lights[j].id == g.ids[k]
  {
    var pairs := Pairs(sp, rows, lights, dist);
    GroupsAligned(sp, pairs, i);
    var g := Groups(sp, pairs)[i];
    var p :| p in pairs && p.crosswalkId == g.crosswalkId && sp.wkt(p.crossGeom) == g.text
             && p.lightId == g.ids[k] && g.dists[k] == sp.distanceSphere(p.lightGeom, p.crossGeom);
    PairsMembers(sp, rows, lights, dist, p);
    var r :| 0 <= r < |rows| && PairOf(sp, rows[r], lights, dist, p);
    var j :| 0 <= j < |lights| && Accepted(sp, rows[r], lights[j], dist)
      && p == Pair(rows[r].center.crosswalkId, rows[r].latLong.value, lights[j].id, lights[j].latLong.value);
  }

  /** One pair makes one group holding just that pair's light. */
  lemma SinglePairGroups(sp: Spatial, p: Pair)
    ensures Groups(sp, [p]) == [Group(p.crosswalkId, sp.wkt(p.crossGeom), [p.lightId],
                                      [sp.distanceSphere(p.lightGeom, p.crossGeom)])]
  {
    var keys := seq(1, k requires 0 <= k < 1 => KeyOf([p][k]));
    assert keys == [KeyOf(p)];
    assert keys[..0] == [];
    assert Distinct(keys) == [KeyOf(p)];
    assert [p][1..] == [];
    assert GroupPairs([p], KeyOf(p)) == [p];
    var g := GroupOf(sp, [p], KeyOf(p));
    assert g.ids == [p.lightId];
    assert g.dists == [sp.distanceSphere(p.lightGeom, p.crossGeom)];
    assert Groups(sp, [p]) == [g];
  }

  /** The filter is ST_DWithin_Spheroid but the recorded distance is
      ST_Distance_Sphere, so nothing bounds a recorded distance by `dist`:
      when the sphere distance exceeds the radius for a pair the spheroid
      test accepted, the recorded distance exceeds it. */
  lemma RecordedDistanceNotBounded(sp: Spatial, dist: real, c: CenterRow, at: Point, l: Streetlight)
    requires l.latLong.Some? && sp.dWithinSpheroid(l.latLong.value, at, dist)
    requires sp.distanceSphere(l.latLong.value, at) > dist
    ensures var rows := [LightsRow(c, Some(at), None, None, None, None)];
      var gs := Groups(sp, Pairs(sp, rows, [l], dist));
      |gs| == 1 && gs[0].ids == [l.id] && gs[0].dists[0] > dist
  {
    var rows := [LightsRow(c, Some(at), None, None, None, None)];
    var p := Pair(c.crosswalkId, at, l.id, l.latLong.value);
    assert [l][1..] == [] && rows[1..] == [];
    assert CenterPairs(sp, rows[0], [l], dist) == [p];
    assert Pairs(sp, rows, [l], dist) == [p];
    SinglePairGroups(sp, p);
  }

  /** Such a spatial library exists: one whose spheroid test accepts every
      pair and whose sphere distance is one above the radius. */
  lemma RecordedDistanceExceedsRadius(dist: real)
    ensures var sp := Spatial(p => [], (e, l) => false, (rs, l) => false, (rs, l) => [],
                              (a, b, m) => true, (a, b) => dist + 1.0, t => None);
      sp.dWithinSpheroid(Point(0.0, 0.0), Point(0.0, 0.0), dist)
      && sp.distanceSphere(Point(0.0, 0.0), Point(0.0, 0.0)) > dist
  {
  }

  // ----- find_streetlights_crosswalk_centers: the update loop -----

  /** `WHERE geometry_lat_long = ?` with the group's point text. */
  predicate Matches(sp: Spatial, r: LightsRow, g: Group)
  {
    r.latLong.Some? && sp.wkt(r.latLong.value) == g.text
  }

  /** The last group (in loop order) that matches the row: later UPDATEs
      overwrite earlier ones. */
  function LastMatch(sp: Spatial, groups: seq<Group>, r: LightsRow): (m: Option<Group>)
    ensures m.Some? ==> m.value in groups && Matches(sp, r, m.value)
    ensures m.None? <==> forall g :: g in groups ==> !Matches(sp, r, g)
  {
    if groups == [] then None
    else if Matches(sp, r, groups[|groups| - 1]) then Some(groups[|groups| - 1])
    else
      assert forall g :: g in groups ==> g in groups[..|groups| - 1] || g == groups[|groups| - 1];
      LastMatch(sp, groups[..|groups| - 1], r)
  }

  /** The WHERE tests the point text only: two centre rows at the same
      point, of different crosswalks too, take the same group's lists. */
  lemma {:induction false} SamePointSameMatch(sp: Spatial, groups: seq<Group>, r1: LightsRow, r2: LightsRow)
    requires r1.latLong == r2.latLong
    ensures LastMatch(sp, groups, r1) == LastMatch(sp, groups, r2)
  {
    if groups != [] {
      SamePointSameMatch(sp, groups[..|groups| - 1], r1, r2);
    }
  }

  /** A centre row after the loop: the matching group's lists, or the old
      values (NULL for a centre no light was near). */
  function WithGroup(r: LightsRow, m: Option<Group>): LightsRow
  {
    if m.Some? then r.(streetlightIds := Some(m.value.ids), streetlightDists := Some(m.value.dists)) else r
  }

  function UpdatedBy(sp: Spatial, r: LightsRow, g: Group): LightsRow
  {
    if Matches(sp, r, g) then WithGroup(r, Some(g)) else r
  }

  /** The Python loop: one UPDATE per group. */
  method UpdateCenterLights(t: CenterLightsTable, sp: Spatial, groups: seq<Group>)
    modifies t
    ensures t.created == old(t.created) && |t.rows| == |old(t.rows)|
    ensures forall k :: 0 <= k < |t.rows| ==>
      t.rows[k] == WithGroup(old(t.rows)[k], LastMatch(sp, groups, old(t.rows)[k]))
  {
    var i := 0;
    while i < |groups|
      invariant 0 <= i <= |groups|
      invariant t.created == old(t.created) && |t.rows| == |old(t.rows)|
      invariant forall k :: 0 <= k < |t.rows| ==>
        t.rows[k] == WithGroup(old(t.rows)[k], LastMatch(sp, groups[..i], old(t.rows)[k]))
    {
      var g := groups[i];
      var rows := t.rows;
      t.rows := seq(|rows|, k requires 0 <= k < |rows| => UpdatedBy(sp, rows[k], g));
      assert groups[..i + 1][..i] == groups[..i];
      i := i + 1;
    }
    assert groups[..|groups|] == groups;
  }

  /** A centre row that no group matches keeps its lists. */
  lemma UnmatchedCentreUnchanged(sp: Spatial, groups: seq<Group>, r: LightsRow)
    requires forall g :: g in groups ==> !Matches(sp, r, g)
    ensures WithGroup(r, LastMatch(sp, groups, r)) == r
  {
  }

  /** find_streetlights_crosswalk_centers: flip both tables, compute the
      groups, then write them into the centre rows. */
  method FindStreetlightsCrosswalkCenters(t: CenterLightsTable, lights: StreetlightsTable, sp: Spatial, dist: real)
    returns (r: Result<()>)
    modifies t, lights
    ensures lights.rows == FlippedLights(old(lights.rows))
    ensures !old(t.created) ==> r == Err(MissingTable) && t.rows == old(t.rows)
    ensures old(t.created) ==> r.Ok? && |t.rows| == |old(t.rows)|
    ensures old(t.created) ==>
      var flipped := FlippedRows(old(t.rows));
      var groups := Groups(sp, Pairs(sp, flipped, lights.rows, dist));
      forall k :: 0 <= k < |t.rows| ==> t.rows[k] == WithGroup(flipped[k], LastMatch(sp, groups, flipped[k]))
    ensures t.created == old(t.created)
  {
    FlipStreetlights(lights);
    r := FlipCenterLights(t);
    if r.Err? {
      return;
    }
    ghost var flipped := t.rows;
    var groups := Groups(sp, Pairs(sp, t.rows, lights.rows, dist));
    UpdateCenterLights(t, sp, groups);
    assert forall k :: 0 <= k < |t.rows| ==> t.rows[k] == WithGroup(flipped[k], LastMatch(sp, groups, flipped[k]));
  }
}
