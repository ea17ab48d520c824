/** Side classification and contrast of the GIS predictor (contrast.py):
    each light near a centre is put on the 'to' or 'from' side by comparing
    cross-product signs against the A-to-B line of its crosswalk, gets its
    distance from the centre's lists, and the per-centre sums of 1/d^2 on
    each side give a contrast label. */
module Contrast {
  import opened Sql
  import opened Geometry
  import opened Tables
  import opened Text
  import opened Seqs

  // ----- classify_lights_by_side -----

  /** The row is a centre of crosswalk `id` labelled `name` with a point. */
  predicate LabelledCentre(r: LightsRow, id: int, name: string)
  {
    r.center.crosswalkId == id && r.center.centerId == Some(name) && r.center.geometry.Some?
  }

  /** `MAX(CASE WHEN center_id = name THEN geometry END)`: of the labelled
      centres of the crosswalk, the one whose text sorts last; NULL when
      there is none. */
  function MaxCentre(sp: Spatial, rows: seq<LightsRow>, id: int, name: string): (m: Option<Point>)
    ensures m.None? <==> forall i :: 0 <= i < |rows| ==> !LabelledCentre(rows[i], id, name)
    ensures m.Some? ==> exists i :: 0 <= i < |rows| && LabelledCentre(rows[i], id, name) && rows[i].center.geometry == m
    ensures m.Some? ==> forall i :: 0 <= i < |rows| && LabelledCentre(rows[i], id, name) ==>
      LexLeq(sp.wkt(rows[i].center.geometry.value), sp.wkt(m.value))
  {
    if rows == [] then None
    else
      var rest := MaxCentre(sp, rows[1..], id, name);
      assert forall i :: 1 <= i < |rows| ==> rows[i] == rows[1..][i - 1];
      if !LabelledCentre(rows[0], id, name) then
        if rest.Some? then
          var i :| 0 <= i < |rows[1..]| && LabelledCentre(rows[1..][i], id, name) && rows[1..][i].center.geometry == rest;
          assert rows[i + 1] == rows[1..][i];
          rest
        else rest
      else
        var p := rows[0].center.geometry.value;
        LexTotal(sp.wkt(p), sp.wkt(p));
        if rest.None? then Some(p)
        else if LexLeq(sp.wkt(rest.value), sp.wkt(p)) then
          assert forall i :: 1 <= i < |rows| && LabelledCentre(rows[i], id, name) ==>
            LexLeq(sp.wkt(rows[i].center.geometry.value), sp.wkt(p)) by {
            forall i | 1 <= i < |rows| && LabelledCentre(rows[i], id, name)
              ensures LexLeq(sp.wkt(rows[i].center.geometry.value), sp.wkt(p))
            {
              LexTransitive(sp.wkt(rows[i].center.geometry.value), sp.wkt(rest.value), sp.wkt(p));
            }
          }
          Some(p)
        else
          LexTotal(sp.wkt(rest.value), sp.wkt(p));
          var i :| 0 <= i < |rows[1..]| && LabelledCentre(rows[1..][i], id, name) && rows[1..][i].center.geometry == rest;
          assert rows[i + 1] == rows[1..][i];
          rest
  }

  /** a_to_b: the line from centre A to centre B; NULL when either is
      missing. */
  function ABLine(sp: Spatial, rows: seq<LightsRow>, id: int): Option<Segment>
  {
    var a, b := MaxCentre(sp, rows, id, "A"), MaxCentre(sp, rows, id, "B");
    if a.Some? && b.Some? then Some(Segment(a.value, b.value)) else None
  }

  /** A from_coord / to_coord text read as a point; 'undefined' is not a
      geometry and is refused before this is reached. */
  function CoordPoint(c: Coord): Option<Point>
  {
    if c.Vertex? then Some(c.p) else None
  }

  /** from_to_to. */
  function FromToLine(r: LightsRow): Option<Segment>
  {
    var f, t := CoordPoint(r.center.fromCoord), CoordPoint(r.center.toCoord);
    if f.Some? && t.Some? then Some(Segment(f.value, t.value)) else None
  }

  /** SIGN of the cross product of a_to_b with a line; NULL if either is. */
  function LineSign(ab: Option<Segment>, l: Option<Segment>): Option<int>
  {
    if ab.Some? && l.Some? then Some(Sign(Cross(Vector(ab.value.start, ab.value.end), Vector(l.value.start, l.value.end))))
    else None
  }

  /** `CASE WHEN from_to_sign = center_to_light_sign THEN 'to' ELSE 'from'
      END`: a NULL sign makes the comparison NULL and the light 'from'. */
  function SideOf(ab: Option<Segment>, ft: Option<Segment>, cl: Option<Segment>): Side
  {
    var s1, s2 := LineSign(ab, ft), LineSign(ab, cl);
    if s1.Some? && s2.Some? && s1.value == s2.value then To else From
  }

  /** A light is on the 'to' side exactly when the light lies on the same
      side of the A-to-B line, seen from the centre, as the to_coord is seen
      from the from_coord. */
  lemma SideMeaning(a: Point, b: Point, ft: Segment, cl: Segment)
    ensures SideOf(Some(Segment(a, b)), Some(ft), Some(cl)) == To <==>
      Sign(Cross(Vector(a, b), Vector(ft.start, ft.end))) == Sign(Cross(Vector(a, b), Vector(cl.start, cl.end)))
  {
  }

  /** Swapping A and B negates both signs, so no light changes side. */
  lemma SideIgnoresABOrder(a: Point, b: Point, ft: Option<Segment>, cl: Option<Segment>)
    ensures SideOf(Some(Segment(a, b)), ft, cl) == SideOf(Some(Segment(b, a)), ft, cl)
  {
    if ft.Some? { CrossReversed(a, b, Vector(ft.value.start, ft.value.end)); }
    if cl.Some? { CrossReversed(a, b, Vector(cl.value.start, cl.value.end)); }
  }

  /** The classified row of centre row `r` and light `l`: the line from the
      centre to the light, the light's point, and the side. */
  function Light(sp: Spatial, all: seq<LightsRow>, r: LightsRow, l: Streetlight): ClassifiedLight
  {
    var cl := if r.center.geometry.Some? then Some(Segment(r.center.geometry.value, l.geometry)) else None;
    ClassifiedLight(r.center.crosswalkId, r.center.centerId, l.id, cl,
                    if cl.Some? then Some(cl.value.end) else None,
                    SideOf(ABLine(sp, all, r.center.crosswalkId), FromToLine(r), cl), None)
  }

  /** `JOIN streetlights s ON s.OBJECTID = t.streetlight_id` for one id. */
  function LightRows(sp: Spatial, all: seq<LightsRow>, r: LightsRow, id: int, lights: seq<Streetlight>): seq<ClassifiedLight>
  {
    if lights == [] then []
    else (if lights[0].id == id then [Light(sp, all, r, lights[0])] else []) + LightRows(sp, all, r, id, lights[1..])
  }

  /** UNNEST(streetlight_id) and the join, for one centre row. */
  function IdRows(sp: Spatial, all: seq<LightsRow>, r: LightsRow, ids: seq<int>, lights: seq<Streetlight>): seq<ClassifiedLight>
  {
    if ids == [] then [] else LightRows(sp, all, r, ids[0], lights) + IdRows(sp, all, r, ids[1..], lights)
  }

  /** The rows from centre rows `rows` (a suffix of `all`); a NULL list
      unnests to nothing. */
  function CentreRows(sp: Spatial, all: seq<LightsRow>, rows: seq<LightsRow>, lights: seq<Streetlight>): seq<ClassifiedLight>
  {
    if rows == [] then []
    else
      (if rows[0].streetlightIds.Some? then IdRows(sp, all, rows[0], rows[0].streetlightIds.value, lights) else [])
      + CentreRows(sp, all, rows[1..], lights)
  }

  /** A centre row whose coordinate is 'undefined' makes ST_GeomFromText
      fail. */
  predicate HasUndefinedCoord(rows: seq<LightsRow>)
  {
    exists i :: 0 <= i < |rows| && (rows[i].center.fromCoord.Undefined? || rows[i].center.toCoord.Undefined?)
  }

  /** The classified_streetlights query. */
  function ClassifiedLights(sp: Spatial, rows: seq<LightsRow>, lights: seq<Streetlight>): Result<seq<ClassifiedLight>>
  {
    if HasUndefinedCoord(rows) then Err(ConversionError) else Ok(CentreRows(sp, rows, rows, lights))
  }

  /** The classified row comes from centre row `r` and a light whose id is
      in the centre's list. */
  ghost predicate FromCentre(sp: Spatial, all: seq<LightsRow>, r: LightsRow, lights: seq<Streetlight>, c: ClassifiedLight)
  {
    r.streetlightIds.Some?
    && exists j :: 0 <= j < |lights| && lights[j].id in r.streetlightIds.value && c == Light(sp, all, r, lights[j])
  }

  lemma {:induction false} LightRowsMembers(sp: Spatial, all: seq<LightsRow>, r: LightsRow, id: int, lights: seq<Streetlight>, c: ClassifiedLight)
    ensures c in LightRows(sp, all, r, id, lights) <==>
      exists j :: 0 <= j < |lights| && lights[j].id == id && c == Light(sp, all, r, lights[j])
  {
    if lights != [] {
      LightRowsMembers(sp, all, r, id, lights[1..], c);
      if exists j :: 0 <= j < |lights[1..]| && lights[1..][j].id == id && c == Light(sp, all, r, lights[1..][j]) {
        var j :| 0 <= j < |lights[1..]| && lights[1..][j].id == id && c == Light(sp, all, r, lights[1..][j]);
        assert lights[1..][j] == lights[j + 1];
      }
      if exists j :: 0 <= j < |lights| && lights[j].id == id && c == Light(sp, all, r, lights[j]) {
        var j :| 0 <= j < |lights| && lights[j].id == id && c == Light(sp, all, r, lights[j]);
        if j > 0 { assert lights[j] == lights[1..][j - 1]; }
      }
    }
  }

  lemma {:induction false} IdRowsMembers(sp: Spatial, all: seq<LightsRow>, r: LightsRow, ids: seq<int>, lights: seq<Streetlight>, c: ClassifiedLight)
    ensures c in IdRows(sp, all, r, ids, lights) <==>
      exists j :: 0 <= j < |lights| && lights[j].id in ids && c == Light(sp, all, r, lights[j])
  {
    if ids != [] {
      IdRowsMembers(sp, all, r, ids[1..], lights, c);
      LightRowsMembers(sp, all, r, ids[0], lights, c);
      assert forall x :: x in ids <==> x == ids[0] || x in ids[1..];
    }
  }

  /** Every classified row is one light from one centre's list, joined by
      id: its geometry is the light's point (NULL when the centre has no
      point), and its side is computed from its crosswalk's A-to-B line. */
  lemma {:induction false} CentreRowsMembers(sp: Spatial, all: seq<LightsRow>, rows: seq<LightsRow>, lights: seq<Streetlight>, c: ClassifiedLight)
    ensures c in CentreRows(sp, all, rows, lights) <==> exists i :: 0 <= i < |rows| && FromCentre(sp, all, rows[i], lights, c)
  {
    if rows != [] {
      CentreRowsMembers(sp, all, rows[1..], lights, c);
      if rows[0].streetlightIds.Some? {
        IdRowsMembers(sp, all, rows[0], rows[0].streetlightIds.value, lights, c);
      }
      if exists i :: 0 <= i < |rows[1..]| && FromCentre(sp, all, rows[1..][i], lights, c) {
        var i :| 0 <= i < |rows[1..]| && FromCentre(sp, all, rows[1..][i], lights, c);
        assert rows[1..][i] == rows[i + 1];
      }
      if exists i :: 0 <= i < |rows| && FromCentre(sp, all, rows[i], lights, c) {
        var i :| 0 <= i < |rows| && FromCentre(sp, all, rows[i], lights, c);
        if i > 0 { assert rows[i] == rows[1..][i - 1]; }
      }
    }
  }

  /** The light's point is the geometry of its row. */
  lemma ClassifiedGeometryIsLight(sp: Spatial, rows: seq<LightsRow>, lights: seq<Streetlight>, c: ClassifiedLight)
    requires ClassifiedLights(sp, rows, lights).Ok? && c in ClassifiedLights(sp, rows, lights).value
    ensures exists i, j :: (0 <= i < |rows| && 0 <= j < |lights| && rows[i].streetlightIds.Some?
                            && lights[j].id in rows[i].streetlightIds.value && c.streetlightId == lights[j].id
                            && c.crosswalkId == rows[i].center.crosswalkId
                            && c.geometry == (if rows[i].center.geometry.Some? then Some(lights[j].geometry) else None))
  {
    CentreRowsMembers(sp, rows, rows, lights, c);
  }

  /** A crosswalk without a 'B' centre has a NULL A-to-B line, so every
      light of its centres falls to the 'from' side. */
  lemma NoBAllFrom(sp: Spatial, rows: seq<LightsRow>, lights: seq<Streetlight>, id: int, c: ClassifiedLight)
    requires forall i :: 0 <= i < |rows| ==> !LabelledCentre(rows[i], id, "B")
    requires ClassifiedLights(sp, rows, lights).Ok? && c in ClassifiedLights(sp, rows, lights).value
    requires c.crosswalkId == id
    ensures c.side == From
  {
    CentreRowsMembers(sp, rows, rows, lights, c);
  }

  /** The query fails exactly when some centre has an 'undefined'
      coordinate. */
  lemma ClassifyFailsOnUndefined(sp: Spatial, rows: seq<LightsRow>, lights: seq<Streetlight>)
    ensures ClassifiedLights(sp, rows, lights).Err? <==> HasUndefinedCoord(rows)
  {
  }

  /** classify_lights_by_side: CREATE OR REPLACE TABLE classified_streetlights;
      on an error the old table stays. */
  method ClassifyLightsBySide(t: ClassifiedLightsTable, sp: Spatial, rows: seq<LightsRow>, lights: seq<Streetlight>)
    returns (r: Result<()>)
    modifies t
    ensures ClassifiedLights(sp, rows, lights).Err? ==> r == Err(ClassifiedLights(sp, rows, lights).error) && t.rows == old(t.rows)
    ensures ClassifiedLights(sp, rows, lights).Ok? ==> r.Ok? && t.rows == ClassifiedLights(sp, rows, lights).value
  {
    var c := ClassifiedLights(sp, rows, lights);
    if c.Err? {
      return Err(c.error);
    }
    t.rows := c.value;
    r := Ok(());
  }

  // ----- add_distances -----

  /** `array_position(list, x)` as a 0-based index: the first position of
      `x`, NULL when absent. */
  function FirstPosition(xs: seq<int>, x: int): (r: Option<nat>)
    ensures r.None? <==> x !in xs
    ensures r.Some? ==> r.value < |xs| && xs[r.value] == x && forall k :: 0 <= k < r.value ==> xs[k] != x
  {
    if xs == [] then None
    else if xs[0] == x then Some(0)
    else
      var rest := FirstPosition(xs[1..], x);
      assert forall y :: y in xs <==> y == xs[0] || y in xs[1..];
      if rest.Some? then
        assert forall k :: 1 <= k < rest.value + 1 ==> xs[k] == xs[1..][k - 1];
        Some(rest.value + 1)
      else None
  }

  /** The centre row the UPDATE ... FROM joins a classified light with:
      same crosswalk_id, same center_id (a NULL never matches) and the id
      in its list; the first such row. */
  predicate DistanceSource(c: ClassifiedLight, r: LightsRow)
  {
    r.center.crosswalkId == c.crosswalkId && c.centerId.Some? && r.center.centerId == c.centerId
    && r.streetlightIds.Some? && c.streetlightId in r.streetlightIds.value
  }

  function FirstSource(c: ClassifiedLight, rows: seq<LightsRow>): (m: Option<LightsRow>)
    ensures m.Some? ==> m.value in rows && DistanceSource(c, m.value)
    ensures m.None? <==> forall i :: 0 <= i < |rows| ==> !DistanceSource(c, rows[i])
  {
    if rows == [] then None
    else if DistanceSource(c, rows[0]) then Some(rows[0])
    else
      assert forall i :: 1 <= i < |rows| ==> rows[i] == rows[1..][i - 1];
      FirstSource(c, rows[1..])
  }

  /** `array_extract(streetlight_dist, position)`: NULL past the end or
      for a NULL list. */
  function DistAt(dists: Option<seq<real>>, k: nat): Option<real>
  {
    if dists.Some? && k < |dists.value| then Some(dists.value[k]) else None
  }

  function WithDistance(c: ClassifiedLight, rows: seq<LightsRow>): ClassifiedLight
  {
    var m := FirstSource(c, rows);
    if m.Some? then
      c.(dist := DistAt(m.value.streetlightDists, FirstPosition(m.value.streetlightIds.value, c.streetlightId).value))
    else c
  }

  /** Position k holds the first occurrence of x. */
  ghost predicate FirstOccurrence(xs: seq<int>, x: int, k: nat)
  {
    k < |xs| && xs[k] == x && forall j :: 0 <= j < k ==> xs[j] != x
  }

  /** The distance a light gets is the one aligned with the first
      occurrence of its id in the centre's list; a light with no matching
      centre keeps its value. */
  lemma WithDistanceMeaning(c: ClassifiedLight, rows: seq<LightsRow>)
    ensures FirstSource(c, rows).None? ==> WithDistance(c, rows) == c
    ensures FirstSource(c, rows).Some? ==>
      exists k: nat :: (FirstOccurrence(FirstSource(c, rows).value.streetlightIds.value, c.streetlightId, k)
                        && WithDistance(c, rows) == c.(dist := DistAt(FirstSource(c, rows).value.streetlightDists, k)))
  {
    if FirstSource(c, rows).Some? {
      var m := FirstSource(c, rows).value;
      var k := FirstPosition(m.streetlightIds.value, c.streetlightId).value;
      assert FirstOccurrence(m.streetlightIds.value, c.streetlightId, k);
      assert WithDistance(c, rows) == c.(dist := DistAt(m.streetlightDists, k));
    }
  }

  /** add_distances: ADD COLUMN IF NOT EXISTS dist, then the UPDATE; every
      other column is unchanged. */
  method AddDistances(t: ClassifiedLightsTable, rows: seq<LightsRow>)
    modifies t
    ensures |t.rows| == |old(t.rows)|
    ensures forall i :: 0 <= i < |t.rows| ==> t.rows[i] == WithDistance(old(t.rows)[i], rows)
  {
    var cs := t.rows;
    t.rows := seq(|cs|, i requires 0 <= i < |cs| => WithDistance(cs[i], rows));
  }

  // ----- calculate_contrast_heuristics -----

  /** `CASE WHEN side = s THEN 1.0 / (dist * dist) ELSE 0 END`. */
  function Term(c: ClassifiedLight, s: Side): Option<real>
  {
    if c.side == s then InvSquare(c.dist) else Some(0.0)
  }

  function Key(c: ClassifiedLight): (int, Option<string>)
  {
    (c.crosswalkId, c.centerId)
  }

  /** The terms of one (crosswalk_id, center_id) group. */
  function Terms(cs: seq<ClassifiedLight>, key: (int, Option<string>), s: Side): seq<Option<real>>
  {
    if cs == [] then []
    else (if Key(cs[0]) == key then [Term(cs[0], s)] else []) + Terms(cs[1..], key, s)
  }

  /** A SUM of non-negative terms is non-negative. */
  lemma {:induction false} SumNonNegative(xs: seq<Option<real>>)
    requires forall i :: 0 <= i < |xs| ==> xs[i].Some? ==> xs[i].value >= 0.0
    ensures Sum(xs).Some? ==> Sum(xs).value >= 0.0
  {
    if xs != [] {
      assert forall i :: 0 <= i < |xs[1..]| ==> xs[1..][i] == xs[i + 1];
      SumNonNegative(xs[1..]);
    }
  }

  lemma {:induction false} TermsNonNegative(cs: seq<ClassifiedLight>, key: (int, Option<string>), s: Side)
    ensures var xs := Terms(cs, key, s); forall i :: 0 <= i < |xs| ==> xs[i].Some? ==> xs[i].value >= 0.0
  {
    if cs != [] {
      TermsNonNegative(cs[1..], key, s);
      var head := if Key(cs[0]) == key then [Term(cs[0], s)] else [];
      assert Terms(cs, key, s) == head + Terms(cs[1..], key, s);
    }
  }

  /** A side heuristic is never negative; it is the plain sum of 1/d^2
      over the group's rows on that side, and NULL only when every term is. */
  lemma Heuristic(cs: seq<ClassifiedLight>, key: (int, Option<string>), s: Side)
    ensures var xs := Terms(cs, key, s);
      && (Sum(xs).Some? ==> Sum(xs).value >= 0.0 && Sum(xs).value == SumOfValues(xs))
      && (Sum(xs).None? <==> forall i :: 0 <= i < |xs| ==> xs[i].None?)
  {
    TermsNonNegative(cs, key, s);
    SumNonNegative(Terms(cs, key, s));
    SumMeaning(Terms(cs, key, s));
  }

  /** The contrast label. */
  function ContrastOf(from: Option<real>, to: Option<real>, threshold: real): Option<ContrastLabel>
  {
    if from.None? || to.None? then None
    else
      var f, t := from.value, to.value;
      if (if f >= t then f - t else t - f) <= threshold then Some(NoContrast)
      else if f > t then Some(PositiveContrast)
      else if f < t then Some(NegativeContrast)
      else None
  }

  /** 'no contrast' exactly when the heuristics differ by at most the
      threshold; 'positive contrast' exactly when from exceeds to by more
      than the threshold; 'negative contrast' exactly when to exceeds from
      by more than the threshold. */
  lemma ContrastBands(f: real, t: real, threshold: real)
    ensures ContrastOf(Some(f), Some(t), threshold) == Some(NoContrast) <==> -threshold <= f - t <= threshold
    ensures ContrastOf(Some(f), Some(t), threshold) == Some(PositiveContrast) <==> f - t > threshold && f > t
    ensures ContrastOf(Some(f), Some(t), threshold) == Some(NegativeContrast) <==> t - f > threshold && t > f
  {
  }

  /** With a non-negative threshold every pair of heuristics gets a label;
      with a negative one, equal heuristics get NULL. */
  lemma ContrastDefined(f: real, t: real, threshold: real)
    ensures threshold >= 0.0 ==> ContrastOf(Some(f), Some(t), threshold).Some?
    ensures threshold < 0.0 && f == t ==> ContrastOf(Some(f), Some(t), threshold).None?
  {
  }

  /** Exchanging the sides exchanges positive and negative contrast. */
  lemma ContrastSwap(f: real, t: real, threshold: real)
    ensures ContrastOf(Some(f), Some(t), threshold) == Some(PositiveContrast) <==>
            ContrastOf(Some(t), Some(f), threshold) == Some(NegativeContrast)
    ensures ContrastOf(Some(f), Some(t), threshold) == Some(NoContrast) <==>
            ContrastOf(Some(t), Some(f), threshold) == Some(NoContrast)
  {
  }

  /** A centre row joined to a group: same crosswalk_id and center_id (a
      NULL center_id joins nothing). */
  predicate CentreMatches(row: LightsRow, key: (int, Option<string>))
  {
    row.center.crosswalkId == key.0 && key.1.Some? && row.center.centerId == key.1
  }

  /** The LEFT JOIN on crosswalk_id and center_id: one row per matching
      centre row, carrying its geometry, or one row with NULL geometry. */
  function JoinedGeometries(rows: seq<LightsRow>, key: (int, Option<string>)): (r: seq<Option<Point>>)
    ensures |r| >= 1
    ensures (forall i :: 0 <= i < |rows| ==> !CentreMatches(rows[i], key)) ==> r == [None]
    ensures (exists i :: 0 <= i < |rows| && CentreMatches(rows[i], key)) ==>
      forall g :: g in r <==> exists i :: 0 <= i < |rows| && CentreMatches(rows[i], key) && rows[i].center.geometry == g
  {
    var m := MatchingGeometries(rows, key);
    if m == [] then [None] else m
  }

  /** The geometries of the centre rows that join the group, in table
      order. */
  function MatchingGeometries(rows: seq<LightsRow>, key: (int, Option<string>)): (r: seq<Option<Point>>)
    ensures r == [] <==> forall i :: 0 <= i < |rows| ==> !CentreMatches(rows[i], key)
    ensures forall g :: g in r <==> exists i :: 0 <= i < |rows| && CentreMatches(rows[i], key) && rows[i].center.geometry == g
  {
    if rows == [] then []
    else
      var rest := MatchingGeometries(rows[1..], key);
      assert forall i :: 1 <= i < |rows| ==> rows[i] == rows[1..][i - 1];
      (if CentreMatches(rows[0], key) then [rows[0].center.geometry] else []) + rest
  }

  function GroupRows(cs: seq<ClassifiedLight>, rows: seq<LightsRow>, key: (int, Option<string>), threshold: real)
    : seq<ContrastRow>
  {
    var to, from := Sum(Terms(cs, key, To)), Sum(Terms(cs, key, From));
    var gs := JoinedGeometries(rows, key);
    seq(|gs|, k requires 0 <= k < |gs| =>
      ContrastRow(key.0, key.1, to, from, ContrastOf(from, to, threshold), gs[k], None, None, None))
  }

  function GroupKeys(cs: seq<ClassifiedLight>): seq<(int, Option<string>)>
  {
    Distinct(seq(|cs|, i requires 0 <= i < |cs| => Key(cs[i])))
  }

  /** The crosswalk_centers_contrast query. */
  function ContrastRows(cs: seq<ClassifiedLight>, rows: seq<LightsRow>, threshold: real): seq<ContrastRow>
  {
    var keys := GroupKeys(cs);
    Flatten(seq(|keys|, i requires 0 <= i < |keys| => GroupRows(cs, rows, keys[i], threshold)))
  }

  /** Every contrast row belongs to a (crosswalk_id, center_id) of the
      classified lights and is labelled from its group's two heuristics. */
  lemma ContrastRowsCover(cs: seq<ClassifiedLight>, rows: seq<LightsRow>, threshold: real, c: ContrastRow)
    requires c in ContrastRows(cs, rows, threshold)
    ensures var key := (c.crosswalkId, c.centerId);
      && key in GroupKeys(cs)
      && c.toHeuristic == Sum(Terms(cs, key, To)) && c.fromHeuristic == Sum(Terms(cs, key, From))
      && c.contrast == ContrastOf(c.fromHeuristic, c.toHeuristic, threshold)
  {
    var keys := GroupKeys(cs);
    var parts := seq(|keys|, i requires 0 <= i < |keys| => GroupRows(cs, rows, keys[i], threshold));
    FlattenMembership(parts, c);
    var i :| 0 <= i < |parts| && c in parts[i];
    var k :| 0 <= k < |parts[i]| && parts[i][k] == c;
  }

  /** Every (crosswalk_id, center_id) of the classified lights has a
      contrast row. */
  lemma ContrastRowsComplete(cs: seq<ClassifiedLight>, rows: seq<LightsRow>, threshold: real, j: nat)
    requires j < |cs|
    ensures exists c :: c in ContrastRows(cs, rows, threshold) && (c.crosswalkId, c.centerId) == Key(cs[j])
  {
    var keys := GroupKeys(cs);
    var parts := seq(|keys|, i requires 0 <= i < |keys| => GroupRows(cs, rows, keys[i], threshold));
    assert Key(cs[j]) == seq(|cs|, i requires 0 <= i < |cs| => Key(cs[i]))[j];
    assert Key(cs[j]) in keys;
    var i :| 0 <= i < |keys| && keys[i] == Key(cs[j]);
    var c := parts[i][0];
    FlattenMembership(parts, c);
    assert c in ContrastRows(cs, rows, threshold);
  }

  /** calculate_contrast_heuristics: DROP TABLE IF EXISTS, then CREATE
      TABLE; the new table has no brightness heuristic columns. */
  method CalculateContrastHeuristics(t: ContrastTable, cs: seq<ClassifiedLight>, rows: seq<LightsRow>, threshold: real)
    modifies t
    ensures t.rows == ContrastRows(cs, rows, threshold) && !t.hasBrightnessColumns
  {
    t.rows := ContrastRows(cs, rows, threshold);
    t.hasBrightnessColumns := false;
  }
}
