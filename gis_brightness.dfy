/** The illuminance heuristic of the GIS predictor (brightness_table): for
    each centre of a snapshot of crosswalk_centers_lights, the sum of
    1/x^2 over its streetlight distances, written to every row with the
    same geometry text. */
module GisBrightness {
  import opened Sql
  import opened Geometry
  import opened Tables
  import ContrastTable

  /** `sum([1 / (x**2) for x in distances])`: 0 for no distances, and
      ZeroDivisionError for a zero distance. */
  function InverseSquareSum(ds: seq<real>): (r: Result<real>)
    ensures r.Err? <==> 0.0 in ds
    ensures r.Err? ==> r.error == ZeroDivisionError
    ensures r.Ok? ==> r.value >= 0.0
  {
    if ds == [] then Ok(0.0)
    else
      var init, x := ds[..|ds| - 1], ds[|ds| - 1];
      assert ds == init + [x];
      match InverseSquareSum(init)
      case Err(e) => Err(e)
      case Ok(s) =>
        if x == 0.0 then Err(ZeroDivisionError)
        else
          assert x * x > 0.0;
          Ok(s + 1.0 / (x * x))
  }

  /** A centre without lights has heuristic 0. */
  lemma NoLightsNoIlluminance()
    ensures InverseSquareSum([]) == Ok(0.0)
  {
  }

  /** One more light at a positive distance strictly raises the
      heuristic. */
  lemma AppendRaises(ds: seq<real>, d: real)
    requires d > 0.0 && InverseSquareSum(ds).Ok?
    ensures InverseSquareSum(ds + [d]).Ok?
    ensures InverseSquareSum(ds + [d]).value > InverseSquareSum(ds).value
  {
    assert (ds + [d])[..|ds|] == ds;
    assert d * d > 0.0;
  }

  /** SumOfValues is additive at the end of the list. */
  lemma {:induction false} SumOfValuesAppend(xs: seq<Option<real>>, x: Option<real>)
    requires x.Some?
    ensures SumOfValues(xs + [x]) == SumOfValues(xs) + x.value
  {
    if xs != [] {
      assert (xs + [x])[1..] == xs[1..] + [x];
      SumOfValuesAppend(xs[1..], x);
    }
  }

  /** The 1/d^2 terms of the SQL sum. */
  function Terms(ds: seq<real>): seq<Option<real>>
  {
    seq(|ds|, k requires 0 <= k < |ds| => InvSquare(Some(ds[k])))
  }

  /** One more nonzero distance adds its 1/x^2 term. */
  lemma InverseSquareSumStep(init: seq<real>, x: real)
    requires x != 0.0 && InverseSquareSum(init).Ok?
    ensures InverseSquareSum(init + [x]).Ok?
    ensures InverseSquareSum(init + [x]).value == InverseSquareSum(init).value + 1.0 / (x * x)
  {
    var ds := init + [x];
    assert ds[..|ds| - 1] == init && ds[|ds| - 1] == x;
  }

  /** The SQL terms of a list with one more distance. */
  lemma TermsAppend(init: seq<real>, x: real)
    ensures Terms(init + [x]) == Terms(init) + [InvSquare(Some(x))]
  {
    var ds := init + [x];
    assert forall k :: 0 <= k < |init| ==> Terms(ds)[k] == Terms(init)[k];
  }

  /** With no zero distance, the heuristic is the plain sum of the SQL
      terms. */
  lemma {:induction false} InverseSquareSumIsSumOfTerms(ds: seq<real>)
    requires 0.0 !in ds
    ensures InverseSquareSum(ds).Ok? && InverseSquareSum(ds).value == SumOfValues(Terms(ds))
  {
    if ds != [] {
      var init, x := ds[..|ds| - 1], ds[|ds| - 1];
      assert ds == init + [x];
      assert x in ds;
      assert 0.0 !in init by {
        forall k | 0 <= k < |init| ensures init[k] != 0.0 {
          assert init[k] == ds[k];
        }
      }
      InverseSquareSumIsSumOfTerms(init);
      InverseSquareSumStep(init, x);
      TermsAppend(init, x);
      SumOfValuesAppend(Terms(init), InvSquare(Some(x)));
      InvSquareValue(x);
    }
  }

  /** This heuristic and the SQL one of the list-based classification
      agree on a centre with lights at nonzero distances; they differ on a
      centre without lights (0 here, NULL there) and at a zero distance
      (an exception here, a NULL term there). */
  lemma AgreesWithListHeuristic(ds: seq<real>)
    requires 0.0 !in ds
    ensures ds != [] ==> ContrastTable.ListHeuristic(Some(ds)) == Some(InverseSquareSum(ds).value)
    ensures ds == [] ==> ContrastTable.ListHeuristic(Some(ds)).None? && InverseSquareSum(ds) == Ok(0.0)
  {
    InverseSquareSumIsSumOfTerms(ds);
    assert ContrastTable.ListHeuristic(Some(ds)) == Sum(Terms(ds));
    SumMeaning(Terms(ds));
    if ds != [] {
      assert Terms(ds)[0].Some?;
    }
  }

  /** The heuristic of one fetched row: iterating a NULL list raises
      TypeError. */
  function RowHeuristic(r: LightsRow): Result<real>
  {
    if r.streetlightDists.None? then Err(TypeError) else InverseSquareSum(r.streetlightDists.value)
  }

  /** `UPDATE ... SET illuminance_heuristic = ? WHERE geometry = ?`: a NULL
      centre matches no row. */
  function Illuminated(sp: Spatial, row: LightsRow, centre: Option<string>, v: real): LightsRow
  {
    if centre.Some? && TextOf(sp, row.center.geometry) == centre then row.(illuminance := Some(v)) else row
  }

  function UpdateAll(sp: Spatial, rows: seq<LightsRow>, centre: Option<string>, v: real): (r: seq<LightsRow>)
    ensures |r| == |rows|
  {
    seq(|rows|, i requires 0 <= i < |rows| => Illuminated(sp, rows[i], centre, v))
  }

  /** The loop from snapshot row k on: the first exception ends it, and the
      UPDATEs already issued stay. */
  function Run(sp: Spatial, snap: seq<LightsRow>, k: nat, rows: seq<LightsRow>): (Result<()>, seq<LightsRow>)
    requires k <= |snap|
    decreases |snap| - k
  {
    if k == |snap| then (Ok(()), rows)
    else
      match RowHeuristic(snap[k])
      case Err(e) => (Err(e), rows)
      case Ok(v) => Run(sp, snap, k + 1, UpdateAll(sp, rows, TextOf(sp, snap[k].center.geometry), v))
  }

  /** The loop completes exactly when every fetched row has a distance list
      without a zero. */
  lemma {:induction false} RunSucceeds(sp: Spatial, snap: seq<LightsRow>, k: nat, rows: seq<LightsRow>)
    requires k <= |snap|
    ensures Run(sp, snap, k, rows).0.Ok? <==> forall j :: k <= j < |snap| ==> RowHeuristic(snap[j]).Ok?
    decreases |snap| - k
  {
    if k < |snap| {
      if RowHeuristic(snap[k]).Ok? {
        RunSucceeds(sp, snap, k + 1, UpdateAll(sp, rows, TextOf(sp, snap[k].center.geometry), RowHeuristic(snap[k]).value));
      }
    }
  }

  /** The heuristic of the last snapshot row from k on whose centre text is
      `t`, if any. */
  function LastValue(sp: Spatial, snap: seq<LightsRow>, k: nat, t: Option<string>): Option<real>
    requires k <= |snap|
    requires forall j :: k <= j < |snap| ==> RowHeuristic(snap[j]).Ok?
    decreases |snap| - k
  {
    if k == |snap| then None
    else
      var rest := LastValue(sp, snap, k + 1, t);
      if rest.Some? then rest
      else if t.Some? && TextOf(sp, snap[k].center.geometry) == t then Some(RowHeuristic(snap[k]).value)
      else None
  }

  /** After a complete loop a row holds the heuristic of the last fetched
      centre with its geometry text; a row matching no fetched centre (a
      NULL geometry, for one) keeps its value. */
  lemma {:induction false} RunResult(sp: Spatial, snap: seq<LightsRow>, k: nat, rows: seq<LightsRow>)
    requires k <= |snap|
    requires forall j :: k <= j < |snap| ==> RowHeuristic(snap[j]).Ok?
    ensures |Run(sp, snap, k, rows).1| == |rows|
    ensures forall i :: 0 <= i < |rows| ==>
      Run(sp, snap, k, rows).1[i]
      == (if LastValue(sp, snap, k, TextOf(sp, rows[i].center.geometry)).Some?
          then rows[i].(illuminance := LastValue(sp, snap, k, TextOf(sp, rows[i].center.geometry)))
          else rows[i])
    decreases |snap| - k
  {
    if k < |snap| {
      var v := RowHeuristic(snap[k]).value;
      var next := UpdateAll(sp, rows, TextOf(sp, snap[k].center.geometry), v);
      RunResult(sp, snap, k + 1, next);
      forall i | 0 <= i < |rows|
        ensures TextOf(sp, next[i].center.geometry) == TextOf(sp, rows[i].center.geometry)
      {
      }
    }
  }

  /** brightness_table: the SELECT takes a snapshot, the ALTER adds the
      column if absent (an absent column reads as NULL), then the loop. */
  method BrightnessTable(t: CenterLightsTable, sp: Spatial) returns (r: Result<()>)
    modifies t
    ensures (r, t.rows) == Run(sp, old(t.rows), 0, old(t.rows))
    ensures t.created == old(t.created)
  {
    var snap := t.rows;
    var k := 0;
    while k < |snap|
      invariant 0 <= k <= |snap|
      invariant t.created == old(t.created)
      invariant Run(sp, snap, 0, snap) == Run(sp, snap, k, t.rows)
    {
      var v := RowHeuristic(snap[k]);
      if v.Err? {
        return Err(v.error);
      }
      t.rows := UpdateAll(sp, t.rows, TextOf(sp, snap[k].center.geometry), v.value);
      k := k + 1;
    }
    r := Ok(());
  }
}
