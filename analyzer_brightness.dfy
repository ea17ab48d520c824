/** The light heuristic of the analyzer (calculate_percieved_brightness):
    the same sum, but of the from_brightness_heuristic and
    to_brightness_heuristic columns, which the contrast stage of this
    model does not create. */
module AnalyzerBrightness {
  import opened Sql
  import opened Tables
  import Gis = GisPerceivedBrightness

  /** `SET light_heuristic = from_brightness_heuristic + to_brightness_heuristic`. */
  function WithLightHeuristic(r: ContrastRow): ContrastRow
  {
    r.(lightHeuristic := Add(r.fromBrightness, r.toBrightness))
  }

  /** The light heuristic is NULL when either operand is, and otherwise
      their sum; no other column changes. */
  lemma LightHeuristicMeaning(r: ContrastRow)
    ensures WithLightHeuristic(r).(lightHeuristic := r.lightHeuristic) == r
    ensures WithLightHeuristic(r).lightHeuristic.Some? <==> r.fromBrightness.Some? && r.toBrightness.Some?
    ensures WithLightHeuristic(r).lightHeuristic.Some? ==>
      WithLightHeuristic(r).lightHeuristic.value == r.fromBrightness.value + r.toBrightness.value
  {
  }

  /** The two generations agree only where the brightness columns hold the
      side heuristics. */
  lemma AgreesWithGis(r: ContrastRow)
    requires r.fromBrightness == r.fromHeuristic && r.toBrightness == r.toHeuristic
    ensures WithLightHeuristic(r) == Gis.WithLightHeuristic(r)
  {
  }

  /** The ALTER TABLE succeeds (only the light_heuristic column is added, if
      absent); the UPDATE fails with a missing-column error unless the
      table has the two brightness columns, and then writes every row. */
  method CalculatePerceivedBrightness(t: ContrastTable) returns (r: Result<()>)
    modifies t
    ensures t.hasBrightnessColumns == old(t.hasBrightnessColumns)
    ensures r.Err? <==> !t.hasBrightnessColumns
    ensures r.Err? ==> r.error == MissingColumn && t.rows == old(t.rows)
    ensures r.Ok? ==> |t.rows| == |old(t.rows)|
    ensures r.Ok? ==> forall i :: 0 <= i < |t.rows| ==> t.rows[i] == WithLightHeuristic(old(t.rows)[i])
  {
    if !t.hasBrightnessColumns {
      return Err(MissingColumn);
    }
    var rows := t.rows;
    t.rows := seq(|rows|, i requires 0 <= i < |rows| => WithLightHeuristic(rows[i]));
    r := Ok(());
  }
}
