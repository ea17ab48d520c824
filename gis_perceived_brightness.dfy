/** The light heuristic of the GIS predictor
    (calculate_percieved_brightness): the sum of a centre's from-side and
    to-side heuristics, written to every row of crosswalk_centers_contrast. */
module GisPerceivedBrightness {
  import opened Sql
  import opened Tables

  /** `SET light_heuristic = from_heuristic + to_heuristic`. */
  function WithLightHeuristic(r: ContrastRow): ContrastRow
  {
    r.(lightHeuristic := Add(r.fromHeuristic, r.toHeuristic))
  }

  /** The light heuristic is NULL when either side is, and otherwise their
      sum; no other column changes. */
  lemma LightHeuristicMeaning(r: ContrastRow)
    ensures WithLightHeuristic(r).(lightHeuristic := r.lightHeuristic) == r
    ensures WithLightHeuristic(r).lightHeuristic.Some? <==> r.fromHeuristic.Some? && r.toHeuristic.Some?
    ensures WithLightHeuristic(r).lightHeuristic.Some? ==>
      WithLightHeuristic(r).lightHeuristic.value == r.fromHeuristic.value + r.toHeuristic.value
  {
  }

  /** Running the stage again gives the same table. */
  lemma LightHeuristicIdempotent(r: ContrastRow)
    ensures WithLightHeuristic(WithLightHeuristic(r)) == WithLightHeuristic(r)
  {
  }

  /** The sum does not depend on which side is which. */
  lemma LightHeuristicSymmetric(r: ContrastRow)
    ensures WithLightHeuristic(r.(fromHeuristic := r.toHeuristic, toHeuristic := r.fromHeuristic)).lightHeuristic
         == WithLightHeuristic(r).lightHeuristic
  {
  }

  /** The ALTER TABLE adds the column if absent (an absent column reads as
      NULL); the UPDATE has no WHERE, so every row is written. */
  method CalculatePerceivedBrightness(t: ContrastTable)
    modifies t
    ensures t.hasBrightnessColumns == old(t.hasBrightnessColumns)
    ensures |t.rows| == |old(t.rows)|
    ensures forall i :: 0 <= i < |t.rows| ==> t.rows[i] == WithLightHeuristic(old(t.rows)[i])
  {
    var rows := t.rows;
    t.rows := seq(|rows|, i requires 0 <= i < |rows| => WithLightHeuristic(rows[i]));
  }
}
