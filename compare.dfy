/** The comparison with field observations (compare.py): the contrast rows
    named by a CSV of observations are copied to crosswalk_compare, the
    observed values are written next to them, and each row is marked as
    aligned when the observed contrast has the sign the label predicts. */
module Compare {
  import opened Sql
  import opened Tables
  import opened Text

  /** One CSV row: Center ID, Crosswalk ID, Perceived Contrast, Perceived
      Visibility (1-5), Average Lux (toward car), Average Lux (away from
      car), Net lux. */
  datatype Observation = Observation(
    centerId: string,
    crosswalkId: int,
    perceivedContrast: real,
    perceivedVisibility: real,
    luxTowardCar: real,
    luxAwayCar: real,
    netLux: real)

  /** `r` writes `n`: a '-' exactly for a negative number, then the
      decimal digits of its magnitude. */
  predicate WritesInt(r: string, n: int)
  {
    && |r| >= 1
    && ((r[0] == '-') <==> n < 0)
    && (n < 0 ==> |r| >= 2 && AllDigits(r[1..]) && DigitsValue(r[1..]) == -n)
    && (n >= 0 ==> AllDigits(r) && DigitsValue(r) == n)
  }

  /** How an f-string writes an int. */
  function IntText(n: int): (r: string)
    ensures |r| >= 1 && WritesInt(r, n)
  {
    if n < 0 then
      var d := NatText(-n);
      assert ("-" + d)[1..] == d;
      "-" + d
    else NatText(n)
  }

  /** Different ints are written differently, and no int text holds a
      space. */
  lemma IntTextInjective(a: int, b: int)
    ensures IntText(a) == IntText(b) <==> a == b
    ensures ' ' !in IntText(a)
  {
    var t := IntText(a);
    if a < 0 {
      assert forall k :: 1 <= k < |t| ==> t[k] == t[1..][k - 1];
    }
  }

  /** `f"crosswalk_id = {crosswalk_id} AND center_id = '{center_id}'"`. */
  function Clause(o: Observation): (r: string)
    ensures |r| > 0
  {
    "crosswalk_id = " + IntText(o.crosswalkId) + " AND center_id = '" + o.centerId + "'"
  }

  /** A text without spaces followed by a space is recovered from the
      whole. */
  lemma SpaceSeparated(t1: string, r1: string, t2: string, r2: string)
    requires ' ' !in t1 && ' ' !in t2 && t1 + [' '] + r1 == t2 + [' '] + r2
    ensures t1 == t2 && r1 == r2
  {
    var s := t1 + [' '] + r1;
    IndexOfPrefix(t1, ' ', r1);
    IndexOfPrefix(t2, ' ', r2);
    assert t1 == s[..|t1|] && t2 == s[..|t2|];
    assert r1 == s[|t1| + 1..] && r2 == s[|t2| + 1..];
  }

  /** Equal texts with a common prefix and suffix have equal middles. */
  lemma Middle(p: string, a: string, b: string, q: string)
    requires p + a + q == p + b + q
    ensures a == b
  {
    var s := p + a + q;
    assert a == s[|p|..|s| - |q|];
    assert b == (p + b + q)[|p|..|s| - |q|];
  }

  /** A clause is the int text and the center_id between fixed texts,
      with a space right after the int text. */
  lemma ClauseParts(o: Observation)
    ensures Clause(o) == "crosswalk_id = " + (IntText(o.crosswalkId) + [' '] + ("AND center_id = '" + o.centerId)) + "'"
  {
    var p, t, m, id, q := "crosswalk_id = ", IntText(o.crosswalkId), "AND center_id = '", o.centerId, "'";
    assert " AND center_id = '" == [' '] + m;
    assert p + t + ([' '] + m) + id + q == p + (t + [' '] + (m + id)) + q;
  }

  /** Two CSV rows give the same clause exactly when they name the same
      (crosswalk_id, center_id). */
  lemma ClauseInjective(o1: Observation, o2: Observation)
    ensures Clause(o1) == Clause(o2) <==> o1.crosswalkId == o2.crosswalkId && o1.centerId == o2.centerId
  {
    if Clause(o1) == Clause(o2) {
      var p, m, q := "crosswalk_id = ", "AND center_id = '", "'";
      var t1, t2 := IntText(o1.crosswalkId), IntText(o2.crosswalkId);
      IntTextInjective(o1.crosswalkId, o2.crosswalkId);
      IntTextInjective(o2.crosswalkId, o1.crosswalkId);
      ClauseParts(o1);
      ClauseParts(o2);
      Middle(p, t1 + [' '] + (m + o1.centerId), t2 + [' '] + (m + o2.centerId), q);
      SpaceSeparated(t1, m + o1.centerId, t2, m + o2.centerId);
      assert m + o1.centerId + [] == m + o2.centerId + [];
      Middle(m, o1.centerId, o2.centerId, []);
    }
  }

  /** `" OR ".join(conditions)`. */
  function JoinOr(cs: seq<string>): string
  {
    if |cs| == 0 then ""
    else if |cs| == 1 then cs[0]
    else JoinOr(cs[..|cs| - 1]) + " OR " + cs[|cs| - 1]
  }

  /** The joined text is empty only for no clauses, and it starts with the
      first clause and ends with the last. */
  lemma {:induction false} JoinOrShape(cs: seq<string>)
    requires forall k :: 0 <= k < |cs| ==> |cs[k]| > 0
    ensures JoinOr(cs) == "" <==> cs == []
    ensures cs != [] ==> cs[0] <= JoinOr(cs)
    ensures cs != [] ==> |JoinOr(cs)| >= |cs[|cs| - 1]|
    ensures cs != [] ==> JoinOr(cs)[|JoinOr(cs)| - |cs[|cs| - 1]|..] == cs[|cs| - 1]
  {
    if |cs| > 1 {
      var init := cs[..|cs| - 1];
      JoinOrShape(init);
      assert init[0] == cs[0];
      assert JoinOr(cs) == JoinOr(init) + (" OR " + cs[|cs| - 1]);
    }
  }

  /** The condition text for a CSV: the clauses joined by " OR ". */
  function Conditions(csv: seq<Observation>): string
  {
    JoinOr(seq(|csv|, k requires 0 <= k < |csv| => Clause(csv[k])))
  }

  /** The loop of create_compare_table: one clause per CSV row, in order. */
  method BuildClauses(csv: seq<Observation>) returns (conditions: seq<string>)
    ensures |conditions| == |csv|
    ensures forall k :: 0 <= k < |csv| ==> conditions[k] == Clause(csv[k])
  {
    conditions := [];
    var k := 0;
    while k < |csv|
      invariant 0 <= k <= |csv|
      invariant |conditions| == k
      invariant forall j :: 0 <= j < k ==> conditions[j] == Clause(csv[j])
    {
      conditions := conditions + [Clause(csv[k])];
      k := k + 1;
    }
  }

  /** An empty CSV leaves `WHERE ;`, which does not parse; any other CSV
      gives a nonempty condition. */
  lemma EmptyCsvNoCondition(csv: seq<Observation>)
    ensures Conditions(csv) == "" <==> csv == []
  {
    var cs := seq(|csv|, k requires 0 <= k < |csv| => Clause(csv[k]));
    JoinOrShape(cs);
  }

  /** What the WHERE clause selects: a contrast row whose crosswalk_id and
      center_id are those of some CSV row (a NULL center_id matches none). */
  predicate Named(r: ContrastRow, csv: seq<Observation>)
  {
    exists k :: 0 <= k < |csv| && csv[k].crosswalkId == r.crosswalkId && r.centerId == Some(csv[k].centerId)
  }

  /** The copied columns; the observation columns and the alignment are
      added later. */
  function CompareRowOf(r: ContrastRow): CompareRow
  {
    CompareRow(r.crosswalkId, r.centerId, r.lightHeuristic, r.contrast, r.toHeuristic, r.fromHeuristic,
               None, None, None, None, None, None)
  }

  /** `SELECT ... FROM crosswalk_centers_contrast WHERE <conditions>`: each
      named contrast row once, in table order. */
  function CompareRows(contrast: seq<ContrastRow>, csv: seq<Observation>): (r: seq<CompareRow>)
    ensures |r| <= |contrast|
    ensures forall x :: x in r ==> exists c :: c in contrast && Named(c, csv) && x == CompareRowOf(c)
    ensures forall c :: c in contrast && Named(c, csv) ==> CompareRowOf(c) in r
  {
    if contrast == [] then []
    else
      var rest := CompareRows(contrast[1..], csv);
      assert forall c :: c in contrast[1..] ==> c in contrast;
      assert forall c :: c in contrast ==> c == contrast[0] || c in contrast[1..];
      if Named(contrast[0], csv) then [CompareRowOf(contrast[0])] + rest else rest
  }

  /** Naming a crosswalk centre twice in the CSV copies it once; the table
      depends only on which keys the CSV names. */
  lemma {:induction false} CompareRowsByKeys(contrast: seq<ContrastRow>, csv1: seq<Observation>, csv2: seq<Observation>)
    requires forall c :: c in contrast ==> (Named(c, csv1) <==> Named(c, csv2))
    ensures CompareRows(contrast, csv1) == CompareRows(contrast, csv2)
  {
    if contrast != [] {
      assert forall c :: c in contrast[1..] ==> c in contrast;
      CompareRowsByKeys(contrast[1..], csv1, csv2);
    }
  }

  /** create_compare_table: the clauses, then `CREATE TABLE IF NOT EXISTS`;
      an existing table keeps its rows, and an empty CSV is a syntax error
      that changes nothing. */
  method CreateCompareTable(t: CompareTable, contrast: seq<ContrastRow>, csv: seq<Observation>) returns (r: Result<()>)
    modifies t
    ensures r.Err? <==> csv == []
    ensures r.Err? ==> r.error == InvalidSql
    ensures r.Err? || old(t.created) ==> t.rows == old(t.rows) && t.created == old(t.created)
    ensures r.Ok? && !old(t.created) ==> t.created && t.rows == CompareRows(contrast, csv)
  {
    var conditions := BuildClauses(csv);
    assert conditions == seq(|csv|, k requires 0 <= k < |csv| => Clause(csv[k]));
    var query := JoinOr(conditions);
    EmptyCsvNoCondition(csv);
    if query == "" {
      return Err(InvalidSql);
    }
    if !t.created {
      t.rows := CompareRows(contrast, csv);
      t.created := true;
    }
    r := Ok(());
  }

  // ----- add_collected_data_columns -----

  /** `WHERE crosswalk_id = {crosswalk_id} AND center_id = '{center_id}'`. */
  predicate Observes(o: Observation, r: CompareRow)
  {
    r.crosswalkId == o.crosswalkId && r.centerId == Some(o.centerId)
  }

  /** The last CSV row about this compare row: later UPDATEs overwrite
      earlier ones. */
  function LastObservation(csv: seq<Observation>, r: CompareRow): (o: Option<Observation>)
    ensures o.Some? ==> o.value in csv && Observes(o.value, r)
    ensures o.None? <==> forall k :: 0 <= k < |csv| ==> !Observes(csv[k], r)
  {
    if csv == [] then None
    else if Observes(csv[|csv| - 1], r) then Some(csv[|csv| - 1])
    else
      var init := csv[..|csv| - 1];
      assert forall k :: 0 <= k < |init| ==> init[k] == csv[k];
      LastObservation(init, r)
  }

  /** The observation taken is the last one naming the row: no later CSV
      row names it. */
  lemma {:induction false} LastObservationIsLast(csv: seq<Observation>, r: CompareRow)
    requires LastObservation(csv, r).Some?
    ensures exists m :: (0 <= m < |csv| && csv[m] == LastObservation(csv, r).value
                         && forall j :: m < j < |csv| ==> !Observes(csv[j], r))
  {
    var n := |csv| - 1;
    if Observes(csv[n], r) {
      assert LastObservation(csv, r).value == csv[n];
    } else {
      var init := csv[..n];
      assert LastObservation(csv, r) == LastObservation(init, r);
      LastObservationIsLast(init, r);
      var m :| 0 <= m < |init| && init[m] == LastObservation(init, r).value
        && forall j :: m < j < |init| ==> !Observes(init[j], r);
      assert csv[m] == init[m];
      forall j | m < j < |csv|
        ensures !Observes(csv[j], r)
      {
        if j < n {
          assert csv[j] == init[j];
        }
      }
    }
  }

  /** The five SET assignments. */
  function Observed(r: CompareRow, o: Observation): CompareRow
  {
    r.(perceivedContrast := Some(o.perceivedContrast), perceivedVisibility := Some(o.perceivedVisibility),
       luxTowardCar := Some(o.luxTowardCar), luxAwayCar := Some(o.luxAwayCar), netLux := Some(o.netLux))
  }

  function WithObservation(r: CompareRow, o: Option<Observation>): CompareRow
  {
    if o.Some? then Observed(r, o.value) else r
  }

  /** A row no CSV row names keeps its values; a named one gets the
      values of the last CSV row naming it, and its other columns stay. */
  lemma WithObservationMeaning(csv: seq<Observation>, r: CompareRow)
    ensures (forall k :: 0 <= k < |csv| ==> !Observes(csv[k], r)) ==> WithObservation(r, LastObservation(csv, r)) == r
    ensures WithObservation(r, LastObservation(csv, r)).(perceivedContrast := r.perceivedContrast,
      perceivedVisibility := r.perceivedVisibility, luxTowardCar := r.luxTowardCar, luxAwayCar := r.luxAwayCar,
      netLux := r.netLux) == r
    ensures csv != [] && Observes(csv[|csv| - 1], r) ==>
      WithObservation(r, LastObservation(csv, r)).perceivedContrast == Some(csv[|csv| - 1].perceivedContrast)
  {
  }

  /** add_collected_data_columns: the columns are added if absent (an
      absent column reads as NULL), then one UPDATE per CSV row. */
  method AddCollectedDataColumns(t: CompareTable, csv: seq<Observation>)
    modifies t
    ensures t.created == old(t.created) && |t.rows| == |old(t.rows)|
    ensures forall i :: 0 <= i < |t.rows| ==>
      t.rows[i] == WithObservation(old(t.rows)[i], LastObservation(csv, old(t.rows)[i]))
  {
    var k := 0;
    while k < |csv|
      invariant 0 <= k <= |csv|
      invariant t.created == old(t.created) && |t.rows| == |old(t.rows)|
      invariant forall i :: 0 <= i < |t.rows| ==>
        t.rows[i] == WithObservation(old(t.rows)[i], LastObservation(csv[..k], old(t.rows)[i]))
    {
      var o := csv[k];
      var rows := t.rows;
      t.rows := seq(|rows|, i requires 0 <= i < |rows| => if Observes(o, rows[i]) then Observed(rows[i], o) else rows[i]);
      forall i | 0 <= i < |t.rows|
        ensures t.rows[i] == WithObservation(old(t.rows)[i], LastObservation(csv[..k + 1], old(t.rows)[i]))
      {
        var pre := csv[..k + 1];
        assert pre[..k] == csv[..k] && pre[k] == o;
        assert Observes(o, rows[i]) == Observes(o, old(t.rows)[i]);
      }
      k := k + 1;
    }
    assert csv[..|csv|] == csv;
  }

  // ----- evaluate_contrast_results -----

  /** The CASE: TRUE for a positive label and a positive observation, a
      negative label and a negative one, or 'no contrast' and zero; FALSE
      otherwise, NULLs included. */
  function Alignment(predicted: Option<ContrastLabel>, perceived: Option<real>): bool
  {
    match (predicted, perceived)
    case (Some(PositiveContrast), Some(p)) => p > 0.0
    case (Some(NegativeContrast), Some(p)) => p < 0.0
    case (Some(NoContrast), Some(p)) => p == 0.0
    case _ => false
  }

  /** Aligned exactly when the observation's sign is the one the predicted
      names: each predicted is aligned with exactly one sign, and a missing
      predicted or observation is never aligned. */
  lemma AlignmentMeaning(predicted: Option<ContrastLabel>, perceived: Option<real>)
    ensures Alignment(predicted, perceived) ==> predicted.Some? && perceived.Some?
    ensures perceived.Some? && perceived.value > 0.0 ==>
      (Alignment(predicted, perceived) <==> predicted == Some(PositiveContrast))
    ensures perceived.Some? && perceived.value < 0.0 ==>
      (Alignment(predicted, perceived) <==> predicted == Some(NegativeContrast))
    ensures perceived == Some(0.0) ==> (Alignment(predicted, perceived) <==> predicted == Some(NoContrast))
  {
  }

  /** ADD COLUMN IF NOT EXISTS, then an UPDATE of every row; the column is
      never NULL afterwards. */
  method EvaluateContrastResults(t: CompareTable)
    modifies t
    ensures t.created == old(t.created) && |t.rows| == |old(t.rows)|
    ensures forall i :: 0 <= i < |t.rows| ==>
      t.rows[i] == old(t.rows)[i].(alignment := Some(Alignment(old(t.rows)[i].contrast, old(t.rows)[i].perceivedContrast)))
  {
    var rows := t.rows;
    t.rows := seq(|rows|, i requires 0 <= i < |rows| =>
      rows[i].(alignment := Some(Alignment(rows[i].contrast, rows[i].perceivedContrast))));
  }
}
