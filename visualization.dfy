/** The map layer of the GIS predictor
    (make_lines_from_crosswalk_to_streetlights): one line from a centre to
    each light on its side lists, with the side it was put on. */
module Visualization {
  import opened Sql
  import opened Geometry
  import opened Tables

  /** A row of crosswalk_centers_to_lights. */
  datatype LightLine = LightLine(crosswalkId: int, streetlightId: Option<int>, side: Side, geometry: Option<Segment>)

  class LinesTable {
    var rows: seq<LightLine>
  }

  /** `ST_MakeLine(ST_GeomFromText(geometry), ST_GeomFromText(light))`: NULL
      when either text is NULL or does not read as a point. */
  function MakeLine(sp: Spatial, centre: Option<Point>, light: Option<string>): Option<Segment>
  {
    var c := if centre.Some? then sp.fromText(sp.wkt(centre.value)) else None;
    var l := if light.Some? then sp.fromText(light.value) else None;
    if c.Some? && l.Some? then Some(Segment(c.value, l.value)) else None
  }

  /** The id and light-text lists of one side of a row. */
  function SideIds(r: SideListsRow, side: Side): Option<seq<int>>
  {
    if side == From then r.fromIds else r.toIds
  }

  function SideGeoms(r: SideListsRow, side: Side): seq<string>
  {
    var g := if side == From then r.fromGeoms else r.toGeoms;
    if g.Some? then g.value else []
  }

  /** The two UNNESTs of one row, side by side: as many rows as the longer
      list (a NULL list has none), the shorter padded with NULL; no rows at
      all when the id list is NULL (the WHERE). */
  function RowLines(sp: Spatial, r: SideListsRow, side: Side): (out: seq<LightLine>)
    ensures SideIds(r, side).None? ==> out == []
    ensures SideIds(r, side).Some? ==> |out| == if |SideIds(r, side).value| >= |SideGeoms(r, side)|
                                                 then |SideIds(r, side).value| else |SideGeoms(r, side)|
  {
    if SideIds(r, side).None? then []
    else
      var ids, gs := SideIds(r, side).value, SideGeoms(r, side);
      var n := if |ids| >= |gs| then |ids| else |gs|;
      seq(n, k requires 0 <= k < n =>
        LightLine(r.crosswalkId, if k < |ids| then Some(ids[k]) else None, side,
                  MakeLine(sp, r.geometry, if k < |gs| then Some(gs[k]) else None)))
  }

  /** One branch of the UNION ALL. */
  function SideLines(sp: Spatial, rows: seq<SideListsRow>, side: Side): seq<LightLine>
  {
    if rows == [] then [] else RowLines(sp, rows[0], side) + SideLines(sp, rows[1..], side)
  }

  /** The whole query: the from-side rows, then the to-side rows. */
  function Lines(sp: Spatial, rows: seq<SideListsRow>): seq<LightLine>
  {
    SideLines(sp, rows, From) + SideLines(sp, rows, To)
  }

  /** The number of ids on one side over all rows (a NULL list counts 0). */
  function IdCount(rows: seq<SideListsRow>, side: Side): nat
  {
    if rows == [] then 0
    else (if SideIds(rows[0], side).Some? then |SideIds(rows[0], side).value| else 0) + IdCount(rows[1..], side)
  }

  /** Lists that stand side by side: a text for at most every id. */
  predicate Aligned(r: SideListsRow, side: Side)
  {
    SideIds(r, side).Some? ==> |SideGeoms(r, side)| <= |SideIds(r, side).value|
  }

  /** With aligned lists, one line per from-side id plus one per to-side
      id. */
  lemma {:induction false} LinesCount(sp: Spatial, rows: seq<SideListsRow>)
    requires forall i :: 0 <= i < |rows| ==> Aligned(rows[i], From) && Aligned(rows[i], To)
    ensures |SideLines(sp, rows, From)| == IdCount(rows, From)
    ensures |SideLines(sp, rows, To)| == IdCount(rows, To)
    ensures |Lines(sp, rows)| == IdCount(rows, From) + IdCount(rows, To)
  {
    if rows != [] {
      assert forall i :: 1 <= i < |rows| ==> rows[i] == rows[1..][i - 1];
      LinesCount(sp, rows[1..]);
    }
  }

  /** Every line of the first branch is labelled from-side, every one of
      the second to-side. */
  lemma {:induction false} SideLabels(sp: Spatial, rows: seq<SideListsRow>, side: Side)
    ensures forall l :: l in SideLines(sp, rows, side) ==> l.side == side
  {
    if rows != [] {
      SideLabels(sp, rows[1..], side);
    }
  }

  /** Line k of a row pairs the k-th id with the k-th text: it runs from
      the centre to that light, when both texts read as points. */
  lemma LineEnds(sp: Spatial, r: SideListsRow, side: Side, k: nat)
    requires SideIds(r, side).Some? && k < |SideIds(r, side).value| && k < |SideGeoms(r, side)|
    requires r.geometry.Some? && sp.fromText(sp.wkt(r.geometry.value)) == Some(r.geometry.value)
    requires sp.fromText(SideGeoms(r, side)[k]).Some?
    ensures RowLines(sp, r, side)[k].streetlightId == Some(SideIds(r, side).value[k])
    ensures RowLines(sp, r, side)[k].geometry
         == Some(Segment(r.geometry.value, sp.fromText(SideGeoms(r, side)[k]).value))
  {
  }

  /** A centre without a from-side id list, or a to-side one, adds no line
      for that side. */
  lemma NullListNoLines(sp: Spatial, rows: seq<SideListsRow>, r: SideListsRow, side: Side)
    requires SideIds(r, side).None?
    ensures SideLines(sp, [r] + rows, side) == SideLines(sp, rows, side)
  {
    assert ([r] + rows)[1..] == rows;
  }

  /** `ST_GeomFromText` accepts the text: NULL passes, other text must read
      as a geometry. */
  predicate TextReads(sp: Spatial, t: Option<string>)
  {
    t.None? || sp.fromText(t.value).Some?
  }

  /** Every text one side of a row hands to `ST_GeomFromText` reads: the
      centre's, when the UNNEST yields a row at all, and each light text. */
  predicate SideReads(sp: Spatial, r: SideListsRow, side: Side)
  {
    SideIds(r, side).Some? ==>
      && (|SideIds(r, side).value| + |SideGeoms(r, side)| > 0 && r.geometry.Some? ==>
            TextReads(sp, Some(sp.wkt(r.geometry.value))))
      && (forall k :: 0 <= k < |SideGeoms(r, side)| ==> TextReads(sp, Some(SideGeoms(r, side)[k])))
  }

  predicate AllRead(sp: Spatial, rows: seq<SideListsRow>)
  {
    forall i :: 0 <= i < |rows| ==> SideReads(sp, rows[i], From) && SideReads(sp, rows[i], To)
  }

  /** With readable texts, a line has a geometry exactly when the centre
      and the light text are both present. */
  lemma ReadableLines(sp: Spatial, r: SideListsRow, side: Side, k: nat)
    requires SideReads(sp, r, side) && SideIds(r, side).Some?
    requires k < |RowLines(sp, r, side)|
    ensures RowLines(sp, r, side)[k].geometry.Some? <==> r.geometry.Some? && k < |SideGeoms(r, side)|
  {
    var ids, gs := SideIds(r, side).value, SideGeoms(r, side);
    assert RowLines(sp, r, side)[k].geometry == MakeLine(sp, r.geometry, if k < |gs| then Some(gs[k]) else None);
    if k < |gs| {
      assert TextReads(sp, Some(gs[k]));
    }
  }

  /** CREATE OR REPLACE TABLE: the old rows are discarded; a text that
      `ST_GeomFromText` rejects fails the statement and keeps the old
      table. */
  method MakeLinesFromCrosswalkToStreetlights(t: LinesTable, sp: Spatial, rows: seq<SideListsRow>)
    returns (r: Result<()>)
    modifies t
    ensures r.Err? <==> !AllRead(sp, rows)
    ensures r.Err? ==> r.error == ConversionError && t.rows == old(t.rows)
    ensures r.Ok? ==> t.rows == Lines(sp, rows)
  {
    if !AllRead(sp, rows) {
      return Err(ConversionError);
    }
    t.rows := Lines(sp, rows);
    r := Ok(());
  }
}
