/** The list-based side classification of the GIS predictor
    (contrast_table.py): the texts of a centre's lights are parsed back
    into coordinates, every light is put on the from-side or the to-side
    list by the sign of a cross product relative to the line from centre A
    to centre B, and the lists' sums of 1/d^2 give a two-way label. */
module ContrastTable {
  import opened Sql
  import opened Geometry
  import opened Tables
  import opened Text
  import opened Seqs
  import Contrast

  // ----- get_coords -----

  /** get_coords as written: `Decimal` is never imported, so once both
      str.index calls for '(' and ')' succeed, evaluating the name
      `Decimal` raises NameError. */
  function GetCoordsAsWritten(s: string): Result<Point>
  {
    match IndexOf(s, '(')
    case None => Err(ValueError)
    case Some(_) =>
      match IndexOf(s, ')')
      case None => Err(ValueError)
      case Some(_) => Err(NameError)
  }

  /** As written, get_coords never returns: ValueError without a '(' or a
      ')', NameError otherwise, on a well-formed point text too. */
  lemma GetCoordsAsWrittenFails(s: string)
    ensures GetCoordsAsWritten(s).Err?
    ensures GetCoordsAsWritten(s).error == (if '(' in s && ')' in s then NameError else ValueError)
  {
  }

  /** get_coords with `from decimal import Decimal`: the text between the
      first '(' and the first ')', split at its first space, each half read
      as a decimal. Python's str.index raises ValueError, and Decimal
      raises InvalidOperation (ConversionError here) on a bad number. */
  function GetCoords(s: string): Result<Point>
  {
    match IndexOf(s, '(')
    case None => Err(ValueError)
    case Some(i) =>
      match IndexOf(s, ')')
      case None => Err(ValueError)
      case Some(j) =>
        var inner := Slice(s, i + 1, j);
        match IndexOf(inner, ' ')
        case None => Err(ValueError)
        case Some(k) =>
          match ParseDecimal(inner[..k])
          case None => Err(ConversionError)
          case Some(x) =>
            match ParseDecimal(inner[k + 1..])
            case None => Err(ConversionError)
            case Some(y) => Ok(Point(x, y))
  }

  /** The characters a written decimal is made of. */
  lemma DecimalTextChars(neg: bool, whole: nat, frac: string)
    requires AllDigits(frac)
    ensures forall ch :: ch in DecimalText(neg, whole, frac) ==> IsDigit(ch) || ch == '-' || ch == '.'
  {
    var w := NatText(whole);
    assert forall ch :: ch in w ==> IsDigit(ch) by {
      forall ch | ch in w ensures IsDigit(ch) {
        var k :| 0 <= k < |w| && w[k] == ch;
      }
    }
    assert forall ch :: ch in frac ==> IsDigit(ch) by {
      forall ch | ch in frac ensures IsDigit(ch) {
        var k :| 0 <= k < |frac| && frac[k] == ch;
      }
    }
  }

  /** The text ST_AsText writes for a point with these decimal
      coordinates. */
  function PointText(xt: string, yt: string): string
  {
    "POINT (" + xt + " " + yt + ")"
  }

  /** The first '(' of `POINT (x y)` is the one before x. */
  lemma PointTextOpen(xt: string, yt: string)
    ensures IndexOf(PointText(xt, yt), '(') == Some(6)
  {
    var head := "POINT ";
    assert PointText(xt, yt) == head + ['('] + (xt + " " + yt + ")");
    assert '(' !in head;
    IndexOfPrefix(head, '(', xt + " " + yt + ")");
  }

  /** Its first ')' is the last character when no coordinate text holds
      one. */
  lemma PointTextClose(xt: string, yt: string)
    requires ')' !in xt && ')' !in yt
    ensures IndexOf(PointText(xt, yt), ')') == Some(|PointText(xt, yt)| - 1)
  {
    var open := "POINT (" + xt + " " + yt;
    assert PointText(xt, yt) == open + [')'] + [];
    assert forall k :: 0 <= k < |open| ==> open[k] != ')' by {
      forall k | 0 <= k < |open| ensures open[k] != ')' {
        if k < 7 {
        } else if k < 7 + |xt| {
          assert open[k] == xt[k - 7];
        } else if k > 7 + |xt| {
          assert open[k] == yt[k - 8 - |xt|];
        }
      }
    }
    IndexOfPrefix(open, ')', []);
  }

  /** And between them stand the two coordinate texts and a space. */
  lemma PointTextInner(xt: string, yt: string)
    ensures Slice(PointText(xt, yt), 7, |PointText(xt, yt)| - 1) == xt + " " + yt
  {
    var s := PointText(xt, yt);
    assert s[7..|s| - 1] == xt + " " + yt;
  }

  /** get_coords of `POINT (x y)` reads x and y, when neither coordinate
      text holds a parenthesis or a space. */
  lemma PointTextCoords(xt: string, yt: string)
    requires ')' !in xt && ' ' !in xt && ')' !in yt
    requires ParseDecimal(xt).Some? && ParseDecimal(yt).Some?
    ensures GetCoords(PointText(xt, yt)) == Ok(Point(ParseDecimal(xt).value, ParseDecimal(yt).value))
  {
    PointTextOpen(xt, yt);
    PointTextClose(xt, yt);
    PointTextInner(xt, yt);
    var inner := xt + " " + yt;
    assert inner == xt + [' '] + yt;
    IndexOfPrefix(xt, ' ', yt);
    assert inner[..|xt|] == xt && inner[|xt| + 1..] == yt;
  }

  /** get_coords reads back the coordinates of `POINT (x y)`. */
  lemma GetCoordsRoundTrip(xn: bool, xw: nat, xf: string, yn: bool, yw: nat, yf: string)
    requires AllDigits(xf) && AllDigits(yf)
    ensures GetCoords(PointText(DecimalText(xn, xw, xf), DecimalText(yn, yw, yf)))
         == Ok(Point(DecimalValue(xn, xw, xf), DecimalValue(yn, yw, yf)))
  {
    DecimalTextChars(xn, xw, xf);
    DecimalTextChars(yn, yw, yf);
    DecimalRoundTrip(xn, xw, xf);
    DecimalRoundTrip(yn, yw, yf);
    PointTextCoords(DecimalText(xn, xw, xf), DecimalText(yn, yw, yf));
  }

  /** get_coords on a column value: None has no `index` method. */
  function GetCoordsOf(t: Option<string>): Result<Point>
  {
    if t.None? then Err(AttributeError) else GetCoords(t.value)
  }

  // ----- the side of a light -----

  /** `(p_x - A_x) * (B_y - A_y) - (p_y - A_y) * (B_x - A_x)`. */
  function Direction(p: Point, a: Point, b: Point): real
  {
    (p.x - a.x) * (b.y - a.y) - (p.y - a.y) * (b.x - a.x)
  }

  /** `(direction_light > 0) == (direction_from > 0)`: the light joins the
      from-side lists. A zero direction counts as not positive. */
  predicate OnFromSide(l: Point, a: Point, b: Point, f: Point)
  {
    (Direction(l, a, b) > 0.0) == (Direction(f, a, b) > 0.0)
  }

  /** The direction is the cross product of A-to-B with A-to-p, negated. */
  lemma DirectionIsCross(p: Point, a: Point, b: Point)
    ensures Direction(p, a, b) == -Cross(Vector(a, b), Vector(a, p))
  {
  }

  /** Where the two generations' side rules agree: for a centre on the
      A-B line, a from_coord and a to_coord strictly on opposite sides of
      it, and a light off the line, the light is on contrast.py's 'from'
      side exactly when this rule puts it on the from-side list. */
  lemma SideRulesAgree(a: Point, b: Point, c: Point, f: Point, t: Point, l: Point)
    requires Direction(c, a, b) == 0.0
    requires (Direction(f, a, b) > 0.0 && Direction(t, a, b) < 0.0) || (Direction(f, a, b) < 0.0 && Direction(t, a, b) > 0.0)
    requires Direction(l, a, b) != 0.0
    ensures Contrast.SideOf(Some(Segment(a, b)), Some(Segment(f, t)), Some(Segment(c, l))) == From
        <==> OnFromSide(l, a, b, f)
  {
    var u := Vector(a, b);
    CrossOfDifference(u, a, c, l);
    CrossOfDifference(u, a, f, t);
    DirectionIsCross(c, a, b);
    DirectionIsCross(l, a, b);
    DirectionIsCross(f, a, b);
    DirectionIsCross(t, a, b);
  }

  /** `u x (q - p)` is `u x (q - o) - u x (p - o)`. */
  lemma CrossOfDifference(u: Point, o: Point, p: Point, q: Point)
    ensures Cross(u, Vector(p, q)) == Cross(u, Vector(o, q)) - Cross(u, Vector(o, p))
  {
  }

  /** A light on the A-B line goes to the from-side lists exactly when
      from_coord is not strictly on the positive side. */
  lemma LightOnLine(l: Point, a: Point, b: Point, f: Point)
    requires Direction(l, a, b) == 0.0
    ensures OnFromSide(l, a, b, f) <==> Direction(f, a, b) <= 0.0
  {
  }

  // ----- the inner loop: splitting one centre's lights -----

  /** The six lists one centre gets. */
  datatype SideLists = SideLists(
    fromIds: seq<int>, fromDists: seq<real>, fromGeoms: seq<string>,
    toIds: seq<int>, toDists: seq<real>, toGeoms: seq<string>)

  /** The centre coordinates A and B the loop keeps between rows. */
  datatype Centres = Centres(a: Point, b: Point)

  /** The lists after the first n lights, or the exception the loop raises
      at the first light it cannot read: `light_ids[i]` on None is a
      TypeError and past the end an IndexError, and likewise for
      `light_dists[i]`. */
  function SplitUpTo(coords: seq<Point>, ids: Option<seq<int>>, dists: Option<seq<real>>, geoms: seq<string>,
                     ab: Centres, f: Point, n: nat): Result<SideLists>
    requires n <= |coords| && |coords| == |geoms|
  {
    if n == 0 then Ok(SideLists([], [], [], [], [], []))
    else
      match SplitUpTo(coords, ids, dists, geoms, ab, f, n - 1)
      case Err(e) => Err(e)
      case Ok(acc) =>
        var k := n - 1;
        if ids.None? then Err(TypeError)
        else if k >= |ids.value| then Err(IndexError)
        else if dists.None? then Err(TypeError)
        else if k >= |dists.value| then Err(IndexError)
        else if OnFromSide(coords[k], ab.a, ab.b, f) then
          Ok(acc.(fromIds := acc.fromIds + [ids.value[k]], fromDists := acc.fromDists + [dists.value[k]],
                  fromGeoms := acc.fromGeoms + [geoms[k]]))
        else
          Ok(acc.(toIds := acc.toIds + [ids.value[k]], toDists := acc.toDists + [dists.value[k]],
                  toGeoms := acc.toGeoms + [geoms[k]]))
  }

  /** The positions among the first n lights whose side is `fromSide`
      (true for the from-side), in increasing order. */
  function SideIndices(coords: seq<Point>, ab: Centres, f: Point, n: nat, fromSide: bool): seq<nat>
    requires n <= |coords|
  {
    if n == 0 then []
    else
      SideIndices(coords, ab, f, n - 1, fromSide)
      + (if OnFromSide(coords[n - 1], ab.a, ab.b, f) == fromSide then [n - 1] else [])
  }

  /** Each side's indices are below n and increasing. */
  lemma {:induction false} SideIndicesOrdered(coords: seq<Point>, ab: Centres, f: Point, n: nat, fromSide: bool)
    requires n <= |coords|
    ensures forall k :: k in SideIndices(coords, ab, f, n, fromSide) ==> k < n
    ensures forall i, j :: 0 <= i < j < |SideIndices(coords, ab, f, n, fromSide)| ==>
      SideIndices(coords, ab, f, n, fromSide)[i] < SideIndices(coords, ab, f, n, fromSide)[j]
  {
    if n > 0 {
      SideIndicesOrdered(coords, ab, f, n - 1, fromSide);
      var prev := SideIndices(coords, ab, f, n - 1, fromSide);
      var last: seq<nat> := if OnFromSide(coords[n - 1], ab.a, ab.b, f) == fromSide then [n - 1] else [];
      var si := SideIndices(coords, ab, f, n, fromSide);
      assert si == prev + last;
      forall k | k in si ensures k < n {
        if k !in prev {
          assert k in last;
        }
      }
      forall i, j | 0 <= i < j < |si| ensures si[i] < si[j] {
        if j >= |prev| {
          assert si[j] == n - 1;
          assert si[i] == prev[i] && prev[i] in prev;
        }
      }
    }
  }

  /** A position is among a side's indices exactly when the light there is
      on that side. */
  lemma {:induction false} SideIndicesMembers(coords: seq<Point>, ab: Centres, f: Point, n: nat, fromSide: bool)
    requires n <= |coords|
    ensures forall k :: 0 <= k < n ==>
      (k in SideIndices(coords, ab, f, n, fromSide) <==> OnFromSide(coords[k], ab.a, ab.b, f) == fromSide)
  {
    if n > 0 {
      SideIndicesMembers(coords, ab, f, n - 1, fromSide);
      SideIndicesOrdered(coords, ab, f, n - 1, fromSide);
      var prev := SideIndices(coords, ab, f, n - 1, fromSide);
      var last: seq<nat> := if OnFromSide(coords[n - 1], ab.a, ab.b, f) == fromSide then [n - 1] else [];
      var si := SideIndices(coords, ab, f, n, fromSide);
      assert si == prev + last;
      forall k | 0 <= k < n
        ensures k in si <==> OnFromSide(coords[k], ab.a, ab.b, f) == fromSide
      {
        if k < n - 1 {
          assert k !in last;
        } else {
          assert k !in prev;
        }
      }
    }
  }

  /** Every light is on exactly one side: the two counts add up to n. */
  lemma {:induction false} SideIndicesCount(coords: seq<Point>, ab: Centres, f: Point, n: nat)
    requires n <= |coords|
    ensures |SideIndices(coords, ab, f, n, true)| + |SideIndices(coords, ab, f, n, false)| == n
  {
    if n > 0 {
      SideIndicesCount(coords, ab, f, n - 1);
    }
  }

  /** `xs` is the elements of `src` at the positions `idx`, in that order. */
  ghost predicate Picked<T>(xs: seq<T>, idx: seq<nat>, src: seq<T>)
  {
    |xs| == |idx| && forall j :: 0 <= j < |idx| ==> idx[j] < |src| && xs[j] == src[idx[j]]
  }

  /** When the split succeeds, each list is the light values at that
      side's positions: the id, distance and text of a light stay together
      at one index, and input order is kept. */
  lemma {:induction false} SplitByIndices(coords: seq<Point>, ids: Option<seq<int>>, dists: Option<seq<real>>,
                                          geoms: seq<string>, ab: Centres, f: Point, n: nat)
    requires n <= |coords| && |coords| == |geoms|
    requires SplitUpTo(coords, ids, dists, geoms, ab, f, n).Ok?
    ensures ids.Some? || n == 0
    ensures ids.Some? ==> n <= |ids.value|
    ensures dists.Some? || n == 0
    ensures dists.Some? ==> n <= |dists.value|
    ensures ids.Some? && dists.Some? ==>
      && Picked(SplitUpTo(coords, ids, dists, geoms, ab, f, n).value.fromIds, SideIndices(coords, ab, f, n, true), ids.value)
      && Picked(SplitUpTo(coords, ids, dists, geoms, ab, f, n).value.fromDists, SideIndices(coords, ab, f, n, true), dists.value)
      && Picked(SplitUpTo(coords, ids, dists, geoms, ab, f, n).value.fromGeoms, SideIndices(coords, ab, f, n, true), geoms)
      && Picked(SplitUpTo(coords, ids, dists, geoms, ab, f, n).value.toIds, SideIndices(coords, ab, f, n, false), ids.value)
      && Picked(SplitUpTo(coords, ids, dists, geoms, ab, f, n).value.toDists, SideIndices(coords, ab, f, n, false), dists.value)
      && Picked(SplitUpTo(coords, ids, dists, geoms, ab, f, n).value.toGeoms, SideIndices(coords, ab, f, n, false), geoms)
  {
    if n > 0 {
      var k := n - 1;
      assert SplitUpTo(coords, ids, dists, geoms, ab, f, k).Ok?;
      SplitByIndices(coords, ids, dists, geoms, ab, f, k);
      if ids.Some? && dists.Some? {
        var acc := SplitUpTo(coords, ids, dists, geoms, ab, f, k).value;
        var out := SplitUpTo(coords, ids, dists, geoms, ab, f, n).value;
        var sf, st := SideIndices(coords, ab, f, k, true), SideIndices(coords, ab, f, k, false);
        if OnFromSide(coords[k], ab.a, ab.b, f) {
          assert SideIndices(coords, ab, f, n, true) == sf + [k];
          assert SideIndices(coords, ab, f, n, false) == st;
          assert out == acc.(fromIds := acc.fromIds + [ids.value[k]], fromDists := acc.fromDists + [dists.value[k]],
                             fromGeoms := acc.fromGeoms + [geoms[k]]);
          PickedAppend(acc.fromIds, sf, ids.value, k);
          PickedAppend(acc.fromDists, sf, dists.value, k);
          PickedAppend(acc.fromGeoms, sf, geoms, k);
        } else {
          assert SideIndices(coords, ab, f, n, true) == sf;
          assert SideIndices(coords, ab, f, n, false) == st + [k];
          assert out == acc.(toIds := acc.toIds + [ids.value[k]], toDists := acc.toDists + [dists.value[k]],
                             toGeoms := acc.toGeoms + [geoms[k]]);
          PickedAppend(acc.toIds, st, ids.value, k);
          PickedAppend(acc.toDists, st, dists.value, k);
          PickedAppend(acc.toGeoms, st, geoms, k);
        }
      }
    }
  }

  /** Appending the element at position k keeps a picked list picked. */
  lemma PickedAppend<T>(xs: seq<T>, idx: seq<nat>, src: seq<T>, k: nat)
    requires Picked(xs, idx, src) && k < |src|
    ensures Picked(xs + [src[k]], idx + [k], src)
  {
    var xs', idx' := xs + [src[k]], idx + [k];
    forall j | 0 <= j < |idx'| ensures idx'[j] < |src| && xs'[j] == src[idx'[j]] {
      if j < |idx| {
        assert idx'[j] == idx[j] && xs'[j] == xs[j];
      }
    }
  }

  /** Without a dists list or an ids list the first light raises
      TypeError; with lists shorter than the texts, IndexError. */
  lemma {:induction false} SplitErrors(coords: seq<Point>, ids: Option<seq<int>>, dists: Option<seq<real>>,
                                       geoms: seq<string>, ab: Centres, f: Point, n: nat)
    requires n <= |coords| && |coords| == |geoms|
    ensures SplitUpTo(coords, ids, dists, geoms, ab, f, n).Err? <==>
      n > 0 && (ids.None? || dists.None? || |ids.value| < n || |dists.value| < n)
  {
    if n > 0 {
      SplitErrors(coords, ids, dists, geoms, ab, f, n - 1);
    }
  }

  /** Once a light raises, so does the whole loop, with that exception. */
  lemma {:induction false} SplitErrorPersists(coords: seq<Point>, ids: Option<seq<int>>, dists: Option<seq<real>>,
                                              geoms: seq<string>, ab: Centres, f: Point, n: nat, m: nat)
    requires n <= m <= |coords| && |coords| == |geoms|
    requires SplitUpTo(coords, ids, dists, geoms, ab, f, n).Err?
    ensures SplitUpTo(coords, ids, dists, geoms, ab, f, m) == SplitUpTo(coords, ids, dists, geoms, ab, f, n)
    decreases m - n
  {
    if n < m {
      SplitErrorPersists(coords, ids, dists, geoms, ab, f, n, m - 1);
    }
  }

  /** `for i, _ in enumerate(light_geoms)`: the six lists are appended to
      light by light. */
  method PartitionLights(coords: seq<Point>, ids: Option<seq<int>>, dists: Option<seq<real>>, geoms: seq<string>,
                         ab: Centres, f: Point) returns (r: Result<SideLists>)
    requires |coords| == |geoms|
    ensures r == SplitUpTo(coords, ids, dists, geoms, ab, f, |coords|)
  {
    var fromIds: seq<int>, fromDists: seq<real>, fromGeoms: seq<string> := [], [], [];
    var toIds: seq<int>, toDists: seq<real>, toGeoms: seq<string> := [], [], [];
    var i := 0;
    while i < |coords|
      invariant 0 <= i <= |coords|
      invariant SplitUpTo(coords, ids, dists, geoms, ab, f, i)
             == Ok(SideLists(fromIds, fromDists, fromGeoms, toIds, toDists, toGeoms))
    {
      if ids.None? || i >= |ids.value| || dists.None? || i >= |dists.value| {
        r := SplitUpTo(coords, ids, dists, geoms, ab, f, i + 1);
        SplitErrorPersists(coords, ids, dists, geoms, ab, f, i + 1, |coords|);
        return;
      }
      if OnFromSide(coords[i], ab.a, ab.b, f) {
        fromIds, fromDists, fromGeoms := fromIds + [ids.value[i]], fromDists + [dists.value[i]], fromGeoms + [geoms[i]];
      } else {
        toIds, toDists, toGeoms := toIds + [ids.value[i]], toDists + [dists.value[i]], toGeoms + [geoms[i]];
      }
      i := i + 1;
    }
    r := Ok(SideLists(fromIds, fromDists, fromGeoms, toIds, toDists, toGeoms));
  }

  // ----- classify_lights_table -----

  /** A stored from_coord / to_coord value, as the text Python fetches. */
  function CoordText(sp: Spatial, c: Coord): Option<string>
  {
    match c
    case NullCoord => None
    case Undefined => Some("undefined")
    case Vertex(p) => Some(sp.wkt(p))
  }

  /** `SELECT geometry ... WHERE crosswalk_id = ? AND center_id = ?`: None
      for no rows, otherwise the first row's geometry text (itself
      possibly NULL). */
  function FirstCentreText(sp: Spatial, all: seq<LightsRow>, id: int, name: string): Option<Option<string>>
  {
    if all == [] then None
    else if all[0].center.crosswalkId == id && all[0].center.centerId == Some(name)
    then Some(TextOf(sp, all[0].center.geometry))
    else FirstCentreText(sp, all[1..], id, name)
  }

  /** A list comprehension that parses every text: it raises at the first
      one `parse` rejects. */
  function ParseEach<T>(parse: string -> Result<T>, ts: seq<string>): (r: Result<seq<T>>)
    ensures r.Ok? ==> |r.value| == |ts|
  {
    if ts == [] then Ok([])
    else
      match parse(ts[0])
      case Err(e) => Err(e)
      case Ok(p) =>
        match ParseEach(parse, ts[1..])
        case Err(e) => Err(e)
        case Ok(ps) => Ok([p] + ps)
  }

  /** The comprehension succeeds exactly when every text parses, and then
      element k is the parse of text k. */
  lemma {:induction false} ParseEachMeaning<T>(parse: string -> Result<T>, ts: seq<string>)
    ensures ParseEach(parse, ts).Ok? <==> forall k :: 0 <= k < |ts| ==> parse(ts[k]).Ok?
    ensures ParseEach(parse, ts).Ok? ==> forall k :: 0 <= k < |ts| ==> parse(ts[k]).value == ParseEach(parse, ts).value[k]
  {
    if ts != [] {
      ParseEachMeaning(parse, ts[1..]);
      assert forall k :: 1 <= k < |ts| ==> ts[k] == ts[1..][k - 1];
      if parse(ts[0]).Ok? && ParseEach(parse, ts[1..]).Ok? {
        var r := ParseEach(parse, ts).value;
        assert r == [parse(ts[0]).value] + ParseEach(parse, ts[1..]).value;
        assert forall k :: 1 <= k < |ts| ==> r[k] == ParseEach(parse, ts[1..]).value[k - 1];
      }
    }
  }

  /** `[get_coords(g) for g in light_geoms]`. */
  function ParseAll(ts: seq<string>): Result<seq<Point>>
  {
    ParseEach(GetCoords, ts)
  }

  /** Parsing the light texts succeeds exactly when every text reads as a
      point, and then point k is the reading of text k. */
  lemma ParseAllMeaning(ts: seq<string>)
    ensures ParseAll(ts).Ok? <==> forall k :: 0 <= k < |ts| ==> GetCoords(ts[k]).Ok?
    ensures ParseAll(ts).Ok? ==> |ParseAll(ts).value| == |ts|
    ensures ParseAll(ts).Ok? ==> forall k :: 0 <= k < |ts| ==> GetCoords(ts[k]).value == ParseAll(ts).value[k]
  {
    ParseEachMeaning(GetCoords, ts);
  }

  /** The A and B coordinates for this row: re-read when both centres
      exist, otherwise the ones of an earlier row. */
  function NextCentres(sp: Spatial, all: seq<LightsRow>, id: int, prev: Option<Centres>): Result<Option<Centres>>
  {
    var ta, tb := FirstCentreText(sp, all, id, "A"), FirstCentreText(sp, all, id, "B");
    if ta.Some? && tb.Some? then
      match GetCoordsOf(ta.value)
      case Err(e) => Err(e)
      case Ok(a) =>
        match GetCoordsOf(tb.value)
        case Err(e) => Err(e)
        case Ok(b) => Ok(Some(Centres(a, b)))
    else Ok(prev)
  }

  /** What one iteration does: the centre text to UPDATE and its lists
      (None for a skipped row), and the A/B coordinates for the next row. */
  datatype Step = Step(update: Option<(Option<string>, SideLists)>, centres: Option<Centres>)

  function RowStep(sp: Spatial, all: seq<LightsRow>, r: LightsRow, prev: Option<Centres>): Result<Step>
  {
    if r.streetlightGeom.None? then Ok(Step(None, prev))
    else
      var pieces := Split(r.streetlightGeom.value, ',');
      match ParseAll(pieces)
      case Err(e) => Err(e)
      case Ok(coords) =>
        match GetCoordsOf(CoordText(sp, r.center.fromCoord))
        case Err(e) => Err(e)
        case Ok(f) =>
          match NextCentres(sp, all, r.center.crosswalkId, prev)
          case Err(e) => Err(e)
          case Ok(None) => Err(NameError)
          case Ok(Some(ab)) =>
            match SplitUpTo(coords, r.streetlightIds, r.streetlightDists, pieces, ab, f, |coords|)
            case Err(e) => Err(e)
            case Ok(lists) => Ok(Step(Some((TextOf(sp, r.center.geometry), lists)), Some(ab)))
  }

  /** `UPDATE ... WHERE geometry = ?`: every row with that geometry text;
      a NULL centre text matches nothing. */
  function WithLists(sp: Spatial, row: SideListsRow, centre: Option<string>, l: SideLists): SideListsRow
  {
    if centre.Some? && TextOf(sp, row.geometry) == centre
    then row.(fromIds := Some(l.fromIds), fromDists := Some(l.fromDists), fromGeoms := Some(l.fromGeoms),
              toIds := Some(l.toIds), toDists := Some(l.toDists), toGeoms := Some(l.toGeoms))
    else row
  }

  function ApplyUpdate(sp: Spatial, rows: seq<SideListsRow>, u: Option<(Option<string>, SideLists)>): (r: seq<SideListsRow>)
    ensures |r| == |rows|
    ensures u.None? ==> r == rows
    ensures u.Some? ==> forall i :: 0 <= i < |rows| ==>
      if u.value.0.Some? && TextOf(sp, rows[i].geometry) == u.value.0
      then var l := u.value.1;
        r[i] == rows[i].(fromIds := Some(l.fromIds), fromDists := Some(l.fromDists), fromGeoms := Some(l.fromGeoms),
                         toIds := Some(l.toIds), toDists := Some(l.toDists), toGeoms := Some(l.toGeoms))
      else r[i] == rows[i]
  {
    if u.None? then rows
    else seq(|rows|, i requires 0 <= i < |rows| => WithLists(sp, rows[i], u.value.0, u.value.1))
  }

  /** The rest of the loop from row k: the outcome and the table. An
      exception ends the loop; the UPDATEs already issued stay. */
  function Run(sp: Spatial, all: seq<LightsRow>, k: nat, prev: Option<Centres>, rows: seq<SideListsRow>)
    : (Result<()>, seq<SideListsRow>)
    requires k <= |all|
    decreases |all| - k
  {
    if k == |all| then (Ok(()), rows)
    else
      match RowStep(sp, all, all[k], prev)
      case Err(e) => (Err(e), rows)
      case Ok(step) => Run(sp, all, k + 1, step.centres, ApplyUpdate(sp, rows, step.update))
  }

  /** A row without streetlight_geom is skipped: nothing is updated and the
      A/B coordinates carry over. */
  lemma SkippedRow(sp: Spatial, all: seq<LightsRow>, k: nat, prev: Option<Centres>, rows: seq<SideListsRow>)
    requires k < |all| && all[k].streetlightGeom.None?
    ensures Run(sp, all, k, prev, rows) == Run(sp, all, k + 1, prev, rows)
  {
  }

  /** On the first row that reaches the light loop, a crosswalk without
      both an A and a B centre raises NameError: the coordinates were never
      assigned. */
  lemma MissingCentresFirst(sp: Spatial, all: seq<LightsRow>, r: LightsRow)
    requires r.streetlightGeom.Some?
    requires FirstCentreText(sp, all, r.center.crosswalkId, "A").None?
    requires ParseAll(Split(r.streetlightGeom.value, ',')).Ok?
    requires GetCoordsOf(CoordText(sp, r.center.fromCoord)).Ok?
    ensures RowStep(sp, all, r, None) == Err(NameError)
  {
  }

  /** With A or B missing, a later row reuses the coordinates of the last
      row that had both. */
  lemma MissingCentresReused(sp: Spatial, all: seq<LightsRow>, r: LightsRow, prev: Centres)
    requires FirstCentreText(sp, all, r.center.crosswalkId, "B").None?
    requires RowStep(sp, all, r, Some(prev)).Ok? && r.streetlightGeom.Some?
    ensures RowStep(sp, all, r, Some(prev)).value.centres == Some(prev)
  {
    assert NextCentres(sp, all, r.center.crosswalkId, Some(prev)) == Ok(Some(prev));
  }

  /** A 'undefined' from_coord has no '(' and raises ValueError; a NULL
      one raises AttributeError. */
  lemma BadFromCoord(sp: Spatial, all: seq<LightsRow>, r: LightsRow, prev: Option<Centres>)
    requires r.streetlightGeom.Some? && ParseAll(Split(r.streetlightGeom.value, ',')).Ok?
    requires r.center.fromCoord.Undefined? || r.center.fromCoord.NullCoord?
    ensures RowStep(sp, all, r, prev) == Err(if r.center.fromCoord.Undefined? then ValueError else AttributeError)
  {
    assert '(' !in "undefined";
  }

  /** One iteration of the loop in classify_lights_table. */
  method ClassifyRow(sp: Spatial, all: seq<LightsRow>, row: LightsRow, prev: Option<Centres>) returns (s: Result<Step>)
    ensures s == RowStep(sp, all, row, prev)
  {
    if row.streetlightGeom.None? {
      return Ok(Step(None, prev));
    }
    var pieces := Split(row.streetlightGeom.value, ',');
    var coords := ParseAll(pieces);
    if coords.Err? {
      return Err(coords.error);
    }
    var f := GetCoordsOf(CoordText(sp, row.center.fromCoord));
    if f.Err? {
      return Err(f.error);
    }
    var ab := NextCentres(sp, all, row.center.crosswalkId, prev);
    if ab.Err? {
      return Err(ab.error);
    }
    if ab.value.None? {
      return Err(NameError);
    }
    var lists := PartitionLights(coords.value, row.streetlightIds, row.streetlightDists, pieces, ab.value.value, f.value);
    if lists.Err? {
      return Err(lists.error);
    }
    s := Ok(Step(Some((TextOf(sp, row.center.geometry), lists.value)), ab.value));
  }

  /** classify_lights_table, after the CREATE and ALTER statements: the
      loop over a snapshot of crosswalk_centers_lights. */
  method ClassifyLightsTable(t: SideListsTable, sp: Spatial, all: seq<LightsRow>) returns (r: Result<()>)
    modifies t
    ensures (r, t.rows) == Run(sp, all, 0, None, old(t.rows))
    ensures t.created == old(t.created)
  {
    var prev: Option<Centres> := None;
    var k := 0;
    while k < |all|
      invariant 0 <= k <= |all|
      invariant t.created == old(t.created)
      invariant Run(sp, all, 0, None, old(t.rows)) == Run(sp, all, k, prev, t.rows)
    {
      var step := ClassifyRow(sp, all, all[k], prev);
      if step.Err? {
        return Err(step.error);
      }
      t.rows := ApplyUpdate(sp, t.rows, step.value.update);
      prev := step.value.centres;
      k := k + 1;
    }
    r := Ok(());
  }

  /** A new crosswalk_centers_classified_lights row. */
  function NewSideListsRow(r: LightsRow): SideListsRow
  {
    SideListsRow(r.center.crosswalkId, r.center.geometry, r.center.centerId,
                 None, None, None, None, None, None, None, None, None)
  }

  /** CREATE TABLE IF NOT EXISTS and the ADD COLUMN IF NOT EXISTS
      statements: an existing table keeps its rows. */
  method CreateSideListsTable(t: SideListsTable, all: seq<LightsRow>)
    modifies t
    ensures t.created
    ensures old(t.created) ==> t.rows == old(t.rows)
    ensures !old(t.created) ==> t.rows == seq(|all|, i requires 0 <= i < |all| => NewSideListsRow(all[i]))
  {
    if !t.created {
      t.rows := seq(|all|, i requires 0 <= i < |all| => NewSideListsRow(all[i]));
      t.created := true;
    }
  }

  // ----- contrast_table -----

  /** `SELECT SUM(1.0 / (d.value * d.value)) FROM UNNEST(list)`: NULL for a
      NULL or empty list. */
  function ListHeuristic(ds: Option<seq<real>>): Option<real>
  {
    if ds.None? then None
    else Sum(seq(|ds.value|, k requires 0 <= k < |ds.value| => InvSquare(Some(ds.value[k]))))
  }

  /** The sum over no distance is NULL, not 0. */
  lemma EmptyListHeuristic()
    ensures ListHeuristic(Some([])) == None && ListHeuristic(None) == None
  {
  }

  /** The label: from greater is positive, smaller is negative, and
      equal or NULL heuristics give NULL. */
  function TwoWayContrast(from: Option<real>, to: Option<real>): Option<ContrastLabel>
  {
    if from.Some? && to.Some? && from.value > to.value then Some(PositiveContrast)
    else if from.Some? && to.Some? && from.value < to.value then Some(NegativeContrast)
    else None
  }

  /** The label is NULL exactly when a heuristic is NULL (in particular when
      a side list is empty) or the two are equal, and it never says
      'no contrast'. */
  lemma TwoWayContrastMeaning(from: Option<real>, to: Option<real>)
    ensures TwoWayContrast(from, to).None? <==> from.None? || to.None? || from.value == to.value
    ensures TwoWayContrast(from, to) != Some(NoContrast)
    ensures TwoWayContrast(from, to) == Some(PositiveContrast) <==> TwoWayContrast(to, from) == Some(NegativeContrast)
  {
  }

  /** The row after both UPDATEs of contrast_table: the label reads the
      heuristics the first UPDATE wrote. */
  function WithHeuristics(r: SideListsRow): SideListsRow
  {
    var f, t := ListHeuristic(r.fromDists), ListHeuristic(r.toDists);
    r.(fromHeuristic := f, toHeuristic := t, contrast := TwoWayContrast(f, t))
  }

  /** Running contrast_table twice gives the same table: it reads only the
      distance lists. */
  lemma WithHeuristicsIdempotent(r: SideListsRow)
    ensures WithHeuristics(WithHeuristics(r)) == WithHeuristics(r)
  {
  }

  /** A centre with an empty side list gets no label. */
  lemma EmptySideNoLabel(r: SideListsRow)
    requires r.fromDists == Some([]) || r.toDists == Some([])
    ensures WithHeuristics(r).contrast.None?
  {
  }

  method ContrastTableUpdate(t: SideListsTable)
    modifies t
    ensures |t.rows| == |old(t.rows)|
    ensures forall i :: 0 <= i < |t.rows| ==> t.rows[i] == WithHeuristics(old(t.rows)[i])
  {
    var rows := t.rows;
    t.rows := seq(|rows|, i requires 0 <= i < |rows| => WithHeuristics(rows[i]));
  }

  // ----- lights_geom -----

  /** The streetlights whose OBJECTID is `id`, in table order. */
  function LightsWithId(lights: seq<Streetlight>, id: int): (r: seq<Streetlight>)
    ensures forall l :: l in r <==> l in lights && l.id == id
  {
    if lights == [] then []
    else (if lights[0].id == id then [lights[0]] else []) + LightsWithId(lights[1..], id)
  }

  /** The texts STRING_AGG joins: for each id of the list, the geometry
      text of every light with that id. */
  function LightTexts(sp: Spatial, ids: seq<int>, lights: seq<Streetlight>): seq<string>
  {
    if ids == [] then []
    else
      var ls := LightsWithId(lights, ids[0]);
      seq(|ls|, k requires 0 <= k < |ls| => sp.wkt(ls[k].geometry)) + LightTexts(sp, ids[1..], lights)
  }

  /** The subquery: NULL when no light joins. */
  function LightsGeom(sp: Spatial, ids: Option<seq<int>>, lights: seq<Streetlight>): Option<string>
  {
    if ids.None? then None
    else
      var ts := LightTexts(sp, ids.value, lights);
      if ts == [] then None else Some(Join(ts, ','))
  }

  /** When every id names exactly one streetlight, the texts are one per
      id, in list order. */
  lemma {:induction false} LightTextsAligned(sp: Spatial, ids: seq<int>, lights: seq<Streetlight>)
    requires forall k :: 0 <= k < |ids| ==> |LightsWithId(lights, ids[k])| == 1
    ensures |LightTexts(sp, ids, lights)| == |ids|
    ensures forall k :: 0 <= k < |ids| ==> LightTexts(sp, ids, lights)[k] == sp.wkt(LightsWithId(lights, ids[k])[0].geometry)
  {
    if ids != [] {
      assert forall k :: 1 <= k < |ids| ==> ids[k] == ids[1..][k - 1];
      LightTextsAligned(sp, ids[1..], lights);
    }
  }

  /** The light texts come back from the stored column by splitting at the
      commas, provided no text contains one; so the loop of
      classify_lights_table sees one piece per joined light. */
  lemma LightsGeomSplit(sp: Spatial, ids: seq<int>, lights: seq<Streetlight>)
    requires LightTexts(sp, ids, lights) != []
    requires forall k :: 0 <= k < |LightTexts(sp, ids, lights)| ==> ',' !in LightTexts(sp, ids, lights)[k]
    ensures LightsGeom(sp, Some(ids), lights).Some?
    ensures Split(LightsGeom(sp, Some(ids), lights).value, ',') == LightTexts(sp, ids, lights)
  {
    SplitJoin(LightTexts(sp, ids, lights), ',');
  }

  /** lights_geom: ADD COLUMN IF NOT EXISTS, then every row's
      streetlight_geom is set; nothing else changes. */
  method LightsGeomUpdate(t: CenterLightsTable, sp: Spatial, lights: seq<Streetlight>)
    modifies t
    ensures t.created == old(t.created) && |t.rows| == |old(t.rows)|
    ensures forall i :: 0 <= i < |t.rows| ==>
      t.rows[i] == old(t.rows)[i].(streetlightGeom := LightsGeom(sp, old(t.rows)[i].streetlightIds, lights))
  {
    var rows := t.rows;
    t.rows := seq(|rows|, i requires 0 <= i < |rows| => rows[i].(streetlightGeom := LightsGeom(sp, rows[i].streetlightIds, lights)));
  }
}
