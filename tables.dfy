/** The tables of the pipeline's database. A table that some stage builds
    whole (CREATE ... AS SELECT) is a sequence of row values; a table that a
    stage changes in place (ALTER TABLE, UPDATE) is a class holding its rows
    in a field, which the stage's method reassigns.

    A column that a stage adds with ADD COLUMN is NULL in every row until an
    UPDATE writes it, so a column that does not exist yet is represented by
    None in every row. A flag records existence only where a stage's
    behaviour depends on it. */
module Tables {
  import opened Sql
  import opened Geometry

  /** `crosswalks`: OBJECTID and the rings of ST_Dump(ST_Boundary(polygon)). */
  datatype Crosswalk = Crosswalk(id: int, rings: seq<Line>)

  /** `street_segments`: OBJECTID and the street's LINESTRING. */
  datatype Street = Street(id: int, geometry: Line)

  /** `crosswalk_segments`: one edge of a crosswalk boundary ring.
      `streetSegmentId` and `isOneway` are written by a stage that is not
      part of this model and are inputs here. */
  datatype EdgeRow = EdgeRow(
    crosswalkId: int,
    edgeId: int,
    geometry: Segment,
    isVehicleEdge: Option<bool>,
    streetSegmentId: Option<int>,
    isOneway: Option<bool>)

  class SegmentsTable {
    var rows: seq<EdgeRow>
    /** Whether the is_vehicle_edge column has been added. */
    var hasVehicleEdge: bool
  }

  /** A from_coord / to_coord value: NULL, the text 'undefined', or the
      ST_AsText of a pedestrian-edge vertex. */
  datatype Coord = NullCoord | Undefined | Vertex(p: Point)

  /** `crosswalk_centers`. The unlabelled variant has no center_id and no
      is_oneway column: those are None in its rows. */
  datatype CenterRow = CenterRow(
    crosswalkId: int,
    streetSegmentId: Option<int>,
    pedEdge: Option<Segment>,
    streetCenter: Option<Point>,
    geometry: Option<Point>,
    centerId: Option<string>,
    isOneway: Option<bool>,
    fromCoord: Coord,
    toCoord: Coord)

  class CentersTable {
    var rows: seq<CenterRow>
  }

  /** `streetlights`: OBJECTID, the light's point and the flipped
      geometry_lat_long column. */
  datatype Streetlight = Streetlight(id: int, geometry: Point, latLong: Option<Point>)

  class StreetlightsTable {
    var rows: seq<Streetlight>
  }

  /** `crosswalk_centers_lights`: a copy of a crosswalk_centers row with the
      columns the proximity, brightness and text stages add. */
  datatype LightsRow = LightsRow(
    center: CenterRow,
    latLong: Option<Point>,
    streetlightIds: Option<seq<int>>,
    streetlightDists: Option<seq<real>>,
    streetlightGeom: Option<string>,
    illuminance: Option<real>)

  class CenterLightsTable {
    /** Whether the table has been created. */
    var created: bool
    var rows: seq<LightsRow>
  }

  datatype Side = To | From

  /** `classified_streetlights`: one light near one centre. */
  datatype ClassifiedLight = ClassifiedLight(
    crosswalkId: int,
    centerId: Option<string>,
    streetlightId: int,
    line: Option<Segment>,
    geometry: Option<Point>,
    side: Side,
    dist: Option<real>)

  class ClassifiedLightsTable {
    var rows: seq<ClassifiedLight>
  }

  datatype ContrastLabel = NoContrast | PositiveContrast | NegativeContrast

  /** `crosswalk_centers_contrast`. `fromBrightness` / `toBrightness` are the
      from_brightness_heuristic / to_brightness_heuristic columns, present
      only when the table's `hasBrightnessColumns` flag is set. */
  datatype ContrastRow = ContrastRow(
    crosswalkId: int,
    centerId: Option<string>,
    toHeuristic: Option<real>,
    fromHeuristic: Option<real>,
    contrast: Option<ContrastLabel>,
    geometry: Option<Point>,
    fromBrightness: Option<real>,
    toBrightness: Option<real>,
    lightHeuristic: Option<real>)

  class ContrastTable {
    var rows: seq<ContrastRow>
    var hasBrightnessColumns: bool
  }

  /** `crosswalk_centers_classified_lights`: the side lists of one centre,
      the texts of the light geometries, and the per-side heuristics. */
  datatype SideListsRow = SideListsRow(
    crosswalkId: int,
    geometry: Option<Point>,
    centerId: Option<string>,
    fromIds: Option<seq<int>>,
    fromDists: Option<seq<real>>,
    fromGeoms: Option<seq<string>>,
    toIds: Option<seq<int>>,
    toDists: Option<seq<real>>,
    toGeoms: Option<seq<string>>,
    fromHeuristic: Option<real>,
    toHeuristic: Option<real>,
    contrast: Option<ContrastLabel>)

  class SideListsTable {
    var created: bool
    var rows: seq<SideListsRow>
  }

  /** `crosswalk_compare`: a contrast row with the field observations. */
  datatype CompareRow = CompareRow(
    crosswalkId: int,
    centerId: Option<string>,
    lightHeuristic: Option<real>,
    contrast: Option<ContrastLabel>,
    toHeuristic: Option<real>,
    fromHeuristic: Option<real>,
    perceivedContrast: Option<real>,
    perceivedVisibility: Option<real>,
    luxTowardCar: Option<real>,
    luxAwayCar: Option<real>,
    netLux: Option<real>,
    alignment: Option<bool>)

  class CompareTable {
    var created: bool
    var rows: seq<CompareRow>
  }
}
