# night-light: the crosswalk lighting pipeline, modelled in Dafny

night-light estimates how well a crosswalk is lit. A pipeline of DuckDB
queries, driven from Python, runs these steps:

- It cuts every crosswalk polygon into numbered edges.
- It marks the edges that a street crosses as vehicle edges.
- It places one or two crossing centres per crosswalk.
- For each centre, it decides which pedestrian-edge vertex is on the "from" side of traffic and which is on the "to" side.
- It collects the streetlights near each centre, with their distances.
- It sorts those lights onto the two sides.
- It reduces the inverse-square distances on each side to a heuristic and a contrast label.
- It combines the two heuristics into a light heuristic, and compares the labels with field observations.
- It draws a line from each centre to each of its lights.

Two generations of the code are modelled side by side:

- the analyzer (`night_light/analyzer`, together with `src/night_light/analyzer/distance.py`);
- the GIS predictor (`src/night_light/GIS_predictor`).

Each source file becomes one module:

| module | source file |
|---|---|
| `EdgeClassifier` | `edge_classifier.py` |
| `GisCrosswalkCenter`, `AnalyzerCrosswalkCenter` | the two `crosswalk_center.py` |
| `GisVehicleDirection`, `AnalyzerVehicleDirection` | the two `vehicle_direction.py` |
| `Distance` | `analyzer/distance.py` |
| `Contrast` | `contrast.py` |
| `ContrastTable` | `contrast_table.py` |
| `GisBrightness` | `brightness.py` |
| `GisPerceivedBrightness`, `AnalyzerBrightness` | the two brightness-sum files |
| `Compare` | `compare.py` |
| `Visualization` | `visualization_utils.py` |

Shared vocabulary lives in five further modules:

- `Sql`: NULL as `Option`, errors as `Result`, SQL `+`, `SUM` and `1/(d*d)`.
- `Seqs`: DISTINCT and flattening.
- `Text`: Python `str.index`, slicing, split and join, text order, decimal text.
- `Geometry`: points, segments, midpoints, means, cross products, and the spatial library as a record of functions.
- `Tables`: one datatype per table row, and one class per table that a stage updates in place.

How the model is built:

- A query that builds a table from others is a function.
- A stage that alters or updates a table is a method on that table's class. The method's `ensures` gives the new rows as a function of the old ones.
- A Python loop that issues one UPDATE per fetched row is a `while` loop. Its invariant ties the table to a recursive function describing the loop from row k on.
- A column that has not been added yet reads as NULL. Where the code can observe whether a column exists, the table carries a flag:
  - `is_vehicle_edge`, which is added without IF NOT EXISTS;
  - the analyzer's `*_brightness_heuristic` operands.
- The spatial functions are parameters: ST_Intersects, ST_Dump(ST_Intersection(...)), ST_DWithin_Spheroid, ST_Distance_Sphere, ST_AsText and ST_GeomFromText.
- The centroid of a set of intersection points is their mean.
- Text order is lexicographic by character.

## Model

| member | source | states |
|---|---|---|
| Sql.AddLaws | src/night_light/GIS_predictor/percieved_brightness.py:14-17 | SQL `+` on nullable values: NULL absorbs from either side, the operands commute and associate, and 0 is neutral |
| Sql.InvSquare | src/night_light/GIS_predictor/contrast.py:133-134 | `1/(d*d)` is defined iff d is non-NULL and nonzero, and is then the positive inverse square of d |
| Sql.InvSquareValue | src/night_light/GIS_predictor/contrast.py:133-134 | for a nonzero distance d the term is 1/(d*d) |
| Sql.SumMeaning | src/night_light/GIS_predictor/contrast.py:133-134 | SQL SUM is NULL iff every term is NULL (or there is none), otherwise the sum of the non-NULL terms |
| Sql.ZeroWhenAllNull | src/night_light/GIS_predictor/contrast.py:133-134 | the non-NULL terms of an all-NULL list add up to 0 |
| Seqs.Distinct | src/night_light/analyzer/distance.py:60 | the distinct keys contain every input key, only input keys, and no duplicates, and there are no more of them than inputs |
| Seqs.FlattenLength | src/night_light/GIS_predictor/edge_classifier/edge_classifier.py:34-47 | concatenating per-ring lists gives their total length |
| Seqs.FlattenMembership | src/night_light/GIS_predictor/edge_classifier/edge_classifier.py:34-47 | an element is in the concatenation iff it is in one of the lists |
| Seqs.FlattenAppend | src/night_light/GIS_predictor/edge_classifier/edge_classifier.py:34-47 | concatenation distributes over appending lists of lists |
| Text.IndexOf | src/night_light/GIS_predictor/contrast_table.py:38-40 | `str.index`: the first position of the character; None (ValueError) iff it does not occur |
| Text.IndexOfPrefix | src/night_light/GIS_predictor/contrast_table.py:38-40 | a character not in prefix a is found right after a |
| Text.Slice | src/night_light/GIS_predictor/contrast_table.py:38 | Python `s[i:j]` has j − i characters when i < j, character k being s[i + k], and none otherwise |
| Text.SliceConcat | src/night_light/GIS_predictor/contrast_table.py:38 | adjacent slices `s[i:j] + s[j:k]` join into `s[i:k]` |
| Text.Split | src/night_light/GIS_predictor/contrast_table.py:99 | `str.split(c)` yields at least one part, and no part contains c |
| Text.SplitJoin | src/night_light/GIS_predictor/contrast_table.py:170-175 | splitting a `STRING_AGG(..., ',')` at ',' gives back its parts when no part contains ',' |
| Text.LexTotal | night_light/analyzer/crosswalk_center.py:209 | text order is total |
| Text.LexTransitive | night_light/analyzer/crosswalk_center.py:209 | text order is transitive |
| Text.LexAntisymmetric | night_light/analyzer/crosswalk_center.py:209 | text order is antisymmetric |
| Text.NatText | src/night_light/GIS_predictor/compare.py:23 | the decimal text of a natural number is a nonempty string of digits denoting it |
| Text.UnsignedRoundTrip | src/night_light/GIS_predictor/contrast_table.py:39-40 | reading back an unsigned decimal text gives its value |
| Text.DigitsDotDigits | src/night_light/GIS_predictor/contrast_table.py:39-40 | `digits[.digits]` reads as its integer part plus its fraction |
| Text.AtDotOfDigits | src/night_light/GIS_predictor/contrast_table.py:39-40 | splitting `digits.digits` at the first '.' gives the two digit strings |
| Text.ParseAtDot | src/night_light/GIS_predictor/contrast_table.py:39-40 | a text whose parts around '.' are digits reads as integer part plus fraction |
| Text.DecimalRoundTrip | src/night_light/GIS_predictor/contrast_table.py:39-40 | `Decimal` of a signed decimal text is its value |
| Text.ParseSigned | src/night_light/GIS_predictor/contrast_table.py:39-40 | a leading '-' before an unsigned decimal text negates its value |
| Text.DigitsBelowPow10 | src/night_light/GIS_predictor/contrast_table.py:39-40 | n decimal digits denote less than 10^n |
| Text.Fraction | src/night_light/GIS_predictor/contrast_table.py:39-40 | the digits after a decimal point denote a value in [0, 1) |
| Geometry.TextOf | src/night_light/GIS_predictor/brightness.py:24-28 | the stored text of a geometry is NULL iff the geometry is NULL |
| Geometry.MidpointBetween | src/night_light/GIS_predictor/crosswalk_center.py:85-90 | the midpoint lies between the two points on each axis, is equidistant from them, and does not depend on their order |
| Geometry.Mean | src/night_light/GIS_predictor/crosswalk_center.py:48-57 | AVG of X and Y is defined iff there is at least one point, and is then (ΣX / n, ΣY / n) |
| Geometry.SumXInBox | src/night_light/GIS_predictor/crosswalk_center.py:53 | the X sum of n points whose X lies in [lo, hi] is between n·lo and n·hi |
| Geometry.SumYInBox | src/night_light/GIS_predictor/crosswalk_center.py:54 | the Y sum of n points whose Y lies in [lo, hi] is between n·lo and n·hi |
| Geometry.MeanInBox | src/night_light/GIS_predictor/crosswalk_center.py:48-57 | the mean of points in a box is in the box |
| Geometry.DivBounds | src/night_light/GIS_predictor/crosswalk_center.py:48-57 | dividing a sum bounded by n·lo and n·hi by n stays between lo and hi |
| Geometry.MeanOfTwo | src/night_light/GIS_predictor/crosswalk_center.py:66-74 | the mean of an edge's two endpoints is their midpoint |
| Geometry.Sign | src/night_light/GIS_predictor/contrast.py:63-74 | SIGN is -1, 0 or 1, positive iff its argument is, and zero iff its argument is |
| Geometry.CrossReversed | src/night_light/GIS_predictor/contrast.py:63-74 | reversing A→B negates the cross product and its sign |
| Geometry.SqDistance | night_light/analyzer/vehicle_direction.py:73-81 | the squared distance is never negative |
| Geometry.SqDistanceSymmetric | night_light/analyzer/vehicle_direction.py:73-81 | the distance does not depend on argument order |
| Geometry.SquareNonNegative | night_light/analyzer/vehicle_direction.py:73-81 | a coordinate difference squared is never negative, so the compared distances are too |
| Geometry.NegatedSquare | night_light/analyzer/vehicle_direction.py:73-81 | negating a coordinate difference does not change its square, so the distance ignores argument order |
| EdgeClassifier.RingEdges | src/night_light/GIS_predictor/edge_classifier/edge_classifier.py:34-47 | a ring of n points gives n-1 edges with ids 1..n-1, the crosswalk id, and no classification yet |
| EdgeClassifier.RingEdgesChain | src/night_light/GIS_predictor/edge_classifier/edge_classifier.py:41-44 | the end of edge i is the start of edge i+1 |
| EdgeClassifier.RingEdgesPath | src/night_light/GIS_predictor/edge_classifier/edge_classifier.py:41-47 | the edges of a ring rebuild exactly that ring |
| EdgeClassifier.EdgeIdsRepeatAcrossRings | src/night_light/GIS_predictor/edge_classifier/edge_classifier.py:34-47 | a polygon with a hole yields two edges with the same (crosswalk_id, edge_id = 1) |
| EdgeClassifier.CrosswalkEdgesCount | src/night_light/GIS_predictor/edge_classifier/edge_classifier.py:34-47 | a crosswalk gives one edge per consecutive vertex pair over all its rings |
| EdgeClassifier.AllEdgesMembership | src/night_light/GIS_predictor/edge_classifier/edge_classifier.py:25-55 | an edge is in the table iff it comes from one of the crosswalks |
| EdgeClassifier.DecomposeCrosswalkEdges | src/night_light/GIS_predictor/edge_classifier/edge_classifier.py:25-55 | CREATE OR REPLACE: the table becomes exactly the edges of all crosswalks, without an is_vehicle_edge column |
| EdgeClassifier.CountPositive | src/night_light/GIS_predictor/edge_classifier/edge_classifier.py:67-72 | the count of intersecting streets is positive iff some street intersects the edge |
| EdgeClassifier.VehicleEdge | src/night_light/GIS_predictor/edge_classifier/edge_classifier.py:67-72 | an edge is a vehicle edge iff at least one street segment intersects it |
| EdgeClassifier.ClassifyEdgesByIntersection | src/night_light/GIS_predictor/edge_classifier/edge_classifier.py:58-74 | a second call fails on ADD COLUMN and changes nothing; otherwise every row gets is_vehicle_edge and nothing else changes |
| GisCrosswalkCenter.IntersectionCenter | src/night_light/GIS_predictor/crosswalk_center.py:30-59 | the intersection centre exists iff the crosswalk has at least the required number of intersection points, and lies in every box holding them |
| GisCrosswalkCenter.IntersectionCenterIsMean | src/night_light/GIS_predictor/crosswalk_center.py:48-57 | the intersection centre's X and Y are the averages of the X and Y of the crosswalk's intersection points |
| GisCrosswalkCenter.QualifyingEdges | src/night_light/GIS_predictor/crosswalk_center.py:77-93 | only non-vehicle edges of crosswalks with an intersection centre are used |
| GisCrosswalkCenter.GisCentersPerEdge | src/night_light/GIS_predictor/crosswalk_center.py:61-96 | exactly one centre per qualifying pedestrian edge, with no cap |
| GisCrosswalkCenter.GisCenterShape | src/night_light/GIS_predictor/crosswalk_center.py:79-93 | each centre is the midpoint of its edge midpoint and the intersection centre, and carries no A/B label |
| GisCrosswalkCenter.GisSharedStreetCenter | src/night_light/GIS_predictor/crosswalk_center.py:84-92 | all centres of one crosswalk share the same street_center_point |
| GisCrosswalkCenter.GisFewPointsNoCenter | src/night_light/GIS_predictor/crosswalk_center.py:59 | a crosswalk with fewer than two intersection points gets no centre |
| GisCrosswalkCenter.GisCentersFromPedestrianEdges | src/night_light/GIS_predictor/crosswalk_center.py:61-78 | every centre comes from an edge with is_vehicle_edge = FALSE of its crosswalk |
| AnalyzerCrosswalkCenter.MinPedEdgeId | night_light/analyzer/crosswalk_center.py:86-96 | MIN(edge_id) over the crosswalk's pedestrian edges: NULL iff there is none, otherwise attained and a lower bound |
| AnalyzerCrosswalkCenter.EdgesWithId | night_light/analyzer/crosswalk_center.py:81-98 | the join keeps exactly the geometries of the crosswalk's edges with that id |
| AnalyzerCrosswalkCenter.OneWayPairRows | night_light/analyzer/crosswalk_center.py:81-99 | the LEFT JOIN gives one row per selected edge, and one row even when there is none |
| AnalyzerCrosswalkCenter.OneWayCrosswalkRowsShape | night_light/analyzer/crosswalk_center.py:53-99 | every one-way row belongs to its crosswalk, is labelled 'A' with is_oneway TRUE, and carries the first pedestrian edge or NULL |
| AnalyzerCrosswalkCenter.OneWayCentersShape | night_light/analyzer/crosswalk_center.py:53-99 | the same holds for every row of the one-way table |
| AnalyzerCrosswalkCenter.SelectedEdgeIsFirstPedestrianEdge | night_light/analyzer/crosswalk_center.py:81-98 | a selected ped_edge_geom is the geometry of a pedestrian edge with the smallest edge_id |
| AnalyzerCrosswalkCenter.OneWayCenterIsCentroid | night_light/analyzer/crosswalk_center.py:57-79 | for an intersecting street, geometry and street_center_point are both the centroid of boundary∩street, with that street's id |
| AnalyzerCrosswalkCenter.TwoWayCandidatesShape | night_light/analyzer/crosswalk_center.py:146-193 | each two-way candidate has is_oneway FALSE, a centre from the ≥1-point average, and geometry = the midpoint of edge midpoint and that centre |
| AnalyzerCrosswalkCenter.TextLessTransitive | night_light/analyzer/crosswalk_center.py:209 | strict text order is transitive |
| AnalyzerCrosswalkCenter.PrecedesTransitive | night_light/analyzer/crosswalk_center.py:209 | the ROW_NUMBER order within a crosswalk is transitive |
| AnalyzerCrosswalkCenter.PrecedesIrreflexive | night_light/analyzer/crosswalk_center.py:209 | no row precedes itself |
| AnalyzerCrosswalkCenter.PrecedesTotal | night_light/analyzer/crosswalk_center.py:209 | any two rows of a crosswalk are ordered one way or the other |
| AnalyzerCrosswalkCenter.CountPrecedingMonotone | night_light/analyzer/crosswalk_center.py:209 | a row's number of predecessors grows along the order |
| AnalyzerCrosswalkCenter.RowNumberOrdered | night_light/analyzer/crosswalk_center.py:209 | an earlier row in the order gets a smaller row number |
| AnalyzerCrosswalkCenter.RowNumberDistinct | night_light/analyzer/crosswalk_center.py:209 | row numbers are distinct within a crosswalk |
| AnalyzerCrosswalkCenter.LabelledFromMembers | night_light/analyzer/crosswalk_center.py:194-212 | the output holds exactly the candidates numbered 1 or 2, labelled by their number |
| AnalyzerCrosswalkCenter.TwoWayLabels | night_light/analyzer/crosswalk_center.py:200-212 | two output rows of one crosswalk are labelled 'A' and 'B', one each, and 'A' comes first in text order |
| AnalyzerCrosswalkCenter.LabelAFirst | night_light/analyzer/crosswalk_center.py:200-209 | the row numbered 1 has the smallest geometry text of its crosswalk |
| AnalyzerCrosswalkCenter.UnionOrder | night_light/analyzer/crosswalk_center.py:13-40 | UNION ALL: the one-way rows (is_oneway TRUE) come first, then the two-way rows (FALSE) |
| GisVehicleDirection.DirectionUndefinedOrNull | src/night_light/GIS_predictor/vehicle_direction.py:36-115 | both columns are 'undefined' iff the centre or street centre is NULL or they are equal; both are NULL iff only the pedestrian edge is NULL |
| GisVehicleDirection.DirectionVertices | src/night_light/GIS_predictor/vehicle_direction.py:39-113 | from and to are vertices of the edge; they are the two different vertices unless the compared coordinates tie, when both are vertex 2 |
| GisVehicleDirection.DirectionOrientation | src/night_light/GIS_predictor/vehicle_direction.py:39-113 | X before Y: centre right of street → from has the lower Y; left → the higher Y; then above → the higher X; below → the lower X |
| GisVehicleDirection.DirectionIgnoresEdgeOrientation | src/night_light/GIS_predictor/vehicle_direction.py:39-113 | without a tie, reversing the edge's vertex order changes nothing |
| GisVehicleDirection.OppositeSidesSwap | src/night_light/GIS_predictor/vehicle_direction.py:39-113 | two centres on opposite sides of the street centre get from and to swapped |
| GisVehicleDirection.IdentifyVehicleDirection | src/night_light/GIS_predictor/vehicle_direction.py:29-115 | DROP/ADD then UPDATE: every row gets the four-case rule, with no one-way guard, and nothing else changes |
| AnalyzerVehicleDirection.StreetById | night_light/analyzer/vehicle_direction.py:98-99 | the joined street has the row's street_segment_id; there is none iff no street has that OBJECTID |
| AnalyzerVehicleDirection.OneWayFromIsNearer | night_light/analyzer/vehicle_direction.py:71-97 | one-way: {from, to} are the edge's two vertices, and from is no farther from the street's first point than to, strictly nearer unless they tie |
| AnalyzerVehicleDirection.OneWayIgnoresEdgeOrientation | night_light/analyzer/vehicle_direction.py:71-97 | without a distance tie, reversing the edge changes nothing |
| AnalyzerVehicleDirection.DirectedByKind | night_light/analyzer/vehicle_direction.py:53-200 | after both passes only from/to change: one-way rows with a matching street get the nearest-vertex rule, two-way rows the four-case rule, the rest stay NULL |
| AnalyzerVehicleDirection.DirectedIdempotent | night_light/analyzer/vehicle_direction.py:53-61 | re-running the stage on its own output gives the same columns |
| AnalyzerVehicleDirection.OneWayCentreNeedsOneWayRule | night_light/analyzer/vehicle_direction.py:64-200 | a one-way centre equals its street centre, where the four-case rule says 'undefined', while the one-way pass gives two vertices |
| AnalyzerVehicleDirection.ResetDirections | night_light/analyzer/vehicle_direction.py:53-57 | DROP and ADD COLUMN set from_coord and to_coord to NULL in every row |
| AnalyzerVehicleDirection.IdentifyOneWay | night_light/analyzer/vehicle_direction.py:64-101 | the one-way UPDATE changes only rows with is_oneway TRUE and a matching street |
| AnalyzerVehicleDirection.IdentifyTwoWay | night_light/analyzer/vehicle_direction.py:105-200 | the two-way UPDATE applies the four-case rule to is_oneway FALSE rows and keeps from/to elsewhere |
| AnalyzerVehicleDirection.IdentifyVehicleDirection | night_light/analyzer/vehicle_direction.py:50-61 | the whole stage maps every row through reset, then the one-way pass, then the two-way pass |
| Distance.Flip | src/night_light/analyzer/distance.py:99-102 | geometry_lat_long is the point (Y, X) of geometry |
| Distance.FlipTwice | src/night_light/analyzer/distance.py:99-102 | swapping the coordinates twice gives back the point |
| Distance.FlipperIdempotent | src/night_light/analyzer/distance.py:97-102 | the flipper reads the original geometry, so flipping twice equals flipping once, and no other column changes |
| Distance.FlipStreetlights | src/night_light/analyzer/distance.py:89-104 | every streetlight gets its flipped geometry_lat_long |
| Distance.FlipCenterLights | src/night_light/analyzer/distance.py:89-104 | the centre table fails with a missing table if absent, otherwise every row gets its flipped point |
| Distance.CreateCrosswalkCentersLights | src/night_light/analyzer/distance.py:107-135 | the table is copied from the centres only when it does not exist yet, with the new columns NULL |
| Distance.CenterPairsMembers | src/night_light/analyzer/distance.py:43-52 | a (centre, light) pair is joined iff the spheroidal within-distance test accepts it |
| Distance.PairsMembers | src/night_light/analyzer/distance.py:43-52 | the join holds exactly the accepted pairs over all centres |
| Distance.GroupPairs | src/night_light/analyzer/distance.py:59-60 | a group holds exactly the pairs with its (crosswalk_id, geometry) key |
| Distance.GroupsAligned | src/night_light/analyzer/distance.py:57-60 | in each group the id and distance lists are nonempty and of equal length, and entry k of both comes from the same accepted pair |
| Distance.GroupIdsAccepted | src/night_light/analyzer/distance.py:43-60 | every aggregated id is a light accepted for a centre of that crosswalk |
| Distance.SinglePairGroups | src/night_light/analyzer/distance.py:57-60 | one pair makes one group holding its id and its spherical distance |
| Distance.RecordedDistanceNotBounded | src/night_light/analyzer/distance.py:51-58 | a light passing the spheroidal test can be recorded with a spherical distance above the radius |
| Distance.RecordedDistanceExceedsRadius | src/night_light/analyzer/distance.py:51-58 | a concrete spatial library under which this happens exists |
| Distance.LastMatch | src/night_light/analyzer/distance.py:69-81 | the group applied to a row is one whose point text equals the row's geometry_lat_long text (no crosswalk id is compared); none iff no group matches |
| Distance.SamePointSameMatch | src/night_light/analyzer/distance.py:77-79 | two centre rows at the same point, of different crosswalks too, take the same group's lists |
| Distance.UpdateCenterLights | src/night_light/analyzer/distance.py:69-81 | the per-group UPDATE loop gives each row its last matching group's lists, and nothing else changes |
| Distance.UnmatchedCentreUnchanged | src/night_light/analyzer/distance.py:69-81 | a centre with no matching group keeps its lists (NULL when fresh) |
| Distance.FindStreetlightsCrosswalkCenters | src/night_light/analyzer/distance.py:10-86 | the whole stage flips both tables, then gives every centre row the aligned lists of its last matching group |
| Contrast.MaxCentre | src/night_light/GIS_predictor/contrast.py:16-21 | MAX over a crosswalk's centres named 'A' (or 'B'): NULL iff none exists, otherwise attained and largest in text order |
| Contrast.SideMeaning | src/night_light/GIS_predictor/contrast.py:63-74 | side is 'to' iff sign(cross(A→B, from→to)) equals sign(cross(A→B, centre→light)) |
| Contrast.SideIgnoresABOrder | src/night_light/GIS_predictor/contrast.py:63-88 | swapping A and B leaves every side label unchanged |
| Contrast.LightRowsMembers | src/night_light/GIS_predictor/contrast.py:50-53 | joining one id gives one row per streetlight with that id |
| Contrast.IdRowsMembers | src/night_light/GIS_predictor/contrast.py:50-53 | unnesting a centre's list gives exactly the lights whose id is in it |
| Contrast.CentreRowsMembers | src/night_light/GIS_predictor/contrast.py:40-84 | the table holds exactly the light rows of each centre |
| Contrast.ClassifiedGeometryIsLight | src/night_light/GIS_predictor/contrast.py:50-84 | each output row comes from a centre and an id in its list; its geometry is the light point (NULL for a NULL centre) |
| Contrast.NoBAllFrom | src/night_light/GIS_predictor/contrast.py:18-88 | a crosswalk with no 'B' centre has every light on 'from' |
| Contrast.ClassifyFailsOnUndefined | src/night_light/GIS_predictor/contrast.py:38-40 | the query fails iff some centre's from/to coordinate is the text 'undefined' |
| Contrast.ClassifyLightsBySide | src/night_light/GIS_predictor/contrast.py:4-94 | on failure the table is unchanged and the error is returned; otherwise it is replaced by the classified rows |
| Contrast.FirstPosition | src/night_light/GIS_predictor/contrast.py:107-112 | `array_position`: the first index of the id, or NULL iff it is absent |
| Contrast.FirstSource | src/night_light/GIS_predictor/contrast.py:107-112 | the centre row an UPDATE ... FROM draws from has the light's crosswalk, centre and id; none iff no row qualifies |
| Contrast.WithDistanceMeaning | src/night_light/GIS_predictor/contrast.py:107-112 | dist becomes the list entry at the id's first position; an unmatched row is unchanged |
| Contrast.AddDistances | src/night_light/GIS_predictor/contrast.py:97-114 | every row gets that dist, and nothing else changes |
| Contrast.SumNonNegative | src/night_light/GIS_predictor/contrast.py:133-134 | the SUM of non-negative terms is non-negative |
| Contrast.TermsNonNegative | src/night_light/GIS_predictor/contrast.py:133-134 | every 1/dist² term is non-negative |
| Contrast.Heuristic | src/night_light/GIS_predictor/contrast.py:130-136 | a side heuristic is the non-negative Σ of its CASE terms, and NULL iff every row of the group is on that side and has no usable distance (a row of the other side adds 0) |
| Contrast.ContrastBands | src/night_light/GIS_predictor/contrast.py:145-149 | no contrast iff abs(from − to) ≤ threshold; positive iff from − to > threshold; negative iff to − from > threshold |
| Contrast.ContrastDefined | src/night_light/GIS_predictor/contrast.py:145-149 | with threshold ≥ 0 there is always a label; with a negative threshold and equal heuristics the label is NULL |
| Contrast.ContrastSwap | src/night_light/GIS_predictor/contrast.py:145-149 | swapping the sides swaps positive and negative and keeps no contrast |
| Contrast.JoinedGeometries | src/night_light/GIS_predictor/contrast.py:152-158 | the LEFT JOIN gives one NULL geometry when no centre row joins the group, and otherwise exactly the joining centres' geometries |
| Contrast.MatchingGeometries | src/night_light/GIS_predictor/contrast.py:155-158 | the joined geometries are empty iff no centre row has the group's crosswalk_id and center_id, and are exactly those rows' geometries |
| Contrast.ContrastRowsCover | src/night_light/GIS_predictor/contrast.py:117-160 | each output row is a group of the classified lights, with its two sums and their label |
| Contrast.ContrastRowsComplete | src/night_light/GIS_predictor/contrast.py:117-160 | every (crosswalk_id, center_id) of the classified lights has a contrast row |
| Contrast.CalculateContrastHeuristics | src/night_light/GIS_predictor/contrast.py:117-160 | the table is replaced by those rows, without brightness columns |
| ContrastTable.GetCoordsAsWrittenFails | src/night_light/GIS_predictor/contrast_table.py:37-41 | as written, get_coords always raises: ValueError when '(' or ')' is missing, otherwise NameError |
| ContrastTable.DecimalTextChars | src/night_light/GIS_predictor/contrast_table.py:39-40 | a decimal text holds only digits, '-' and '.' |
| ContrastTable.PointTextOpen | src/night_light/GIS_predictor/contrast_table.py:38 | in "POINT (x y)" the first '(' is at index 6 |
| ContrastTable.PointTextClose | src/night_light/GIS_predictor/contrast_table.py:38 | the first ')' is the last character |
| ContrastTable.PointTextInner | src/night_light/GIS_predictor/contrast_table.py:38 | the text between them is "x y" |
| ContrastTable.PointTextCoords | src/night_light/GIS_predictor/contrast_table.py:37-41 | the corrected get_coords reads "POINT (x y)" as the two decimals |
| ContrastTable.GetCoordsRoundTrip | src/night_light/GIS_predictor/contrast_table.py:37-41 | the corrected get_coords round-trips the text of every decimal point |
| ContrastTable.DirectionIsCross | src/night_light/GIS_predictor/contrast_table.py:120-128 | the direction of p to line A→B is minus the cross product of A→B and A→p |
| ContrastTable.SideRulesAgree | src/night_light/GIS_predictor/contrast_table.py:117-135 | with the centre on A–B, from and to strictly on opposite sides, and the light off the line, this file's side rule agrees with the one in contrast.py |
| ContrastTable.CrossOfDifference | src/night_light/GIS_predictor/contrast_table.py:120-128 | the cross product is linear in the second vector's endpoints |
| ContrastTable.LightOnLine | src/night_light/GIS_predictor/contrast_table.py:128 | a light on the A–B line joins the from side iff from_coord is on the non-positive side |
| ContrastTable.SideIndicesOrdered | src/night_light/GIS_predictor/contrast_table.py:117-135 | the indices sent to one side are in range and strictly increasing (input order is kept) |
| ContrastTable.SideIndicesMembers | src/night_light/GIS_predictor/contrast_table.py:128 | light k goes to the from side iff (direction_light > 0) == (direction_from > 0) |
| ContrastTable.SideIndicesCount | src/night_light/GIS_predictor/contrast_table.py:117-135 | the two sides' lengths add up to the number of lights |
| ContrastTable.SplitByIndices | src/night_light/GIS_predictor/contrast_table.py:110-135 | on success, each of the six lists is its source list at that side's indices, so id, dist and geom stay together |
| ContrastTable.PickedAppend | src/night_light/GIS_predictor/contrast_table.py:129-135 | appending one light's value and its position keeps a side list equal to its source list at that side's positions |
| ContrastTable.SplitErrors | src/night_light/GIS_predictor/contrast_table.py:129-135 | the split fails iff there are lights and the id or distance list is NULL (TypeError) or too short (IndexError) |
| ContrastTable.SplitErrorPersists | src/night_light/GIS_predictor/contrast_table.py:117-135 | once the loop has raised, later lights change nothing |
| ContrastTable.PartitionLights | src/night_light/GIS_predictor/contrast_table.py:110-135 | the loop computes the split of all lights |
| ContrastTable.ParseEach | src/night_light/GIS_predictor/contrast_table.py:99-100 | a successful comprehension yields one element per text |
| ContrastTable.ParseEachMeaning | src/night_light/GIS_predictor/contrast_table.py:99-100 | the comprehension succeeds iff every text parses, and element k is the parse of text k |
| ContrastTable.ParseAllMeaning | src/night_light/GIS_predictor/contrast_table.py:99-101 | parsing the light texts succeeds exactly when every text reads as a point, and then gives one point per text, each the get_coords of its text |
| ContrastTable.ApplyUpdate | src/night_light/GIS_predictor/contrast_table.py:137-158 | the UPDATE writes the six lists into exactly the rows whose geometry text is the centre's (none for a NULL centre) and leaves every other row as it was |
| ContrastTable.SkippedRow | src/night_light/GIS_predictor/contrast_table.py:96-97 | a centre whose streetlight_geom is NULL is skipped and changes nothing |
| ContrastTable.MissingCentresFirst | src/night_light/GIS_predictor/contrast_table.py:103-126 | with no 'A' centre on the first processed row, the loop raises NameError |
| ContrastTable.MissingCentresReused | src/night_light/GIS_predictor/contrast_table.py:103-108 | with 'B' missing, the previous iteration's centre coordinates are kept |
| ContrastTable.BadFromCoord | src/night_light/GIS_predictor/contrast_table.py:100-101 | a from_coord of 'undefined' raises ValueError, and a NULL one AttributeError |
| ContrastTable.ClassifyRow | src/night_light/GIS_predictor/contrast_table.py:73-135 | one iteration computes the row step: skipped row, first exception, or the update and the centres for the next row |
| ContrastTable.ClassifyLightsTable | src/night_light/GIS_predictor/contrast_table.py:44-158 | the loop, with its first exception, leaves exactly the updates of the row-by-row run |
| ContrastTable.CreateSideListsTable | src/night_light/GIS_predictor/contrast_table.py:48-63 | CREATE TABLE IF NOT EXISTS copies the centres with NULL lists only when the table is absent |
| ContrastTable.EmptyListHeuristic | src/night_light/GIS_predictor/contrast_table.py:13-20 | a side heuristic over an empty or NULL list is NULL |
| ContrastTable.TwoWayContrastMeaning | src/night_light/GIS_predictor/contrast_table.py:26-33 | the label is NULL iff a heuristic is NULL or they are equal, is never 'no contrast', and swaps positive and negative under a side swap |
| ContrastTable.WithHeuristicsIdempotent | src/night_light/GIS_predictor/contrast_table.py:1-34 | re-running the heuristics gives the same row |
| ContrastTable.EmptySideNoLabel | src/night_light/GIS_predictor/contrast_table.py:13-33 | a centre with an empty side list gets no label |
| ContrastTable.ContrastTableUpdate | src/night_light/GIS_predictor/contrast_table.py:1-34 | every row gets both heuristics and the label, and nothing else changes |
| ContrastTable.LightsWithId | src/night_light/GIS_predictor/contrast_table.py:170-175 | the join keeps exactly the lights with that id |
| ContrastTable.LightTextsAligned | src/night_light/GIS_predictor/contrast_table.py:170-175 | when every id names exactly one light, text k is the WKT of light ids[k] |
| ContrastTable.LightsGeomSplit | src/night_light/GIS_predictor/contrast_table.py:99-175 | the comma-joined streetlight_geom splits back into the light texts |
| ContrastTable.LightsGeomUpdate | src/night_light/GIS_predictor/contrast_table.py:161-177 | every row gets its joined light texts, and nothing else changes |
| GisBrightness.InverseSquareSum | src/night_light/GIS_predictor/brightness.py:22 | Σ 1/x² raises ZeroDivisionError iff some distance is 0, and is otherwise non-negative |
| GisBrightness.NoLightsNoIlluminance | src/night_light/GIS_predictor/brightness.py:22 | an empty distance list gives 0 |
| GisBrightness.AppendRaises | src/night_light/GIS_predictor/brightness.py:22 | appending a positive distance strictly raises the heuristic |
| GisBrightness.SumOfValuesAppend | src/night_light/GIS_predictor/brightness.py:22 | the sum of terms is additive at the end of a list |
| GisBrightness.InverseSquareSumStep | src/night_light/GIS_predictor/brightness.py:22 | one more nonzero distance x adds 1/(x*x) to the Python sum |
| GisBrightness.TermsAppend | src/night_light/GIS_predictor/brightness.py:22 | one more distance adds its 1/(d*d) term at the end of the SQL terms |
| GisBrightness.InverseSquareSumIsSumOfTerms | src/night_light/GIS_predictor/brightness.py:22 | without a zero distance, the Python sum equals the sum of the SQL terms 1/(d*d) |
| GisBrightness.AgreesWithListHeuristic | src/night_light/GIS_predictor/brightness.py:22 | it agrees with contrast_table's SUM for a nonempty list; for an empty list it is 0 where SUM is NULL |
| GisBrightness.UpdateAll | src/night_light/GIS_predictor/brightness.py:24-28 | an UPDATE keeps the number of rows |
| GisBrightness.RunSucceeds | src/night_light/GIS_predictor/brightness.py:15-28 | the loop completes iff every fetched list is non-NULL (else TypeError) and has no zero |
| GisBrightness.RunResult | src/night_light/GIS_predictor/brightness.py:19-28 | after the loop each row holds the heuristic of the last fetched centre with its geometry text; unmatched rows keep their value |
| GisBrightness.BrightnessTable | src/night_light/GIS_predictor/brightness.py:13-28 | the method leaves exactly the result of the loop over the snapshot |
| GisPerceivedBrightness.LightHeuristicMeaning | src/night_light/GIS_predictor/percieved_brightness.py:14-17 | light_heuristic is from_heuristic + to_heuristic (NULL if either is), and no other column changes |
| GisPerceivedBrightness.LightHeuristicIdempotent | src/night_light/GIS_predictor/percieved_brightness.py:7-17 | re-running gives the same row |
| GisPerceivedBrightness.LightHeuristicSymmetric | src/night_light/GIS_predictor/percieved_brightness.py:14-17 | swapping the sides does not change light_heuristic |
| GisPerceivedBrightness.CalculatePerceivedBrightness | src/night_light/GIS_predictor/percieved_brightness.py:3-19 | every row is updated (no WHERE), and nothing else changes |
| AnalyzerBrightness.LightHeuristicMeaning | night_light/analyzer/brightness.py:14-17 | light_heuristic is from_brightness_heuristic + to_brightness_heuristic (NULL if either is), and no other column changes |
| AnalyzerBrightness.AgreesWithGis | night_light/analyzer/brightness.py:17 | where the operand columns equal from_heuristic/to_heuristic, both variants compute the same row |
| AnalyzerBrightness.CalculatePerceivedBrightness | night_light/analyzer/brightness.py:3-18 | fails with a missing column, and changes nothing, iff the *_brightness_heuristic columns are absent; otherwise every row is updated |
| Compare.IntText | src/night_light/GIS_predictor/compare.py:22 | an int is written as '-' exactly when negative, followed by the decimal digits of its magnitude |
| Compare.IntTextInjective | src/night_light/GIS_predictor/compare.py:22 | different ints are written differently, and no int text holds a space |
| Compare.ClauseParts | src/night_light/GIS_predictor/compare.py:22 | a clause is the fixed texts around the int text and the center_id, with a space right after the int text |
| Compare.ClauseInjective | src/night_light/GIS_predictor/compare.py:22 | two CSV rows give the same clause exactly when they name the same (crosswalk_id, center_id) |
| Compare.JoinOrShape | src/night_light/GIS_predictor/compare.py:26 | " OR "-joining is empty iff there are no clauses, starts with the first clause and ends with the last |
| Compare.BuildClauses | src/night_light/GIS_predictor/compare.py:19-24 | the loop builds exactly one clause per CSV row, in order |
| Compare.EmptyCsvNoCondition | src/night_light/GIS_predictor/compare.py:19-31 | the WHERE condition is empty iff the CSV is empty |
| Compare.CompareRows | src/night_light/GIS_predictor/compare.py:28-31 | the table holds exactly the contrast rows whose (crosswalk_id, center_id) appears in the CSV |
| Compare.CompareRowsByKeys | src/night_light/GIS_predictor/compare.py:19-31 | the table depends only on which keys the CSV names |
| Compare.CreateCompareTable | src/night_light/GIS_predictor/compare.py:16-35 | an empty CSV gives invalid SQL and no change; an existing table is kept; otherwise the selected rows are stored |
| Compare.LastObservation | src/night_light/GIS_predictor/compare.py:62-83 | the observation applied to a row is a CSV row with the row's key; there is none iff no CSV row has that key |
| Compare.LastObservationIsLast | src/night_light/GIS_predictor/compare.py:62-83 | it is the last CSV row with that key |
| Compare.WithObservationMeaning | src/night_light/GIS_predictor/compare.py:74-82 | only the five observed columns change; an unmatched row is unchanged, and a final matching CSV row wins |
| Compare.AddCollectedDataColumns | src/night_light/GIS_predictor/compare.py:38-83 | the UPDATE loop gives every row its last observation, and nothing else changes |
| Compare.AlignmentMeaning | src/night_light/GIS_predictor/compare.py:114-121 | TRUE iff (positive ∧ perceived > 0), (negative ∧ perceived < 0) or (no contrast ∧ perceived = 0); FALSE for NULL inputs |
| Compare.EvaluateContrastResults | src/night_light/GIS_predictor/compare.py:109-123 | every row gets a non-NULL contrast_alignment, and nothing else changes |
| Visualization.RowLines | src/night_light/GIS_predictor/visualization_utils.py:11-27 | a NULL id list gives no lines; otherwise the parallel UNNEST gives as many lines as the longer list |
| Visualization.LinesCount | src/night_light/GIS_predictor/visualization_utils.py:11-27 | with aligned lists, one line per from-side id plus one per to-side id |
| Visualization.SideLabels | src/night_light/GIS_predictor/visualization_utils.py:11-27 | the first branch's lines are labelled from-side, the second branch's to-side |
| Visualization.LineEnds | src/night_light/GIS_predictor/visualization_utils.py:13-24 | line k carries id k and runs from the centre to light text k |
| Visualization.NullListNoLines | src/night_light/GIS_predictor/visualization_utils.py:18-27 | a centre with a NULL id list adds no line for that side |
| Visualization.MakeLinesFromCrosswalkToStreetlights | src/night_light/GIS_predictor/visualization_utils.py:4-31 | CREATE OR REPLACE: the table becomes exactly those lines; a text `ST_GeomFromText` rejects fails the statement and keeps the old table |
| Visualization.ReadableLines | src/night_light/GIS_predictor/visualization_utils.py:13-27 | with readable texts, a line has a geometry exactly when the centre and the light text are both present |

## Left out

- Spatial-library internals: these are parameters. ST_Intersects, ST_Dump(ST_Intersection(ST_Boundary(...))), ST_DWithin_Spheroid, ST_Distance_Sphere, ST_AsText and ST_GeomFromText are not implemented.
- Centroid: ST_Centroid of an intersection is taken as the mean of its dumped points.
- Geodesic distance and `meters_to_degrees` (src/night_light/analyzer/distance.py:138-158): trigonometry and floating point, which have no counterpart over `real`.
- Floating point: every FLOAT, DOUBLE and Python `Decimal` value is an exact real number, so rounding is not modelled.
- SQL division by zero: `1.0/(d*d)` with d = 0 is taken as NULL, which SUM then skips.
- SQL row order: it is unspecified in SQL.
  - Results, `array_agg`, `STRING_AGG` and `GROUP BY` use table order or first-appearance order.
  - ROW_NUMBER ties between equal geometry texts are broken by table order.
  - An UPDATE ... FROM with several matching source rows takes the first.
- Text order: ORDER BY and MAX on a geometry text compare character by character. Collations are not modelled.
- ContrastTable.GetCoords: reads only an optional sign, digits and at most one '.'. It does not accept the exponents, spaces, NaN or Infinity that `Decimal` also accepts.
- Compare.AddCollectedDataColumns: models perceived_contrast as a number. The source quotes it into the SQL text and lets DuckDB compare that string with 0.
- Compare: the model does not handle quotes inside a CSV center_id, which would break the generated SQL.
- Compare: NaN CSV fields are not modelled.
- `ordered_compare_table` (src/night_light/GIS_predictor/compare.py:86-106): left out because it only reorders columns.
- Orchestration, connections, CSV and file reading, and `print`: left out. Fetched rows, the CSV rows and the threshold are parameters.
- Inputs from elsewhere: the oriented-rectangle simplification and the stage that sets street_segment_id and is_oneway on crosswalk_segments are not part of this model; their outputs are inputs here.
- AnalyzerCrosswalkCenter.TwoWayCandidatesShape: follows the code's `HAVING COUNT(*) >= 1`, not its comment's "≥ 2".
- AnalyzerBrightness.CalculatePerceivedBrightness: the `*_brightness_heuristic` operand columns are produced by no stage in this model. The table flag says whether they exist, and without them the UPDATE fails.
- ContrastTable.LightTextsAligned: states the alignment only when each id names exactly one streetlight. Otherwise the joined texts and the id list may not line up.
- Contrast.CalculateContrastHeuristics: a centre with no classified lights gets no contrast row at all, which is what the code does.
- Missing tables: only Distance.FlipCenterLights models an UPDATE on a table that does not exist. ContrastTable.LightsGeomUpdate, ContrastTable.ContrastTableUpdate and Contrast.AddDistances take their table as already created by the stage before them.

## Findings

| source | as written | input that shows it | evidently intended | confidence | as-written member | corrected member |
|---|---|---|---|---|---|---|
| src/night_light/GIS_predictor/contrast_table.py:37-41 | `get_coords` calls `Decimal`, which the file never imports, so every text with both '(' and ')' raises NameError. As a result, `classify_lights_table` fails at the first centre with a streetlight_geom. | `"POINT (1 2)"` | return the coordinates (1, 2) | not executed | ContrastTable.GetCoordsAsWrittenFails | ContrastTable.GetCoordsRoundTrip |
