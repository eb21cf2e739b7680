# geojson-pydantic geometry core in Dafny

This project models the coordinate and geometry layer of geojson-pydantic, the
pydantic models of GeoJSON (RFC 7946). It covers the following:

- **Coordinate types** (`types.dfy`, module `Types`). Position, BBox,
  LineStringCoords, LinearRing and the list aliases MultiPointCoords,
  MultiLineStringCoords, PolygonCoords and MultiPolygonCoords. Each is a
  validator from an untyped JSON tree (`json.dfy`, module `Json`) to a typed
  value or to the first error found. Each validator has an encoder that
  inverts it.
- **Geometry objects** (`geometries.dfy`, module `Geometries`). This part
  covers:
  - the six tagged kinds of the `Geometry` union;
  - the closure re-checks of Polygon and MultiPolygon;
  - `LinearRingGeom`;
  - `Polygon.exterior`, `interiors` and `from_bounds`;
  - `__geo_interface__`;
  - the `parse_geometry_obj` dispatcher on the exact `type` string;
  - `GeometryCollection`: `len`, indexing, iteration, its
    `__geo_interface__`, and the parsing of its members through the union.
- **Well-Known Text** (`wkt.dfy`, module `Wkt`). The text is shaped after
  OGC 06-103r4, Simple Feature Access Part 1, clause 7: the upper-cased type,
  then `" Z "` or `" "` chosen by the first position, then the parenthesised
  coordinate lists. A geometry without coordinates gets `" EMPTY"`. The
  coordinate lists are joined as the geometry models join them. That differs
  from the OGC grammar in one place: an empty polygon inside a MultiPolygon
  is written `()`, not `EMPTY`. Number formatting (`str(float)`) is the
  parameter `num: real -> string`. `Wkt.Wkt` and `Wkt.CollectionWkt` are the
  corrected texts (see "## Findings"), and the rest of the model uses them.
  `Wkt.WktAsWritten` and `Wkt.CollectionWktAsWritten` are the texts as the
  source computes them.

Validators return `Result<T>`, holding either `Ok(value)` or `Err(error)`.
The error is the first one the validator meets, in field order and then in
item order. `At(index, e)` and `InField(name, e)` give its location, as
pydantic's `loc` does.

A LinearRing is checked in this order:

1. it must be a list;
2. it must have at least 4 items;
3. the raw first and last items must be equal;
4. every item must be a position.

`LinearRing.__get_validators__` yields the list's own length validator and
then `closed_validator`. pydantic runs a constrained list's own validators
before it validates the items, so a ring that is too short reports its length,
and an open ring with a malformed middle item reports that it is not closed.

## Model

Functions whose meaning is stated by the lemmas about them have no row of
their own:
- `Wkt.Wkt` is the corrected `wkt` (geojson_pydantic/geometries.py:65-72),
  stated by `Wkt.WktEmptyIff`, `Wkt.ZMarkerIff`, `Wkt.WktBalanced` and
  `Wkt.WktAgreesWithAsWritten`.
- `Wkt.CollectionWkt` is the corrected `GeometryCollection.wkt`
  (geojson_pydantic/geometries.py:250-257), stated by
  `Wkt.CollectionWktEmptyIff`, `Wkt.CollectionWktBalanced` and
  `Wkt.CollectionWktAgreesWithAsWritten`.
- `Wkt.PositionWkt`, `Wkt.PositionListWkt`, `Wkt.LinesWkt` and
  `Wkt.PolygonsWkt` are the joins of geojson_pydantic/geometries.py:20-32 and
  205-208, stated by `Wkt.PositionListWktDecodes` and the parenthesis lemmas.
- `Geometries.GeoInterface` is `__geo_interface__`
  (geojson_pydantic/geometries.py:41-47), stated by
  `Geometries.GeoInterfaceRoundTrip`.
- `Geometries.GeometryCollection.Len` and `Geometries.GeometryCollection.Iter`
  are `len` and `iter` (geojson_pydantic/geometries.py:228-234), stated by
  `Geometries.IterationMatchesIndexing`.

| member | source | states |
|---|---|---|
| Types.ValidatePosition | geojson_pydantic/types.py:11 | A JSON value is accepted iff it is an array of exactly 2 or exactly 3 numbers. The position it yields encodes back to the very input. Anything else fails with BadPosition. |
| Types.PositionRoundTrip | geojson_pydantic/types.py:11 | Encoding a position of 2 or 3 numbers and validating the result gives the position back. |
| Types.PositionJsonInjective | geojson_pydantic/types.py:11 | Different positions have different JSON arrays, so comparing raw ends is the same as comparing positions. |
| Types.ValidateBBox | geojson_pydantic/types.py:7-10 | A value is accepted iff it is an array of exactly 4 or exactly 6 numbers, and it then encodes back to the input. Any other length fails with BadBBox. |
| Types.BBoxRoundTrip | geojson_pydantic/types.py:7-10 | A 4- or 6-number box encodes and validates back to itself. |
| Types.ValidateItems | geojson_pydantic/types.py:13 | A list is accepted iff every item is, and then holds the items' values in order. Otherwise the error names the first refused item, by index, with that item's own error. |
| Types.ValidateMultiPointCoords | geojson_pydantic/types.py:13 | Any array of valid positions is accepted, empty included. A non-array gives NotAList. A bad item gives the first failing index. Success encodes back to the input. |
| Types.MultiPointCoordsRoundTrip | geojson_pydantic/types.py:13 | Every list of positions validates back to itself. |
| Types.ValidateLineStringCoords | geojson_pydantic/types.py:50-55 | Fewer than 2 items fail with TooFew(2) before any item is looked at. Otherwise every item must be a position, with the first bad one reported. On success there are at least 2 valid positions that encode back to the input. |
| Types.LineStringCoordsRoundTrip | geojson_pydantic/types.py:50-55 | Every list of at least 2 positions validates back to itself. |
| Types.ValidateLinearRing | geojson_pydantic/types.py:29-47 | The checks run in order: NotAList; TooFew(4) for fewer than 4 items; NotClosed carrying exactly the raw first and last items when they differ; then the first bad position. On success the value is a closed ring of at least 4 positions, identical to the input. |
| Types.ClosedItemsMakeRing | geojson_pydantic/types.py:43-47 | Items that validate as positions, at least 4 of them, with equal first and last items, form a closed ring. |
| Types.LinearRingRoundTrip | geojson_pydantic/types.py:43-47 | Every closed ring of at least 4 positions passes the validator unchanged. |
| Types.OpenRingReportsEnds | geojson_pydantic/types.py:16-26 | Four positions whose first and last differ fail with NotClosed carrying exactly those two positions. |
| Types.ValidateMultiLineStringCoords | geojson_pydantic/types.py:58 | Any array of LineStringCoords is accepted. The first failing line is reported with its index. Success encodes back to the input. |
| Types.MultiLineStringCoordsRoundTrip | geojson_pydantic/types.py:58 | Every list of line strings validates back to itself. |
| Types.ValidatePolygonCoords | geojson_pydantic/types.py:60 | An array fails iff some ring fails, and the first such ring is reported. On success every ring is a LinearRing and the value encodes back to the input. |
| Types.PolygonCoordsRoundTrip | geojson_pydantic/types.py:60 | Every list of linear rings validates back to itself. |
| Types.ValidateMultiPolygonCoords | geojson_pydantic/types.py:61 | An array fails iff some polygon fails, and the first such polygon is reported. On success every ring of every polygon is a LinearRing. |
| Types.MultiPolygonCoordsRoundTrip | geojson_pydantic/types.py:61 | Every list of polygons validates back to itself. |
| Types.EmptyOuterListsAccepted | geojson_pydantic/types.py:58-61 | The outer lists of MultiLineString, Polygon and MultiPolygon coordinates, and of MultiPoint, have no minimum: `[]` is accepted by each. |
| Geometries.ValidateCoordinates | geojson_pydantic/geometries.py:75-216 | A kind's `coordinates` validate to a valid geometry of that kind whose coordinates encode back to the input. |
| Geometries.ValidatePolygon | geojson_pydantic/geometries.py:153-159 | An accepted Polygon is a polygon whose every ring is a LinearRing, encoding back to the input. |
| Geometries.ValidateMultiPolygon | geojson_pydantic/geometries.py:210-216 | An accepted MultiPolygon has every ring of every polygon a LinearRing, encoding back to the input. |
| Geometries.RingsOfPolygonClosed | geojson_pydantic/geometries.py:153-159 | Every ring of valid polygon coordinates is closed, so `check_closure` holds. |
| Geometries.PolygonRecheckRedundant | geojson_pydantic/geometries.py:153-159 | Polygon's closure re-check refuses nothing that PolygonCoords accepted: the geometry is accepted iff its coordinates are. |
| Geometries.MultiPolygonRecheckRedundant | geojson_pydantic/geometries.py:210-216 | The same holds for MultiPolygon's re-check over every ring of every polygon. |
| Geometries.ParseAs | geojson_pydantic/geometries.py:78-79 | `<Kind>.parse_obj`: on success the `type` key holds exactly the kind's literal, and `coordinates` holds the encoding of a valid geometry of that kind. A missing `type` or `coordinates` fails with FieldRequired at that key, and a wrong literal with WrongLiteral at `type`. With the right literal, the object is accepted iff its `coordinates` validate for the kind, and a coordinates error is reported at `coordinates`. |
| Geometries.CoordinatesRoundTrip | geojson_pydantic/geometries.py:41-47 | A valid geometry's coordinates validate back to the geometry under its own kind. |
| Geometries.KindRoundTrip | geojson_pydantic/geometries.py:75-216 | The same, for each kind separately. |
| Geometries.PolygonRoundTrip | geojson_pydantic/geometries.py:153-159 | Valid polygon coordinates pass the Polygon model unchanged. |
| Geometries.MultiPolygonRoundTrip | geojson_pydantic/geometries.py:210-216 | Valid multipolygon coordinates pass the MultiPolygon model unchanged. |
| Geometries.KindOfTag | geojson_pydantic/geometries.py:284-295 | A `type` value picks kind k iff it is exactly the string of k's tag. No other value picks a kind. |
| Geometries.ParseGeometryObj | geojson_pydantic/geometries.py:272-299 | A missing `type` fails with MissingType at `type`. A value equal to a tag is parsed as that kind. Any other value fails with UnknownType at `type`. A result is valid, its `type` is the input tag, and its coordinates encode back to the input. |
| Geometries.UnknownTags | geojson_pydantic/geometries.py:284-299 | "point", "POINT" and "GeometryCollection" all fail with "Unknown type": the match is exact and case-sensitive. |
| Geometries.ExtraKeysIgnored | geojson_pydantic/geometries.py:38-39 | Adding or replacing any key other than `type` and `coordinates` does not change how a geometry object parses: extra fields are ignored. |
| Geometries.GeoInterfaceRoundTrip | geojson_pydantic/geometries.py:41-47 | Parsing the `__geo_interface__` mapping of a valid geometry gives the geometry back. |
| Geometries.ParseLinearRingGeom | geojson_pydantic/geometries.py:135-144 | A LinearRingGeom is accepted iff the object parses as a LineString whose first and last positions are equal. Then it is that LineString. An open line fails with OpenRing at `coordinates`. |
| Geometries.LinearRingGeomMinimumIsTwo | geojson_pydantic/geometries.py:135-144 | `[p, p]` is a LinearRingGeom, although the LinearRing coordinate type refuses it with TooFew(4). |
| Geometries.Exterior | geojson_pydantic/geometries.py:161-164 | The exterior is none iff the polygon has no ring. Otherwise the exterior followed by the interiors is exactly the list of rings. |
| Geometries.Interiors | geojson_pydantic/geometries.py:166-171 | The interiors are the rings after the first, in order, and there are none when there is at most one ring. |
| Geometries.PolygonPartsAreRings | geojson_pydantic/geometries.py:161-171 | On a valid polygon, the exterior and every interior are linear rings. |
| Geometries.FromBounds | geojson_pydantic/geometries.py:181-191 | The result is a valid Polygon that parses back from its mapping. Its exterior is the five corners (xmin,ymin), (xmax,ymin), (xmax,ymax), (xmin,ymax), (xmin,ymin). It has no interiors. |
| Geometries.GeometryCollection.GetItem | geojson_pydantic/geometries.py:236-238 | An index succeeds iff it lies in [-len, len). A non-negative index gives that member. A negative index counts from the end. |
| Geometries.IterationMatchesIndexing | geojson_pydantic/geometries.py:228-238 | Iteration yields `len` members in stored order. The i-th equals `gc[i]` and `gc[i - len]`. `gc[len]` and `gc[-len-1]` fail. |
| Geometries.GeometryCollection.GeoInterface | geojson_pydantic/geometries.py:259-269 | The mapping holds the tag "GeometryCollection" and the stored geometries themselves, in iteration order. Encoded as JSON, it is the collection's JSON object, which `Geometries.CollectionRoundTrip` parses back. |
| Geometries.TryKinds | geojson_pydantic/geometries.py:219 | Trying union members in order gives a result of a tried kind, equal to that kind's own parse. It succeeds whenever some tried kind accepts. |
| Geometries.ParseMember | geojson_pydantic/geometries.py:226 | A collection member that parses is a valid geometry. |
| Geometries.UnionAgreesWithDispatch | geojson_pydantic/geometries.py:219-226 | Parsing through the `Geometry` union accepts exactly what `parse_geometry_obj` accepts, with the same result. |
| Geometries.NestedCollectionRefused | geojson_pydantic/geometries.py:219-226 | An object tagged "GeometryCollection" is not a member of a GeometryCollection. |
| Geometries.ParseGeometryCollection | geojson_pydantic/geometries.py:222-226 | On success the `type` key is the collection's literal, `geometries` is an array, and each stored geometry is the parse of the matching item, in order. Each is valid. With the right literal and an array under `geometries`, the object is accepted iff every item parses as a member geometry; otherwise the error is the first failing item's, reported at `geometries`. |
| Geometries.CollectionExtraKeysIgnored | geojson_pydantic/geometries.py:222-226 | Adding or replacing any key other than `type` and `geometries` does not change the collection's parse: extra fields are ignored. |
| Geometries.CollectionRoundTrip | geojson_pydantic/geometries.py:222-226 | A collection of valid geometries parses back from its JSON object. |
| Wkt.SplitJoin | geojson_pydantic/geometries.py:20-32 | Splitting a joined text at the separator gives the parts back, when no part holds the separator's first character. |
| Wkt.PositionListWktDecodes | geojson_pydantic/geometries.py:20-27 | With number texts free of spaces and commas, the text of a list of positions splits at ", " into the positions' texts. Each of those splits at " " into its numbers' texts, so nothing is lost or merged. |
| Wkt.WktTypeNames | geojson_pydantic/geometries.py:60-63 | The WKT names are POINT, MULTIPOINT, LINESTRING, MULTILINESTRING, POLYGON and MULTIPOLYGON. |
| Wkt.FirstOfLines | geojson_pydantic/geometries.py:128 | The first position found in a list of lines is the first position of their concatenation, or none if that is empty. |
| Wkt.FirstPosition | geojson_pydantic/geometries.py:87-202 | The first position of a geometry is the first of all its positions in order, or none when it has none. |
| Wkt.WktEmptyIff | geojson_pydantic/geometries.py:65-72 | The text is the type followed by " EMPTY" exactly when the coordinates are empty. |
| Wkt.ZMarkerIff | geojson_pydantic/geometries.py:65-72 | For non-empty coordinates, the character after the type and its space is `Z` exactly when the first position has three numbers. |
| Wkt.WktAsWritten | geojson_pydantic/geometries.py:200-202 | `wkt` as the source computes it, where the inset indexes the first item of each nesting level. None stands for IndexError. |
| Wkt.EmptyFirstPolygonBreaksWkt | geojson_pydantic/geometries.py:200-202 | MultiPolygon `[[]]` passes `parse_geometry_obj`, yet its `wkt` as written raises IndexError. |
| Wkt.WktAgreesWithAsWritten | geojson_pydantic/geometries.py:87-202 | On a valid geometry, the as-written `wkt` fails exactly for a non-empty MultiPolygon whose first polygon has no ring. Everywhere else it equals `Wkt`. |
| Wkt.WktBalanced | geojson_pydantic/geometries.py:20-72 | Every WKT text has as many "(" as ")", when the number texts do. |
| Wkt.CollectionWktEmptyIff | geojson_pydantic/geometries.py:250-257 | A collection's text is "GEOMETRYCOLLECTION EMPTY" exactly when it has no member. |
| Wkt.MemberTextsAsWritten | geojson_pydantic/geometries.py:245-248 | The members' as-written texts, in order. The result is none iff some member's as-written `wkt` raises. |
| Wkt.CollectionWktAgreesWithAsWritten | geojson_pydantic/geometries.py:245-257 | On valid members, `GeometryCollection.wkt` as written fails exactly when some member is a MultiPolygon whose first polygon is empty. Everywhere else it equals `CollectionWkt`. |
| Wkt.CollectionWithEmptyFirstPolygonBreaksWkt | geojson_pydantic/geometries.py:245-257 | A collection holding MultiPolygon `[[]]` parses back from its JSON object, yet its `wkt` as written raises IndexError. |
| Wkt.CollectionWktBalanced | geojson_pydantic/geometries.py:245-257 | A collection's text has as many "(" as ")". |

## Left out

- Coercion of raw values to float (a numeric string or a boolean accepted as a number) is not modelled. Only JSON numbers are numbers, and they are `real`, compared by equality.
- Error aggregation is not modelled. Each validator reports one error, the first, where pydantic collects all of them with their messages.
- Formatting numbers as text (`str(float)`) is the parameter `num`. Properties that need more of it state their assumption: no spaces or commas (`PlainNumbers`), or no unbalanced parentheses (`BalancedNumbers`).
- Geometries.GeometryCollection.GeoInterface: the list of member mappings that `__geo_interface__` builds in a loop and then discards is not modelled. The result, the tag and the stored geometries, is.
- Geometries.ParseAs: the `type` literal and the `coordinates` field are modelled as the two checks of `parse_obj`. pydantic's model machinery, `ErrorWrapper` and message texts are not.
- Geometries.GeometryCollection.GetItem: slices (`gc[1:3]`) are not modelled, only integer indices.
- Features, FeatureCollections and the adapter for third-party `__geo_interface__` objects are not part of this model.
- Decoding JSON text into the `Json` tree, and encoding it back, is not part of this model.
- Wkt.CollectionWktEmptyIff: the upper-cased "GEOMETRYCOLLECTION" is written as `Upper("GeometryCollection")` and is not spelled out by a lemma.
- Wkt.PositionListWktDecodes: only positions and lists of positions are shown to split back. The parenthesised lines and polygons are covered only by the parenthesis count (`Wkt.WktBalanced`).

## Findings

| source | as written | input that shows it | evidently intended | confidence | as-written member | corrected member |
|---|---|---|---|---|---|---|
| geojson_pydantic/geometries.py:200-202 | `MultiPolygon._wkt_inset` reads `coordinates[0][0][0]`. MultiPolygonCoords allows an empty polygon, because PolygonCoords has no minimum, and `wkt` only guards against empty `coordinates`. | `{"type": "MultiPolygon", "coordinates": [[]]}` validates, and then `.wkt` raises IndexError. | The minimal fix: keep the source's joins, so the empty polygon stays `()`, and take the Z marker from the first position present. | not executed | Wkt.EmptyFirstPolygonBreaksWkt | Wkt.WktAgreesWithAsWritten |
| geojson_pydantic/geometries.py:245-257 | `GeometryCollection._wkt_coordinates` calls each member's `wkt`, so the collection inherits the MultiPolygon failure. | A GeometryCollection whose one member is that MultiPolygon validates, and then `.wkt` raises IndexError. | The same minimal fix, applied to each member's text. | not executed | Wkt.CollectionWithEmptyFirstPolygonBreaksWkt | Wkt.CollectionWktAgreesWithAsWritten |
