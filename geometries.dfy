/** The GeoJSON geometry objects: the six kinds of the `Geometry` union, the
    validation each kind applies to its `coordinates`, the dispatcher that
    picks the kind from the `type` tag, and GeometryCollection. */
module Geometries {
  import opened Json
  import opened Types

  /** The six kinds of the `Geometry` union, in the union's order. */
  datatype Kind =
    | PointKind
    | MultiPointKind
    | LineStringKind
    | MultiLineStringKind
    | PolygonKind
    | MultiPolygonKind

  /** The literal each kind requires in its `type` key. */
  function Tag(k: Kind): string {
    match k
    case PointKind => "Point"
    case MultiPointKind => "MultiPoint"
    case LineStringKind => "LineString"
    case MultiLineStringKind => "MultiLineString"
    case PolygonKind => "Polygon"
    case MultiPolygonKind => "MultiPolygon"
  }

  /** A validated geometry: each kind with its typed coordinates. */
  datatype Geometry =
    | Point(position: Position)
    | MultiPoint(points: seq<Position>)
    | LineString(line: seq<Position>)
    | MultiLineString(lines: seq<seq<Position>>)
    | Polygon(rings: seq<seq<Position>>)
    | MultiPolygon(polygons: seq<seq<seq<Position>>>)

  function KindOf(g: Geometry): Kind {
    match g
    case Point(_) => PointKind
    case MultiPoint(_) => MultiPointKind
    case LineString(_) => LineStringKind
    case MultiLineString(_) => MultiLineStringKind
    case Polygon(_) => PolygonKind
    case MultiPolygon(_) => MultiPolygonKind
  }

  /** The geometry's `type` key. */
  function TypeName(g: Geometry): string {
    Tag(KindOf(g))
  }

  /** Every ring is closed: the check_closure re-check of Polygon. */
  predicate RingsClosed(rings: seq<seq<Position>>) {
    forall i :: 0 <= i < |rings| ==> IsClosed(rings[i])
  }

  /** Every ring of every polygon is closed: the re-check of MultiPolygon. */
  predicate PolygonsClosed(polygons: seq<seq<seq<Position>>>) {
    forall i :: 0 <= i < |polygons| ==> RingsClosed(polygons[i])
  }

  /** What validation guarantees of each kind's coordinates. */
  predicate Valid(g: Geometry) {
    match g
    case Point(p) => IsPosition(p)
    case MultiPoint(ps) => AllPositions(ps)
    case LineString(ps) => IsLineString(ps)
    case MultiLineString(ls) => IsMultiLineString(ls)
    case Polygon(rings) => IsPolygonCoords(rings)
    case MultiPolygon(polygons) => IsMultiPolygonCoords(polygons)
  }

  /** The geometry's `coordinates` as JSON. */
  function CoordinatesJson(g: Geometry): Json {
    match g
    case Point(p) => PositionJson(p)
    case MultiPoint(ps) => PositionsJson(ps)
    case LineString(ps) => PositionsJson(ps)
    case MultiLineString(ls) => LinesJson(ls)
    case Polygon(rings) => LinesJson(rings)
    case MultiPolygon(polygons) => PolygonsJson(polygons)
  }

  /** `__geo_interface__`: the mapping of `type` and `coordinates`. */
  function GeoInterface(g: Geometry): map<string, Json> {
    map["type" := JStr(TypeName(g)), "coordinates" := CoordinatesJson(g)]
  }

  /** Validation of the `coordinates` field of kind `k`: the field's type,
      then, for Polygon and MultiPolygon, the closure re-check. */
  function ValidateCoordinates(k: Kind, j: Json): (r: Result<Geometry>)
    ensures r.Ok? ==> KindOf(r.value) == k && Valid(r.value) && CoordinatesJson(r.value) == j
  {
    match k
    case PointKind =>
      (match ValidatePosition(j)
       case Err(e) => Err(e)
       case Ok(p) => Ok(Point(p)))
    case MultiPointKind =>
      (match ValidateMultiPointCoords(j)
       case Err(e) => Err(e)
       case Ok(ps) => Ok(MultiPoint(ps)))
    case LineStringKind =>
      (match ValidateLineStringCoords(j)
       case Err(e) => Err(e)
       case Ok(ps) => Ok(LineString(ps)))
    case MultiLineStringKind =>
      (match ValidateMultiLineStringCoords(j)
       case Err(e) => Err(e)
       case Ok(ls) => Ok(MultiLineString(ls)))
    case PolygonKind => ValidatePolygon(j)
    case MultiPolygonKind => ValidateMultiPolygon(j)
  }

  /** Polygon's `coordinates`: PolygonCoords, then `check_closure`. */
  function ValidatePolygon(j: Json): (r: Result<Geometry>)
    ensures r.Ok? ==> r.value.Polygon? && IsPolygonCoords(r.value.rings) && LinesJson(r.value.rings) == j
  {
    match ValidatePolygonCoords(j)
    case Err(e) => Err(e)
    case Ok(rings) => if !RingsClosed(rings) then Err(OpenRing) else Ok(Polygon(rings))
  }

  /** MultiPolygon's `coordinates`: MultiPolygonCoords, then `check_closure`. */
  function ValidateMultiPolygon(j: Json): (r: Result<Geometry>)
    ensures r.Ok? ==> r.value.MultiPolygon? && IsMultiPolygonCoords(r.value.polygons)
    ensures r.Ok? ==> PolygonsJson(r.value.polygons) == j
  {
    match ValidateMultiPolygonCoords(j)
    case Err(e) => Err(e)
    case Ok(polygons) =>
      if !PolygonsClosed(polygons) then Err(OpenRing) else Ok(MultiPolygon(polygons))
  }

  lemma RingsOfPolygonClosed(rings: seq<seq<Position>>)
    requires IsPolygonCoords(rings)
    ensures RingsClosed(rings)
  {
    forall i | 0 <= i < |rings| ensures IsClosed(rings[i]) {
      assert IsLinearRing(rings[i]);
    }
  }

  /** The closure re-check of Polygon never refuses what the ring type
      already accepted: every accepted ring is closed. */
  lemma PolygonRecheckRedundant(j: Json)
    ensures ValidatePolygon(j).Ok? <==> ValidatePolygonCoords(j).Ok?
  {
    var r := ValidatePolygonCoords(j);
    if r.Ok? {
      RingsOfPolygonClosed(r.value);
    }
  }

  /** Nor does the re-check of MultiPolygon. */
  lemma MultiPolygonRecheckRedundant(j: Json)
    ensures ValidateMultiPolygon(j).Ok? <==> ValidateMultiPolygonCoords(j).Ok?
  {
    var m := ValidateMultiPolygonCoords(j);
    if m.Ok? {
      forall i | 0 <= i < |m.value| ensures RingsClosed(m.value[i]) {
        RingsOfPolygonClosed(m.value[i]);
      }
    }
  }

  /** `<Kind>.parse_obj(obj)`: the `type` literal, then the `coordinates`
      field. */
  function ParseAs(k: Kind, obj: map<string, Json>): (r: Result<Geometry>)
    ensures r.Ok? ==> KindOf(r.value) == k && Valid(r.value)
    ensures r.Ok? ==> "type" in obj && obj["type"] == JStr(Tag(k))
    ensures r.Ok? ==> "coordinates" in obj && obj["coordinates"] == CoordinatesJson(r.value)
    ensures "type" !in obj ==> r == Err(InField("type", FieldRequired))
    ensures "type" in obj && obj["type"] != JStr(Tag(k)) ==> r == Err(InField("type", WrongLiteral(Tag(k))))
    ensures "type" in obj && obj["type"] == JStr(Tag(k)) && "coordinates" !in obj ==>
              r == Err(InField("coordinates", FieldRequired))
    ensures "type" in obj && obj["type"] == JStr(Tag(k)) && "coordinates" in obj ==>
              (r.Ok? <==> ValidateCoordinates(k, obj["coordinates"]).Ok?)
    ensures "type" in obj && obj["type"] == JStr(Tag(k)) && "coordinates" in obj
              && ValidateCoordinates(k, obj["coordinates"]).Err? ==>
              r == Err(InField("coordinates", ValidateCoordinates(k, obj["coordinates"]).error))
  {
    if "type" !in obj then Err(InField("type", FieldRequired))
    else if obj["type"] != JStr(Tag(k)) then Err(InField("type", WrongLiteral(Tag(k))))
    else if "coordinates" !in obj then Err(InField("coordinates", FieldRequired))
    else
      match ValidateCoordinates(k, obj["coordinates"])
      case Err(e) => Err(InField("coordinates", e))
      case Ok(g) => Ok(g)
  }

  /** A valid geometry's coordinates validate back to it under its own kind. */
  lemma CoordinatesRoundTrip(g: Geometry)
    requires Valid(g)
    ensures ValidateCoordinates(KindOf(g), CoordinatesJson(g)) == Ok(g)
  {
    KindRoundTrip(KindOf(g), g);
  }

  lemma KindRoundTrip(k: Kind, g: Geometry)
    requires Valid(g) && KindOf(g) == k
    ensures ValidateCoordinates(k, CoordinatesJson(g)) == Ok(g)
  {
    match g
    case Point(p) => PositionRoundTrip(p);
    case MultiPoint(ps) => MultiPointCoordsRoundTrip(ps);
    case LineString(ps) => LineStringCoordsRoundTrip(ps);
    case MultiLineString(ls) => MultiLineStringCoordsRoundTrip(ls);
    case Polygon(rings) => PolygonRoundTrip(rings);
    case MultiPolygon(polygons) => MultiPolygonRoundTrip(polygons);
  }

  lemma PolygonRoundTrip(rings: seq<seq<Position>>)
    requires IsPolygonCoords(rings)
    ensures ValidatePolygon(LinesJson(rings)) == Ok(Polygon(rings))
  {
    PolygonCoordsRoundTrip(rings);
    RingsOfPolygonClosed(rings);
  }

  lemma MultiPolygonRoundTrip(polygons: seq<seq<seq<Position>>>)
    requires IsMultiPolygonCoords(polygons)
    ensures ValidateMultiPolygon(PolygonsJson(polygons)) == Ok(MultiPolygon(polygons))
  {
    MultiPolygonCoordsRoundTrip(polygons);
    forall i | 0 <= i < |polygons| ensures RingsClosed(polygons[i]) {
      RingsOfPolygonClosed(polygons[i]);
    }
  }

  /** The comparisons of `parse_geometry_obj`: the value of `type` against
      each tag in turn, exactly. */
  function KindOfTag(t: Json): (r: Option<Kind>)
    ensures forall k :: r == Some(k) <==> t == JStr(Tag(k))
  {
    if t == JStr("Point") then Some(PointKind)
    else if t == JStr("MultiPoint") then Some(MultiPointKind)
    else if t == JStr("LineString") then Some(LineStringKind)
    else if t == JStr("MultiLineString") then Some(MultiLineStringKind)
    else if t == JStr("Polygon") then Some(PolygonKind)
    else if t == JStr("MultiPolygon") then Some(MultiPolygonKind)
    else None
  }

  /** `parse_geometry_obj`: a missing `type` key, then the kind whose tag
      `type` equals, else "Unknown type". */
  function ParseGeometryObj(obj: map<string, Json>): (r: Result<Geometry>)
    ensures "type" !in obj ==> r == Err(InField("type", MissingType))
    ensures "type" in obj && (forall k :: obj["type"] != JStr(Tag(k))) ==>
              r == Err(InField("type", UnknownType))
    ensures forall k :: "type" in obj && obj["type"] == JStr(Tag(k)) ==> r == ParseAs(k, obj)
    ensures r.Ok? ==> "type" in obj && obj["type"] == JStr(TypeName(r.value))
    ensures r.Ok? ==> Valid(r.value) && "coordinates" in obj && obj["coordinates"] == CoordinatesJson(r.value)
  {
    if "type" !in obj then
      Err(InField("type", MissingType))
    else
      match KindOfTag(obj["type"])
      case Some(k) => ParseAs(k, obj)
      case None => Err(InField("type", UnknownType))
  }

  /** The match is exact and case-sensitive, and GeometryCollection is not
      one of the six tags. */
  lemma UnknownTags(obj: map<string, Json>)
    requires "type" in obj
    requires obj["type"] == JStr("point") || obj["type"] == JStr("POINT")
          || obj["type"] == JStr("GeometryCollection")
    ensures ParseGeometryObj(obj) == Err(InField("type", UnknownType))
  {
    forall k ensures obj["type"] != JStr(Tag(k)) {
      match k
      case PointKind => assert "Point"[0] != "point"[0];
      case _ =>
    }
  }

  /** Parsing the `__geo_interface__` of a valid geometry gives it back. */
  lemma GeoInterfaceRoundTrip(g: Geometry)
    requires Valid(g)
    ensures ParseGeometryObj(GeoInterface(g)) == Ok(g)
  {
    CoordinatesRoundTrip(g);
  }

  // ---------------------------------------------------------------------
  // LinearRingGeom

  /** `LinearRingGeom.parse_obj`: a LineString (so at least 2 positions)
      whose first and last positions are equal. */
  function ParseLinearRingGeom(obj: map<string, Json>): (r: Result<Geometry>)
    ensures r.Ok? <==> ParseAs(LineStringKind, obj).Ok? && IsClosed(ParseAs(LineStringKind, obj).value.line)
    ensures r.Ok? ==> r == ParseAs(LineStringKind, obj)
    ensures ParseAs(LineStringKind, obj).Ok? && r.Err? ==> r.error == InField("coordinates", OpenRing)
  {
    var r := ParseAs(LineStringKind, obj);
    if r.Ok? && !IsClosed(r.value.line) then Err(InField("coordinates", OpenRing)) else r
  }

  /** A LinearRingGeom needs only two positions: `[p, p]` is accepted,
      though the LinearRing coordinate type refuses it as too short. */
  lemma LinearRingGeomMinimumIsTwo(p: Position)
    requires IsPosition(p)
    ensures ParseLinearRingGeom(GeoInterface(LineString([p, p]))) == Ok(LineString([p, p]))
    ensures ValidateLinearRing(PositionsJson([p, p])) == Err(TooFew(4))
  {
    GeoInterfaceRoundTrip(LineString([p, p]));
  }

  // ---------------------------------------------------------------------
  // Polygon

  /** `Polygon.exterior`: the first ring, or none when there are no rings. */
  function Exterior(g: Geometry): (r: Option<seq<Position>>)
    requires g.Polygon?
    ensures r.None? <==> |g.rings| == 0
    ensures r.Some? ==> [r.value] + Interiors(g) == g.rings
  {
    if |g.rings| > 0 then Some(g.rings[0]) else None
  }

  /** `Polygon.interiors`: the rings after the first, in order. */
  function Interiors(g: Geometry): (r: seq<seq<Position>>)
    requires g.Polygon?
    ensures |r| == if |g.rings| > 1 then |g.rings| - 1 else 0
    ensures forall i :: 0 <= i < |r| ==> r[i] == g.rings[i + 1]
  {
    if |g.rings| > 1 then g.rings[1..] else []
  }

  /** The exterior and the holes of a valid polygon are linear rings. */
  lemma PolygonPartsAreRings(g: Geometry)
    requires g.Polygon? && Valid(g)
    ensures Exterior(g).Some? ==> IsLinearRing(Exterior(g).value)
    ensures forall i :: 0 <= i < |Interiors(g)| ==> IsLinearRing(Interiors(g)[i])
  {
    var holes := Interiors(g);
    forall i | 0 <= i < |holes| ensures IsLinearRing(holes[i]) {
      assert holes[i] == g.rings[i + 1];
    }
  }

  /** `Polygon.from_bounds`: the polygon whose one ring runs through the
      corners of the box and back to the first; it passes validation. */
  function FromBounds(xmin: real, ymin: real, xmax: real, ymax: real): (g: Geometry)
    ensures g.Polygon? && Valid(g) && ParseGeometryObj(GeoInterface(g)) == Ok(g)
    ensures Exterior(g) == Some([[xmin, ymin], [xmax, ymin], [xmax, ymax], [xmin, ymax], [xmin, ymin]])
    ensures Interiors(g) == []
  {
    var g := Polygon([[[xmin, ymin], [xmax, ymin], [xmax, ymax], [xmin, ymax], [xmin, ymin]]]);
    GeoInterfaceRoundTrip(g);
    g
  }

  // ---------------------------------------------------------------------
  // GeometryCollection

  /** A GeometryCollection: its `geometries`, in stored order. */
  datatype GeometryCollection = GeometryCollection(geometries: seq<Geometry>) {

    /** `len(gc)`. */
    function Len(): nat {
      |geometries|
    }

    /** `gc[index]`, with Python's negative indices; none where Python
        raises IndexError. */
    function GetItem(index: int): (r: Option<Geometry>)
      ensures r.Some? <==> -|geometries| <= index < |geometries|
      ensures 0 <= index < |geometries| ==> r == Some(geometries[index])
      ensures -|geometries| <= index < 0 ==> r == Some(geometries[|geometries| + index])
    {
      if 0 <= index < |geometries| then Some(geometries[index])
      else if -|geometries| <= index < 0 then Some(geometries[|geometries| + index])
      else None
    }

    /** `iter(gc)`: the members in stored order. */
    function Iter(): seq<Geometry> {
      geometries
    }

    /** `__geo_interface__`: the tag and the stored geometries themselves. */
    function GeoInterface(): (r: (string, seq<Geometry>))
      ensures r.0 == "GeometryCollection" && r.1 == Iter()
      ensures map["type" := JStr(r.0), "geometries" := ListOf(r.1, GeometryJson)] == CollectionJson(this)
    {
      ("GeometryCollection", geometries)
    }
  }

  /** Iteration, `len` and indexing agree: iteration yields `Len()` members,
      the i-th being `gc[i]` and also `gc[i - len(gc)]`; `gc[len(gc)]` fails. */
  lemma IterationMatchesIndexing(gc: GeometryCollection)
    ensures |gc.Iter()| == gc.Len()
    ensures forall i :: 0 <= i < gc.Len() ==> gc.GetItem(i) == Some(gc.Iter()[i])
    ensures forall i :: 0 <= i < gc.Len() ==> gc.GetItem(i - gc.Len()) == gc.GetItem(i)
    ensures gc.GetItem(gc.Len()) == None && gc.GetItem(-(gc.Len() as int) - 1) == None
  {
  }

  /** The order in which the `Geometry` union tries its members. */
  const UnionOrder: seq<Kind> :=
    [PointKind, MultiPointKind, LineStringKind, MultiLineStringKind, PolygonKind, MultiPolygonKind]

  /** Tries the kinds in turn and keeps the first that accepts `obj`. */
  function TryKinds(obj: map<string, Json>, kinds: seq<Kind>): (r: Result<Geometry>)
    ensures r.Ok? ==> KindOf(r.value) in kinds && r == ParseAs(KindOf(r.value), obj)
    ensures (exists i :: 0 <= i < |kinds| && ParseAs(kinds[i], obj).Ok?) ==> r.Ok?
    decreases |kinds|
  {
    if kinds == [] then Err(NoMatchingVariant)
    else
      var r := ParseAs(kinds[0], obj);
      if r.Ok? then r
      else
        var rest := TryKinds(obj, kinds[1..]);
        assert forall i :: 1 <= i < |kinds| ==> kinds[i] == kinds[1..][i - 1];
        rest
  }

  /** One item of `geometries: List[Geometry]`: an object that some member
      of the union accepts. */
  function ParseMember(j: Json): (r: Result<Geometry>)
    ensures r.Ok? ==> Valid(r.value)
  {
    if !j.JObj? then Err(NoMatchingVariant) else TryKinds(j.fields, UnionOrder)
  }

  /** Trying the union members in order accepts exactly what
      `parse_geometry_obj` accepts, with the same result. */
  lemma UnionAgreesWithDispatch(obj: map<string, Json>)
    ensures ParseMember(JObj(obj)).Ok? <==> ParseGeometryObj(obj).Ok?
    ensures ParseGeometryObj(obj).Ok? ==> ParseMember(JObj(obj)) == ParseGeometryObj(obj)
  {
    var d := ParseGeometryObj(obj);
    var u := ParseMember(JObj(obj));
    if d.Ok? {
      var k := KindOf(d.value);
      assert d == ParseAs(k, obj);
      var i := match k
        case PointKind => 0
        case MultiPointKind => 1
        case LineStringKind => 2
        case MultiLineStringKind => 3
        case PolygonKind => 4
        case MultiPolygonKind => 5;
      assert UnionOrder[i] == k;
    }
    if u.Ok? {
      var k := KindOf(u.value);
      assert obj["type"] == JStr(Tag(k));
      assert d == ParseAs(k, obj);
    }
  }

  /** A GeometryCollection cannot hold another GeometryCollection. */
  lemma NestedCollectionRefused(obj: map<string, Json>)
    requires "type" in obj && obj["type"] == JStr("GeometryCollection")
    ensures ParseMember(JObj(obj)).Err?
  {
    UnknownTags(obj);
    UnionAgreesWithDispatch(obj);
  }

  /** `GeometryCollection.parse_obj`: the `type` literal, then `geometries`,
      a list whose every item is a member of the union. */
  function ParseGeometryCollection(obj: map<string, Json>): (r: Result<GeometryCollection>)
    ensures r.Ok? ==> "type" in obj && obj["type"] == JStr("GeometryCollection")
    ensures "type" in obj && obj["type"] == JStr("GeometryCollection") && "geometries" in obj
              && obj["geometries"].JArr? ==>
              (r.Ok? <==> forall i :: 0 <= i < |obj["geometries"].items| ==> ParseMember(obj["geometries"].items[i]).Ok?)
    ensures "type" in obj && obj["type"] == JStr("GeometryCollection") && "geometries" in obj
              && obj["geometries"].JArr? && r.Err? ==>
              r.error.InField? && r.error.name == "geometries"
              && FirstFailure(obj["geometries"].items, ParseMember, r.error.inner)
    ensures r.Ok? ==> forall i :: 0 <= i < |r.value.geometries| ==> Valid(r.value.geometries[i])
    ensures r.Ok? ==> "geometries" in obj && obj["geometries"].JArr?
                      && |r.value.geometries| == |obj["geometries"].items|
                      && forall i :: 0 <= i < |r.value.geometries| ==>
                           ParseMember(obj["geometries"].items[i]) == Ok(r.value.geometries[i])
  {
    if "type" !in obj then Err(InField("type", FieldRequired))
    else if obj["type"] != JStr("GeometryCollection") then
      Err(InField("type", WrongLiteral("GeometryCollection")))
    else if "geometries" !in obj then Err(InField("geometries", FieldRequired))
    else if !obj["geometries"].JArr? then Err(InField("geometries", NotAList))
    else
      match ValidateItems(obj["geometries"].items, ParseMember)
      case Err(e) => Err(InField("geometries", e))
      case Ok(gs) =>
        assert forall i :: 0 <= i < |gs| ==> ParseMember(obj["geometries"].items[i]) == Ok(gs[i]);
        Ok(GeometryCollection(gs))
  }

  /** Keys other than `type` and `coordinates` are ignored, as a model
      that does not forbid extra fields ignores them. */
  lemma ExtraKeysIgnored(obj: map<string, Json>, key: string, v: Json)
    requires key != "type" && key != "coordinates"
    ensures ParseGeometryObj(obj[key := v]) == ParseGeometryObj(obj)
  {
    var o := obj[key := v];
    assert ("type" in o) == ("type" in obj);
    assert ("coordinates" in o) == ("coordinates" in obj);
    if "type" in obj {
      assert o["type"] == obj["type"];
    }
    if "coordinates" in obj {
      assert o["coordinates"] == obj["coordinates"];
    }
    forall k ensures ParseAs(k, o) == ParseAs(k, obj) {
    }
  }

  /** Keys other than `type` and `geometries` are ignored by the collection. */
  lemma CollectionExtraKeysIgnored(obj: map<string, Json>, key: string, v: Json)
    requires key != "type" && key != "geometries"
    ensures ParseGeometryCollection(obj[key := v]) == ParseGeometryCollection(obj)
  {
    var o := obj[key := v];
    assert ("type" in o) == ("type" in obj);
    assert ("geometries" in o) == ("geometries" in obj);
    if "type" in obj {
      assert o["type"] == obj["type"];
    }
    if "geometries" in obj {
      assert o["geometries"] == obj["geometries"];
    }
  }

  /** A geometry as the JSON object of its `__geo_interface__`. */
  function GeometryJson(g: Geometry): Json {
    JObj(GeoInterface(g))
  }

  /** The JSON object of a GeometryCollection. */
  function CollectionJson(gc: GeometryCollection): map<string, Json> {
    map["type" := JStr("GeometryCollection"), "geometries" := ListOf(gc.geometries, GeometryJson)]
  }

  /** A collection of valid geometries parses back from its JSON object. */
  lemma CollectionRoundTrip(gc: GeometryCollection)
    requires forall i :: 0 <= i < |gc.geometries| ==> Valid(gc.geometries[i])
    ensures ParseGeometryCollection(CollectionJson(gc)) == Ok(gc)
  {
    var gs := gc.geometries;
    forall i | 0 <= i < |gs| ensures ParseMember(GeometryJson(gs[i])) == Ok(gs[i]) {
      GeoInterfaceRoundTrip(gs[i]);
      UnionAgreesWithDispatch(GeoInterface(gs[i]));
    }
    ItemsRoundTrip(gs, ParseMember, GeometryJson);
  }
}
