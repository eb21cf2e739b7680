/** The coordinate types of GeoJSON (RFC 7946): positions, bounding boxes and
    the nested position lists of each geometry kind, each with the validator
    that turns an untyped JSON value into it or reports why it cannot. */
module Types {
  import opened Json

  /** Why a value was refused. `At` and `InField` locate a failure inside a
      list or an object, like the location path of a validation error. */
  datatype Error =
    | NotAList                            // a list was required
    | TooFew(min: nat)                    // fewer items than the list's minimum
    | BadPosition                         // not a pair or a triple of numbers
    | BadBBox                             // not 4 or 6 numbers
    | NotClosed(first: Json, last: Json)  // a LinearRing whose ends differ
    | OpenRing                            // a geometry's closure re-check failed
    | FieldRequired                       // a required key is missing
    | WrongLiteral(expected: string)      // the `type` key holds another tag
    | MissingType                         // parse_geometry_obj: no `type` key
    | UnknownType                         // parse_geometry_obj: no kind has this tag
    | NoMatchingVariant                   // no member of a union accepted the value
    | At(index: nat, inner: Error)
    | InField(name: string, inner: Error)

  datatype Result<+T> = Ok(value: T) | Err(error: Error)

  datatype Option<+T> = None | Some(value: T)

  // ---------------------------------------------------------------------
  // Positions and bounding boxes (RFC 7946 sections 3.1.1 and 5)

  /** A position: longitude, latitude and an optional elevation. */
  type Position = seq<real>

  predicate IsPosition(p: Position) {
    |p| == 2 || |p| == 3
  }

  predicate AllNumbers(items: seq<Json>) {
    forall i :: 0 <= i < |items| ==> items[i].JNum?
  }

  function Numbers(items: seq<Json>): seq<real>
    requires AllNumbers(items)
  {
    seq(|items|, i requires 0 <= i < |items| => items[i].num)
  }

  /** The JSON array of a position's numbers. */
  function PositionJson(p: Position): Json {
    JArr(seq(|p|, i requires 0 <= i < |p| => JNum(p[i])))
  }

  /** `Position`: a tuple of two or of three numbers. */
  function ValidatePosition(j: Json): (r: Result<Position>)
    ensures r.Ok? <==> j.JArr? && (|j.items| == 2 || |j.items| == 3) && AllNumbers(j.items)
    ensures r.Ok? ==> IsPosition(r.value) && PositionJson(r.value) == j
    ensures r.Err? ==> r.error == BadPosition
  {
    if j.JArr? && (|j.items| == 2 || |j.items| == 3) && AllNumbers(j.items) then
      var p := Numbers(j.items);
      assert PositionJson(p).items == j.items;
      Ok(p)
    else
      Err(BadPosition)
  }

  lemma PositionRoundTrip(p: Position)
    requires IsPosition(p)
    ensures ValidatePosition(PositionJson(p)) == Ok(p)
  {
    var j := PositionJson(p);
    assert AllNumbers(j.items);
    assert Numbers(j.items) == p;
  }

  /** Different positions have different JSON arrays. */
  lemma PositionJsonInjective(p: Position, q: Position)
    ensures PositionJson(p) == PositionJson(q) ==> p == q
  {
    if PositionJson(p) == PositionJson(q) {
      assert |p| == |PositionJson(p).items| == |q|;
      forall i | 0 <= i < |p| ensures p[i] == q[i] {
        assert PositionJson(p).items[i] == JNum(p[i]);
        assert PositionJson(q).items[i] == JNum(q[i]);
      }
    }
  }

  /** A bounding box: (xmin, ymin, xmax, ymax) or, in 3D,
      (xmin, ymin, zmin, xmax, ymax, zmax). */
  type BBox = seq<real>

  predicate IsBBox(b: BBox) {
    |b| == 4 || |b| == 6
  }

  function BBoxJson(b: BBox): Json {
    JArr(seq(|b|, i requires 0 <= i < |b| => JNum(b[i])))
  }

  /** `BBox`: a tuple of four or of six numbers. */
  function ValidateBBox(j: Json): (r: Result<BBox>)
    ensures r.Ok? <==> j.JArr? && (|j.items| == 4 || |j.items| == 6) && AllNumbers(j.items)
    ensures r.Ok? ==> IsBBox(r.value) && BBoxJson(r.value) == j
    ensures r.Err? ==> r.error == BadBBox
  {
    if j.JArr? && (|j.items| == 4 || |j.items| == 6) && AllNumbers(j.items) then
      var b := Numbers(j.items);
      assert BBoxJson(b).items == j.items;
      Ok(b)
    else
      Err(BadBBox)
  }

  lemma BBoxRoundTrip(b: BBox)
    requires IsBBox(b)
    ensures ValidateBBox(BBoxJson(b)) == Ok(b)
  {
    var j := BBoxJson(b);
    assert AllNumbers(j.items);
    assert Numbers(j.items) == b;
  }

  // ---------------------------------------------------------------------
  // Validating the items of a list

  /** `e` reports the first item of `items` that `check` refuses. */
  predicate FirstFailure<T>(items: seq<Json>, check: Json -> Result<T>, e: Error) {
    && e.At?
    && e.index < |items|
    && check(items[e.index]) == Err(e.inner)
    && forall i :: 0 <= i < e.index ==> check(items[i]).Ok?
  }

  /** Validates every item of a list with the item type's validator; the
      list is accepted iff every item is, and then holds the validated items
      in order; otherwise the first refused item is reported at its index. */
  function ValidateItems<T>(items: seq<Json>, check: Json -> Result<T>): (r: Result<seq<T>>)
    ensures r.Ok? <==> forall i :: 0 <= i < |items| ==> check(items[i]).Ok?
    ensures r.Ok? ==> |r.value| == |items|
    ensures r.Ok? ==> forall i :: 0 <= i < |items| ==> check(items[i]) == Ok(r.value[i])
    ensures r.Err? ==> FirstFailure(items, check, r.error)
    decreases |items|
  {
    if items == [] then Ok([])
    else
      match check(items[0])
      case Err(e) => Err(At(0, e))
      case Ok(x) =>
        var rest := ValidateItems(items[1..], check);
        if rest.Err? then
          var k := rest.error.index;
          assert forall i :: 1 <= i <= k ==> check(items[i]) == check(items[1..][i - 1]);
          Err(At(k + 1, rest.error.inner))
        else
          assert forall i :: 1 <= i < |items| ==> check(items[i]) == check(items[1..][i - 1]);
          Ok([x] + rest.value)
  }

  /** When each item decodes to the matching value of `xs` and `encode`
      inverts the item validator, `xs` encodes back to the very list. */
  lemma ItemsEncodeBack<T>(items: seq<Json>, check: Json -> Result<T>, encode: T -> Json, xs: seq<T>)
    requires |xs| == |items|
    requires forall i :: 0 <= i < |items| ==> check(items[i]) == Ok(xs[i])
    requires forall i :: 0 <= i < |items| ==> encode(xs[i]) == items[i]
    ensures ListOf(xs, encode) == JArr(items)
  {
    assert ListOf(xs, encode).items == items;
  }

  /** A list of encoded values whose every item validates back to itself
      validates back to the whole list. */
  lemma ItemsRoundTrip<T>(xs: seq<T>, check: Json -> Result<T>, encode: T -> Json)
    requires forall i :: 0 <= i < |xs| ==> check(encode(xs[i])) == Ok(xs[i])
    ensures ValidateItems(ListOf(xs, encode).items, check) == Ok(xs)
  {
    var items := ListOf(xs, encode).items;
    var r := ValidateItems(items, check);
    assert forall i :: 0 <= i < |items| ==> check(items[i]) == Ok(xs[i]);
    assert r.value == xs;
  }

  // ---------------------------------------------------------------------
  // Position lists

  predicate AllPositions(ps: seq<Position>) {
    forall i :: 0 <= i < |ps| ==> IsPosition(ps[i])
  }

  function PositionsJson(ps: seq<Position>): Json {
    ListOf(ps, PositionJson)
  }

  /** Decoding a list of positions gives back a list that encodes to it. */
  lemma PositionsEncodeBack(items: seq<Json>, ps: seq<Position>)
    requires ValidateItems(items, ValidatePosition) == Ok(ps)
    ensures AllPositions(ps) && PositionsJson(ps) == JArr(items)
  {
    forall i | 0 <= i < |items|
      ensures IsPosition(ps[i]) && PositionJson(ps[i]) == items[i]
    {
      assert ValidatePosition(items[i]) == Ok(ps[i]);
    }
    ItemsEncodeBack(items, ValidatePosition, PositionJson, ps);
  }

  lemma PositionsRoundTrip(ps: seq<Position>)
    requires AllPositions(ps)
    ensures ValidateItems(PositionsJson(ps).items, ValidatePosition) == Ok(ps)
  {
    forall i | 0 <= i < |ps| ensures ValidatePosition(PositionJson(ps[i])) == Ok(ps[i]) {
      PositionRoundTrip(ps[i]);
    }
    ItemsRoundTrip(ps, ValidatePosition, PositionJson);
  }

  /** `MultiPointCoords`: a list of positions, with no minimum length. */
  function ValidateMultiPointCoords(j: Json): (r: Result<seq<Position>>)
    ensures r.Ok? ==> AllPositions(r.value) && PositionsJson(r.value) == j
    ensures !j.JArr? ==> r == Err(NotAList)
    ensures j.JArr? && r.Err? ==> FirstFailure(j.items, ValidatePosition, r.error)
  {
    if !j.JArr? then Err(NotAList)
    else
      var r := ValidateItems(j.items, ValidatePosition);
      if r.Ok? then PositionsEncodeBack(j.items, r.value); r else r
  }

  lemma MultiPointCoordsRoundTrip(ps: seq<Position>)
    requires AllPositions(ps)
    ensures ValidateMultiPointCoords(PositionsJson(ps)) == Ok(ps)
  {
    PositionsRoundTrip(ps);
  }

  /** RFC 7946 section 3.1.4: two or more positions. */
  predicate IsLineString(ps: seq<Position>) {
    |ps| >= 2 && AllPositions(ps)
  }

  /** `LineStringCoords`: a list of at least 2 positions. The length is
      checked before any item. */
  function ValidateLineStringCoords(j: Json): (r: Result<seq<Position>>)
    ensures r.Ok? ==> IsLineString(r.value) && PositionsJson(r.value) == j
    ensures !j.JArr? ==> r == Err(NotAList)
    ensures j.JArr? && |j.items| < 2 ==> r == Err(TooFew(2))
    ensures j.JArr? && |j.items| >= 2 && r.Err? ==> FirstFailure(j.items, ValidatePosition, r.error)
  {
    if !j.JArr? then Err(NotAList)
    else if |j.items| < 2 then Err(TooFew(2))
    else
      var r := ValidateItems(j.items, ValidatePosition);
      if r.Ok? then PositionsEncodeBack(j.items, r.value); r else r
  }

  lemma LineStringCoordsRoundTrip(ps: seq<Position>)
    requires IsLineString(ps)
    ensures ValidateLineStringCoords(PositionsJson(ps)) == Ok(ps)
  {
    PositionsRoundTrip(ps);
  }

  /** The first and the last position are the same. */
  predicate IsClosed(ps: seq<Position>) {
    |ps| > 0 && ps[0] == ps[|ps| - 1]
  }

  /** RFC 7946 section 3.1.6: four or more positions, first equal to last. */
  predicate IsLinearRing(ps: seq<Position>) {
    |ps| >= 4 && AllPositions(ps) && IsClosed(ps)
  }

  /** `LinearRing`: the list's length (at least 4), then closure on the raw
      first and last items, then every item as a position. On success the
      ring is the input, unchanged. */
  function ValidateLinearRing(j: Json): (r: Result<seq<Position>>)
    ensures r.Ok? ==> IsLinearRing(r.value) && PositionsJson(r.value) == j
    ensures !j.JArr? ==> r == Err(NotAList)
    ensures j.JArr? && |j.items| < 4 ==> r == Err(TooFew(4))
    ensures j.JArr? && |j.items| >= 4 && j.items[0] != j.items[|j.items| - 1] ==>
              r == Err(NotClosed(j.items[0], j.items[|j.items| - 1]))
    ensures j.JArr? && |j.items| >= 4 && j.items[0] == j.items[|j.items| - 1] && r.Err? ==>
              FirstFailure(j.items, ValidatePosition, r.error)
  {
    if !j.JArr? then Err(NotAList)
    else if |j.items| < 4 then Err(TooFew(4))
    else if j.items[0] != j.items[|j.items| - 1] then
      Err(NotClosed(j.items[0], j.items[|j.items| - 1]))
    else
      var r := ValidateItems(j.items, ValidatePosition);
      if r.Ok? then ClosedItemsMakeRing(j.items, r.value); PositionsEncodeBack(j.items, r.value); r else r
  }

  /** Items that validate as positions, at least four and with equal ends,
      give a closed ring of at least four positions. */
  lemma ClosedItemsMakeRing(items: seq<Json>, ring: seq<Position>)
    requires |items| >= 4 && |ring| == |items| && items[0] == items[|items| - 1]
    requires forall m :: 0 <= m < |items| ==> ValidatePosition(items[m]) == Ok(ring[m])
    ensures |ring| >= 4 && IsClosed(ring)
  {
    var n := |items| - 1;
    assert ValidatePosition(items[0]) == Ok(ring[0]);
    assert ValidatePosition(items[n]) == Ok(ring[n]);
  }

  lemma LinearRingRoundTrip(ps: seq<Position>)
    requires IsLinearRing(ps)
    ensures ValidateLinearRing(PositionsJson(ps)) == Ok(ps)
  {
    var j := PositionsJson(ps);
    var last := |ps| - 1;
    assert j.items[0] == PositionJson(ps[0]);
    assert j.items[last] == PositionJson(ps[last]);
    assert j.items[0] == j.items[|j.items| - 1];
    PositionsRoundTrip(ps);
  }

  /** A 4-position list whose ends differ is refused for not being closed,
      and the error carries its two ends, whatever the middle holds. */
  lemma OpenRingReportsEnds(a: Position, b: Position, c: Position, d: Position)
    requires a != d
    ensures ValidateLinearRing(PositionsJson([a, b, c, d])) ==
              Err(NotClosed(PositionJson(a), PositionJson(d)))
  {
    var j := PositionsJson([a, b, c, d]);
    assert j.items[0] == PositionJson(a) && j.items[3] == PositionJson(d);
    PositionJsonInjective(a, d);
  }

  // ---------------------------------------------------------------------
  // Lists of lines, of rings and of polygons

  predicate IsMultiLineString(ls: seq<seq<Position>>) {
    forall i :: 0 <= i < |ls| ==> IsLineString(ls[i])
  }

  predicate IsPolygonCoords(rings: seq<seq<Position>>) {
    forall i :: 0 <= i < |rings| ==> IsLinearRing(rings[i])
  }

  predicate IsMultiPolygonCoords(ps: seq<seq<seq<Position>>>) {
    forall i :: 0 <= i < |ps| ==> IsPolygonCoords(ps[i])
  }

  function LinesJson(ls: seq<seq<Position>>): Json {
    ListOf(ls, PositionsJson)
  }

  function PolygonsJson(ps: seq<seq<seq<Position>>>): Json {
    ListOf(ps, LinesJson)
  }

  /** `MultiLineStringCoords`: a list, of any length, of LineStringCoords. */
  function ValidateMultiLineStringCoords(j: Json): (r: Result<seq<seq<Position>>>)
    ensures r.Ok? ==> IsMultiLineString(r.value) && LinesJson(r.value) == j
    ensures !j.JArr? ==> r == Err(NotAList)
    ensures j.JArr? && r.Err? ==> FirstFailure(j.items, ValidateLineStringCoords, r.error)
  {
    if !j.JArr? then Err(NotAList)
    else
      var r := ValidateItems(j.items, ValidateLineStringCoords);
      if r.Ok? then
        forall i | 0 <= i < |j.items|
          ensures IsLineString(r.value[i]) && PositionsJson(r.value[i]) == j.items[i]
        {
          assert ValidateLineStringCoords(j.items[i]) == Ok(r.value[i]);
        }
        ItemsEncodeBack(j.items, ValidateLineStringCoords, PositionsJson, r.value);
        r
      else r
  }

  lemma MultiLineStringCoordsRoundTrip(ls: seq<seq<Position>>)
    requires IsMultiLineString(ls)
    ensures ValidateMultiLineStringCoords(LinesJson(ls)) == Ok(ls)
  {
    forall i | 0 <= i < |ls| ensures ValidateLineStringCoords(PositionsJson(ls[i])) == Ok(ls[i]) {
      LineStringCoordsRoundTrip(ls[i]);
    }
    ItemsRoundTrip(ls, ValidateLineStringCoords, PositionsJson);
  }

  /** `PolygonCoords`: a list, of any length, of LinearRings. It fails iff
      some ring fails, and then reports the first such ring. */
  function ValidatePolygonCoords(j: Json): (r: Result<seq<seq<Position>>>)
    ensures r.Ok? ==> IsPolygonCoords(r.value) && LinesJson(r.value) == j
    ensures !j.JArr? ==> r == Err(NotAList)
    ensures j.JArr? ==> (r.Ok? <==> forall i :: 0 <= i < |j.items| ==> ValidateLinearRing(j.items[i]).Ok?)
    ensures j.JArr? && r.Err? ==> FirstFailure(j.items, ValidateLinearRing, r.error)
  {
    if !j.JArr? then Err(NotAList)
    else
      var r := ValidateItems(j.items, ValidateLinearRing);
      if r.Ok? then
        forall i | 0 <= i < |j.items|
          ensures IsLinearRing(r.value[i]) && PositionsJson(r.value[i]) == j.items[i]
        {
          assert ValidateLinearRing(j.items[i]) == Ok(r.value[i]);
        }
        ItemsEncodeBack(j.items, ValidateLinearRing, PositionsJson, r.value);
        r
      else r
  }

  lemma PolygonCoordsRoundTrip(rings: seq<seq<Position>>)
    requires IsPolygonCoords(rings)
    ensures ValidatePolygonCoords(LinesJson(rings)) == Ok(rings)
  {
    forall i | 0 <= i < |rings| ensures ValidateLinearRing(PositionsJson(rings[i])) == Ok(rings[i]) {
      LinearRingRoundTrip(rings[i]);
    }
    ItemsRoundTrip(rings, ValidateLinearRing, PositionsJson);
  }

  /** `MultiPolygonCoords`: a list, of any length, of PolygonCoords. It fails
      iff some ring of some polygon fails. */
  function ValidateMultiPolygonCoords(j: Json): (r: Result<seq<seq<seq<Position>>>>)
    ensures r.Ok? ==> IsMultiPolygonCoords(r.value) && PolygonsJson(r.value) == j
    ensures !j.JArr? ==> r == Err(NotAList)
    ensures j.JArr? ==> (r.Ok? <==> forall i :: 0 <= i < |j.items| ==> ValidatePolygonCoords(j.items[i]).Ok?)
    ensures j.JArr? && r.Err? ==> FirstFailure(j.items, ValidatePolygonCoords, r.error)
  {
    if !j.JArr? then Err(NotAList)
    else
      var r := ValidateItems(j.items, ValidatePolygonCoords);
      if r.Ok? then
        forall i | 0 <= i < |j.items|
          ensures IsPolygonCoords(r.value[i]) && LinesJson(r.value[i]) == j.items[i]
        {
          assert ValidatePolygonCoords(j.items[i]) == Ok(r.value[i]);
        }
        ItemsEncodeBack(j.items, ValidatePolygonCoords, LinesJson, r.value);
        r
      else r
  }

  lemma MultiPolygonCoordsRoundTrip(ps: seq<seq<seq<Position>>>)
    requires IsMultiPolygonCoords(ps)
    ensures ValidateMultiPolygonCoords(PolygonsJson(ps)) == Ok(ps)
  {
    forall i | 0 <= i < |ps| ensures ValidatePolygonCoords(LinesJson(ps[i])) == Ok(ps[i]) {
      PolygonCoordsRoundTrip(ps[i]);
    }
    ItemsRoundTrip(ps, ValidatePolygonCoords, LinesJson);
  }

  /** The outer lists of MultiPoint, MultiLineString, Polygon and
      MultiPolygon coordinates have no minimum: an empty list is accepted. */
  lemma EmptyOuterListsAccepted()
    ensures ValidateMultiPointCoords(JArr([])) == Ok([])
    ensures ValidateMultiLineStringCoords(JArr([])) == Ok([])
    ensures ValidatePolygonCoords(JArr([])) == Ok([])
    ensures ValidateMultiPolygonCoords(JArr([])) == Ok([])
  {
  }
}
