/** The Well-Known Text rendering of geometries, after OGC 06-103r4, Simple
    Feature Access Part 1, clause 7: the upper-cased type name, a ` Z `
    marker for three-dimensional coordinates, and the parenthesised
    coordinate lists, or `EMPTY`. The coordinate lists are joined as the
    geometry models join them, which differs from the OGC grammar for an
    empty polygon inside a MultiPolygon: it is written `()`, not `EMPTY`.

    `Wkt` and `CollectionWkt` are the corrected texts, in which the ` Z `
    marker is chosen by the first position present; `WktAsWritten` and
    `CollectionWktAsWritten` are the texts as the models compute them,
    failing with IndexError on a MultiPolygon whose first polygon is empty.

    How a number is written is a parameter, `num`: Python's `str(float)`
    is not part of this model. */
module Wkt {
  import opened Types
  import opened Geometries

  // ---------------------------------------------------------------------
  // Strings

  /** `sep.join(parts)`. */
  function Join(sep: string, parts: seq<string>): string
    decreases |parts|
  {
    if |parts| == 0 then ""
    else if |parts| == 1 then parts[0]
    else parts[0] + sep + Join(sep, parts[1..])
  }

  /** Cuts `s` at each occurrence of `sep`, from left to right. */
  function Split(s: string, sep: string): (parts: seq<string>)
    requires |sep| > 0
    ensures |parts| > 0
    decreases |s|
  {
    if |s| < |sep| then [s]
    else if s[..|sep|] == sep then [""] + Split(s[|sep|..], sep)
    else
      var rest := Split(s[1..], sep);
      [[s[0]] + rest[0]] + rest[1..]
  }

  /** A text without the separator's first character ends up whole in the
      first piece. */
  lemma {:induction false} SplitPrefix(a: string, rest: string, sep: string)
    requires |sep| > 0 && sep[0] !in a
    ensures Split(a + rest, sep) == [a + Split(rest, sep)[0]] + Split(rest, sep)[1..]
    decreases |a|
  {
    var tail := Split(rest, sep);
    if a == [] {
      assert a + rest == rest;
      assert a + tail[0] == tail[0];
      assert [tail[0]] + tail[1..] == tail;
    } else {
      var s := a + rest;
      if |s| < |sep| {
        assert |rest| < |sep|;
        assert tail == [rest];
        assert Split(s, sep) == [s];
      } else {
        assert s[..|sep|][0] == a[0];
        assert s[1..] == a[1..] + rest;
        SplitPrefix(a[1..], rest, sep);
        var r := Split(s[1..], sep);
        assert Split(s, sep) == [[s[0]] + r[0]] + r[1..];
        assert [s[0]] + (a[1..] + tail[0]) == a + tail[0];
      }
    }
  }

  /** Splitting undoes joining, when no part holds the separator's first
      character. */
  lemma {:induction false} SplitJoin(sep: string, parts: seq<string>)
    requires |sep| > 0 && |parts| > 0
    requires forall i :: 0 <= i < |parts| ==> sep[0] !in parts[i]
    ensures Split(Join(sep, parts), sep) == parts
    decreases |parts|
  {
    if |parts| == 1 {
      SplitPrefix(parts[0], "", sep);
      assert parts[0] + "" == parts[0];
    } else {
      var tail := Join(sep, parts[1..]);
      SplitJoin(sep, parts[1..]);
      var t := sep + tail;
      assert t[..|sep|] == sep && t[|sep|..] == tail;
      assert Split(t, sep) == [""] + parts[1..];
      SplitPrefix(parts[0], t, sep);
      assert parts[0] + t == Join(sep, parts);
      assert parts[0] + "" == parts[0];
    }
  }

  /** A character in neither the separator nor any part is not in the join. */
  lemma {:induction false} CharNotInJoin(c: char, sep: string, parts: seq<string>)
    requires c !in sep && forall i :: 0 <= i < |parts| ==> c !in parts[i]
    ensures c !in Join(sep, parts)
    decreases |parts|
  {
    if |parts| > 1 {
      CharNotInJoin(c, sep, parts[1..]);
    }
  }

  /** The join of a non-empty first part is not empty. */
  lemma JoinNotEmpty(sep: string, parts: seq<string>)
    requires |parts| > 0 && parts[0] != ""
    ensures Join(sep, parts) != ""
  {
    if |parts| > 1 {
      assert |Join(sep, parts)| >= |parts[0]|;
    }
  }

  /** `str.upper` on one character of ASCII. */
  function UpperChar(c: char): char {
    if 'a' <= c <= 'z' then (c as int - 32) as char else c
  }

  /** `str.upper`. */
  function Upper(s: string): string {
    seq(|s|, i requires 0 <= i < |s| => UpperChar(s[i]))
  }

  /** `_wkt_type`: the geometry's tag, upper-cased. */
  function WktType(g: Geometry): string {
    Upper(TypeName(g))
  }

  /** The WKT names of the six kinds, as OGC Simple Features spells them. */
  lemma WktTypeNames(g: Geometry)
    ensures g.Point? ==> WktType(g) == "POINT"
    ensures g.MultiPoint? ==> WktType(g) == "MULTIPOINT"
    ensures g.LineString? ==> WktType(g) == "LINESTRING"
    ensures g.MultiLineString? ==> WktType(g) == "MULTILINESTRING"
    ensures g.Polygon? ==> WktType(g) == "POLYGON"
    ensures g.MultiPolygon? ==> WktType(g) == "MULTIPOLYGON"
  {
    match g
    case Point(_) => UpperOf("Point", "POINT");
    case MultiPoint(_) => UpperOf("MultiPoint", "MULTIPOINT");
    case LineString(_) => UpperOf("LineString", "LINESTRING");
    case MultiLineString(_) => UpperOf("MultiLineString", "MULTILINESTRING");
    case Polygon(_) => UpperOf("Polygon", "POLYGON");
    case MultiPolygon(_) => UpperOf("MultiPolygon", "MULTIPOLYGON");
  }

  lemma UpperOf(s: string, u: string)
    requires |s| == |u| && forall i :: 0 <= i < |s| ==> UpperChar(s[i]) == u[i]
    ensures Upper(s) == u
  {
  }

  // ---------------------------------------------------------------------
  // Coordinate text

  /** The text of each number of a position. */
  function NumberTexts(p: Position, num: real -> string): seq<string> {
    seq(|p|, i requires 0 <= i < |p| => num(p[i]))
  }

  /** `_position_wkt_coordinates`: the numbers, separated by a space. */
  function PositionWkt(p: Position, num: real -> string): string {
    Join(" ", NumberTexts(p, num))
  }

  function PositionTexts(ps: seq<Position>, num: real -> string): seq<string> {
    seq(|ps|, i requires 0 <= i < |ps| => PositionWkt(ps[i], num))
  }

  /** `_position_list_wkt_coordinates`: the positions, separated by ", ". */
  function PositionListWkt(ps: seq<Position>, num: real -> string): string {
    Join(", ", PositionTexts(ps, num))
  }

  function LineTexts(ls: seq<seq<Position>>, num: real -> string): seq<string> {
    seq(|ls|, i requires 0 <= i < |ls| => "(" + PositionListWkt(ls[i], num) + ")")
  }

  /** `_lines_wtk_coordinates`: each line in parentheses, separated by ", ". */
  function LinesWkt(ls: seq<seq<Position>>, num: real -> string): string {
    Join(", ", LineTexts(ls, num))
  }

  function PolygonTexts(ps: seq<seq<seq<Position>>>, num: real -> string): seq<string> {
    seq(|ps|, i requires 0 <= i < |ps| => "(" + LinesWkt(ps[i], num) + ")")
  }

  /** MultiPolygon's `_wkt_coordinates`: each polygon in parentheses,
      separated by "," with no space. */
  function PolygonsWkt(ps: seq<seq<seq<Position>>>, num: real -> string): string {
    Join(",", PolygonTexts(ps, num))
  }

  /** `_wkt_coordinates` of each kind. */
  function WktCoordinates(g: Geometry, num: real -> string): string {
    match g
    case Point(p) => PositionWkt(p, num)
    case MultiPoint(ps) => PositionListWkt(ps, num)
    case LineString(ps) => PositionListWkt(ps, num)
    case MultiLineString(ls) => LinesWkt(ls, num)
    case Polygon(rings) => LinesWkt(rings, num)
    case MultiPolygon(polygons) => PolygonsWkt(polygons, num)
  }

  /** The truth value of `coordinates`: a non-empty tuple or list. */
  predicate HasCoordinates(g: Geometry) {
    match g
    case Point(p) => |p| > 0
    case MultiPoint(ps) => |ps| > 0
    case LineString(ps) => |ps| > 0
    case MultiLineString(ls) => |ls| > 0
    case Polygon(rings) => |rings| > 0
    case MultiPolygon(polygons) => |polygons| > 0
  }

  /** Number texts that hold neither a space nor a comma, as `str(float)`
      never does. */
  ghost predicate PlainNumbers(num: real -> string) {
    forall x :: ' ' !in num(x) && ',' !in num(x)
  }

  lemma PlainNumber(num: real -> string, x: real)
    requires PlainNumbers(num)
    ensures ' ' !in num(x) && ',' !in num(x)
  {
  }

  /** The text of a list of positions can be cut back into the positions
      and each of those into its numbers' texts: nothing is lost or merged. */
  lemma PositionListWktDecodes(ps: seq<Position>, num: real -> string)
    requires PlainNumbers(num) && |ps| > 0
    requires forall i :: 0 <= i < |ps| ==> |ps[i]| > 0
    ensures Split(PositionListWkt(ps, num), ", ") == PositionTexts(ps, num)
    ensures forall i :: 0 <= i < |ps| ==> Split(PositionTexts(ps, num)[i], " ") == NumberTexts(ps[i], num)
  {
    var texts := PositionTexts(ps, num);
    forall i | 0 <= i < |ps|
      ensures ',' !in texts[i]
      ensures Split(texts[i], " ") == NumberTexts(ps[i], num)
    {
      var nums := NumberTexts(ps[i], num);
      forall k | 0 <= k < |nums| ensures ',' !in nums[k] && ' ' !in nums[k] {
        PlainNumber(num, ps[i][k]);
        assert nums[k] == num(ps[i][k]);
      }
      CharNotInJoin(',', " ", nums);
      SplitJoin(" ", nums);
    }
    SplitJoin(", ", texts);
  }

  // ---------------------------------------------------------------------
  // The Z marker

  /** Every position of the geometry, in order. */
  function AllPositionsOf(g: Geometry): seq<Position> {
    match g
    case Point(p) => [p]
    case MultiPoint(ps) => ps
    case LineString(ps) => ps
    case MultiLineString(ls) => Flatten(ls)
    case Polygon(rings) => Flatten(rings)
    case MultiPolygon(polygons) => Flatten(seq(|polygons|, i requires 0 <= i < |polygons| => Flatten(polygons[i])))
  }

  function Flatten<T>(xss: seq<seq<T>>): seq<T>
    decreases |xss|
  {
    if xss == [] then [] else xss[0] + Flatten(xss[1..])
  }

  /** The first position of the first list that has one. */
  function FirstOfLines(ls: seq<seq<Position>>): (r: Option<Position>)
    ensures r == if Flatten(ls) == [] then None else Some(Flatten(ls)[0])
    decreases |ls|
  {
    if ls == [] then None
    else if ls[0] != [] then Some(ls[0][0])
    else FirstOfLines(ls[1..])
  }

  /** The first position of the first polygon that has one. */
  function FirstOfPolygons(ps: seq<seq<seq<Position>>>): (r: Option<Position>)
    ensures var flat := Flatten(seq(|ps|, i requires 0 <= i < |ps| => Flatten(ps[i])));
            r == if flat == [] then None else Some(flat[0])
    decreases |ps|
  {
    if ps == [] then None
    else
      var rest := FirstOfPolygons(ps[1..]);
      assert seq(|ps|, i requires 0 <= i < |ps| => Flatten(ps[i]))
          == [Flatten(ps[0])] + seq(|ps| - 1, i requires 0 <= i < |ps| - 1 => Flatten(ps[1..][i]));
      match FirstOfLines(ps[0])
      case Some(p) => Some(p)
      case None => rest
  }

  /** The first position of the geometry, none when it has no position. */
  function FirstPosition(g: Geometry): (r: Option<Position>)
    ensures r == if AllPositionsOf(g) == [] then None else Some(AllPositionsOf(g)[0])
  {
    match g
    case Point(p) => Some(p)
    case MultiPoint(ps) => if ps == [] then None else Some(ps[0])
    case LineString(ps) => if ps == [] then None else Some(ps[0])
    case MultiLineString(ls) => FirstOfLines(ls)
    case Polygon(rings) => FirstOfLines(rings)
    case MultiPolygon(polygons) => FirstOfPolygons(polygons)
  }

  /** " Z " for a position of three numbers, else " ". */
  function InsetFor(p: Option<Position>): string {
    match p
    case Some(q) => if |q| == 3 then " Z " else " "
    case None => " "
  }

  /** `_wkt_inset`: chosen by the first position of the geometry. */
  function Inset(g: Geometry): string {
    InsetFor(FirstPosition(g))
  }

  /** The type, the inset and the parenthesised coordinates. */
  function Rendered(g: Geometry, inset: string, num: real -> string): string {
    WktType(g) + inset + "(" + WktCoordinates(g, num) + ")"
  }

  /** `wkt`: the type, then the inset and the parenthesised coordinates, or
      " EMPTY" when there are no coordinates. */
  function Wkt(g: Geometry, num: real -> string): string {
    if HasCoordinates(g) then Rendered(g, Inset(g), num) else WktType(g) + " EMPTY"
  }

  /** `EMPTY` is written exactly when the coordinates are empty. */
  lemma WktEmptyIff(g: Geometry, num: real -> string)
    ensures Wkt(g, num) == WktType(g) + " EMPTY" <==> !HasCoordinates(g)
  {
    var w := Wkt(g, num);
    if HasCoordinates(g) {
      assert w[|w| - 1] == ')';
      assert (WktType(g) + " EMPTY")[|WktType(g)| + 5] == 'Y';
    }
  }

  /** The character after the type name is `Z` exactly when the first
      position is three-dimensional. */
  lemma ZMarkerIff(g: Geometry, num: real -> string)
    requires HasCoordinates(g)
    ensures |Wkt(g, num)| > |WktType(g)| + 1
    ensures Wkt(g, num)[|WktType(g)| + 1] == 'Z' <==>
              FirstPosition(g).Some? && |FirstPosition(g).value| == 3
  {
    var t := WktType(g);
    var c := WktCoordinates(g, num);
    var head := t + Inset(g) + "(";
    assert Wkt(g, num) == head + c + ")";
    if Inset(g) == " Z " {
      assert head[|t| + 1] == 'Z';
    } else {
      assert head[|t| + 1] == '(';
    }
  }

  // ---------------------------------------------------------------------
  // As written: the inset indexes the first item of each nesting level

  /** The position each kind's `_wkt_inset` reads as written:
      `coordinates`, `coordinates[0]`, `coordinates[0][0]` or
      `coordinates[0][0][0]`; none where that indexing raises IndexError. */
  function InsetPositionAsWritten(g: Geometry): Option<Position> {
    match g
    case Point(p) => Some(p)
    case MultiPoint(ps) => if |ps| > 0 then Some(ps[0]) else None
    case LineString(ps) => if |ps| > 0 then Some(ps[0]) else None
    case MultiLineString(ls) => if |ls| > 0 && |ls[0]| > 0 then Some(ls[0][0]) else None
    case Polygon(rings) => if |rings| > 0 && |rings[0]| > 0 then Some(rings[0][0]) else None
    case MultiPolygon(ps) =>
      if |ps| > 0 && |ps[0]| > 0 && |ps[0][0]| > 0 then Some(ps[0][0][0]) else None
  }

  /** `wkt` as written; none where it raises IndexError. */
  function WktAsWritten(g: Geometry, num: real -> string): Option<string> {
    if !HasCoordinates(g) then Some(WktType(g) + " EMPTY")
    else
      match InsetPositionAsWritten(g)
      case None => None
      case Some(p) => Some(Rendered(g, InsetFor(Some(p)), num))
  }

  /** A MultiPolygon whose first polygon has no ring passes validation, yet
      its `wkt` as written raises IndexError. */
  lemma EmptyFirstPolygonBreaksWkt(num: real -> string)
    ensures ParseGeometryObj(GeoInterface(MultiPolygon([[]]))) == Ok(MultiPolygon([[]]))
    ensures WktAsWritten(MultiPolygon([[]]), num) == None
  {
    GeoInterfaceRoundTrip(MultiPolygon([[]]));
  }

  /** A MultiPolygon with a first polygon, and no ring in it. */
  predicate EmptyFirstPolygon(g: Geometry) {
    g.MultiPolygon? && |g.polygons| > 0 && g.polygons[0] == []
  }

  /** On a valid geometry the as-written `wkt` fails exactly when the first
      polygon of a MultiPolygon is empty; everywhere else it is `Wkt`. */
  lemma WktAgreesWithAsWritten(g: Geometry, num: real -> string)
    requires Valid(g)
    ensures WktAsWritten(g, num).None? <==> EmptyFirstPolygon(g)
    ensures WktAsWritten(g, num).Some? ==> WktAsWritten(g, num) == Some(Wkt(g, num))
  {
    if HasCoordinates(g) {
      match g
      case Point(p) =>
      case MultiPoint(ps) =>
      case LineString(ps) =>
      case MultiLineString(ls) =>
        assert IsLineString(ls[0]);
        assert FirstOfLines(ls) == Some(ls[0][0]);
      case Polygon(rings) =>
        assert IsLinearRing(rings[0]);
        assert FirstOfLines(rings) == Some(rings[0][0]);
      case MultiPolygon(ps) =>
        if |ps[0]| > 0 {
          assert IsPolygonCoords(ps[0]) && IsLinearRing(ps[0][0]);
          assert FirstOfLines(ps[0]) == Some(ps[0][0][0]);
          assert FirstOfPolygons(ps) == Some(ps[0][0][0]);
        }
    }
  }

  // ---------------------------------------------------------------------
  // Parentheses

  /** As many opening as closing parentheses. */
  ghost predicate Balanced(s: string) {
    multiset(s)['('] == multiset(s)[')']
  }

  /** Number texts that close each parenthesis they open (`str(float)`
      writes none). */
  ghost predicate BalancedNumbers(num: real -> string) {
    forall x :: Balanced(num(x))
  }

  lemma BalancedNumber(num: real -> string, x: real)
    requires BalancedNumbers(num)
    ensures Balanced(num(x))
  {
  }

  lemma ConcatBalanced(a: string, b: string)
    requires Balanced(a) && Balanced(b)
    ensures Balanced(a + b)
  {
    assert multiset(a + b) == multiset(a) + multiset(b);
  }

  lemma WrapBalanced(s: string)
    requires Balanced(s)
    ensures Balanced("(" + s + ")")
  {
    assert multiset("(" + s + ")") == multiset("(") + multiset(s) + multiset(")");
  }

  lemma {:induction false} JoinBalanced(sep: string, parts: seq<string>)
    requires Balanced(sep) && forall i :: 0 <= i < |parts| ==> Balanced(parts[i])
    ensures Balanced(Join(sep, parts))
    decreases |parts|
  {
    if |parts| > 1 {
      JoinBalanced(sep, parts[1..]);
      ConcatBalanced(parts[0], sep);
      ConcatBalanced(parts[0] + sep, Join(sep, parts[1..]));
    }
  }

  /** Upper-casing neither adds nor removes parentheses. */
  lemma UpperKeepsParentheses(s: string)
    ensures multiset(Upper(s))['('] == multiset(s)['(']
    ensures multiset(Upper(s))[')'] == multiset(s)[')']
  {
    if s != [] {
      UpperKeepsParentheses(s[1..]);
      assert Upper(s) == [UpperChar(s[0])] + Upper(s[1..]);
      assert s == [s[0]] + s[1..];
    }
  }

  lemma AbsentBalanced(s: string)
    requires '(' !in s && ')' !in s
    ensures Balanced(s)
  {
  }

  lemma TagHasNoParentheses(k: Kind)
    ensures '(' !in Tag(k) && ')' !in Tag(k)
  {
  }

  lemma WktTypeBalanced(g: Geometry)
    ensures Balanced(WktType(g))
  {
    TagHasNoParentheses(KindOf(g));
    AbsentBalanced(TypeName(g));
    UpperKeepsParentheses(TypeName(g));
  }

  lemma PositionWktBalanced(p: Position, num: real -> string)
    requires BalancedNumbers(num)
    ensures Balanced(PositionWkt(p, num))
  {
    var nums := NumberTexts(p, num);
    forall k | 0 <= k < |nums| ensures Balanced(nums[k]) {
      BalancedNumber(num, p[k]);
      assert nums[k] == num(p[k]);
    }
    assert Balanced(" ");
    JoinBalanced(" ", nums);
  }

  lemma PositionListWktBalanced(ps: seq<Position>, num: real -> string)
    requires BalancedNumbers(num)
    ensures Balanced(PositionListWkt(ps, num))
  {
    var texts := PositionTexts(ps, num);
    forall i | 0 <= i < |ps| ensures Balanced(texts[i]) {
      PositionWktBalanced(ps[i], num);
    }
    assert Balanced(", ");
    JoinBalanced(", ", texts);
  }

  lemma LinesWktBalanced(ls: seq<seq<Position>>, num: real -> string)
    requires BalancedNumbers(num)
    ensures Balanced(LinesWkt(ls, num))
  {
    var texts := LineTexts(ls, num);
    forall i | 0 <= i < |ls| ensures Balanced(texts[i]) {
      PositionListWktBalanced(ls[i], num);
      WrapBalanced(PositionListWkt(ls[i], num));
    }
    assert Balanced(", ");
    JoinBalanced(", ", texts);
  }

  lemma CoordinatesBalanced(g: Geometry, num: real -> string)
    requires BalancedNumbers(num)
    ensures Balanced(WktCoordinates(g, num))
  {
    match g
    case Point(p) => PositionWktBalanced(p, num);
    case MultiPoint(ps) => PositionListWktBalanced(ps, num);
    case LineString(ps) => PositionListWktBalanced(ps, num);
    case MultiLineString(ls) => LinesWktBalanced(ls, num);
    case Polygon(rings) => LinesWktBalanced(rings, num);
    case MultiPolygon(polygons) =>
      var texts := PolygonTexts(polygons, num);
      forall i | 0 <= i < |polygons| ensures Balanced(texts[i]) {
        LinesWktBalanced(polygons[i], num);
        WrapBalanced(LinesWkt(polygons[i], num));
      }
      assert Balanced(",");
      JoinBalanced(",", texts);
  }

  lemma RenderedBalanced(g: Geometry, inset: string, num: real -> string)
    requires BalancedNumbers(num) && Balanced(inset)
    ensures Balanced(Rendered(g, inset, num))
  {
    CoordinatesBalanced(g, num);
    WktTypeBalanced(g);
    PartsBalanced(WktType(g), inset, WktCoordinates(g, num));
  }

  lemma PartsBalanced(t: string, inset: string, c: string)
    requires Balanced(t) && Balanced(inset) && Balanced(c)
    ensures Balanced(t + inset + "(" + c + ")")
  {
    WrapBalanced(c);
    ConcatBalanced(t, inset);
    ConcatBalanced(t + inset, "(" + c + ")");
    assert t + inset + "(" + c + ")" == (t + inset) + ("(" + c + ")");
  }

  lemma InsetBalanced(p: Option<Position>)
    ensures Balanced(InsetFor(p))
  {
    assert '(' !in " Z " && ')' !in " Z ";
    assert '(' !in " " && ')' !in " ";
  }

  lemma EmptyWktBalanced(g: Geometry)
    ensures Balanced(WktType(g) + " EMPTY")
  {
    WktTypeBalanced(g);
    assert '(' !in " EMPTY" && ')' !in " EMPTY";
    ConcatBalanced(WktType(g), " EMPTY");
  }

  /** Every WKT text closes each parenthesis it opens, when the number texts
      do. */
  lemma WktBalanced(g: Geometry, num: real -> string)
    requires BalancedNumbers(num)
    ensures Balanced(Wkt(g, num))
  {
    if HasCoordinates(g) {
      InsetBalanced(FirstPosition(g));
      RenderedBalanced(g, Inset(g), num);
      assert Wkt(g, num) == Rendered(g, Inset(g), num);
    } else {
      EmptyWktBalanced(g);
    }
  }

  // ---------------------------------------------------------------------
  // GeometryCollection

  function MemberTexts(gc: GeometryCollection, num: real -> string): seq<string> {
    seq(|gc.geometries|, i requires 0 <= i < |gc.geometries| => Wkt(gc.geometries[i], num))
  }

  /** The collection's text from its members' texts: those separated by
      ", " in parentheses, or "EMPTY" when that text is empty. */
  function CollectionText(texts: seq<string>): string {
    var members := Join(", ", texts);
    Upper("GeometryCollection") + " " + (if members != "" then "(" + members + ")" else "EMPTY")
  }

  /** `GeometryCollection.wkt`, over the corrected member texts. */
  function CollectionWkt(gc: GeometryCollection, num: real -> string): string {
    CollectionText(MemberTexts(gc, num))
  }

  /** The members' `wkt` as written, in order; none as soon as one of them
      raises IndexError. */
  function MemberTextsAsWritten(gs: seq<Geometry>, num: real -> string): (r: Option<seq<string>>)
    ensures r.None? <==> exists i :: 0 <= i < |gs| && WktAsWritten(gs[i], num).None?
    ensures r.Some? ==> |r.value| == |gs|
    ensures r.Some? ==> forall i :: 0 <= i < |gs| ==> WktAsWritten(gs[i], num) == Some(r.value[i])
    decreases |gs|
  {
    if gs == [] then Some([])
    else
      match WktAsWritten(gs[0], num)
      case None => None
      case Some(t) =>
        var rest := MemberTextsAsWritten(gs[1..], num);
        assert forall i :: 1 <= i < |gs| ==> gs[i] == gs[1..][i - 1];
        match rest
        case None => None
        case Some(ts) => Some([t] + ts)
  }

  /** `GeometryCollection.wkt` as written; none where a member's `wkt`
      raises IndexError. */
  function CollectionWktAsWritten(gc: GeometryCollection, num: real -> string): Option<string> {
    match MemberTextsAsWritten(gc.geometries, num)
    case None => None
    case Some(texts) => Some(CollectionText(texts))
  }

  /** On valid members the as-written collection text fails exactly when
      some member is a MultiPolygon whose first polygon is empty; everywhere
      else it is `CollectionWkt`. */
  lemma CollectionWktAgreesWithAsWritten(gc: GeometryCollection, num: real -> string)
    requires forall i :: 0 <= i < |gc.geometries| ==> Valid(gc.geometries[i])
    ensures CollectionWktAsWritten(gc, num).None? <==>
              exists i :: 0 <= i < |gc.geometries| && EmptyFirstPolygon(gc.geometries[i])
    ensures CollectionWktAsWritten(gc, num).Some? ==>
              CollectionWktAsWritten(gc, num) == Some(CollectionWkt(gc, num))
  {
    var gs := gc.geometries;
    forall i | 0 <= i < |gs|
      ensures WktAsWritten(gs[i], num).None? <==> EmptyFirstPolygon(gs[i])
      ensures WktAsWritten(gs[i], num).Some? ==> WktAsWritten(gs[i], num) == Some(Wkt(gs[i], num))
    {
      WktAgreesWithAsWritten(gs[i], num);
    }
    var r := MemberTextsAsWritten(gs, num);
    if r.Some? {
      assert r.value == MemberTexts(gc, num);
    }
  }

  /** A collection holding `MultiPolygon [[]]` passes validation, yet its
      `wkt` as written raises IndexError. */
  lemma CollectionWithEmptyFirstPolygonBreaksWkt(num: real -> string)
    ensures ParseGeometryCollection(CollectionJson(GeometryCollection([MultiPolygon([[]])])))
            == Ok(GeometryCollection([MultiPolygon([[]])]))
    ensures CollectionWktAsWritten(GeometryCollection([MultiPolygon([[]])]), num) == None
  {
    var g := MultiPolygon([[]]);
    var gc := GeometryCollection([g]);
    assert Valid(g);
    CollectionRoundTrip(gc);
    EmptyFirstPolygonBreaksWkt(num);
    assert MemberTextsAsWritten(gc.geometries, num) == None;
  }

  /** A collection is written as EMPTY exactly when it has no member. */
  lemma CollectionWktEmptyIff(gc: GeometryCollection, num: real -> string)
    ensures CollectionWkt(gc, num) == Upper("GeometryCollection") + " EMPTY" <==> |gc.geometries| == 0
  {
    var texts := MemberTexts(gc, num);
    var t := Upper("GeometryCollection");
    if |gc.geometries| > 0 {
      assert |texts[0]| >= |WktType(gc.geometries[0])| > 0;
      JoinNotEmpty(", ", texts);
      var w := CollectionWkt(gc, num);
      assert w[|t| + 1] == '(';
      assert (t + " EMPTY")[|t| + 1] == 'E';
    }
  }

  lemma CollectionTypeBalanced()
    ensures Balanced(Upper("GeometryCollection") + " ")
  {
    assert '(' !in "GeometryCollection" && ')' !in "GeometryCollection";
    UpperKeepsParentheses("GeometryCollection");
    assert '(' !in " " && ')' !in " ";
    ConcatBalanced(Upper("GeometryCollection"), " ");
  }

  lemma MembersBalanced(gc: GeometryCollection, num: real -> string)
    requires BalancedNumbers(num)
    ensures Balanced(Join(", ", MemberTexts(gc, num)))
  {
    var texts := MemberTexts(gc, num);
    forall i | 0 <= i < |texts| ensures Balanced(texts[i]) {
      WktBalanced(gc.geometries[i], num);
    }
    assert '(' !in ", " && ')' !in ", ";
    JoinBalanced(", ", texts);
  }

  lemma CollectionTailBalanced(members: string)
    requires Balanced(members)
    ensures Balanced(Upper("GeometryCollection") + " " + (if members != "" then "(" + members + ")" else "EMPTY"))
  {
    var t := Upper("GeometryCollection") + " ";
    CollectionTypeBalanced();
    if members != "" {
      WrapBalanced(members);
      ConcatBalanced(t, "(" + members + ")");
    } else {
      assert '(' !in "EMPTY" && ')' !in "EMPTY";
      ConcatBalanced(t, "EMPTY");
    }
  }

  /** The collection's text closes each parenthesis it opens. */
  lemma CollectionWktBalanced(gc: GeometryCollection, num: real -> string)
    requires BalancedNumbers(num)
    ensures Balanced(CollectionWkt(gc, num))
  {
    MembersBalanced(gc, num);
    CollectionTailBalanced(Join(", ", MemberTexts(gc, num)));
  }
}
