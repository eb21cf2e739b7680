/** JSON values as a JSON decoder hands them over, before any validation:
    the untyped tree that the GeoJSON models are parsed from. */
module Json {

  datatype Json =
    | JNull
    | JBool(b: bool)
    | JNum(num: real)
    | JStr(str: string)
    | JArr(items: seq<Json>)
    | JObj(fields: map<string, Json>)

  /** The JSON list that encodes `xs` item by item. */
  function ListOf<T>(xs: seq<T>, encode: T -> Json): (j: Json)
    ensures j.JArr? && |j.items| == |xs|
    ensures forall i :: 0 <= i < |xs| ==> j.items[i] == encode(xs[i])
  {
    JArr(seq(|xs|, i requires 0 <= i < |xs| => encode(xs[i])))
  }
}
