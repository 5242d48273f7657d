/** JSON values as `JSON.parse` produces them and `JSON.stringify` consumes
    them, without their text syntax. */
module Json {
  import opened Wrappers

  datatype Json =
    | JNull
    | JBool(b: bool)
    | JNumber(n: real)
    | JString(s: string)
    | JArray(items: seq<Json>)
    | JObject(fields: map<string, Json>)

  /** `JSON.parse` (`None` where it throws) and `JSON.stringify`. */
  datatype JsonCodec = JsonCodec(parse: string -> Option<Json>, stringify: Json -> string)

  /** What the storage code relies on for one value it writes: parsing
      its stringified text gives it back, and that text is never empty.
      `JSON.stringify` and `JSON.parse` do this for every value built from
      null, booleans, strings, arrays, objects and finite doubles, which
      covers everything the board writes. */
  predicate RoundTrips(codec: JsonCodec, j: Json) {
    codec.parse(codec.stringify(j)) == Some(j) && codec.stringify(j) != ""
  }

  /** The hypothesis can be met for any value. */
  lemma RoundTripsSatisfiable(j: Json)
    ensures exists codec :: RoundTrips(codec, j)
  {
    var codec := JsonCodec(text => Some(j), value => "{}");
    assert RoundTrips(codec, j);
  }

  /** `(value as Record<string, unknown>)[key]` for an object: the member,
      or `None` where JavaScript reads `undefined`. */
  function Member(value: Json, key: string): (r: Option<Json>)
    ensures r.Some? <==> value.JObject? && key in value.fields
    ensures r.Some? ==> r.value == value.fields[key]
  {
    if value.JObject? && key in value.fields then Some(value.fields[key]) else None
  }
}
