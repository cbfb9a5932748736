/** The JSON trees the two Jackson- and Moshi-based providers read from
    HTTP replies, after parsing. Only the node kinds and field lookups the
    providers test are modelled; parsing itself is not.
 */
module Json {
  import opened Wrappers
  import Int32

  /** A JSON number as the parser keeps it: a whole number, or a fraction
      carried as its Java rendering (floating point is not modelled). */
  datatype Number = Integral(i: int) | Fractional(text: string)

  datatype Json =
    | JNull
    | JBool(b: bool)
    | JNumber(n: Number)
    | JString(s: string)
    | JArray(items: seq<Json>)
    | JObject(fields: map<string, Json>)

  /** `node.has(name)`: only an object has fields. */
  predicate Has(j: Json, name: string) {
    j.JObject? && name in j.fields
  }

  /** `node.get(name)` / `map.get(name)`: `None` stands for Java `null`. */
  function Get(j: Json, name: string): (r: Option<Json>)
    ensures r.Some? <==> Has(j, name)
    ensures r.Some? ==> r.value == j.fields[name]
  {
    if Has(j, name) then Some(j.fields[name]) else None
  }

  /** A field that is present and holds a JSON string (`value instanceof
      String`). */
  function StringField(j: Json, name: string): (r: Option<string>)
    ensures r.Some? <==> Has(j, name) && j.fields[name].JString?
    ensures r.Some? ==> j.fields[name] == JString(r.value)
  {
    if Has(j, name) && j.fields[name].JString? then Some(j.fields[name].s) else None
  }

  const LongMin: int := -0x8000_0000_0000_0000
  const LongMax: int := 0x7FFF_FFFF_FFFF_FFFF

  /** Jackson keeps whole numbers that fit in a `long` as int or long nodes;
      larger ones become big-integer nodes. */
  predicate IsIntOrLong(j: Json) {
    j.JNumber? && j.n.Integral? && LongMin <= j.n.i <= LongMax
  }

  /** Jackson's `asText()`: the text of a string node, the literal of a
      boolean, number or null node, and the empty string for containers. */
  function AsText(j: Json): (r: string)
    ensures j.JString? ==> r == j.s
    ensures j.JArray? || j.JObject? ==> r == ""
    ensures j.JNull? ==> r == "null"
  {
    match j
    case JNull => "null"
    case JBool(b) => if b then "true" else "false"
    case JNumber(Integral(i)) => Int32.Show(i)
    case JNumber(Fractional(t)) => t
    case JString(s) => s
    case JArray(_) => ""
    case JObject(_) => ""
  }
}
