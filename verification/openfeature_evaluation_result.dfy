/** The OFREP single-flag result of the openfeature variant and its typed
    views of the value.

    The value is whatever Jackson made of the JSON `value` field, written as
    the JSON tree it came from: `JNull` is Java `null`, a boolean is a
    `Boolean`, a string a `String`, a whole number an `Integer`, `Long` or
    `BigInteger` by size, a fraction a `Double`, an object a `Map` and an
    array a `List`. The getters are the datatype's fields.
 */
module OpenFeatureEvaluationResult {
  import opened Wrappers
  import Int32
  import Json

  datatype EvaluationResult = EvaluationResult(
    key: Option<string>,
    value: Json.Json,
    reason: Option<string>,
    variant: Option<string>,
    metadata: Option<map<string, Json.Json>>,
    errorCode: Option<string>,
    errorDetails: Option<string>)

  /** `isError`: an error code was sent. */
  predicate IsError(r: EvaluationResult) {
    r.errorCode.Some?
  }

  /** Whether a result is an error depends on the error code alone: neither
      the value nor the details matter. */
  lemma IsErrorByCodeOnly(r: EvaluationResult, value: Json.Json, details: Option<string>)
    ensures IsError(r) <==> r.errorCode.Some?
    ensures IsError(r.(value := value, errorDetails := details)) == IsError(r)
    ensures !IsError(r.(errorCode := None, errorDetails := details))
  {
  }

  /** `getBooleanValue`: the value when it is a Boolean, otherwise `null`. */
  function BooleanValue(r: EvaluationResult): (b: Option<bool>)
    ensures b.Some? <==> r.value.JBool?
    ensures b.Some? ==> r.value == Json.JBool(b.value)
  {
    if r.value.JBool? then Some(r.value.b) else None
  }

  /** `getStringValue`: the value when it is a String, otherwise `null`. */
  function StringValue(r: EvaluationResult): (s: Option<string>)
    ensures s.Some? <==> r.value.JString?
    ensures s.Some? ==> r.value == Json.JString(s.value)
  {
    if r.value.JString? then Some(r.value.s) else None
  }

  /** `getIntegerValue`: an Integer as it is; any other Number through
      `intValue()`, which keeps the low 32 bits of a Long or BigInteger and
      truncates a Double (`doubleToInt`, since floating point is not
      modelled); anything else gives `null`. */
  function IntegerValue(r: EvaluationResult, doubleToInt: string -> Int32.int32): (i: Option<Int32.int32>)
    ensures i.Some? <==> r.value.JNumber?
    ensures r.value.JNumber? && r.value.n.Integral? ==> i == Some(Int32.Wrap(r.value.n.i))
    ensures r.value.JNumber? && r.value.n.Integral? && Int32.MIN <= r.value.n.i <= Int32.MAX ==>
      i == Some(r.value.n.i)
  {
    match r.value
    case JNumber(Integral(n)) => Some(Int32.Wrap(n))
    case JNumber(Fractional(t)) => Some(doubleToInt(t))
    case _ => None
  }

  /** `getStructureValue`: the value when it is a Map, otherwise `null`. */
  function StructureValue(r: EvaluationResult): (m: Option<map<string, Json.Json>>)
    ensures m.Some? <==> r.value.JObject?
    ensures m.Some? ==> r.value == Json.JObject(m.value)
  {
    if r.value.JObject? then Some(r.value.fields) else None
  }

  /** The typed views exclude one another: at most one of them is non-null,
      and for `null`, an array, none is. */
  lemma AtMostOneView(r: EvaluationResult, doubleToInt: string -> Int32.int32)
    ensures (if BooleanValue(r).Some? then 1 else 0) + (if StringValue(r).Some? then 1 else 0)
          + (if IntegerValue(r, doubleToInt).Some? then 1 else 0)
          + (if StructureValue(r).Some? then 1 else 0) <= 1
    ensures r.value.JNull? || r.value.JArray? ==>
      BooleanValue(r).None? && StringValue(r).None? && IntegerValue(r, doubleToInt).None?
      && StructureValue(r).None?
  {
  }

  /** A long beyond the 32-bit range is narrowed: 2^32 + 5 reads as 5 and
      2^31 as `Integer.MIN_VALUE`. */
  lemma IntegerValueNarrows(r: EvaluationResult, doubleToInt: string -> Int32.int32)
    ensures IntegerValue(r.(value := Json.JNumber(Json.Integral(0x1_0000_0005))), doubleToInt) == Some(5)
    ensures IntegerValue(r.(value := Json.JNumber(Json.Integral(0x8000_0000))), doubleToInt) == Some(Int32.MIN)
  {
  }
}
