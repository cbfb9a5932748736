/** The `dev.flipswitch` evaluation record: the value type taken from the
    server's metadata or inferred from the JSON value, the display
    rendering, and the typed accessors.
 */
module DevFlagEvaluation {
  import opened Wrappers
  import Json
  import Int32
  import Text

  /** `value` is `None` when the reply had no "value" field (Java `null`);
      a JSON `null` is `Some(JNull)`. */
  datatype FlagEvaluation = FlagEvaluation(
    key: string,
    value: Option<Json.Json>,
    valueType: string,
    reason: Option<string>,
    variant: Option<string>)

  /** The names `inferType` can produce for the value kinds modelled here. */
  predicate IsInferredName(t: string) {
    t in {"null", "boolean", "integer", "number", "string", "array", "object"}
  }

  /** `inferType`: the JSON kind of the value, with whole numbers that fit
      in a `long` as "integer" and every other number as "number". */
  function InferType(value: Option<Json.Json>): (t: string)
    ensures IsInferredName(t)
    ensures t == "null" <==> value.None? || value.value.JNull?
    ensures t == "integer" <==> value.Some? && Json.IsIntOrLong(value.value)
    ensures t == "number" <==> value.Some? && value.value.JNumber? && !Json.IsIntOrLong(value.value)
    ensures t == "string" <==> value.Some? && value.value.JString?
    ensures t == "boolean" <==> value.Some? && value.value.JBool?
    ensures t == "array" <==> value.Some? && value.value.JArray?
    ensures t == "object" <==> value.Some? && value.value.JObject?
  {
    match value
    case None => "null"
    case Some(v) =>
      match v
      case JNull => "null"
      case JBool(_) => "boolean"
      case JNumber(_) => if Json.IsIntOrLong(v) then "integer" else "number"
      case JString(_) => "string"
      case JArray(_) => "array"
      case JObject(_) => "object"
  }

  /** The backend type names the metadata may carry, mapped to SDK names. */
  function MetadataTypeName(meta: string): (r: Option<string>)
    ensures r.Some? <==> meta in {"boolean", "string", "integer", "decimal"}
    ensures r.Some? ==> IsInferredName(r.value) && r.value != "null"
    ensures r.Some? && meta != "decimal" ==> r.value == meta
  {
    if meta == "boolean" then Some("boolean")
    else if meta == "string" then Some("string")
    else if meta == "integer" then Some("integer")
    else if meta == "decimal" then Some("number")
    else None
  }

  /** `getTypeFromMetadataOrInfer`: a known metadata type wins; a missing,
      empty or unknown one falls back to inference. */
  function TypeFromMetadataOrInfer(meta: Option<string>, value: Option<Json.Json>): (t: string)
    ensures IsInferredName(t)
    ensures meta == Some("decimal") ==> t == "number"
    ensures meta == Some("boolean") || meta == Some("string") || meta == Some("integer") ==>
      t == meta.value
    ensures meta.None? || MetadataTypeName(meta.value).None? ==> t == InferType(value)
  {
    if meta.Some? && |meta.value| > 0 && MetadataTypeName(meta.value).Some? then
      MetadataTypeName(meta.value).value
    else InferType(value)
  }

  /** Metadata decides even when it disagrees with the value: a disabled
      flag with a `null` value still reports its declared type. */
  lemma MetadataOverridesValue(value: Option<Json.Json>)
    ensures TypeFromMetadataOrInfer(Some("integer"), value) == "integer"
    ensures TypeFromMetadataOrInfer(Some("decimal"), Some(Json.JString("x"))) == "number"
    ensures TypeFromMetadataOrInfer(Some(""), value) == InferType(value)
    ensures TypeFromMetadataOrInfer(Some("float"), value) == InferType(value)
  {
  }

  /** The constructor: the value type is computed once, here. */
  function Make(key: string, value: Option<Json.Json>, reason: Option<string>,
                variant: Option<string>, metadataFlagType: Option<string>): (e: FlagEvaluation)
    ensures e.key == key && e.value == value && e.reason == reason && e.variant == variant
    ensures e.valueType == TypeFromMetadataOrInfer(metadataFlagType, value)
  {
    FlagEvaluation(key, value, TypeFromMetadataOrInfer(metadataFlagType, value), reason, variant)
  }

  /** `getValueAsString`: "null" for no value, a string in plain double
      quotes (nothing escaped), and otherwise the node's JSON text, given
      by `render`. */
  function ValueAsString(e: FlagEvaluation, render: Json.Json -> string): (r: string)
    ensures e.value.None? || e.value.value.JNull? ==> r == "null"
    ensures e.value.Some? && e.value.value.JString? ==>
      |r| == |e.value.value.s| + 2 && r[0] == '"' && r[|r| - 1] == '"'
      && r[1..|r| - 1] == e.value.value.s
    ensures e.value.Some? && !e.value.value.JNull? && !e.value.value.JString? ==>
      r == render(e.value.value)
  {
    match e.value
    case None => "null"
    case Some(v) =>
      if v.JNull? then "null"
      else if v.JString? then "\"" + v.s + "\""
      else render(v)
  }

  const VariantMarker: string := ", variant="

  /** The part of `toString` after the value. */
  function Trailer(e: FlagEvaluation): string {
    " [reason=" + ShowNullable(e.reason)
      + (if e.variant.Some? then VariantMarker + e.variant.value else "") + "]"
  }

  /** `toString`: `key (type): value [reason=R, variant=V]`, the variant
      part present only for a non-null variant. */
  function ToString(e: FlagEvaluation, render: Json.Json -> string): (s: string)
    ensures var head := e.key + " (" + e.valueType + "): ";
      |head| <= |s| && s[..|head|] == head
    ensures |s| > 0 && s[|s| - 1] == ']'
  {
    e.key + " (" + e.valueType + "): " + ValueAsString(e, render) + Trailer(e)
  }

  /** With a variant, the text ends with `, variant=V]`; without one it ends
      with `[reason=R]`. */
  lemma ToStringVariantPart(e: FlagEvaluation, render: Json.Json -> string)
    ensures e.variant.Some? ==>
      var tail := VariantMarker + e.variant.value + "]";
      var s := ToString(e, render);
      |tail| <= |s| && s[|s| - |tail|..] == tail
    ensures e.variant.Some? ==> Text.Contains(ToString(e, render), VariantMarker)
    ensures e.variant.None? ==>
      var tail := "[reason=" + ShowNullable(e.reason) + "]";
      var s := ToString(e, render);
      |tail| <= |s| && s[|s| - |tail|..] == tail
  {
    var s := ToString(e, render);
    var head := e.key + " (" + e.valueType + "): " + ValueAsString(e, render);
    var reasonPart := " [reason=" + ShowNullable(e.reason);
    if e.variant.Some? {
      var tail := VariantMarker + e.variant.value + "]";
      assert s == (head + reasonPart) + tail;
      var i := |s| - |tail|;
      assert s[i..i + |VariantMarker|] == VariantMarker;
      assert Text.OccursAt(s, VariantMarker, i);
    } else {
      var tail := "[reason=" + ShowNullable(e.reason) + "]";
      assert s == (head + " ") + tail;
    }
  }

  /** Typed views of a non-null node that Jackson provides (`asBoolean`,
      `asInt`); they are not modelled further. */
  datatype Views = Views(asBoolean: Json.Json -> bool, asInt: Json.Json -> Int32.int32)

  function AsBoolean(e: FlagEvaluation, views: Views): (b: bool)
    ensures e.value.None? ==> !b
    ensures e.value.Some? ==> b == views.asBoolean(e.value.value)
  {
    e.value.Some? && views.asBoolean(e.value.value)
  }

  function AsInt(e: FlagEvaluation, views: Views): (i: Int32.int32)
    ensures e.value.None? ==> i == 0
    ensures e.value.Some? ==> i == views.asInt(e.value.value)
  {
    if e.value.Some? then views.asInt(e.value.value) else 0
  }

  /** `asString`: Jackson's `asText()` of the value, or `null`. */
  function AsString(e: FlagEvaluation): (s: Option<string>)
    ensures e.value.None? <==> s.None?
    ensures e.value.Some? && e.value.value.JString? ==> s == Some(e.value.value.s)
  {
    if e.value.Some? then Some(Json.AsText(e.value.value)) else None
  }

  /** With no value every accessor gives its default, whatever the views. */
  lemma NullValueDefaults(e: FlagEvaluation, views: Views)
    requires e.value.None?
    ensures !AsBoolean(e, views) && AsInt(e, views) == 0 && AsString(e).None?
    ensures TypeFromMetadataOrInfer(None, e.value) == "null"
  {
  }
}
