/** The openfeature provider's flag record, as the bulk endpoint returns it.

    Besides the four fields of the record's declaration the provider reads a
    variant and a reason from every flag (and its tests build flags with
    six arguments in this order), so both are fields here. Every field may
    be `null`. The getters are the datatype's fields.
 */
module OpenFeatureFlag {
  import opened Wrappers

  datatype Flag = Flag(
    key: Option<string>,
    flagType: Option<string>,
    defaultStringValue: Option<string>,
    stringValue: Option<string>,
    variant: Option<string>,
    reason: Option<string>)

  /** `getEffectiveValue`: the evaluated value when there is one, otherwise
      the flag's default. */
  function EffectiveValue(f: Flag): (r: Option<string>)
    ensures f.stringValue.Some? ==> r == f.stringValue
    ensures f.stringValue.None? ==> r == f.defaultStringValue
    ensures r.None? <==> f.stringValue.None? && f.defaultStringValue.None?
  {
    if f.stringValue.Some? then f.stringValue else f.defaultStringValue
  }

  /** The effective value is always one of the two stored values, and the
      default shows through only when nothing was evaluated; changing the
      default of an evaluated flag changes nothing. */
  lemma EffectiveValueSources(f: Flag, d: Option<string>)
    ensures EffectiveValue(f) == f.stringValue || EffectiveValue(f) == f.defaultStringValue
    ensures EffectiveValue(f) != f.stringValue ==> f.stringValue.None? && f.defaultStringValue.Some?
    ensures f.stringValue.Some? ==> EffectiveValue(f.(defaultStringValue := d)) == EffectiveValue(f)
  {
  }
}
