/** The `dev.flipswitch` flag-change record: a changed flag's key, or no key
    when every flag may have changed, and the server's timestamp text.
 */
module DevEvents {
  import opened Wrappers

  datatype FlagChangeEvent = FlagChangeEvent(flagKey: Option<string>, timestamp: Option<string>)
}
