/** Small shared vocabulary: optional values and JavaScript truthiness of optional strings. */
module Common {

  /** A value that may be absent (JavaScript `undefined` / `null`). */
  datatype Option<+T> = None | Some(value: T)

  /** A request-body string field is "given" when JavaScript treats it as truthy:
      present and not the empty string. */
  predicate Given(o: Option<string>)
  {
    o.Some? && o.value != ""
  }
}
