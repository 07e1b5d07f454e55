/** The Option type used throughout the model, with the JavaScript notion of
    a "truthy" string value: present and not the empty string. */
module Options {

  /** A value that may be absent (`undefined` or `null` in the source). */
  datatype Option<+T> = None | Some(value: T)

  /** A string-valued field as JavaScript's `if (x)` sees it: absent values and
      the empty string are falsy, every other string is truthy. */
  predicate Truthy(s: Option<string>) {
    s.Some? && s.value != ""
  }
}
