/** The optional-value datatype used throughout the model in place of
    JavaScript's `undefined` and `null`. */
module Wrappers {

  datatype Option<+T> = None | Some(value: T)

  /** JavaScript truthiness of an optional string: `undefined`, `null` and
      the empty string are all falsy. */
  predicate Truthy(o: Option<string>) {
    o.Some? && o.value != ""
  }
}
