/** The optional values of the TypeScript sources (`T | undefined`, `T | null`). */
module Wrappers {

  /** `None` stands for both `undefined` and `null`; the sources never tell them apart. */
  datatype Option<+T> = None | Some(value: T) {

    /** The value, or `default` when absent (`x ?? default`). */
    function GetOr(default: T): T {
      match this
      case Some(v) => v
      case None => default
    }
  }

  /** JavaScript truthiness of an optional string: present and not the empty string. */
  predicate Truthy(o: Option<string>) {
    o.Some? && o.value != ""
  }
}
