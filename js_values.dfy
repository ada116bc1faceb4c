/**
 * JavaScript truthiness of the optional values the TypeScript sources test
 * with `||`, `&&` and `!`.
 */
module JsValues {
  import opened Wrappers

  /** An optional string is truthy when it is present and not empty. */
  predicate Truthy(o: Option<string>) {
    o.Some? && o.value != ""
  }

  /** `a || b` on optional strings. */
  function Or(a: Option<string>, b: Option<string>): Option<string> {
    if Truthy(a) then a else b
  }

  /** An optional boolean is truthy only when it is `true`. */
  predicate IsTrue(b: Option<bool>) {
    b == Some(true)
  }

  /** `a || b` on optional booleans. */
  function BoolOr(a: Option<bool>, b: Option<bool>): Option<bool> {
    if IsTrue(a) then a else b
  }

  /** String conversion of an optional string: `undefined` prints as "undefined". */
  function JsString(o: Option<string>): string {
    if o.None? then "undefined" else o.value
  }
}
