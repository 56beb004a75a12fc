/** JavaScript value semantics the server code relies on: optional
    (possibly `undefined`) values, truthiness of strings and the `||`
    operator on strings. */
module Js {

  /** A value that may be `undefined`/`null` in the source. */
  datatype Option<+T> = None | Some(value: T)

  /** Truthiness of an optional string: absent and empty are falsy. */
  predicate Truthy(s: Option<string>)
  {
    s.Some? && s.value != ""
  }

  /** JavaScript's `or` of an optional string with a string that is always
      present. */
  function Or(a: Option<string>, b: string): (r: string)
    ensures Truthy(a) ==> r == a.value
    ensures !Truthy(a) ==> r == b
    ensures r == "" ==> b == "" && !Truthy(a)
  {
    if Truthy(a) then a.value else b
  }
}
