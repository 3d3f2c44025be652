/** Values of the JavaScript host that the search compiler observes:
    null-or-value, a call that returns normally or throws, and booleans
    that may be primitive or boxed (`new Boolean(..)`). */
module JsValues {

  /** `None` is JavaScript's `null` (or `undefined` where the source does not
      distinguish them). */
  datatype Option<+T> = None | Some(value: T)

  /** The exceptions the modelled code can raise. */
  datatype JsError =
    | TypeError                      // a property read on null/undefined
    | IllegalArgument(message: string)
    | Thrown(message: string)        // `throw '<string>'`

  /** The outcome of a call: a normal return, or an exception. */
  datatype Js<+T> = Ok(value: T) | Throws(error: JsError)

  /** A JavaScript boolean: a primitive, or a `Boolean` object. Only the
      object form passes `instanceof Boolean`; an object is always truthy. */
  datatype JsBool = Prim(b: bool) | Boxed(b: bool) {
    predicate Truthy() {
      Prim? ==> b
    }
  }

  /** Truthiness of a string: only the empty string is falsy. */
  predicate NonEmpty(s: string) {
    |s| > 0
  }

  /** Truthiness of a nullable string. */
  predicate Present(s: Option<string>) {
    s.Some? && |s.value| > 0
  }
}
