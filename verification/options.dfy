/** The optional value used throughout the model.

    `None` plays the part of JavaScript's `undefined`: an unmatched regular
    expression group, a `find` that found nothing, a missing algorithm name.
 */
module Options {

  datatype Option<+T> = None | Some(value: T)

  /** JavaScript truthiness of a possibly-undefined string: defined and non-empty. */
  predicate Truthy(o: Option<string>) {
    o.Some? && o.value != ""
  }

  /** JavaScript `a || b` on two possibly-undefined strings. */
  function JsOr(a: Option<string>, b: Option<string>): Option<string> {
    if Truthy(a) then a else b
  }

  /** The text a template literal `${x}` produces for a possibly-undefined string. */
  function Interpolate(o: Option<string>): string {
    match o
    case Some(v) => v
    case None => "undefined"
  }
}
