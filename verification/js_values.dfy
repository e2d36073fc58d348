/**
 The JavaScript values the component keeps in its state, reduced to the
 shapes it actually stores, together with JavaScript's truthiness rule for
 each shape (the `if (x)` tests in the effect guards and the render).
 */
module JsValues {

  /** The conventional Some/None datatype, used where JavaScript leaves a `let` `undefined`. */
  datatype Option<+T> = None | Some(value: T)

  /** A JavaScript value that is a string or `undefined` (the `address` state). */
  datatype Text = Undefined | Str(chars: string) {
    /** `undefined` and the empty string are falsy; every other string is truthy. */
    predicate Truthy() {
      Str? && chars != ""
    }
  }

  /** A JavaScript value that is a number or `null` (the `lat` and `lng` state). */
  datatype Number = Null | Num(value: real) {
    /** `null` and zero are falsy; every other number is truthy (NaN is not modelled). */
    predicate Truthy() {
      Num? && value != 0.0
    }
  }
}
