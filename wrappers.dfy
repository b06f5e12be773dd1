/** Small value wrappers shared by every module: optional values, results with
    an error, and JavaScript's three-way distinction between a missing key
    (`undefined`), an explicit `null` and a present value. */
module Wrappers {

  datatype Option<+T> = None | Some(value: T)

  datatype Result<+T, +E> = Success(value: T) | Failure(error: E)

  /** A field of a request body or of an object literal, as JavaScript sees it. */
  datatype Js<+T> = Undefined | Null | Val(value: T) {

    /** `x !== undefined` */
    predicate Defined() { !Undefined? }

    /** `x === null || x === undefined` */
    predicate Nullish() { Undefined? || Null? }

    /** What a stored document holds once the value is written: null and
        undefined both read back as no value. */
    function ToOption(): Option<T> {
      if Val? then Some(value) else None
    }
  }

  /** Truthiness of a string-valued field: `""`, `null` and `undefined` are falsy. */
  predicate TruthyString(x: Js<string>) {
    x.Val? && x.value != ""
  }

  /** Truthiness of a number-valued field: `0`, `null` and `undefined` are falsy. */
  predicate TruthyNumber(x: Js<int>) {
    x.Val? && x.value != 0
  }

  /** Truthiness of a Date or object-valued field: every object is truthy. */
  predicate TruthyObject<T>(x: Js<T>) {
    x.Val?
  }

  /** `x || fallback` for a string-valued field. */
  function StringOr(x: Js<string>, fallback: string): (r: string)
    ensures TruthyString(x) ==> r == x.value
    ensures !TruthyString(x) ==> r == fallback
  {
    if TruthyString(x) then x.value else fallback
  }
}
