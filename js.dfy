/** JavaScript value conventions shared by both generations of the app.
    `x?: T` (a property that may be missing) is an Option; `x?: T | null` (missing, null or a value)
    is a Nullable, because JavaScript tells `undefined` and `null` apart while `??` and `!= null`
    treat them alike. */
module Js {

  datatype Option<+T> = None | Some(value: T)

  datatype Nullable<+T> = Undefined | Null | Value(value: T) {

    /** `x == null` in JavaScript: true of both `undefined` and `null`. */
    predicate IsNullish() {
      !Value?
    }

    /** `x ?? null`: the value when there is one, else `null` (never `undefined`). */
    function OrNull(): (r: Nullable<T>)
      ensures !r.Undefined?
      ensures Value? <==> r.Value?
      ensures r.Value? ==> r.value == value
    {
      if Value? then this else Null
    }
  }

  /** `o ?? d` on an optional property. */
  function GetOr<T>(o: Option<T>, d: T): (r: T)
    ensures o.Some? ==> r == o.value
    ensures o.None? ==> r == d
  {
    match o
    case Some(v) => v
    case None => d
  }

  /** Truthiness of a string: only "" is falsy. */
  predicate TruthyString(s: string) {
    s != ""
  }

  /** Truthiness of an optional string property: missing and "" are falsy. */
  predicate TruthyOptString(o: Option<string>) {
    o.Some? && o.value != ""
  }

  /** Truthiness of a string that may also be `null`/`undefined`. */
  predicate TruthyNullableString(o: Nullable<string>) {
    o.Value? && o.value != ""
  }

  /** Truthiness of an optional integer property: missing and 0 are falsy. */
  predicate TruthyOptInt(o: Option<int>) {
    o.Some? && o.value != 0
  }

  /** `s || null` for a string: "" becomes `null`. */
  function StringOrNull(s: string): (r: Nullable<string>)
    ensures r.Null? <==> s == ""
    ensures r.Value? <==> s != ""
    ensures r.Value? ==> r.value == s
  {
    if s == "" then Null else Value(s)
  }

  /** `o ?? null` for an optional property (a missing value becomes `null`). */
  function OptionOrNull<T>(o: Option<T>): (r: Nullable<T>)
    ensures !r.Undefined?
    ensures o.Some? <==> r.Value?
    ensures o.Some? ==> r.value == o.value
  {
    match o
    case Some(v) => Value(v)
    case None => Null
  }
}
