/** Value shapes shared by every part of the model: optional values, results
    that carry the message the application throws, and the two JavaScript
    value shapes (numbers out of `parseInt`, `Date` objects) that cross the
    route handlers and the services. */
module Common {

  datatype Option<+T> = None | Some(value: T)

  /** An operation either produces a value or fails with the message the
      application puts into the `Error` it throws. */
  datatype Result<+T> = Ok(value: T) | Err(msg: string)

  /** A JavaScript number as produced by `parseInt`: NaN or an integer. */
  datatype Num = NaN | Int(v: int)

  /** A JavaScript `Date`: an invalid date, or milliseconds since the epoch. */
  datatype Instant = InvalidDate | At(ms: int)

  /** Truthiness of an optional JavaScript number: absent, NaN and 0 are falsy. */
  predicate Truthy(x: Option<Num>) {
    x.Some? && x.value.Int? && x.value.v != 0
  }

  /** The JavaScript idiom `x || d` on an optional number. */
  function OrDefault(x: Option<Num>, d: int): int {
    if Truthy(x) then x.value.v else d
  }

  /** Truthiness of an optional string: absent and "" are falsy. */
  predicate Present(s: Option<string>) {
    s.Some? && s.value != ""
  }

  function Min(a: int, b: int): int {
    if a <= b then a else b
  }

  function Max(a: int, b: int): int {
    if a <= b then b else a
  }

  function Abs(a: int): nat {
    if a < 0 then -a else a
  }

  const MsPerMinute: int := 60 * 1000
  const MsPerHour: int := 60 * 60 * 1000
}
