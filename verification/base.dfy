/**
 Small value types shared by every part of the calendar model: an optional
 value (TypeScript's `T | undefined`), the integer-valued subset of a
 JavaScript `number` (which can be `NaN`), and the outcome of an HTTP request.
 */
module Base {

  /** `Some(v)` is a present value, `None` is `undefined`. */
  datatype Option<+T> = None | Some(value: T)

  /**
   The JavaScript numbers this model meets: story points come from `parseInt`,
   so they are whole numbers or `NaN`, and sums of them stay whole or `NaN`.
   */
  datatype Number = NaN | Finite(value: int)

  /** JavaScript `+` on two numbers: `NaN` on either side poisons the sum. */
  function Add(a: Number, b: Number): (r: Number)
    ensures r.Finite? <==> a.Finite? && b.Finite?
  {
    if a.Finite? && b.Finite? then Finite(a.value + b.value) else NaN
  }

  /**
   What an HTTP observable delivers: the deserialised body, or an error
   (in which case RxJS calls the `error` callback and never `complete`).
   */
  datatype Response<+T> = Received(body: T) | Failed

  function Min(a: int, b: int): int { if a <= b then a else b }

  function Max(a: int, b: int): int { if a <= b then b else a }
}
