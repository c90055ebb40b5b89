/**
 * The checks a `z.object` schema applies to a value, in the few forms the two
 * AI flows use: a required or optional field of a given type, an integer in a
 * closed range, and a string enum.
 */
module Zod {
  import opened Js

  /** One field of an unvalidated object: absent, present with the declared type, or of another type. */
  datatype RawField<T> = Missing | Present(value: T) | WrongType

  /** A field declared without `.optional()`. */
  predicate Required<T>(f: RawField<T>) {
    f.Present?
  }

  /** A field declared with `.optional()`: it may be absent, but not of another type. */
  predicate Optional<T>(f: RawField<T>) {
    !f.WrongType?
  }

  /** The value of an optional field that passed validation. */
  function OptionalValue<T>(f: RawField<T>): (r: Option<T>)
    requires Optional(f)
    ensures r.Some? <==> f.Present?
    ensures r.Some? ==> r.value == f.value
  {
    if f.Present? then Some(f.value) else None
  }

  /**
   * `z.number().int().min(lo).max(hi)`; `None` stands for `NaN`, which
   * `z.number()` rejects.
   */
  predicate IntIn(n: Option<int>, lo: int, hi: int) {
    n.Some? && lo <= n.value <= hi
  }

  /** `z.enum(values)` */
  predicate OneOf(s: string, values: seq<string>) {
    s in values
  }
}
