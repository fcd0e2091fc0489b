/** The optional-value convention: a value of type `T` that may be absent.
    `Nothing` stands for a value whose `isNull` flag is set, `Just(v)` for one
    whose flag is clear and whose payload is `v`. */
module Maybes {

  datatype Maybe<T> = Nothing | Just(value: T)

  /** Whether `m` holds no value (the `isNull` flag). */
  predicate IsNothing<T>(m: Maybe<T>)
  {
    m.Nothing?
  }

  /** `nothing` is nothing; `just(v)` is not, and yields `v` back. */
  lemma MaybeConvention<T>(v: T)
    ensures IsNothing<T>(Nothing)
    ensures !IsNothing(Just(v)) && Just(v).value == v
  {
  }
}
