/** Values and errors shared by the category aggregate, its mapper and its use cases. */
module Shared {

  /** An optional TypeScript property (`x?: T`): left out (`undefined`) or supplied. */
  datatype Optional<+T> = Undefined | Defined(value: T)

  /** A TypeScript `T | null`. */
  datatype Nullable<+T> = Null | NonNull(value: T)

  /** `o ?? d` on a property that is `undefined` or a value (its `null` lives inside `T`). */
  function OrElse<T>(o: Optional<T>, d: T): T
  {
    match o
    case Undefined => d
    case Defined(x) => x
  }

  /** The violations a validator reports: field name to the messages of the rules it broke. */
  type FieldErrors = map<string, seq<string>>

  /** The exceptions the core raises, and the store-level one its repository contract raises. */
  datatype Error =
    | EntityValidatorError(errors: FieldErrors)
    | InvalidUuidError(value: string)
    | NotFoundError(id: string)
    | UniqueConstraintError(id: string)

  /** A value, or the exception thrown instead of returning it. */
  datatype Result<+T> = Ok(value: T) | Err(error: Error)

  /** The completion of a `void` operation that may throw. */
  datatype Outcome = Pass | Fail(error: Error)
}
