/** Failure-carrying values for the printer's error paths. The C# code throws
    .NET exceptions; the model returns them as values instead. */
module Results {

  datatype Option<+T> = None | Some(value: T)

  /** The exceptions the modelled code raises, named after their .NET classes. */
  datatype PrintError =
    | NullReference
    | ArgumentNull
    | ArgumentOutOfRange(what: string)
    | DivideByZero

  datatype Result<+T> = Success(value: T) | Failure(error: PrintError)

  /** The outcome of an operation that returns nothing when it succeeds. */
  datatype Outcome = Pass | Fail(error: PrintError)

  function Min(a: int, b: int): int { if a <= b then a else b }

  function Max(a: int, b: int): int { if a >= b then a else b }
}
