/** Outcome types shared by every module of the model.

    Go functions in the repository return `(value, error)` pairs and, in a few
    places, reach a runtime panic (a nil dereference, a failed type assertion).
    `Result` keeps all three outcomes apart: a value, an error carrying Go's
    error text, and a panic carrying the reason the Go runtime would give. */
module Wrappers {

  datatype Option<+T> = None | Some(value: T)

  datatype Result<+T> = Ok(value: T) | Err(msg: string) | Panic(reason: string)

  /** The message of the runtime panic raised by calling a method through a nil pointer or interface. */
  const NilDereference: string := "invalid memory address or nil pointer dereference"

  /** The message of the runtime panic raised by a single-value type assertion that does not hold. */
  const BadTypeAssertion: string := "interface conversion"
}
