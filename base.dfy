/** Go-level building blocks shared by the handlers: bytes, the `error`
    interface (nil or a message) and the `(value, error)` result pair. */
module Base {

  newtype byte = x: int | 0 <= x < 256

  /** A request body or a message payload. */
  type Bytes = seq<byte>

  /** Go's `error`: either `nil` or an error whose `Error()` text is `text`. */
  datatype Status = Nil | Error(text: string)

  /** A Go `(*T, error)` pair in which the value is used only when the error
      is `nil`. */
  datatype Result<+T> = Success(value: T) | Failure(message: string)
}
