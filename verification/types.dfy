/** Basic types shared by the driver and the client library model. */
module Types {

  /** One byte of a buffer (`char` in the driver, `uint8_t` in the library). */
  type byte = bv8

  /** A non-NULL user-space address. NULL is `None` (or `NullArg` for an ioctl argument). */
  type Addr = a: nat | a > 0 witness 1

  /** A nullable value: `None` stands for a NULL pointer. */
  datatype Option<+T> = None | Some(value: T)

  /** The C idiom `(a < b) ? a : b`. */
  function Min(a: int, b: int): (m: int)
    ensures m <= a && m <= b
    ensures m == a || m == b
  {
    if a < b then a else b
  }
}
