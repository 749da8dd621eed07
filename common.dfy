/** Small value types shared by every module of the model. */
module Common {

  /** The conventional Some/None datatype. */
  datatype Option<+T> = None | Some(value: T)

  /** A byte, as Go's `byte` (an 8-bit unsigned integer). */
  newtype byte = x: int | 0 <= x < 256

  /** A byte slice (`[]byte`) taken as a value. */
  type Bytes = seq<byte>
}
