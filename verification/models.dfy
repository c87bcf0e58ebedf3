/**
 The records the authentication service reads and passes along: Go's 64-bit
 integers, byte slices, and the stored user and application.
 */
module Models {

  const MinInt64: int := -0x8000_0000_0000_0000
  const MaxInt64: int := 0x7FFF_FFFF_FFFF_FFFF

  /** Go's `int64`, and `int` on the 64-bit targets the service runs on. */
  type Int64 = x: int | MinInt64 <= x <= MaxInt64

  type Byte = b: int | 0 <= b < 256

  /** Go's `[]byte`. */
  type Bytes = seq<Byte>

  /** `time.Duration`: a count of nanoseconds held in an `int64`. */
  type Duration = Int64

  /** A stored user: store-assigned id, email, and bcrypt hash of the password. */
  datatype User = User(id: Int64, email: string, passHash: Bytes)

  /** A registered application; its secret signs the tokens issued for it. */
  datatype App = App(id: Int64, name: string, secret: string)
}
