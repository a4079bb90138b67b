/** Shared vocabulary: fixed-width integers, Option, and absl-style status results. */
module Common {

  const TWO_64: int := 0x1_0000_0000_0000_0000
  const TWO_63: int := 0x8000_0000_0000_0000

  /** uint64_t */
  type u64 = x: int | 0 <= x < TWO_64

  /** uint8_t / char of a byte string */
  type byte = x: int | 0 <= x < 256

  /** Unsigned 64-bit addition, wrapping modulo 2^64 as C++ does. */
  function AddU64(a: u64, b: u64): u64 {
    (a + b) % TWO_64
  }

  /** Unsigned 64-bit subtraction, wrapping modulo 2^64 as C++ does. */
  function SubU64(a: u64, b: u64): u64 {
    (a - b) % TWO_64
  }

  /** Unsigned 64-bit multiplication, wrapping modulo 2^64 as C++ does. */
  function MulU64(a: u64, b: u64): u64 {
    (a * b) % TWO_64
  }

  /** Reinterprets an integer as int64_t (two's complement wrap-around). */
  function WrapI64(x: int): int {
    var m := x % TWO_64;
    if m >= TWO_63 then m - TWO_64 else m
  }

  /** Reinterprets an integer as a 32-bit int (two's complement wrap-around). */
  function WrapI32(x: int): int {
    var m := x % 0x1_0000_0000;
    if m >= 0x8000_0000 then m - 0x1_0000_0000 else m
  }

  /** C++ `%` on signed integers: truncates toward zero, so the remainder has the sign of `a`. */
  function TRem(a: int, b: int): int
    requires b > 0
  {
    if a >= 0 then a % b else -((-a) % b)
  }

  /** `|TRem(a, b)|` equals the Euclidean remainder of `|a|`. */
  lemma TRemMagnitude(a: int, b: int)
    requires b > 0
    ensures -b < TRem(a, b) < b
    ensures a >= 0 ==> TRem(a, b) >= 0
    ensures a < 0 ==> TRem(a, b) <= 0
    ensures (if TRem(a, b) > 0 then TRem(a, b) else -TRem(a, b)) == (if a >= 0 then a else -a) % b
  {
  }

  /** The decimal digits of n, as absl::StrCat prints an unsigned count. */
  function NatToString(n: nat): (s: string)
    ensures |s| >= 1 && forall i :: 0 <= i < |s| ==> '0' <= s[i] <= '9'
    decreases n
  {
    var digit := ['0' + (n % 10) as char];
    if n < 10 then digit else NatToString(n / 10) + digit
  }

  datatype Option<+T> = None | Some(value: T)

  /** absl::StatusCode values used by the core. */
  datatype StatusCode = InvalidArgument | NotFound | Internal | OutOfRange | Unknown

  /** absl::StatusOr<T>: a value or an error code with its message. */
  datatype Result<+T> = Ok(value: T) | Err(code: StatusCode, msg: string)

  /** absl::Status: success or an error code with its message. */
  datatype Status = OkStatus | ErrStatus(code: StatusCode, msg: string)
}
