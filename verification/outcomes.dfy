/** Results that a Vala method reports by throwing and a C function by a status code. */
module Outcomes {

  datatype Option<+T> = None | Some(value: T)

  datatype Result<+T, +E> = Ok(value: T) | Err(error: E)

  /** The 32-bit integers of the sources. */
  type int32 = x: int | -0x8000_0000 <= x < 0x8000_0000
  type uint32 = x: int | 0 <= x < 0x1_0000_0000
  type byte = x: int | 0 <= x < 256

  /** The value a C cast to `int` keeps of an integer: its low 32 bits, read as two's complement. */
  function ToInt32(x: int): (r: int32)
    ensures (r - x) % 0x1_0000_0000 == 0
  {
    var low := x % 0x1_0000_0000;
    if low < 0x8000_0000 then low else low - 0x1_0000_0000
  }

  /** The value a C cast to `uint` keeps. */
  function ToUInt32(x: int): uint32 {
    x % 0x1_0000_0000
  }

  lemma CastRoundTrip(u: uint32)
    ensures ToUInt32(ToInt32(u)) == u
  {
  }

  /** The four digits of a word, to base 256, put it together again. */
  lemma Digits(n: nat)
    ensures n % 256 + 256 * (n / 256 % 256) + 65536 * (n / 65536 % 256) + 16777216 * (n / 16777216) == n
  {
    var a := n / 256;
    var b := a / 256;
    assert n == 256 * a + n % 256 && a == 256 * b + a % 256 && b == 256 * (b / 256) + b % 256;
    assert n / 65536 == b && n / 16777216 == b / 256;
  }
}
