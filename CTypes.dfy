/** Machine integers of the C++ program and the conversions it performs
    implicitly between them. Dafny's integers are unbounded, so every
    truncation the program relies on is written out here. */
module CTypes {

  datatype Option<T> = None | Some(value: T)

  const UInt32Modulus: int := 0x1_0000_0000
  const Int32Min: int := -0x8000_0000
  const Int32Max: int := 0x7FFF_FFFF
  const LongMin: int := -0x8000_0000_0000_0000
  const LongMax: int := 0x7FFF_FFFF_FFFF_FFFF

  /** `DWORD` / `unsigned int`: process and parent identifiers. */
  type UInt32 = x: int | 0 <= x < 0x1_0000_0000

  /** `int`: the memory figures and the parent field read from a stat record. */
  type Int32 = x: int | -0x8000_0000 <= x < 0x8000_0000

  predicate IsInt32(x: int) {
    Int32Min <= x <= Int32Max
  }

  /** Conversion of any integer to `unsigned int` (reduction modulo 2^32). */
  function ToUInt32(x: int): (r: UInt32)
    ensures (x - r) % UInt32Modulus == 0
    ensures 0 <= x < UInt32Modulus ==> r == x
  {
    x % UInt32Modulus
  }

  /** Conversion of a wider integer to `int` (two's complement truncation). */
  function ToInt32(x: int): (r: Int32)
    ensures (x - r) % UInt32Modulus == 0
    ensures IsInt32(x) ==> r == x
  {
    var m := x % UInt32Modulus;
    if m <= Int32Max then m else m - UInt32Modulus
  }

  /** C's `a / 1024` on a signed integer: the quotient is rounded toward zero,
      unlike Dafny's Euclidean division. */
  function CDivBy1024(a: int): (r: int)
    ensures 0 <= a ==> 0 <= r && r * 1024 <= a < r * 1024 + 1024
    ensures a < 0 ==> r <= 0 && r * 1024 - 1024 < a <= r * 1024
  {
    if 0 <= a then a / 1024 else -((-a) / 1024)
  }
}
