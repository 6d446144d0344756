/** Go's fixed-width integers: the conversions and operators that can lose bits. */
module GoInt {
  const MAX_INT32 := 0x7fff_ffff
  const MAX_INT64 := 0x7fff_ffff_ffff_ffff

  type Int32 = x: int | -0x8000_0000 <= x <= 0x7fff_ffff
  type Int64 = x: int | -0x8000_0000_0000_0000 <= x <= 0x7fff_ffff_ffff_ffff

  /** The value of the Go conversion int32(x): the low 32 bits, read as two's complement. */
  function Wrap32(x: int): Int32 {
    if -0x8000_0000 <= x <= MAX_INT32 then x else (x + 0x8000_0000) % 0x1_0000_0000 - 0x8000_0000
  }

  /** The value of the Go conversion int64(x). */
  function Wrap64(x: int): Int64 {
    if -0x8000_0000_0000_0000 <= x <= MAX_INT64 then x
    else (x + 0x8000_0000_0000_0000) % 0x1_0000_0000_0000_0000 - 0x8000_0000_0000_0000
  }

  /** Go's division, which truncates toward zero where Dafny's is Euclidean. */
  function TruncDiv(a: int, b: int): int
    requires b > 0
  {
    if a >= 0 then a / b else -((-a) / b)
  }

  function Max(a: int, b: int): int {
    if a > b then a else b
  }

  function Min(a: int, b: int): int {
    if a < b then a else b
  }

  function Clamp(v: int, lo: int, hi: int): int {
    Min(Max(v, lo), hi)
  }

  lemma Wrap32OfSum(a: int, b: int)
    ensures Wrap32(Wrap32(a) + b) == Wrap32(a + b)
  {
  }

  /** A conversion keeps the low bits: the value differs by a multiple of 2^32 or 2^64, so its type makes it unique. */
  lemma WrapsKeepLowBits(x: int) returns (k: int, m: int)
    ensures Wrap32(x) == x - 0x1_0000_0000 * k
    ensures Wrap64(x) == x - 0x1_0000_0000_0000_0000 * m
  {
    k := if Wrap32(x) == x then 0 else (x + 0x8000_0000) / 0x1_0000_0000;
    m := if Wrap64(x) == x then 0 else (x + 0x8000_0000_0000_0000) / 0x1_0000_0000_0000_0000;
  }

  /** Truncated division leaves a remainder smaller than the divisor, on the dividend's side of zero. */
  lemma TruncDivRemainder(a: int, b: int)
    requires b > 0
    ensures var r := a - TruncDiv(a, b) * b;
            if a >= 0 then 0 <= r < b else -b < r <= 0
  {
    if a >= 0 {
      assert a == b * (a / b) + a % b;
    } else {
      assert -a == b * ((-a) / b) + (-a) % b;
      assert -((-a) / b) * b == -(b * ((-a) / b));
    }
  }

  lemma ClampIsNearest(v: int, lo: int, hi: int)
    requires lo <= hi
    ensures lo <= Clamp(v, lo, hi) <= hi
    ensures lo <= v <= hi ==> Clamp(v, lo, hi) == v
    ensures v < lo ==> Clamp(v, lo, hi) == lo
    ensures hi < v ==> Clamp(v, lo, hi) == hi
  {
  }
}
