/**
 The C integer widths the firmware uses, as ranges of mathematical integers, and the two C
 operators whose result differs from Dafny's on a negative dividend.
 */
module Machine {

  type U8 = x: int | 0 <= x < 0x100
  type U16 = x: int | 0 <= x < 0x1_0000
  type U32 = x: int | 0 <= x < 0x1_0000_0000
  type I64 = x: int | -0x8000_0000_0000_0000 <= x < 0x8000_0000_0000_0000

  const U8_MAX: U8 := 0xFF
  const U16_MAX: U16 := 0xFFFF
  const U32_MAX: U32 := 0xFFFF_FFFF
  const I64_MAX: I64 := 0x7FFF_FFFF_FFFF_FFFF

  datatype Option<+T> = None | Some(value: T)

  type I32 = x: int | -0x8000_0000 <= x < 0x8000_0000
  type I16 = x: int | -0x8000 <= x < 0x8000

  /** C's cast to int32_t: the low 32 bits, read as signed. */
  function ToI32(x: int): I32 {
    (x + 0x8000_0000) % 0x1_0000_0000 - 0x8000_0000
  }

  /** A counter that stops at its type's maximum, as the 8-bit tallies of the firmware do. */
  function Saturate(n: nat, max: nat): nat {
    if n < max then n else max
  }

  /** C's `/`: truncates toward zero. */
  function TruncDiv(a: int, b: int): int
    requires b > 0
  {
    if a >= 0 then a / b else -((-a) / b)
  }

  /** C's `%`: takes the sign of the dividend. */
  function TruncMod(a: int, b: int): int
    requires b > 0
  {
    a - TruncDiv(a, b) * b
  }

  lemma MultipleAtLeast(d: int, b: int)
    requires b > 0
    ensures d >= 1 ==> d * b >= b
    ensures d <= -1 ==> d * b <= -b
  {
    if d >= 1 {
      assert d * b == (d - 1) * b + b;
    } else if d <= -1 {
      assert d * b == (d + 1) * b - b;
    }
  }

  lemma QuotientIs(a: int, b: int, q: int, r: int)
    requires b > 0 && a == q * b + r && 0 <= r < b
    ensures a / b == q && a % b == r
  {
    assert (a / b - q) * b == r - a % b;
    MultipleAtLeast(a / b - q, b);
  }

  /** The firmware floors by shifting a negative dividend down before it truncates. */
  lemma ShiftedTruncDivFloors(a: int, b: int)
    requires b > 0
    ensures TruncDiv(if a >= 0 then a else a - (b - 1), b) == a / b
  {
    if a < 0 {
      var n := -(a - (b - 1));
      assert n == (n / b) * b + n % b;
      assert a == -(n / b) * b + (b - 1 - n % b);
      QuotientIs(a, b, -(n / b), b - 1 - n % b);
    }
  }

  /** ... or by stepping down one when the truncated remainder came out negative. */
  lemma SteppedTruncModFloors(a: int, b: int)
    requires b > 0
    ensures TruncMod(a, b) >= 0 ==> TruncMod(a, b) == a % b && TruncDiv(a, b) == a / b
    ensures TruncMod(a, b) < 0 ==> TruncMod(a, b) + b == a % b && TruncDiv(a, b) - 1 == a / b
  {
    if a < 0 {
      var q, r := (-a) / b, (-a) % b;
      assert -a == q * b + r;
      if r == 0 {
        QuotientIs(a, b, -q, 0);
      } else {
        assert a == (-q - 1) * b + (b - r);
        QuotientIs(a, b, -q - 1, b - r);
      }
    }
  }
}
