/** The integers of OCaml on the 32-bit target: 31 bits, two's complement, wrapping, with truncating division. */
module OCamlInt {
  import opened Arithmetic

  const MIN_INT: int := -0x4000_0000
  const MAX_INT: int := 0x3FFF_FFFF
  const RANGE: int := 0x8000_0000

  type Int31 = i: int | -0x4000_0000 <= i <= 0x3FFF_FFFF

  function Wrap(x: int): Int31
  {
    (x + 0x4000_0000) % RANGE - 0x4000_0000
  }

  function Add(a: Int31, b: Int31): Int31
  {
    Wrap(a + b)
  }

  function Sub(a: Int31, b: Int31): Int31
  {
    Wrap(a - b)
  }

  function Mul(a: Int31, b: Int31): Int31
  {
    Wrap(a * b)
  }

  /** a / b, rounded towards zero; the divisors of the program are positive. */
  function Quot(a: Int31, b: Int31): Int31
    requires b > 0
  {
    var n: int := a;
    if n >= 0 then n / b else -((-n) / b)
  }

  /** a mod b, with the sign of a. */
  function Rem(a: Int31, b: Int31): Int31
    requires b > 0
  {
    var n: int := a;
    if n >= 0 then n % b else -((-n) % b)
  }

  lemma AddExact(a: Int31, b: Int31)
    requires MIN_INT <= a + b <= MAX_INT
    ensures Add(a, b) == a + b
  {
  }

  lemma MulExact(a: Int31, b: Int31, bound: int)
    requires 0 <= a <= bound && 0 <= b && bound * b <= MAX_INT
    ensures Mul(a, b) == a * b <= bound * b
  {
    MulGrows(a, bound, b);
    MulGrows(0, a, b);
  }

  /** Dividing and taking the remainder are inverse to recombining, for either sign. */
  lemma QuotRem(a: Int31, b: Int31)
    requires b > 0
    ensures Quot(a, b) * b + Rem(a, b) == a
    ensures a >= 0 ==> 0 <= Rem(a, b) < b
    ensures a <= 0 ==> -b < Rem(a, b) <= 0
  {
    var n: int := if a >= 0 then a else -(a as int);
    DivMod(n, b);
    if a < 0 {
      assert -((n / b) * b) == (-(n / b)) * b;
    }
  }

  /** Wrapping subtracts a multiple of the range, and multiples of the range do not matter to it. */
  lemma WrapShifts(x: int)
    ensures Wrap(x) == x - (x + 0x4000_0000) / RANGE * RANGE
  {
    DivMod(x + 0x4000_0000, RANGE);
  }

  lemma WrapIgnoresRange(x: int, k: int)
    ensures Wrap(x + k * RANGE) == Wrap(x)
  {
    var n := x + 0x4000_0000;
    DivMod(n, RANGE);
    DivModUnique(n + k * RANGE, RANGE, n / RANGE + k, n % RANGE);
  }

  lemma WrapOfDifference(a: int, b: int)
    ensures Wrap(Wrap(a) - Wrap(b)) == Wrap(a - b)
  {
    WrapShifts(a);
    WrapShifts(b);
    var k := (b + 0x4000_0000) / RANGE - (a + 0x4000_0000) / RANGE;
    assert Wrap(a) - Wrap(b) == a - b + k * RANGE;
    WrapIgnoresRange(a - b, k);
  }

  lemma WrapIdentityIff(x: int)
    ensures Wrap(x) == x <==> MIN_INT <= x <= MAX_INT
  {
  }
}
