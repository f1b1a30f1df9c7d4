/** Facts about division and multiplication that the solver does not find by itself. */
module Arithmetic {

  lemma DivMod(n: int, b: int)
    requires b > 0
    ensures n / b * b + n % b == n
  {
  }

  /** Quotient and remainder are the only numbers that recombine to n. */
  lemma DivModUnique(n: int, b: int, q: int, r: int)
    requires b > 0 && n == q * b + r && 0 <= r < b
    ensures n / b == q && n % b == r
  {
    DivMod(n, b);
    var difference := n / b - q;
    assert difference * b == r - n % b;
    if difference > 0 {
      MulGrows(1, difference, b);
    } else if difference < 0 {
      MulGrows(difference, -1, b);
    }
  }

  lemma MulGrows(a: int, b: int, c: int)
    requires a <= b && c >= 0
    ensures a * c <= b * c
  {
  }
}
