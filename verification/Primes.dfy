/** count_primes_up_to of hello.ml on 31-bit integers, for every argument on which it returns. */
module Primes {
  import opened Arithmetic
  import opened OCamlInt

  predicate Prime(n: int)
  {
    n >= 2 && forall k :: 2 <= k < n ==> n % k != 0
  }

  predicate NoDivisorBelow(num: int, d: int)
    requires num >= 2
  {
    forall k :: 2 <= k < d && k < num ==> num % k != 0
  }

  // Trial division

  /** The products d * d are exact up to this divisor. */
  const LAST_EXACT: int := 32767
  /** A divisor whose wrapped square is 2^30 - 7, above every larger prime of the range. */
  const LAST_TRIED: Int31 := 57098059
  const TOP: int := 0x3FFF_FFF8

  /** The divisors check can reach. Once products wrap, it goes on for primes only, and only so far. */
  predicate InReach(num: Int31, d: Int31)
  {
    2 <= d && (d <= LAST_EXACT || (d <= LAST_TRIED && LAST_EXACT * LAST_EXACT <= num <= TOP))
  }

  /** The inner check: trial division is sound and complete although d * d leaves the 31-bit range. */
  function Check(num: Int31, d: Int31): (prime: bool)
    requires num >= 2 && InReach(num, d) && NoDivisorBelow(num, d)
    ensures prime <==> Prime(num)
    decreases LAST_TRIED - d
  {
    if Mul(d, d) > num then
      NoDivisorsLeft(num, d);
      true
    else if Rem(num, d) == 0 then
      DivisorFound(num, d);
      false
    else
      NextDivisor(num, d);
      Check(num, Add(d, 1))
  }

  predicate IsPrime(num: Int31)
    ensures IsPrime(num) <==> Prime(num)
  {
    if num < 2 then false else Check(num, 2)
  }

  lemma ExactSquare(d: Int31)
    requires 2 <= d <= LAST_EXACT
    ensures 2 * d <= d * d <= LAST_EXACT * LAST_EXACT && Mul(d, d) == d * d
  {
    MulGrows(2, d, d);
    MulGrows(d, LAST_EXACT, d);
  }

  lemma Cofactor(num: int, k: int)
    requires 2 <= k < num && num % k == 0
    ensures var q := num / k; num == q * k && 2 <= q < num && num % q == 0
  {
    var q := num / k;
    assert num == q * k;
    if q <= 1 {
      MulGrows(q, 1, k);
      assert false;
    }
    MulGrows(2, k, q);
    DivModUnique(num, q, k, 0);
  }

  /** A composite number has a divisor whose square does not exceed it. */
  lemma NoDivisorUpToRoot(num: int, d: int)
    requires num >= 2 && d >= 2 && num < d * d && NoDivisorBelow(num, d)
    ensures Prime(num)
  {
    forall k | 2 <= k < num ensures num % k != 0 {
      if k >= d && num % k == 0 {
        Cofactor(num, k);
        var q := num / k;
        MulGrows(d, k, d);
        if q >= d {
          MulGrows(d, q, k);
        }
        assert false;
      }
    }
  }

  lemma NoDivisorsLeft(num: Int31, d: Int31)
    requires num >= 2 && InReach(num, d) && NoDivisorBelow(num, d) && Mul(d, d) > num
    ensures Prime(num)
  {
    if d <= LAST_EXACT {
      ExactSquare(d);
      NoDivisorUpToRoot(num, d);
    } else {
      NoDivisorUpToRoot(num, 32768);
    }
  }

  lemma DivisorFound(num: Int31, d: Int31)
    requires num >= 2 && InReach(num, d) && Mul(d, d) <= num && Rem(num, d) == 0
    ensures !Prime(num)
  {
    if d <= LAST_EXACT {
      ExactSquare(d);
    }
    assert d < num && num % d == 0;
  }

  lemma LastTriedStops()
    ensures Mul(LAST_TRIED, LAST_TRIED) == 0x3FFF_FFF9 == TOP + 1
  {
  }

  /** The seven numbers above TOP all have a divisor whose square is exact. */
  lemma AboveTopComposite(num: Int31)
    requires num > TOP
    ensures !NoDivisorBelow(num, LAST_EXACT)
  {
    assert 0x3FFF_FFFF % 3 == 0 && 0x3FFF_FFFD % 23 == 0 && 0x3FFF_FFFB % 2969 == 0 && 0x3FFF_FFF9 % 3 == 0;
    if num % 2 == 0 {
    } else if num == 0x3FFF_FFFD {
      assert num % 23 == 0;
    } else if num == 0x3FFF_FFFB {
      assert num % 2969 == 0;
    } else {
      assert num % 3 == 0;
    }
  }

  lemma NextDivisor(num: Int31, d: Int31)
    requires num >= 2 && InReach(num, d) && NoDivisorBelow(num, d) && Mul(d, d) <= num && Rem(num, d) != 0
    ensures Add(d, 1) == d + 1 && InReach(num, d + 1) && NoDivisorBelow(num, d + 1)
  {
    LastTriedStops();
    if d <= LAST_EXACT {
      ExactSquare(d);
      if num > TOP && d == LAST_EXACT {
        AboveTopComposite(num);
      }
    }
  }

  // Counting

  ghost function PrimesBetween(i: int, n: int): set<int>
  {
    set p | i <= p <= n && Prime(p)
  }

  /** The accumulator loop counts exactly the primes still ahead. */
  function Count(n: Int31, acc: Int31, i: Int31): (total: Int31)
    requires n < MAX_INT && 2 <= i && 0 <= acc <= i - 2 && (i <= n + 1 || i == 2)
    ensures total == acc + |PrimesBetween(i, n)|
    decreases n + 1 - i
  {
    if i > n then
      assert PrimesBetween(i, n) == {};
      acc
    else
      FirstCounted(i, n);
      AddExact(acc, 1);
      AddExact(i, 1);
      Count(n, if IsPrime(i) then Add(acc, 1) else acc, Add(i, 1))
  }

  lemma FirstCounted(i: int, n: int)
    requires i <= n
    ensures |PrimesBetween(i, n)| == |PrimesBetween(i + 1, n)| + (if Prime(i) then 1 else 0)
  {
    if Prime(i) {
      assert PrimesBetween(i, n) == PrimesBetween(i + 1, n) + {i};
    } else {
      assert PrimesBetween(i, n) == PrimesBetween(i + 1, n);
    }
  }

  function CountPrimesUpTo(n: Int31): (total: Int31)
    requires n < MAX_INT
    ensures total == |PrimesBetween(2, n)|
  {
    Count(n, 0, 2)
  }

  /** The counter of the outer loop after k rounds. */
  function Counter(k: nat): Int31
  {
    if k == 0 then 2 else Add(Counter(k - 1), 1)
  }

  lemma {:induction false} CounterExact(k: nat)
    requires k <= MAX_INT - 2
    ensures Counter(k) == 2 + k
  {
    if k > 0 {
      CounterExact(k - 1);
      AddExact(k + 1, 1);
    }
  }

  /** The loop leaves for every argument but the largest integer, on which the counter wraps around for ever. */
  lemma LoopLeavesIff(n: Int31)
    ensures (exists k: nat :: Counter(k) > n) <==> n < MAX_INT
  {
    if n < MAX_INT {
      CounterExact(MAX_INT - 2);
    }
  }
}
