/**
 * The mathematics every prime finder in the repository is measured against:
 * primality, the ascending primes of a closed interval, least factors, the
 * divisibility facts the trial-division loops rely on, and an exact integer
 * square root standing in for the floating-point `std::sqrt` calls.
 */
module Primes {

  /** Largest value of a 32-bit signed `int`. */
  const INT_MAX: int := 0x7fff_ffff
  /** 2^64: the values of a `uint64_t` are 0 .. U64_LIMIT - 1. */
  const U64_LIMIT: int := 0x1_0000_0000_0000_0000

  function Min(a: int, b: int): int { if a <= b then a else b }
  function Max(a: int, b: int): int { if a >= b then a else b }

  /** 2^32: a 32-bit `int` counter works modulo this. */
  const INT_MODULUS: int := 0x1_0000_0000

  /**
   * The value a `std::atomic<int>` holds once x has been added into it:
   * atomic arithmetic on signed integers wraps in two's complement, so x is
   * reduced into [-2^31, 2^31) modulo 2^32; values already in range stay.
   */
  function ToInt32(x: int): (r: int)
    ensures -INT_MAX - 1 <= r <= INT_MAX
    ensures (x - r) % INT_MODULUS == 0
    ensures -INT_MAX - 1 <= x <= INT_MAX ==> r == x
  {
    (x + 0x8000_0000) % INT_MODULUS - 0x8000_0000
  }

  /**
   * Wrapping after every fetch_add is wrapping once at the end: a counter
   * that already wrapped and then receives b holds what the exact sum wraps
   * to.
   */
  lemma ToInt32Add(a: int, b: int)
    ensures ToInt32(ToInt32(a) + b) == ToInt32(a + b)
  {
    var q := (a + 0x8000_0000) / INT_MODULUS;
    assert ToInt32(a) == a - q * INT_MODULUS;
    var y := a + b + 0x8000_0000;
    DivUnique(y - q * INT_MODULUS, INT_MODULUS, y / INT_MODULUS - q, y % INT_MODULUS);
  }

  /** n is prime: at least 2 and divisible by no d with 2 <= d < n. */
  predicate IsPrime(n: int) {
    n >= 2 && forall d :: 2 <= d < n ==> n % d != 0
  }

  predicate StrictlyIncreasing(s: seq<int>) {
    forall i, j :: 0 <= i < j < |s| ==> s[i] < s[j]
  }

  /**
   * The primes of [lo, hi] in ascending order. Defined from the back, the way
   * every enumerator in the repository builds its vector with `push_back`.
   */
  function PrimesIn(lo: int, hi: int): seq<nat>
    decreases hi - lo
  {
    if hi < lo then []
    else PrimesIn(lo, hi - 1) + (if IsPrime(hi) then [hi as nat] else [])
  }

  /** The number of primes in [lo, hi]. */
  function PrimeCount(lo: int, hi: int): nat {
    |PrimesIn(lo, hi)|
  }

  // ---------------------------------------------------------------------
  // What PrimesIn contains, and in which order
  // ---------------------------------------------------------------------

  /** PrimesIn(lo, hi) holds exactly the primes x with lo <= x <= hi. */
  lemma {:induction false} PrimesInMembers(lo: int, hi: int)
    ensures forall x :: x in PrimesIn(lo, hi) <==> lo <= x <= hi && IsPrime(x)
    decreases hi - lo
  {
    if hi >= lo {
      PrimesInMembers(lo, hi - 1);
    }
  }

  /** PrimesIn lists its primes strictly ascending, hence without repeats. */
  lemma {:induction false} PrimesInIncreasing(lo: int, hi: int)
    ensures StrictlyIncreasing(PrimesIn(lo, hi))
    decreases hi - lo
  {
    if hi >= lo {
      PrimesInIncreasing(lo, hi - 1);
      PrimesInMembers(lo, hi - 1);
      var a := PrimesIn(lo, hi - 1);
      assert forall i :: 0 <= i < |a| ==> a[i] in a;
    }
  }

  /** Splitting [lo, hi] after mid splits its primes the same way. */
  lemma {:induction false} PrimesInSplit(lo: int, mid: int, hi: int)
    requires lo <= mid + 1 && mid <= hi
    ensures PrimesIn(lo, hi) == PrimesIn(lo, mid) + PrimesIn(mid + 1, hi)
    decreases hi - mid
  {
    if hi == mid {
      assert PrimesIn(mid + 1, hi) == [];
    } else {
      PrimesInSplit(lo, mid, hi - 1);
    }
  }

  /** No prime lies below 2. */
  lemma {:induction false} PrimesInBelowTwo(lo: int, hi: int)
    requires hi < 2
    ensures PrimesIn(lo, hi) == []
    decreases hi - lo
  {
    if hi >= lo {
      PrimesInBelowTwo(lo, hi - 1);
    }
  }

  /** Clamping the lower bound up to 2 loses no prime. */
  lemma PrimesInClamp(lo: int, hi: int)
    ensures PrimesIn(lo, hi) == PrimesIn(Max(lo, 2), hi)
  {
    if lo < 2 {
      if hi < 2 {
        PrimesInBelowTwo(lo, hi);
        PrimesInBelowTwo(2, hi);
      } else {
        PrimesInSplit(lo, 1, hi);
        PrimesInBelowTwo(lo, 1);
      }
    }
  }

  /** [lo, hi] holds at most hi - lo + 1 primes. */
  lemma {:induction false} PrimeCountAtMostWidth(lo: int, hi: int)
    ensures PrimeCount(lo, hi) <= Max(hi - lo + 1, 0)
    decreases hi - lo
  {
    if hi >= lo {
      PrimeCountAtMostWidth(lo, hi - 1);
    }
  }

  /** Peeling the first candidate off a non-empty interval. */
  lemma PrimesInFront(lo: int, hi: int)
    requires lo <= hi
    ensures PrimesIn(lo, hi) == (if IsPrime(lo) then [lo as nat] else []) + PrimesIn(lo + 1, hi)
  {
    PrimesInSplit(lo, lo, hi);
    assert PrimesIn(lo, lo - 1) == [];
  }

  // ---------------------------------------------------------------------
  // Multiplication and divisibility facts
  // ---------------------------------------------------------------------

  lemma MulLeft(c: int, a: int, b: int)
    requires c >= 0 && a <= b
    ensures c * a <= c * b
  {
  }

  /** A multiple of k leaves no remainder modulo k. */
  lemma MulMod(k: int, x: int)
    requires k >= 1
    ensures (k * x) % k == 0
  {
    var q := (k * x) / k;
    var r := (k * x) % k;
    assert k * x == k * q + r;
    assert k * (x - q) == r;
    if x - q >= 1 {
      MulLeft(k, 1, x - q);
    } else if x - q <= -1 {
      MulLeft(k, x - q, -1);
    }
  }

  /** Division is unique: a == m * q + r with 0 <= r < m determines q and r. */
  lemma DivUnique(a: int, m: int, q: int, r: int)
    requires m >= 1 && 0 <= r < m && a == m * q + r
    ensures a / m == q && a % m == r
  {
    var q2 := a / m;
    var r2 := a % m;
    assert m * (q - q2) == r2 - r;
    if q - q2 >= 1 {
      MulLeft(m, 1, q - q2);
    } else if q - q2 <= -1 {
      MulLeft(m, q - q2, -1);
    }
  }

  /** Reduction modulo m leaves values in [0, m) unchanged. */
  lemma ModBelow(x: int, m: int)
    requires 0 <= x < m
    ensures x % m == x
  {
  }

  /** Stepping a multiple of k by k gives a multiple of k. */
  lemma AddMultiple(j: int, k: int)
    requires k >= 1 && j % k == 0
    ensures (j + k) % k == 0
  {
    var q := j / k;
    assert j == k * q;
    assert j + k == k * (q + 1);
    MulMod(k, q + 1);
  }

  /** k | d and d | n give k | n. */
  lemma DividesTransitive(n: int, d: int, k: int)
    requires k >= 1 && d >= 1 && n % d == 0 && d % k == 0
    ensures n % k == 0
  {
    var q := n / d;
    var m := d / k;
    assert n == d * q;
    assert d == k * m;
    assert n == k * (m * q);
    MulMod(k, m * q);
  }

  /** Two distinct multiples of m lie at least m apart. */
  lemma MultiplesApart(a: int, b: int, m: int)
    requires m >= 1 && a % m == 0 && b % m == 0 && a < b
    ensures a + m <= b
  {
    var qa := a / m;
    var qb := b / m;
    assert b - a == m * (qb - qa);
    if qb - qa <= 0 {
      MulLeft(m, qb - qa, 0);
    }
    MulLeft(m, 1, qb - qa);
  }

  /** A number with no divisor in [2, b) where b * b > n is prime. */
  lemma PrimeByTrialDivision(n: int, b: int)
    requires n >= 2 && b >= 1 && b * b > n
    requires forall d :: 2 <= d < b ==> n % d != 0
    ensures IsPrime(n)
  {
    forall d | b <= d < n ensures n % d != 0 {
      NoLargeDivisor(n, b, d);
    }
  }

  /** Under the same hypotheses, no d in [b, n) divides n: its cofactor would lie in [2, b). */
  lemma NoLargeDivisor(n: int, b: int, d: int)
    requires n >= 2 && b >= 1 && b * b > n && b <= d < n
    requires forall d :: 2 <= d < b ==> n % d != 0
    ensures n % d != 0
  {
    if n % d == 0 {
      var e := n / d;
      assert n == d * e;
      if e >= b {
        MulLeft(d, b, e);
        MulLeft(b, b, d);
        assert false;
      }
      if e <= 1 {
        MulLeft(d, e, 1);
        assert false;
      }
      MulMod(e, d);
      assert false;
    }
  }

  /** Any divisor d with 2 <= d < n shows that n is composite. */
  lemma NotPrimeByDivisor(n: int, d: int)
    requires 2 <= d < n && n % d == 0
    ensures !IsPrime(n)
  {
  }

  /**
   * One round of the 6k +- 1 search: with 2 and 3 excluded, testing i and i + 2
   * for i = 5 (mod 6) clears the whole stretch [i, i + 6).
   */
  lemma SixKStep(n: int, i: int)
    requires n % 2 != 0 && n % 3 != 0 && i >= 5 && i % 6 == 5
    requires forall d :: 2 <= d < i ==> n % d != 0
    requires n % i != 0 && n % (i + 2) != 0
    ensures forall d :: 2 <= d < i + 6 ==> n % d != 0
  {
    var q := i / 6;
    assert i == 6 * q + 5;
    forall d | 2 <= d < i + 6 ensures n % d != 0 {
      if i < d && d != i + 2 && n % d == 0 {
        if d == i + 4 {
          assert d == 3 * (2 * q + 3);
          MulMod(3, 2 * q + 3);
          DividesTransitive(n, d, 3);
        } else {
          assert d == 2 * (3 * q + 3) || d == 2 * (3 * q + 4) || d == 2 * (3 * q + 5);
          MulMod(2, (d - 2) / 2 + 1);
          assert d == 2 * ((d - 2) / 2 + 1);
          DividesTransitive(n, d, 2);
        }
      }
    }
  }

  /** The 6k +- 1 search starts with every d in [2, 5) excluded. */
  lemma SixKStart(n: int)
    requires n % 2 != 0 && n % 3 != 0
    ensures forall d :: 2 <= d < 5 ==> n % d != 0
  {
    forall d | 2 <= d < 5 ensures n % d != 0 {
      if d == 4 && n % 4 == 0 {
        DividesTransitive(n, 4, 2);
      }
    }
  }

  /** One round of the odd-divisor search: for odd n, testing odd j clears [j, j + 2). */
  lemma OddStep(n: int, j: int)
    requires n % 2 != 0 && j >= 3 && j % 2 == 1
    requires forall d :: 2 <= d < j ==> n % d != 0
    requires n % j != 0
    ensures forall d :: 2 <= d < j + 2 ==> n % d != 0
  {
    forall d | 2 <= d < j + 2 ensures n % d != 0 {
      if d == j + 1 && n % d == 0 {
        DividesTransitive(n, d, 2);
      }
    }
  }

  // ---------------------------------------------------------------------
  // Least factors (what the sieve of Eratosthenes is about)
  // ---------------------------------------------------------------------

  /** The least divisor of n that is at least d. */
  function LeastFactorFrom(n: int, d: int): (f: int)
    requires 2 <= d <= n
    ensures d <= f <= n && n % f == 0
    ensures forall e :: d <= e < f ==> n % e != 0
    decreases n - d
  {
    if n % d == 0 then d else LeastFactorFrom(n, d + 1)
  }

  /** The least divisor of n above 1. */
  function LeastFactor(n: int): (f: int)
    requires n >= 2
    ensures 2 <= f <= n && n % f == 0
    ensures forall e :: 2 <= e < f ==> n % e != 0
  {
    LeastFactorFrom(n, 2)
  }

  /** The least factor above 1 is itself prime. */
  lemma LeastFactorIsPrime(n: int)
    requires n >= 2
    ensures IsPrime(LeastFactor(n))
  {
    var f := LeastFactor(n);
    forall d | 2 <= d < f ensures f % d != 0 {
      if f % d == 0 {
        DividesTransitive(n, f, d);
      }
    }
  }

  /** n is prime exactly when it is its own least factor. */
  lemma LeastFactorOfPrime(n: int)
    requires n >= 2
    ensures LeastFactor(n) == n <==> IsPrime(n)
  {
  }

  /** A composite n has its least factor at most at its square root. */
  lemma LeastFactorSquare(n: int)
    requires n >= 2 && !IsPrime(n)
    ensures LeastFactor(n) * LeastFactor(n) <= n
  {
    var f := LeastFactor(n);
    LeastFactorOfPrime(n);
    var e := n / f;
    assert n == f * e;
    if e <= 1 {
      MulLeft(f, e, 1);
    }
    MulMod(f, e);
    assert n % e == 0 by {
      assert n == e * f;
      MulMod(e, f);
    }
    MulLeft(f, f, e);
  }

  // ---------------------------------------------------------------------
  // Exact integer square root
  // ---------------------------------------------------------------------

  /** The integer square root: the r with r * r <= n < (r + 1) * (r + 1). */
  function ISqrt(n: nat): (r: nat)
    ensures r * r <= n < (r + 1) * (r + 1)
  {
    if n == 0 then 0
    else
      var s := ISqrt(n - 1);
      if (s + 1) * (s + 1) <= n then s + 1 else s
  }

  /** The integer square root is unique. */
  lemma ISqrtUnique(n: nat, r: nat)
    requires r * r <= n < (r + 1) * (r + 1)
    ensures ISqrt(n) == r
  {
    var s := ISqrt(n);
    if s < r {
      MulLeft(s + 1, s + 1, r);
      MulLeft(r, s + 1, r);
    } else if s > r {
      MulLeft(r + 1, r + 1, s);
      MulLeft(s, r + 1, s);
    }
  }
}
