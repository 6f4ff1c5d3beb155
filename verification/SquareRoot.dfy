/** lib/memtest.c: the integer square root, by Newton's method in 32 bits. */
module SquareRoot {

  const UINT_MAX: int := 0xFFFFFFFF

  predicate IsRoot(n: nat, r: nat) {
    r * r <= n < (r + 1) * (r + 1)
  }

  /** The root is at most x. */
  predicate Above(n: nat, x: nat) {
    n < (x + 1) * (x + 1)
  }

  /** Newton's step, before the halving, in exact arithmetic. */
  function NewtonSum(n: nat, x: nat): nat
    requires x > 0
  {
    x + n / x
  }

  /** Newton's step does not fall below the root. */
  lemma NewtonAbove(n: nat, x: nat)
    requires x > 0
    ensures Above(n, NewtonSum(n, x) / 2)
  {
    var q := n / x;
    var y := (x + q) / 2;
    Quotient(n, x);
    Halves(x, q);
    // 4 * x * (q + 1) <= (x + q + 1) ^ 2 <= (2 * (y + 1)) ^ 2
    assert (x + (q + 1)) * (x + (q + 1)) - 4 * (x * (q + 1)) == (x - (q + 1)) * (x - (q + 1));
    Square(x - (q + 1));
    SquareMonotone(x + q + 1, 2 * (y + 1));
    assert (2 * (y + 1)) * (2 * (y + 1)) == 4 * ((y + 1) * (y + 1));
  }

  lemma Quotient(n: nat, x: nat)
    requires x > 0
    ensures x * (n / x) <= n < x * (n / x + 1)
  {
    assert n == x * (n / x) + n % x;
    assert x * (n / x + 1) == x * (n / x) + x;
  }

  lemma Halves(a: nat, b: nat)
    ensures a + b <= 2 * ((a + b) / 2) + 1 && 2 * ((a + b) / 2) <= a + b
  {
  }

  lemma Square(a: int)
    ensures a * a >= 0
  {
    if a < 0 { assert a * a == (-a) * (-a); }
  }

  lemma SquareMonotone(a: nat, b: nat)
    requires a <= b
    ensures a * a <= b * b
  {
    assert a * a <= a * b <= b * b;
  }

  /** A guess above the root that Newton's step does not lower is the root. */
  lemma NewtonStops(n: nat, x: nat)
    requires x > 0 && Above(n, x) && NewtonSum(n, x) / 2 >= x
    ensures IsRoot(n, x)
  {
    Quotient(n, x);
    Halves(x, n / x);
    assert x * x <= x * (n / x) by { Scale(x, n / x, x); }
  }

  lemma Scale(a: nat, b: nat, k: nat)
    requires a <= b
    ensures k * a <= k * b
  {
  }

  /** A quotient by a guess above the root is hardly more than the guess. */
  lemma QuotientLow(n: nat, x: nat)
    requires 0 < x && Above(n, x)
    ensures n / x <= x + 3
  {
    Quotient(n, x);
    assert (x + 1) * (x + 1) == x * x + 2 * x + 1 <= x * x + 4 * x == x * (x + 4);
    if n / x >= x + 4 { Scale(x + 4, n / x, x); }
  }

  /** No guess above the root lets x + n / x leave 32 bits. */
  lemma NewtonFits(n: nat, x: nat)
    requires 0 < x <= n / 2 + 1 && Above(n, x) && n <= UINT_MAX
    ensures NewtonSum(n, x) <= UINT_MAX
  {
    if x <= 0x10000 {
      QuotientLow(n, x);
    } else {
      Quotient(n, x);
      Scale(0x10001, x, n / x);
    }
  }

  function U32(x: int): nat {
    x % 0x1_0000_0000
  }

  lemma NoWrap(x: nat)
    requires x <= UINT_MAX
    ensures U32(x) == x
  {
  }

  /** Both starting guesses are above the root. */
  lemma StartAbove(n: nat)
    requires n > 0
    ensures Above(n, n) && Above(n, n / 2 + 1)
  {
    var h := n / 2;
    assert n <= 2 * h + 1;
    assert (h + 2) * (h + 2) == h * h + 4 * h + 4;
    assert (n + 1) * (n + 1) == n * n + 2 * n + 1;
  }

  lemma AbovePositive(n: nat, x: nat)
    requires n > 0 && Above(n, x)
    ensures x > 0
  {
  }

  lemma SmallRoots(n: nat, x: nat)
    requires n <= 2 && x == n
    ensures IsRoot(n, x) <==> n != 2
  {
  }

  /**
   * isqrt: the floor square root of every 32-bit number but 2. The starting guess n / 2 + 1 is 2
   * for n = 2, not below n, so the loop does not run and 2 comes back.
   */
  method Isqrt(n: nat) returns (x: nat)
    requires n <= UINT_MAX
    ensures IsRoot(n, x) <==> n != 2
    ensures n == 2 ==> x == 2
  {
    hide NewtonSum, Above, IsRoot, U32;
    if n <= 2 { SmallRoots(n, n); }
    if n == 0 { return 0; }
    NoWrap(n / 2 + 1);
    var y: nat := U32(n / 2 + 1);
    x := n;
    StartAbove(n);
    while y < x
      invariant 0 < x <= n && Above(n, x) && Above(n, y)
      invariant (x == n && y == n / 2 + 1) || (n >= 3 && x <= n / 2 + 1 && y == NewtonSum(n, x) / 2)
      decreases x
    {
      x := y;
      AbovePositive(n, x);
      NewtonFits(n, x);
      NewtonAbove(n, x);
      NoWrap(NewtonSum(n, x));
      y := U32(NewtonSum(n, x)) / 2;
    }
    if n >= 3 { NewtonStops(n, x); }
  }
}
