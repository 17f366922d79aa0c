/** Bitwise AND on natural numbers, and what the masks of the pool allocator compute. */
module Bits {
  /** One more than the largest address. */
  const WORDS: nat := 0x1_0000_0000_0000_0000

  function Pow2(k: nat): (p: nat)
    ensures p > 0
  {
    if k == 0 then 1 else 2 * Pow2(k - 1)
  }

  ghost predicate IsPow2(x: nat) { exists k: nat :: x == Pow2(k) }

  function BitAnd(x: nat, y: nat): nat {
    if x == 0 || y == 0 then 0 else 2 * BitAnd(x / 2, y / 2) + (if x % 2 == 1 && y % 2 == 1 then 1 else 0)
  }

  /** `~x` on 64 bits. */
  function BitNot(x: nat): nat
    requires x < WORDS
  {
    WORDS - 1 - x
  }

  lemma AndStep(x: nat, y: nat)
    ensures BitAnd(x, y) == 2 * BitAnd(x / 2, y / 2) + (if x % 2 == 1 && y % 2 == 1 then 1 else 0)
  {
  }

  lemma DivModUnique(x: nat, m: nat, q: nat, r: nat)
    requires x == q * m + r && r < m
    ensures x / m == q && x % m == r
  {
    var q', r' := x / m, x % m;
    assert x == q' * m + r' && 0 <= r' < m;
    assert (q - q') * m == r' - r;
    assert q - q' >= 1 ==> (q - q') * m >= m;
    assert q - q' <= -1 ==> (q' - q) * m >= m;
  }

  lemma Multiples(n: nat, k: nat, m: nat)
    requires n >= k
    ensures n * m >= k * m
  {
  }

  lemma OneMore(n: int, m: int)
    ensures (n + 1) * m == n * m + m
  {
  }

  lemma QuotientOrder(x: nat, m: nat, n: nat)
    requires m > 0
    ensures x < n * m <==> x / m < n
    ensures x == x / m * m + x % m && x % m < m
  {
    var q := x / m;
    assert (q + 1) * m == q * m + m;
    if q >= n {
      Multiples(q, n, m);
    } else {
      Multiples(n, q + 1, m);
    }
  }

  function Quotient(x: nat, m: nat): nat
    requires m > 0
  {
    x / m
  }

  lemma ModOfDouble(x: nat, m: nat)
    requires m > 0
    ensures x % (2 * m) == 2 * (x / 2 % m) + x % 2
  {
    var q, r := x / 2 / m, x / 2 % m;
    assert x / 2 == q * m + r;
    assert x == q * (2 * m) + (2 * r + x % 2);
    DivModUnique(x, 2 * m, q, 2 * r + x % 2);
  }

  /** `x & (2^k - 1)` is the remainder. */
  lemma {:induction false} MaskLow(x: nat, k: nat)
    ensures BitAnd(x, Pow2(k) - 1) == x % Pow2(k)
  {
    if k > 0 {
      var m := Pow2(k - 1);
      MaskLow(x / 2, k - 1);
      ModOfDouble(x, m);
      AndStep(x, 2 * m - 1);
      assert (2 * m - 1) / 2 == m - 1;
    }
  }

  /** `x & (2^n - 2^k)` clears the low `k` bits. */
  lemma {:induction false} MaskHigh(x: nat, n: nat, k: nat)
    requires x < Pow2(n) && k <= n
    ensures Pow2(k) <= Pow2(n)
    ensures BitAnd(x, Pow2(n) - Pow2(k)) == x - x % Pow2(k)
  {
    if k == 0 {
      MaskLow(x, n);
      SmallMod(x, Pow2(n));
    } else {
      MaskHigh(x / 2, n - 1, k - 1);
      MaskHighStep(x, Pow2(n - 1), Pow2(k - 1));
    }
  }

  lemma SmallMod(x: nat, m: nat)
    requires x < m
    ensures x % m == x
  {
  }

  lemma MaskHighStep(x: nat, w: nat, m: nat)
    requires 0 < m <= w && BitAnd(x / 2, w - m) == x / 2 - x / 2 % m
    ensures BitAnd(x, 2 * w - 2 * m) == x - x % (2 * m)
  {
    ModOfDouble(x, m);
    AndStep(x, 2 * w - 2 * m);
    assert (2 * w - 2 * m) / 2 == w - m && (2 * w - 2 * m) % 2 == 0;
  }

  lemma {:induction false} AndSelf(x: nat)
    ensures BitAnd(x, x) == x
  {
    if x > 0 {
      AndSelf(x / 2);
    }
  }

  /** `x & (x - 1)` is zero for powers of two only. */
  lemma {:induction false} PowerTest(x: nat)
    requires x > 0
    ensures BitAnd(x, x - 1) == 0 <==> IsPow2(x)
  {
    if x == 1 {
      assert x == Pow2(0);
    } else if x % 2 == 1 {
      AndSelf(x / 2);
      assert (x - 1) / 2 == x / 2;
      forall k: nat ensures x != Pow2(k) {
        assert k > 0 ==> Pow2(k) == 2 * Pow2(k - 1);
      }
    } else {
      PowerTest(x / 2);
      assert (x - 1) / 2 == x / 2 - 1;
      if k: nat :| x == Pow2(k) {
        assert x / 2 == Pow2(k - 1);
      }
      if k: nat :| x / 2 == Pow2(k) {
        assert x == Pow2(k + 1);
      }
    }
  }

  lemma {:induction false} Pow2Divides(j: nat, k: nat)
    requires Pow2(j) <= Pow2(k)
    ensures j <= k && Pow2(k) % Pow2(j) == 0
  {
    if j > 0 && k > 0 {
      Pow2Divides(j - 1, k - 1);
      ModOfDouble(Pow2(k), Pow2(j - 1));
    }
  }

  lemma {:induction false} Pow2Grows(j: nat, k: nat)
    requires Pow2(j) < Pow2(k)
    ensures j < k
  {
    if k > 0 && j > 0 {
      Pow2Grows(j - 1, k - 1);
    }
  }

  lemma WordsIsPow2()
    ensures WORDS == Pow2(64)
  {
    assert Pow2(8) == 0x100;
    Pow2Sum(8, 8);
    Pow2Sum(16, 16);
    Pow2Sum(32, 32);
  }

  lemma {:induction false} Pow2Sum(j: nat, k: nat)
    ensures Pow2(j + k) == Pow2(j) * Pow2(k)
  {
    if j > 0 {
      Pow2Sum(j - 1, k);
    }
  }
}
