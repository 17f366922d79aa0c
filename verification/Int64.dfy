/** Machine integers of the source language and of the generated code: 64 bits, two's complement. */
module Int64 {
  const TWO_63: int := 0x8000_0000_0000_0000
  const TWO_64: int := 0x1_0000_0000_0000_0000

  predicate InRange(x: int) { -TWO_63 <= x < TWO_63 }

  /** The value that the low 64 bits stand for. */
  function Wrap(x: int): (y: int)
    ensures InRange(y)
    ensures InRange(x) ==> y == x
  {
    (x + TWO_63) % TWO_64 - TWO_63
  }

  lemma WrapUnique(x: int, y: int, q: int)
    requires InRange(y) && x == y + TWO_64 * q
    ensures Wrap(x) == y
  {
  }

  lemma WrapOfSum(a: int, b: int)
    ensures Wrap(a + Wrap(b)) == Wrap(a + b) && Wrap(Wrap(a) + b) == Wrap(a + b)
  {
    var p, q, r := (a + TWO_63) / TWO_64, (b + TWO_63) / TWO_64, (a + b + TWO_63) / TWO_64;
    assert Wrap(a) == a - TWO_64 * p && Wrap(b) == b - TWO_64 * q && Wrap(a + b) == a + b - TWO_64 * r;
    WrapUnique(a + Wrap(b), Wrap(a + b), r - q);
    WrapUnique(Wrap(a) + b, Wrap(a + b), r - p);
  }

  /** Division rounds towards zero. */
  function Truncated(a: int, b: int): int
    requires b != 0
  {
    if (a >= 0) == (b > 0) then Abs(a) / Abs(b) else -(Abs(a) / Abs(b))
  }

  function Abs(x: int): nat { if x < 0 then -x else x }

  lemma Products(q: int, n: int)
    ensures (-q) * (-n) == q * n && (-q) * n == -(q * n) && q * (-n) == -(q * n)
  {
  }

  lemma QuotientAndRest(m: nat, n: nat)
    requires n > 0
    ensures var r := m - (m / n) * n; 0 <= r < n
  {
    assert m == (m / n) * n + m % n;
  }

  /** What is left over is smaller than the divisor and has the sign of the dividend. */
  predicate LeavesRest(a: int, b: int, q: int) {
    var r := a - q * b; r < Abs(b) && -r < Abs(b) && (a >= 0 ==> r >= 0) && (a <= 0 ==> r <= 0)
  }

  /** The quotient, rounded towards zero, is the one that leaves such a rest. */
  lemma TruncatedLeavesRest(a: int, b: int)
    requires b != 0
    ensures LeavesRest(a, b, Truncated(a, b))
  {
    QuotientAndRest(Abs(a), Abs(b));
    Products(Abs(a) / Abs(b), Abs(b));
  }

  lemma RestIsUnique(a: int, b: int, q: int)
    requires b != 0 && LeavesRest(a, b, q)
    ensures q == Truncated(a, b)
  {
    TruncatedLeavesRest(a, b);
    OneRest(a, b, Truncated(a, b), q);
  }

  lemma OneRest(a: int, b: int, p: int, q: int)
    requires b != 0 && LeavesRest(a, b, p) && LeavesRest(a, b, q)
    ensures p == q
  {
    Difference(p, q, b);
    if p > q {
      FarApart(p - q, b);
    } else if q > p {
      FarApart(q - p, b);
      Difference(q, p, b);
    }
  }

  lemma Difference(p: int, q: int, b: int)
    ensures (p - q) * b == p * b - q * b
  {
  }

  lemma FarApart(d: int, b: int)
    requires d > 0
    ensures if b < 0 then d * b <= b else d * b >= b
  {
  }

  /** Division by zero, and the one quotient out of range, have no result. */
  predicate Divides(a: int, b: int) { b != 0 && !(a == -TWO_63 && b == -1) }

  /** The address of an element of an array. */
  function ElementAt(base: int, index: int, size: nat): int { Wrap(base + index * size) }

  function Bit(b: bool): int { if b then 1 else 0 }
}
