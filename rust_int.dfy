/** Rust's integer division and remainder, which round toward zero
    (Dafny's own `/` and `%` are Euclidean). */
module RustInt {

  function Abs(a: int): nat { if a < 0 then -a else a }

  /** `a / b` as Rust computes it: the exact quotient truncated toward zero. */
  function Quot(a: int, b: int): int
    requires b != 0
  {
    var q := Abs(a) / Abs(b);
    if (a < 0) == (b < 0) then q else -q
  }

  /** `a % b` as Rust computes it: the remainder has the sign of `a`. */
  function Rem(a: int, b: int): (r: int)
    requires b != 0
    ensures a == Quot(a, b) * b + r
    ensures Abs(r) < Abs(b)
    ensures r == 0 || (r < 0 <==> a < 0)
  {
    QuotRem(a, b);
    a - Quot(a, b) * b
  }

  lemma QuotRem(a: int, b: int)
    requires b != 0
    ensures Abs(a - Quot(a, b) * b) < Abs(b)
    ensures a - Quot(a, b) * b == 0 || (a - Quot(a, b) * b < 0 <==> a < 0)
  {
    var q, n := Abs(a) / Abs(b), Abs(b);
    var r := Abs(a) - q * n;
    assert 0 <= r < n;
    Signs(q, n);
    assert Quot(a, b) * b == (if a < 0 then -(q * n) else q * n);
  }

  /** Signs of a product. */
  lemma Signs(q: int, n: int)
    ensures (-q) * n == -(q * n) && q * (-n) == -(q * n) && (-q) * (-n) == q * n
  {
  }

  /** On a non-negative dividend and a positive divisor Rust and Dafny agree. */
  lemma NonNegativeAgrees(a: int, b: int)
    requires a >= 0 && b > 0
    ensures Quot(a, b) == a / b && Rem(a, b) == a % b
  {
  }

  /** A negative dividend never leaves a positive remainder. */
  lemma NegativeRem(a: int, b: int)
    requires a < 0 && b != 0
    ensures Rem(a, b) <= 0
  {
  }
}
