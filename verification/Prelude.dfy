/** Shared vocabulary: the optional value, a bar of prices, and a few facts of arithmetic that the solver
    does not find unaided. */
module Prelude {
  datatype Option<+T> = None | Some(value: T)

  /** What a call that may raise gives back. */
  datatype Result<+T> = Ok(value: T) | Err(message: string)

  /** One bar of prices. */
  datatype Bar = Bar(open: real, high: real, low: real, close: real, volume: real)

  function Min(a: int, b: int): int { if a <= b then a else b }

  function Max(a: int, b: int): int { if a >= b then a else b }

  function MaxReal(a: real, b: real): real { if a >= b then a else b }

  /** Multiplication under a name, so that a proof can set its arithmetic aside. */
  function Times(a: real, b: real): real { a * b }

  function Power(x: real, n: nat): real { if n == 0 then 1.0 else Times(x, Power(x, n - 1)) }

  /** Multiplying by a non-negative factor keeps an inequality. */
  lemma MulMono(a: real, b: real, c: real)
    requires a <= b && 0.0 <= c
    ensures a * c <= b * c && c * a <= c * b
  {
  }

  /** A product of non-negative factors is non-negative. */
  lemma MulNonNeg(a: real, b: real)
    requires 0.0 <= a && 0.0 <= b
    ensures 0.0 <= a * b
  {
  }

  /** Dividing a non-negative number by a larger positive one gives less. */
  lemma DivAntitone(a: real, x: real, y: real)
    requires 0.0 <= a && 0.0 < x <= y
    ensures 0.0 <= a / y <= a / x
  {
    var q, r := a / x, a / y;
    assert q * x == a == r * y;
    assert 0.0 <= r;
    MulMono(x, y, r);
  }

  /** Dividing by one positive number keeps an inequality. */
  lemma DivMono(a: real, b: real, x: real)
    requires a <= b && 0.0 < x
    ensures a / x <= b / x
  {
  }

  /** Equal products with a positive factor have equal cofactors. */
  lemma Cancel(a: real, b: real, x: real)
    requires 0.0 < x && a * x == b * x
    ensures a == b
  {
    var p, q := a * x, b * x;
    assert p / x == a && q / x == b;
  }

  /** A quotient against a bound is its dividend against the bound times the divisor. */
  lemma QuotientAtLeast(x: real, y: real, f: real)
    requires 0.0 < y
    ensures f <= x / y <==> f * y <= x
  {
    var q := x / y;
    assert q * y == x;
    if f <= q {
      MulMono(f, q, y);
    } else {
      assert 0.0 < (f - q) * y;
    }
  }

  /** The quotient of an index below `n * k` by `k` is below `n`. */
  lemma QuotientBound(i: nat, n: nat, k: nat)
    requires 0 < k && i < n * k
    ensures i / k < n
  {
  }
}
