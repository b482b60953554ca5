/** The arithmetic that several components share. */
module Numbers {
  function Min(a: real, b: real): real { if a < b then a else b }

  function Max(a: real, b: real): real { if a > b then a else b }

  /** A whole number of times `x`. */
  function Times(n: nat, x: real): real { n as real * x }

  lemma {:induction false} OneMore(n: nat, x: real)
    ensures Times(n + 1, x) == Times(n, x) + x
  {
    var m := n as real;
    assert (n + 1) as real == m + 1.0;
    assert (m + 1.0) * x == m * x + x;
  }

  function MinInt(a: int, b: int): int { if a < b then a else b }

  function MaxInt(a: int, b: int): int { if a > b then a else b }
}
