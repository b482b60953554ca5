/**
 The nightly kill switch for LLM roles (src/analyzer_ng/llm/eval.py): Wilson and MOVER bounds over
 the reals, the disable rules, and the job that writes them.

 The square root is a parameter: any function that returns the non-negative root.
 */
module LlmEval {
  import opened Numbers

  const MIN_N := 50
  const GAP := 0.02
  const MIN_CLASSICAL_N := 50
  const PRECISION_FLOOR := 0.95
  const MIN_LLM_N := 50
  const ABSOLUTE_FLOOR := 0.80
  const WILSON_Z := 1.96

  type Root = real -> real

  ghost predicate IsRoot(root: Root) {
    forall x: real :: x >= 0.0 ==> root(x) >= 0.0 && root(x) * root(x) == x
  }

  function Ratio(s: nat, n: nat): real {
    if n > 0 then s as real / n as real else 0.0
  }

  /** The centre and half-width of the score interval, before the clamps. */
  function Centre(p: real, n: nat, z: real): real
    requires n > 0
  {
    var z2 := z * z;
    (p + z2 / (2.0 * n as real)) / (1.0 + z2 / n as real)
  }

  function Margin(root: Root, p: real, n: nat, z: real): real
    requires n > 0
  {
    var z2 := z * z;
    z * root((p * (1.0 - p) + z2 / (4.0 * n as real)) / n as real) / (1.0 + z2 / n as real)
  }

  function Wilson(root: Root, s: nat, n: nat, z: real): (real, real) {
    if n == 0 then (0.0, 0.0)
    else
      var p := s as real / n as real;
      (Max(0.0, Centre(p, n, z) - Margin(root, p, n, z)), Min(1.0, Centre(p, n, z) + Margin(root, p, n, z)))
  }

  // ----- the interval in closed form ----------------------------------------

  /** With a = z*z/n: the centre is (p + a/2) / (1 + a), the margin r / (1 + a) for the non-negative r
      with r*r = a p (1 - p) + a*a/4. */
  predicate Spread(a: real, p: real, r: real) {
    r >= 0.0 && r * r == a * (p * (1.0 - p)) + a * a / 4.0
  }

  lemma {:induction false} Product(x: real, y: real)
    requires x >= 0.0 && y >= 0.0
    ensures x * y >= 0.0
  {
  }

  /** Squares of non-negative numbers keep the order. */
  lemma {:induction false} RootOrder(x: real, y: real)
    requires y >= 0.0 && x * x <= y * y
    ensures x <= y
  {
    if x > y { SquareLess(y, x); }
  }

  lemma {:induction false} SquareLess(y: real, x: real)
    requires 0.0 <= y < x
    ensures y * y < x * x
  {
    Positive(x - y, x + y);
    assert (x - y) * (x + y) == x * x - y * y;
  }

  lemma {:induction false} LowSquare(a: real, p: real, r: real)
    requires a >= 0.0 && r * r == a * (p * (1.0 - p)) + a * a / 4.0
    ensures r * r <= (p + a / 2.0) * (p + a / 2.0)
  {
    var h := a / 2.0;
    assert (p + h) * (p + h) == p * p + a * p + h * h;
    assert h * h == a * a / 4.0;
    assert a * (p * (1.0 - p)) == a * p - a * (p * p);
    assert p * p >= 0.0;
    Product(a, p * p);
  }

  lemma {:induction false} MiddleSquare(a: real, p: real, r: real)
    requires a >= 0.0 && 0.0 <= p <= 1.0 && r * r == a * (p * (1.0 - p)) + a * a / 4.0
    ensures (a * (p - 0.5)) * (a * (p - 0.5)) <= r * r
    ensures (a * (0.5 - p)) * (a * (0.5 - p)) <= r * r
  {
    var q := p * (1.0 - p);
    var m := p - 0.5;
    assert m * m == 0.25 - q;
    assert (a * m) * (a * m) == (a * a) * (m * m);
    assert (a * a) * (m * m) == a * a / 4.0 - (a * a) * q;
    Product(p, 1.0 - p);
    Product(a, q);
    Product(a * a, q);
    assert (a * (0.5 - p)) == -(a * m);
  }

  lemma {:induction false} SpreadFlips(a: real, p: real, r: real)
    requires Spread(a, p, r)
    ensures Spread(a, 1.0 - p, r)
  {
    assert p * (1.0 - p) == (1.0 - p) * (1.0 - (1.0 - p));
  }

  lemma {:induction false} LowBound(a: real, p: real, r: real)
    requires a >= 0.0 && 0.0 <= p <= 1.0 && Spread(a, p, r)
    ensures r <= p + a / 2.0
  {
    LowSquare(a, p, r);
    RootOrder(r, p + a / 2.0);
  }

  lemma {:induction false} MiddleBound(a: real, p: real, r: real)
    requires a >= 0.0 && 0.0 <= p <= 1.0 && Spread(a, p, r)
    ensures a * (p - 0.5) <= r
  {
    MiddleSquare(a, p, r);
    RootOrder(a * (p - 0.5), r);
  }

  lemma {:induction false} SpreadBounds(a: real, p: real, r: real)
    requires a >= 0.0 && 0.0 <= p <= 1.0 && Spread(a, p, r)
    ensures r <= p + a / 2.0 && r <= 1.0 - p + a / 2.0
    ensures a * (p - 0.5) <= r && a * (0.5 - p) <= r
  {
    SpreadFlips(a, p, r);
    hide Spread;
    LowBound(a, p, r);
    LowBound(a, 1.0 - p, r);
    MiddleBound(a, p, r);
    MiddleBound(a, 1.0 - p, r);
    assert 1.0 - p - 0.5 == 0.5 - p;
  }

  lemma {:induction false} SlopeBound(a: real, p: real, r: real, q: real, t: real)
    requires a >= 0.0 && 0.0 <= p <= 1.0 && 0.0 <= q <= 1.0 && Spread(a, p, r) && Spread(a, q, t)
    ensures a * (p + q - 1.0) <= r + t
  {
    SpreadBounds(a, p, r);
    SpreadBounds(a, q, t);
    hide Spread;
    SumOfSlopes(a, p, q);
  }

  lemma {:induction false} ScaledSlope(a: real, p: real, r: real, q: real, t: real)
    requires a >= 0.0 && 0.0 <= p <= q <= 1.0 && Spread(a, p, r) && Spread(a, q, t)
    ensures (r - t) * (r + t) <= (q - p) * (r + t)
  {
    hide Spread;
    SlopeBound(a, p, r, q, t);
    SpreadDifference(a, p, r, q, t);
    MulMonotone(q - p, a * (p + q - 1.0), r + t);
  }

  /** The upper end, scaled, does not fall as p rises. */
  lemma {:induction false} SpreadMonotone(a: real, p: real, r: real, q: real, t: real)
    requires a >= 0.0 && 0.0 <= p <= q <= 1.0 && r >= 0.0 && t >= 0.0 && Spread(a, p, r) && Spread(a, q, t)
    ensures p + r <= q + t
  {
    hide Spread;
    if r + t > 0.0 {
      ScaledSlope(a, p, r, q, t);
      CancelFactor(r - t, q - p, r + t);
    }
  }

  lemma {:induction false} SumOfSlopes(a: real, p: real, q: real)
    ensures a * (p + q - 1.0) == a * (p - 0.5) + a * (q - 0.5)
  {
  }

  lemma {:induction false} CancelFactor(x: real, d: real, y: real)
    requires x * y <= d * y && y > 0.0
    ensures x <= d
  {
    assert (x - d) * y == x * y - d * y;
    Cancel(x - d, y);
  }

  lemma {:induction false} MulMonotone(d: real, x: real, y: real)
    requires d >= 0.0 && x <= y
    ensures d * x <= d * y
  {
    Product(d, y - x);
    assert d * (y - x) == d * y - d * x;
  }

  lemma {:induction false} SpreadDifference(a: real, p: real, r: real, q: real, t: real)
    requires Spread(a, p, r) && Spread(a, q, t)
    ensures (r - t) * (r + t) == (q - p) * (a * (p + q - 1.0))
  {
    var d, e := q - p, p + q - 1.0;
    assert (r - t) * (r + t) == r * r - t * t;
    Parabola(p, q);
    assert a * (p * (1.0 - p)) - a * (q * (1.0 - q)) == a * (p * (1.0 - p) - q * (1.0 - q));
    Swap3(a, d, e);
  }

  lemma {:induction false} Parabola(p: real, q: real)
    ensures p * (1.0 - p) - q * (1.0 - q) == (q - p) * (p + q - 1.0)
  {
  }

  lemma {:induction false} Swap3(a: real, d: real, e: real)
    ensures a * (d * e) == d * (a * e)
  {
  }

  lemma {:induction false} Cancel(x: real, y: real)
    requires x * y <= 0.0 && y > 0.0
    ensures x <= 0.0
  {
    if x > 0.0 { Positive(x, y); }
  }

  lemma {:induction false} Positive(x: real, y: real)
    requires x > 0.0 && y > 0.0
    ensures x * y > 0.0
  {
  }

  // ----- from the code's formulas to the closed form -------------------------

  lemma {:induction false} Quarter(z2: real, n: real)
    requires n > 0.0
    ensures z2 / (2.0 * n) == (z2 / n) / 2.0 && z2 / (4.0 * n) == (z2 / n) / 4.0
  {
    var a := z2 / n;
    assert a * n == z2;
    assert (a / 2.0) * (2.0 * n) == z2 && (a / 4.0) * (4.0 * n) == z2;
  }

  /** z2 * (x / n) is (z2 / n) * x. */
  lemma {:induction false} MoveDivisor(z2: real, x: real, n: real)
    requires n > 0.0
    ensures z2 * (x / n) == (z2 / n) * x
  {
    var a, y := z2 / n, x / n;
    assert a * n == z2 && y * n == x;
  }

  lemma {:induction false} RatioNonNegative(x: real, n: real)
    requires x >= 0.0 && n > 0.0
    ensures x / n >= 0.0
  {
    var y := x / n;
    assert y * n == x;
  }

  function Slope(n: nat, z: real): real
    requires n > 0
  {
    z * z / n as real
  }

  function Radicand(p: real, n: nat, z: real): real
    requires n > 0
  {
    (p * (1.0 - p) + z * z / (4.0 * n as real)) / n as real
  }

  lemma {:induction false} Radius(root: Root, p: real, n: nat, z: real)
    requires IsRoot(root) && n > 0 && z >= 0.0 && 0.0 <= p <= 1.0
    ensures Slope(n, z) >= 0.0 && Spread(Slope(n, z), p, z * root(Radicand(p, n, z)))
  {
    var m, z2 := n as real, z * z;
    var a, x := z2 / m, p * (1.0 - p) + z2 / (4.0 * m);
    Product(z, z);
    RatioNonNegative(z2, m);
    Quarter(z2, m);
    Product(p, 1.0 - p);
    RatioNonNegative(x, m);
    MoveDivisor(z2, x, m);
    var w := root(x / m);
    Product(z, w);
    SquareOfProduct(z, w);
    Distribute(a, p * (1.0 - p));
  }

  lemma {:induction false} SquareOfProduct(z: real, w: real)
    ensures (z * w) * (z * w) == (z * z) * (w * w)
  {
  }

  lemma {:induction false} Distribute(a: real, q: real)
    ensures a * (q + a / 4.0) == a * q + a * a / 4.0
  {
  }

  /** Multiplied by 1 + a, centre and margin are p + a/2 and the radius. */
  lemma {:induction false} Scaled(root: Root, p: real, n: nat, z: real)
    requires n > 0 && z >= 0.0
    ensures var a := Slope(n, z);
      && Centre(p, n, z) * (1.0 + a) == p + a / 2.0
      && Margin(root, p, n, z) * (1.0 + a) == z * root(Radicand(p, n, z))
  {
    var a := Slope(n, z);
    Product(z, z);
    RatioNonNegative(z * z, n as real);
    Quarter(z * z, n as real);
    QuotientTimes(p + a / 2.0, 1.0 + a);
    QuotientTimes(z * root(Radicand(p, n, z)), 1.0 + a);
  }

  lemma {:induction false} QuotientTimes(x: real, d: real)
    requires d > 0.0
    ensures (x / d) * d == x
  {
  }

  /** x <= y follows from x d <= y d, with the products given as numbers. */
  lemma {:induction false} Unscale(x: real, y: real, d: real, xd: real, yd: real)
    requires d > 0.0 && x * d == xd && y * d == yd && xd <= yd
    ensures x <= y
  {
    CancelFactor(x, y, d);
  }

  /** Centre and margin are, scaled by 1 + a, the closed form at p. */
  predicate Closed(c: real, m: real, a: real, p: real, r: real) {
    && a >= 0.0 && 0.0 <= p <= 1.0 && r >= 0.0 && Spread(a, p, r)
    && c * (1.0 + a) == p + a / 2.0 && m * (1.0 + a) == r
  }

  lemma {:induction false} ScaledEnds(c: real, m: real, a: real, p: real, r: real)
      returns (lo: real, mid: real, hi: real)
    requires Closed(c, m, a, p, r)
    ensures lo == (c - m) * (1.0 + a) && hi == (c + m) * (1.0 + a) && mid == p * (1.0 + a)
    ensures a >= 0.0 && 0.0 <= lo <= mid <= hi <= 1.0 + a
  {
    SpreadBounds(a, p, r);
    hide Spread;
    Split(c, m, 1.0 + a);
    Halves(a, p);
    lo, mid, hi := p + a / 2.0 - r, p + a * p, p + a / 2.0 + r;
  }

  lemma {:induction false} EndsInOrder(c: real, m: real, a: real, p: real, r: real)
    requires Closed(c, m, a, p, r)
    ensures 0.0 <= c - m <= p <= c + m <= 1.0
  {
    hide Closed;
    var lo, mid, hi := ScaledEnds(c, m, a, p, r);
    var d := 1.0 + a;
    Unscale(0.0, c - m, d, 0.0, lo);
    Unscale(c - m, p, d, lo, mid);
    Unscale(p, c + m, d, mid, hi);
    Unscale(c + m, 1.0, d, hi, d);
  }

  lemma {:induction false} UpperScaled(c: real, m: real, a: real, p: real, r: real)
    requires Closed(c, m, a, p, r)
    ensures (c + m) * (1.0 + a) == p + a / 2.0 + r && a >= 0.0
  {
    hide Spread;
    Split(c, m, 1.0 + a);
  }

  lemma {:induction false} ClosedMonotone(c: real, m: real, c': real, m': real, a: real, p: real, r: real,
      q: real, t: real)
    requires Closed(c, m, a, p, r) && Closed(c', m', a, q, t) && p <= q
    ensures p + r <= q + t
  {
    hide Spread;
    SpreadMonotone(a, p, r, q, t);
  }

  lemma {:induction false} Halves(a: real, p: real)
    ensures p * (1.0 + a) == p + a * p
    ensures a * (p - 0.5) == a * p - a / 2.0 && a * (0.5 - p) == a / 2.0 - a * p
  {
  }

  lemma {:induction false} Split(c: real, m: real, d: real)
    ensures (c - m) * d == c * d - m * d && (c + m) * d == c * d + m * d
  {
  }

  lemma {:induction false} RatioInUnit(s: nat, n: nat)
    requires s <= n && n > 0
    ensures 0.0 <= s as real / n as real <= 1.0
  {
    var p := s as real / n as real;
    assert p * n as real == s as real;
  }

  lemma {:induction false} RatioOrder(s: nat, s': nat, n: nat)
    requires s <= s' && n > 0
    ensures s as real / n as real <= s' as real / n as real
  {
    var d := (s' - s) as real / n as real;
    assert d * n as real == (s' - s) as real;
    assert s' as real / n as real == s as real / n as real + d;
  }

  lemma {:induction false} ClosedForm(root: Root, p: real, n: nat, z: real)
    requires IsRoot(root) && n > 0 && 0.0 <= p <= 1.0 && z >= 0.0
    ensures Closed(Centre(p, n, z), Margin(root, p, n, z), Slope(n, z), p, z * root(Radicand(p, n, z)))
  {
    hide Slope, Centre, Margin, Radicand, IsRoot;
    Radius(root, p, n, z);
    Scaled(root, p, n, z);
  }

  // ----- results about the bounds --------------------------------------------

  /** The score interval lies in [0, 1] around the precision, and the clamps change nothing. */
  lemma {:induction false} WilsonContainsPrecision(root: Root, s: nat, n: nat, z: real)
    requires IsRoot(root) && n > 0 && s <= n && z >= 0.0
    ensures var p, (lo, hi) := Ratio(s, n), Wilson(root, s, n, z);
      && 0.0 <= lo <= p <= hi <= 1.0
      && lo == Centre(p, n, z) - Margin(root, p, n, z)
      && hi == Centre(p, n, z) + Margin(root, p, n, z)
  {
    var p := s as real / n as real;
    RatioInUnit(s, n);
    ClosedForm(root, p, n, z);
    hide Slope, Centre, Margin, Radicand, IsRoot, Closed;
    EndsInOrder(Centre(p, n, z), Margin(root, p, n, z), Slope(n, z), p, z * root(Radicand(p, n, z)));
  }

  lemma {:induction false} UpperOrder(c: real, m: real, c': real, m': real, a: real, p: real, r: real, q: real, t: real)
    requires Closed(c, m, a, p, r) && Closed(c', m', a, q, t) && p <= q
    ensures c + m <= c' + m'
  {
    hide Closed;
    ClosedMonotone(c, m, c', m', a, p, r, q, t);
    UpperScaled(c, m, a, p, r);
    UpperScaled(c', m', a, q, t);
    Unscale(c + m, c' + m', 1.0 + a, p + a / 2.0 + r, q + a / 2.0 + t);
  }

  lemma {:induction false} UpperAt(root: Root, p: real, q: real, n: nat, z: real)
    requires IsRoot(root) && n > 0 && 0.0 <= p <= q <= 1.0 && z >= 0.0
    ensures Centre(p, n, z) + Margin(root, p, n, z) <= Centre(q, n, z) + Margin(root, q, n, z)
  {
    hide Slope, Centre, Margin, Radicand, IsRoot, Closed;
    ClosedForm(root, p, n, z);
    ClosedForm(root, q, n, z);
    UpperOrder(Centre(p, n, z), Margin(root, p, n, z), Centre(q, n, z), Margin(root, q, n, z), Slope(n, z),
               p, z * root(Radicand(p, n, z)), q, z * root(Radicand(q, n, z)));
  }

  /** More successes never lower the upper bound. */
  lemma {:induction false} WilsonUpperMonotone(root: Root, s: nat, s': nat, n: nat, z: real)
    requires IsRoot(root) && n > 0 && s <= s' <= n && z >= 0.0
    ensures Wilson(root, s, n, z).1 <= Wilson(root, s', n, z).1
  {
    hide Wilson, Centre, Margin, IsRoot;
    WilsonContainsPrecision(root, s, n, z);
    WilsonContainsPrecision(root, s', n, z);
    RatioInUnit(s, n);
    RatioInUnit(s', n);
    RatioOrder(s, s', n);
    UpperAt(root, Ratio(s, n), Ratio(s', n), n, z);
  }

  /** Completing the square: the score inequality at x, times 1 + a. */
  lemma {:induction false} ScoreSquare(a: real, p: real, r: real, x: real)
    requires r * r == a * (p * (1.0 - p)) + a * a / 4.0
    ensures var u := (1.0 + a) * x - (p + a / 2.0);
      (1.0 + a) * ((x - p) * (x - p) - a * (x * (1.0 - x))) == u * u - r * r
  {
    var d, h := 1.0 + a, a / 2.0;
    var e := p + h;
    assert (x - p) * (x - p) == x * x - 2.0 * (p * x) + p * p;
    assert a * (x * (1.0 - x)) == a * x - a * (x * x);
    assert d * (x * x) == x * x + a * (x * x);
    var q := d * (x * x) - 2.0 * (e * x) + p * p;
    assert e * x == p * x + h * x;
    assert (x - p) * (x - p) - a * (x * (1.0 - x)) == q;
    SquareOfDifference(d, x, e);
    assert e * e == p * p + a * p + h * h;
    assert r * r == a * p - a * (p * p) + h * h;
    assert d * (p * p) == p * p + a * (p * p);
    ExpandScore(d, x, e, p, q);
  }

  lemma {:induction false} SquareOfDifference(d: real, x: real, e: real)
    ensures (d * x - e) * (d * x - e) == d * (d * (x * x)) - 2.0 * (d * (e * x)) + e * e
  {
    var y := d * x;
    assert (y - e) * (y - e) == y * y - 2.0 * (y * e) + e * e;
    assert y * y == d * (d * (x * x)) && y * e == d * (e * x);
  }

  lemma {:induction false} ExpandScore(d: real, x: real, e: real, p: real, q: real)
    requires q == d * (x * x) - 2.0 * (e * x) + p * p
    ensures d * q == d * (d * (x * x)) - 2.0 * (d * (e * x)) + d * (p * p)
  {
    var f, g := d * (x * x), e * x;
    assert d * (f - 2.0 * g + p * p) == d * f - 2.0 * (d * g) + d * (p * p);
  }

  lemma {:induction false} SquareBetween(u: real, r: real)
    requires r >= 0.0
    ensures u * u <= r * r <==> -r <= u <= r
  {
    if u > r { SquareLess(r, u); }
    if u < -r { SquareLess(r, -u); }
    if -r <= u <= r {
      Product(r - u, r + u);
      assert (r - u) * (r + u) == r * r - u * u;
    }
  }

  lemma {:induction false} SignOfScaled(d: real, v: real)
    requires d > 0.0
    ensures d * v <= 0.0 <==> v <= 0.0
  {
    if v > 0.0 { Positive(d, v); } else { Product(d, -v); }
  }

  lemma {:induction false} ScaledOrder(x: real, y: real, d: real)
    requires d > 0.0
    ensures x <= y <==> x * d <= y * d
  {
    SignOfScaled(d, x - y);
    assert d * (x - y) == x * d - y * d;
  }

  lemma {:induction false} UnscaledTest(lo: real, hi: real, x: real, d: real, e: real, r: real, u: real, v: real)
    requires d > 0.0 && r >= 0.0 && lo * d == e - r && hi * d == e + r && x * d == u + e && d * v == u * u - r * r
    ensures lo <= x <= hi <==> v <= 0.0
  {
    ScaledOrder(lo, x, d);
    ScaledOrder(x, hi, d);
    SquareBetween(u, r);
    SignOfScaled(d, v);
  }

  /** x passes the score test. */
  predicate Passes(a: real, p: real, x: real) {
    (x - p) * (x - p) <= a * (x * (1.0 - x))
  }

  lemma {:induction false} ScoreTerms(a: real, p: real, r: real, x: real) returns (u: real, v: real)
    requires Spread(a, p, r)
    ensures x * (1.0 + a) == u + (p + a / 2.0)
    ensures (1.0 + a) * v == u * u - r * r
    ensures v <= 0.0 <==> Passes(a, p, x)
  {
    u := (1.0 + a) * x - (p + a / 2.0);
    v := (x - p) * (x - p) - a * (x * (1.0 - x));
    ScoreSquare(a, p, r, x);
  }

  lemma {:induction false} ClosedInverts(c: real, m: real, a: real, p: real, r: real, x: real)
    requires Closed(c, m, a, p, r)
    ensures c - m <= x <= c + m <==> Passes(a, p, x)
  {
    hide Spread, Passes;
    var u, v := ScoreTerms(a, p, r, x);
    Split(c, m, 1.0 + a);
    UnscaledTest(c - m, c + m, x, 1.0 + a, p + a / 2.0, r, u, v);
  }

  lemma {:induction false} TimesSlope(z: real, n: nat, f: real)
    requires n > 0
    ensures Slope(n, z) * f * n as real == z * z * f
  {
    var a, m := Slope(n, z), n as real;
    assert a * m == z * z;
    assert a * f * m == a * m * f;
  }

  lemma {:induction false} PassesTimes(z: real, n: nat, p: real, x: real)
    requires n > 0
    ensures Passes(Slope(n, z), p, x) <==> n as real * ((x - p) * (x - p)) <= z * z * (x * (1.0 - x))
  {
    var e, f := (x - p) * (x - p), x * (1.0 - x);
    TimesSlope(z, n, f);
    hide Slope;
    ScaledOrder(e, Slope(n, z) * f, n as real);
  }

  /** The interval holds just those true rates x that a score test does not reject: n (x - p)^2 <= z^2 x (1 - x). */
  lemma {:induction false} WilsonInvertsTheScoreTest(root: Root, s: nat, n: nat, z: real, x: real)
    requires IsRoot(root) && n > 0 && s <= n && z >= 0.0
    ensures var p, (lo, hi) := s as real / n as real, Wilson(root, s, n, z);
      lo <= x <= hi <==> n as real * ((x - p) * (x - p)) <= z * z * (x * (1.0 - x))
  {
    hide Slope, Centre, Margin, Radicand, IsRoot, Closed, Wilson, Passes;
    var p := s as real / n as real;
    RatioInUnit(s, n);
    ClosedForm(root, p, n, z);
    WilsonContainsPrecision(root, s, n, z);
    PassesTimes(z, n, p, x);
    ClosedInverts(Centre(p, n, z), Margin(root, p, n, z), Slope(n, z), p, z * root(Radicand(p, n, z)), x);
  }

  /** MOVER: a lower confidence bound of the difference of the two precisions. */
  function DifferenceLower(root: Root, sLlm: nat, nLlm: nat, sClassical: nat, nClassical: nat, z: real): real {
    var p1, p2 := Ratio(sLlm, nLlm), Ratio(sClassical, nClassical);
    var l1, u2 := Wilson(root, sLlm, nLlm, z).0, Wilson(root, sClassical, nClassical, z).1;
    (p1 - p2) - root((p1 - l1) * (p1 - l1) + (u2 - p2) * (u2 - p2))
  }

  lemma {:induction false} DifferenceLowerIsBelow(root: Root, sLlm: nat, nLlm: nat, sClassical: nat, nClassical: nat,
      z: real)
    requires IsRoot(root)
    ensures DifferenceLower(root, sLlm, nLlm, sClassical, nClassical, z) <=
        Ratio(sLlm, nLlm) - Ratio(sClassical, nClassical)
  {
    hide Wilson;
    var x := Ratio(sLlm, nLlm) - Wilson(root, sLlm, nLlm, z).0;
    var y := Wilson(root, sClassical, nClassical, z).1 - Ratio(sClassical, nClassical);
    assert x * x >= 0.0 && y * y >= 0.0;
  }

  /** It lies below the difference by the length of the two one-sided margins put at right angles. */
  lemma {:induction false} DifferenceLowerDistance(root: Root, sLlm: nat, nLlm: nat, sClassical: nat, nClassical: nat,
      z: real)
    requires IsRoot(root) && nLlm > 0 && nClassical > 0
    ensures var p1, p2 := sLlm as real / nLlm as real, sClassical as real / nClassical as real;
      var x := p1 - Wilson(root, sLlm, nLlm, z).0;
      var y := Wilson(root, sClassical, nClassical, z).1 - p2;
      var d := p1 - p2 - DifferenceLower(root, sLlm, nLlm, sClassical, nClassical, z);
      d >= 0.0 && d * d == x * x + y * y
  {
    hide Wilson;
    var x := Ratio(sLlm, nLlm) - Wilson(root, sLlm, nLlm, z).0;
    var y := Wilson(root, sClassical, nClassical, z).1 - Ratio(sClassical, nClassical);
    assert x * x >= 0.0 && y * y >= 0.0;
  }

  // ----- one role ------------------------------------------------------------

  datatype Comparison = Comparison(n: nat, sLlm: nat, nLlm: nat, sClassical: nat, nClassical: nat)

  datatype Reason =
    | BelowAbsoluteFloor | NBelowMin | ClassicalArmBelowMin | AbovePrecisionFloor | GapWithinTolerance
    | WilsonBoundNonNegative | AutoDisabledPrecision

  function EvaluateRole(root: Root, cmp: Comparison): Reason {
    var pLlm, pClassical := Ratio(cmp.sLlm, cmp.nLlm), Ratio(cmp.sClassical, cmp.nClassical);
    var diffLower := DifferenceLower(root, cmp.sLlm, cmp.nLlm, cmp.sClassical, cmp.nClassical, WILSON_Z);
    if cmp.nLlm >= MIN_LLM_N && Wilson(root, cmp.sLlm, cmp.nLlm, WILSON_Z).1 < ABSOLUTE_FLOOR then BelowAbsoluteFloor
    else if cmp.n < MIN_N then NBelowMin
    else if cmp.nClassical < MIN_CLASSICAL_N then ClassicalArmBelowMin
    else if pLlm >= PRECISION_FLOOR then AbovePrecisionFloor
    else if !(pLlm < pClassical - GAP) then GapWithinTolerance
    else if !(diffLower < 0.0) then WilsonBoundNonNegative
    else AutoDisabledPrecision
  }

  predicate Disables(r: Reason) { r.BelowAbsoluteFloor? || r.AutoDisabledPrecision? }

  /** A role right at least 95 % of the time is never disabled, on either path. */
  lemma {:induction false} PreciseRoleIsSafe(root: Root, cmp: Comparison)
    requires IsRoot(root) && cmp.sLlm <= cmp.nLlm && Ratio(cmp.sLlm, cmp.nLlm) >= PRECISION_FLOOR
    ensures !Disables(EvaluateRole(root, cmp))
  {
    WilsonContainsPrecision(root, cmp.sLlm, cmp.nLlm, WILSON_Z);
    hide Wilson, DifferenceLower;
  }

  /** The absolute kill is monotone: what condemns an arm condemns it with fewer successes. */
  lemma {:induction false} AbsoluteKillMonotone(root: Root, cmp: Comparison, s: nat)
    requires IsRoot(root) && s <= cmp.sLlm <= cmp.nLlm && EvaluateRole(root, cmp) == BelowAbsoluteFloor
    ensures EvaluateRole(root, cmp.(sLlm := s)) == BelowAbsoluteFloor
  {
    WilsonUpperMonotone(root, s, cmp.sLlm, cmp.nLlm, WILSON_Z);
    hide Wilson, DifferenceLower;
  }

  /** The last guard never decides: once the gap is open, the bound is negative. */
  lemma {:induction false} BoundGuardUnreachable(root: Root, cmp: Comparison)
    requires IsRoot(root)
    ensures EvaluateRole(root, cmp) != WilsonBoundNonNegative
  {
    DifferenceLowerIsBelow(root, cmp.sLlm, cmp.nLlm, cmp.sClassical, cmp.nClassical, WILSON_Z);
    hide Wilson, DifferenceLower;
  }

  /** Exactly when a role is disabled. */
  lemma {:induction false} DisablesIff(root: Root, cmp: Comparison)
    requires IsRoot(root)
    ensures var pLlm, pClassical := Ratio(cmp.sLlm, cmp.nLlm), Ratio(cmp.sClassical, cmp.nClassical);
      Disables(EvaluateRole(root, cmp)) <==>
        || (cmp.nLlm >= 50 && Wilson(root, cmp.sLlm, cmp.nLlm, 1.96).1 < 0.8)
        || (cmp.n >= 50 && cmp.nClassical >= 50 && pLlm < 0.95 && pLlm < pClassical - 0.02)
  {
    BoundGuardUnreachable(root, cmp);
    hide Wilson, DifferenceLower;
  }

  /** The reason that is reported, guard by guard. */
  lemma {:induction false} ReasonGiven(root: Root, cmp: Comparison)
    requires IsRoot(root)
    ensures var pLlm, pClassical := Ratio(cmp.sLlm, cmp.nLlm), Ratio(cmp.sClassical, cmp.nClassical);
      var condemned := cmp.nLlm >= 50 && Wilson(root, cmp.sLlm, cmp.nLlm, 1.96).1 < 0.8;
      var enough := cmp.n >= 50 && cmp.nClassical >= 50;
      var r := EvaluateRole(root, cmp);
      && (r == BelowAbsoluteFloor <==> condemned)
      && (r == NBelowMin <==> !condemned && cmp.n < 50)
      && (r == ClassicalArmBelowMin <==> !condemned && cmp.n >= 50 && cmp.nClassical < 50)
      && (r == AbovePrecisionFloor <==> !condemned && enough && pLlm >= 0.95)
      && (r == GapWithinTolerance <==> !condemned && enough && pClassical - 0.02 <= pLlm < 0.95)
      && (r == AutoDisabledPrecision <==> !condemned && enough && pLlm < 0.95 && pLlm < pClassical - 0.02)
  {
    BoundGuardUnreachable(root, cmp);
    hide Wilson, DifferenceLower;
  }

  // ----- the nightly job -----------------------------------------------------

  datatype Role = RoleExplainer | RoleExtractor | RoleJudge | RoleColdStart
  datatype Key = Key(project: int, role: Role)

  /** One night's comparison sets, in the order of their keys. */
  type Night = seq<(Key, Comparison)>

  ghost predicate Condemned(root: Root, night: Night, k: Key) {
    exists i :: 0 <= i < |night| && night[i].0 == k && Disables(EvaluateRole(root, night[i].1))
  }

  function CountDisabled(root: Root, night: Night, role: Role): nat {
    if night == [] then 0
    else
      var (k, cmp) := night[|night| - 1];
      CountDisabled(root, night[..|night| - 1], role) + if k.role == role && Disables(EvaluateRole(root, cmp)) then
        1 else 0
  }

  predicate SameRow(a: map<Key, bool>, b: map<Key, bool>, k: Key) {
    (k in a <==> k in b) && (k in a ==> a[k] == b[k])
  }

  class EvalJob {
    var enabled: map<Key, bool>          // llm_role_state; a missing row is enabled
    var gauge: map<Role, nat>            // disabled projects per role, as last reported

    predicate IsEnabled(k: Key)
      reads this
    {
      k in enabled ==> enabled[k]
    }

    /** Writes only `enabled = false`, and only where a role is on. */
    method Run(root: Root, night: Night) returns (results: seq<Reason>)
      modifies this
      ensures |results| == |night| && forall i :: 0 <= i < |night| ==> results[i] == EvaluateRole(root, night[i].1)
      ensures forall k :: IsEnabled(k) <==> old(IsEnabled(k)) && !Condemned(root, night, k)
      ensures forall k | !(old(IsEnabled(k)) && Condemned(root, night, k)) :: SameRow(old(enabled), enabled, k)
      ensures forall role :: role in gauge && gauge[role] == CountDisabled(root, night, role)
    {
      hide EvaluateRole;
      results := [];
      var counts: map<Role, nat> := map[];
      for i := 0 to |night|
        invariant |results| == i && forall j :: 0 <= j < i ==> results[j] == EvaluateRole(root, night[j].1)
        invariant forall k :: IsEnabled(k) <==> old(IsEnabled(k)) && !Condemned(root, night[..i], k)
        invariant forall k | !(old(IsEnabled(k)) && Condemned(root, night[..i], k)) :: SameRow(old(enabled), enabled, k)
        invariant forall role :: (if role in counts then counts[role] else 0) == CountDisabled(root, night[..i], role)
      {
        var (key, cmp) := night[i];
        var reason := EvaluateRole(root, cmp);
        results := results + [reason];
        CondemnedSnoc(root, night, i);
        assert night[..i + 1][..i] == night[..i];
        if Disables(reason) {
          counts := counts[key.role := (if key.role in counts then counts[key.role] else 0) + 1];
          if IsEnabled(key) {
            enabled := enabled[key := false];
          }
        }
      }
      assert night[..|night|] == night;
      gauge := map role: Role | true :: if role in counts then counts[role] else 0;
    }
  }

  lemma {:induction false} CondemnedSnoc(root: Root, night: Night, i: nat)
    requires i < |night|
    ensures forall k :: Condemned(root, night[..i + 1], k) <==>
      Condemned(root, night[..i], k) || (night[i].0 == k && Disables(EvaluateRole(root, night[i].1)))
  {
    hide EvaluateRole;
    forall k | Condemned(root, night[..i], k) ensures Condemned(root, night[..i + 1], k) {
      var j :| 0 <= j < i && night[..i][j].0 == k && Disables(EvaluateRole(root, night[..i][j].1));
      assert night[..i + 1][j] == night[..i][j];
    }
    assert night[..i + 1][i] == night[i];
    forall k | Condemned(root, night[..i + 1], k) && !(night[i].0 == k && Disables(EvaluateRole(root, night[i].1)))
      ensures Condemned(root, night[..i], k)
    {
      var j :| 0 <= j < i + 1 && night[..i + 1][j].0 == k && Disables(EvaluateRole(root, night[..i + 1][j].1));
      assert night[..i][j] == night[..i + 1][j];
    }
  }

  /** No sequence of nightly runs ever turns a role on: with no administrator in between, a role is on
      afterwards exactly if it was on before and no night condemned it. */
  method RunNights(job: EvalJob, root: Root, nights: seq<Night>)
    modifies job
    ensures forall k :: job.IsEnabled(k) <==>
      old(job.IsEnabled(k)) && forall i :: 0 <= i < |nights| ==> !Condemned(root, nights[i], k)
    ensures forall k | !old(job.IsEnabled(k)) || forall i :: 0 <= i < |nights| ==> !Condemned(root, nights[i], k) ::
      SameRow(old(job.enabled), job.enabled, k)
  {
    for n := 0 to |nights|
      invariant forall k :: job.IsEnabled(k) <==>
        old(job.IsEnabled(k)) && forall i :: 0 <= i < n ==> !Condemned(root, nights[i], k)
      invariant forall k | !old(job.IsEnabled(k)) || forall i :: 0 <= i < n ==> !Condemned(root, nights[i], k) ::
        SameRow(old(job.enabled), job.enabled, k)
    {
      var _ := job.Run(root, nights[n]);
    }
  }
}
