/**
 The isotonic calibrator (src/analyzer_ng/ml/calibration.py): piecewise-linear interpolation
 over its knots, clipped at both ends, over the reals.
 */
module Calibration {
  datatype Calibrator = Calibrator(x: seq<real>, y: seq<real>)

  /** What the isotonic fit stores: ascending raw knots, non-decreasing calibrated values. */
  predicate Fitted(c: Calibrator) {
    && |c.x| == |c.y|
    && (forall i, j :: 0 <= i < j < |c.x| ==> c.x[i] < c.x[j])
    && (forall i, j :: 0 <= i < j < |c.y| ==> c.y[i] <= c.y[j])
  }

  /** The point at `r` on the line from (x0, y0) to (x1, y1). */
  function Segment(x0: real, y0: real, x1: real, y1: real, r: real): real
    requires x0 < x1
  {
    y0 + (y1 - y0) * ((r - x0) / (x1 - x0))
  }

  /** `numpy.interp`: constant outside the knots, linear between two neighbours. */
  function Interp(x: seq<real>, y: seq<real>, r: real): real
    requires |x| == |y| > 0 && forall i, j :: 0 <= i < j < |x| ==> x[i] < x[j]
  {
    if |x| == 1 || r <= x[0] then y[0]
    else if r <= x[1] then Segment(x[0], y[0], x[1], y[1], r)
    else Interp(x[1..], y[1..], r)
  }

  function Clamp(v: real): (r: real)
    ensures 0.0 <= r <= 1.0
    ensures 0.0 <= v <= 1.0 ==> r == v
    ensures v < 0.0 ==> r == 0.0
    ensures v > 1.0 ==> r == 1.0
  {
    var low := if v < 1.0 then v else 1.0;
    if low > 0.0 then low else 0.0
  }

  function Predict(c: Calibrator, raw: real): real
    requires Fitted(c)
  {
    if c.x == [] then raw else Clamp(Interp(c.x, c.y, raw))
  }

  lemma {:induction false} SegmentMonotone(x0: real, y0: real, x1: real, y1: real, r: real, s: real)
    requires x0 < x1 && y0 <= y1 && x0 <= r <= s <= x1
    ensures y0 <= Segment(x0, y0, x1, y1, r) <= Segment(x0, y0, x1, y1, s) <= y1
  {
    var w, d := x1 - x0, y1 - y0;
    var a, b := (r - x0) / w, (s - x0) / w;
    assert Segment(x0, y0, x1, y1, r) == y0 + d * a && Segment(x0, y0, x1, y1, s) == y0 + d * b;
    hide Segment;
    QuotientOrder(0.0, r - x0, w);
    QuotientOrder(r - x0, s - x0, w);
    QuotientOrder(s - x0, w, w);
    Scaled(d, a, b);
  }

  lemma {:induction false} QuotientOrder(u: real, v: real, w: real)
    requires w > 0.0 && u <= v
    ensures u / w <= v / w && 0.0 / w == 0.0 && w / w == 1.0
  {
    var d := (v - u) / w;
    assert d * w == v - u;
    assert d >= 0.0;
    assert v / w == u / w + d;
  }

  lemma {:induction false} Scaled(d: real, a: real, b: real)
    requires d >= 0.0 && 0.0 <= a <= b <= 1.0
    ensures 0.0 <= d * a <= d * b <= d
  {
    assert d * (b - a) >= 0.0 && d * (1.0 - b) >= 0.0;
  }

  lemma {:induction false} InterpInRange(x: seq<real>, y: seq<real>, r: real)
    requires |x| > 0 && Fitted(Calibrator(x, y))
    ensures y[0] <= Interp(x, y, r) <= y[|y| - 1]
  {
    if |x| == 1 || r <= x[0] {
    } else if r <= x[1] {
      SegmentMonotone(x[0], y[0], x[1], y[1], r, r);
    } else {
      InterpInRange(x[1..], y[1..], r);
    }
  }

  lemma {:induction false} InterpMonotone(x: seq<real>, y: seq<real>, r: real, s: real)
    requires |x| > 0 && Fitted(Calibrator(x, y)) && r <= s
    ensures Interp(x, y, r) <= Interp(x, y, s)
  {
    if |x| == 1 {
    } else if r <= x[0] {
      InterpInRange(x, y, s);
    } else if s <= x[1] {
      SegmentMonotone(x[0], y[0], x[1], y[1], r, s);
    } else if r <= x[1] {
      SegmentMonotone(x[0], y[0], x[1], y[1], r, x[1]);
      InterpInRange(x[1..], y[1..], s);
    } else {
      InterpMonotone(x[1..], y[1..], r, s);
    }
  }

  /** The curve passes through every knot. */
  lemma {:induction false} InterpHitsKnots(x: seq<real>, y: seq<real>, k: nat)
    requires |x| > 0 && Fitted(Calibrator(x, y)) && k < |x|
    ensures Interp(x, y, x[k]) == y[k]
  {
    if k == 1 {
      assert (x[1] - x[0]) / (x[1] - x[0]) == 1.0;
    } else if k > 1 {
      InterpHitsKnots(x[1..], y[1..], k - 1);
    }
  }

  /** The point (r, v) lies on the line from (x0, y0) to (x1, y1). */
  predicate OnLine(x0: real, y0: real, x1: real, y1: real, r: real, v: real) {
    (v - y0) * (x1 - x0) == (y1 - y0) * (r - x0)
  }

  lemma {:induction false} SegmentOnLine(x0: real, y0: real, x1: real, y1: real, r: real)
    requires x0 < x1
    ensures OnLine(x0, y0, x1, y1, r, Segment(x0, y0, x1, y1, r))
  {
    var t := (r - x0) / (x1 - x0);
    assert t * (x1 - x0) == r - x0;
    assert ((y1 - y0) * t) * (x1 - x0) == (y1 - y0) * (t * (x1 - x0));
  }

  lemma {:induction false} StartOnLine(x0: real, y0: real, x1: real, y1: real)
    ensures OnLine(x0, y0, x1, y1, x0, y0)
  {
  }

  /** Between two neighbouring knots the curve is the line through them. */
  lemma {:induction false} InterpIsLinear(x: seq<real>, y: seq<real>, r: real, k: nat)
    requires |x| > 0 && Fitted(Calibrator(x, y))
    requires k + 1 < |x| && x[k] <= r <= x[k + 1]
    ensures OnLine(x[k], y[k], x[k + 1], y[k + 1], r, Interp(x, y, r))
  {
    hide Segment, OnLine;
    if r == x[k] {
      InterpHitsKnots(x, y, k);
      StartOnLine(x[k], y[k], x[k + 1], y[k + 1]);
    } else if k == 0 {
      SegmentOnLine(x[0], y[0], x[1], y[1], r);
    } else {
      InterpIsLinear(x[1..], y[1..], r, k - 1);
    }
  }

  /** Outside the knots the curve stays where it was. */
  lemma {:induction false} InterpOutside(x: seq<real>, y: seq<real>, r: real)
    requires |x| > 0 && Fitted(Calibrator(x, y))
    ensures r <= x[0] ==> Interp(x, y, r) == y[0]
    ensures r >= x[|x| - 1] ==> Interp(x, y, r) == y[|y| - 1]
  {
    if |x| > 1 && r >= x[|x| - 1] {
      if |x| == 2 && r == x[1] {
        InterpHitsKnots(x, y, 1);
      } else {
        InterpOutside(x[1..], y[1..], r);
      }
    }
  }

  /** A larger raw probability never calibrates lower; no fit at all is the identity. */
  lemma {:induction false} PredictMonotone(c: Calibrator, raw: real, raw': real)
    requires Fitted(c) && raw <= raw'
    ensures Predict(c, raw) <= Predict(c, raw')
    ensures c.x == [] ==> Predict(c, raw) == raw
  {
    if c.x != [] { InterpMonotone(c.x, c.y, raw, raw'); }
  }

  /** Between the extreme calibrated values, and untouched by the clamp, when those are probabilities. */
  lemma {:induction false} PredictInFittedRange(c: Calibrator, raw: real)
    requires Fitted(c) && c.x != [] && 0.0 <= c.y[0] && c.y[|c.y| - 1] <= 1.0
    ensures c.y[0] <= Predict(c, raw) <= c.y[|c.y| - 1]
    ensures Predict(c, raw) == Interp(c.x, c.y, raw)
  {
    InterpInRange(c.x, c.y, raw);
  }
}
