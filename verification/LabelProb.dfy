/**
 The calibrated probability of one base group (`calibrated_label_prob` in
 src/analyzer_ng/core/decision.py): the argmax group takes its calibrated value, the others share
 what is left in their raw ratios.
 */
module LabelProb {
  import opened Wrappers
  import opened Features
  import opened Calibration

  /** The raw distribution of a prediction, in the order of its dictionary. */
  datatype Entry = Entry(group: Label, p: real)

  function Sum(d: seq<Entry>): real {
    if d == [] then 0.0 else Sum(d[..|d| - 1]) + d[|d| - 1].p
  }

  /** The first entry with the largest probability. */
  function ArgMax(d: seq<Entry>): (k: nat)
    requires d != []
    ensures k < |d|
    ensures forall i :: 0 <= i < |d| ==> d[i].p <= d[k].p
    ensures forall i :: 0 <= i < k ==> d[i].p < d[k].p
  {
    if |d| == 1 then 0
    else
      var k := ArgMax(d[..|d| - 1]);
      if d[|d| - 1].p > d[k].p then |d| - 1 else k
  }

  function Find(d: seq<Entry>, group: Label): (r: Option<nat>)
    ensures r.Some? ==> r.value < |d| && d[r.value].group == group
    ensures r.None? ==> forall i :: 0 <= i < |d| ==> d[i].group != group
  {
    if d == [] then None
    else if d[|d| - 1].group == group then Some(|d| - 1)
    else Find(d[..|d| - 1], group)
  }

  /** The part of `left` that falls to raw probability `p` out of `rest`. */
  function Share(p: real, left: real, rest: real): real
    requires rest != 0.0
  {
    p * left / rest
  }

  function CalibratedLabelProb(calibrated: Option<real>, d: seq<Entry>, group: Label): Option<real> {
    var at := Find(d, group);
    if calibrated.None? || at.None? then None
    else
      var k := ArgMax(d);
      var rawMax := d[k].p;
      if rawMax <= 0.0 then None
      else
        var pStar := Clamp(calibrated.value);
        if group == d[k].group then Some(pStar)
        else if 1.0 - rawMax <= 0.0 then Some(0.0)
        else Some(Clamp(Share(d[at.value].p, 1.0 - pStar, 1.0 - rawMax)))
  }

  /** Distinct groups, non-negative, summing to one. */
  predicate Distribution(d: seq<Entry>) {
    && (forall i, j :: 0 <= i < j < |d| ==> d[i].group != d[j].group)
    && (forall i :: 0 <= i < |d| ==> d[i].p >= 0.0)
    && Sum(d) == 1.0
  }

  lemma {:induction false} SumOfZeros(d: seq<Entry>)
    requires forall i :: 0 <= i < |d| ==> d[i].p <= 0.0
    ensures Sum(d) <= 0.0
  {
    if d != [] { SumOfZeros(d[..|d| - 1]); }
  }

  lemma {:induction false} SumBoundsParts(d: seq<Entry>, k: nat)
    requires k < |d| && forall i :: 0 <= i < |d| ==> d[i].p >= 0.0
    ensures 0.0 <= d[k].p <= Sum(d)
    ensures forall i :: 0 <= i < |d| && i != k ==> d[i].p <= Sum(d) - d[k].p
  {
    var n := |d| - 1;
    if n > 0 {
      SumBoundsParts(d[..n], if k == n then 0 else k);
      forall i | 0 <= i < n && k == n ensures d[i].p <= Sum(d) - d[k].p {
        SumBoundsParts(d[..n], i);
      }
    }
  }

  lemma {:induction false} MaxIsPositive(d: seq<Entry>)
    requires Distribution(d)
    ensures d != [] && 0.0 < d[ArgMax(d)].p <= 1.0
    ensures forall i :: 0 <= i < |d| && i != ArgMax(d) ==> d[i].p <= 1.0 - d[ArgMax(d)].p
  {
    if d[ArgMax(d)].p <= 0.0 { SumOfZeros(d); }
    SumBoundsParts(d, ArgMax(d));
  }

  lemma {:induction false} FindAt(d: seq<Entry>, i: nat)
    requires Distribution(d) && i < |d|
    ensures Find(d, d[i].group) == Some(i)
    ensures forall k :: 0 <= k < |d| && k != i ==> d[k].group != d[i].group
  {
    var at := Find(d, d[i].group);
    assert forall k :: 0 <= k < |d| && k != i ==> d[k].group != d[i].group;
  }

  lemma {:induction false} ShareAsScale(p: real, left: real, rest: real)
    requires rest != 0.0
    ensures Share(p, left, rest) == p * (left / rest)
  {
    var t := left / rest;
    assert t * rest == left;
    assert p * left == (p * t) * rest;
  }

  lemma {:induction false} ShareOrder(p: real, q: real, left: real, rest: real)
    requires p <= q && left >= 0.0 && rest > 0.0
    ensures Share(p, left, rest) <= Share(q, left, rest)
    ensures Share(0.0, left, rest) == 0.0 && Share(rest, left, rest) == left
  {
    var t := left / rest;
    assert t * rest == left;
    assert t >= 0.0;
    ShareAsScale(p, left, rest);
    ShareAsScale(q, left, rest);
    ShareAsScale(0.0, left, rest);
    ShareAsScale(rest, left, rest);
    assert (q - p) * t >= 0.0;
  }

  lemma {:induction false} ShareAdds(p: real, q: real, left: real, rest: real)
    requires rest != 0.0
    ensures Share(p + q, left, rest) == Share(p, left, rest) + Share(q, left, rest)
  {
    var t := left / rest;
    ShareAsScale(p, left, rest);
    ShareAsScale(q, left, rest);
    ShareAsScale(p + q, left, rest);
    assert (p + q) * t == p * t + q * t;
  }

  /** The value of the entry at `i`, with nothing clipped but the calibrated one. */
  function ValueAt(c: real, d: seq<Entry>, i: nat): real
    requires i < |d|
  {
    var k := ArgMax(d);
    if i == k then Clamp(c)
    else if d[k].p >= 1.0 then 0.0
    else Share(d[i].p, 1.0 - Clamp(c), 1.0 - d[k].p)
  }

  lemma {:induction false} ValueIsProbability(c: real, d: seq<Entry>, i: nat)
    requires Distribution(d) && i < |d|
    ensures 0.0 <= ValueAt(c, d, i) <= 1.0
  {
    hide Share, Sum, ArgMax;
    var k := ArgMax(d);
    MaxIsPositive(d);
    if i != k && d[k].p < 1.0 {
      ShareOrder(0.0, d[i].p, 1.0 - Clamp(c), 1.0 - d[k].p);
      ShareOrder(d[i].p, 1.0 - d[k].p, 1.0 - Clamp(c), 1.0 - d[k].p);
    }
  }

  /** What the call returns for each group of a distribution. */
  lemma {:induction false} CallReturnsValue(c: real, d: seq<Entry>, i: nat)
    requires Distribution(d) && i < |d|
    ensures CalibratedLabelProb(Some(c), d, d[i].group) == Some(ValueAt(c, d, i))
  {
    hide Distribution, Find, Sum, Share, ArgMax;
    FindAt(d, i);
    MaxIsPositive(d);
    ValueIsProbability(c, d, i);
  }

  /** The calibrated values, entry by entry. */
  function Values(c: real, d: seq<Entry>): (r: seq<Entry>)
    ensures |r| == |d|
    ensures forall i :: 0 <= i < |d| ==> r[i] == Entry(d[i].group, ValueAt(c, d, i))
  {
    seq(|d|, i requires 0 <= i < |d| => Entry(d[i].group, ValueAt(c, d, i)))
  }

  /** Sharing all entries but the one at `k`, which is replaced by `c`. */
  lemma {:induction false} SumShared(d: seq<Entry>, v: seq<Entry>, k: nat, c: real, left: real, rest: real)
    requires |v| == |d| && rest != 0.0
    requires forall i :: 0 <= i < |d| ==> v[i].p == if i == k then c else Share(d[i].p, left, rest)
    ensures Sum(v) == if k < |d| then c + Share(Sum(d) - d[k].p, left, rest) else Share(Sum(d), left, rest)
  {
    if d == [] {
      ShareAsScale(0.0, left, rest);
    } else {
      hide Share;
      var n := |d| - 1;
      SumShared(d[..n], v[..n], k, c, left, rest);
      if k < n {
        ShareAdds(Sum(d[..n]) - d[k].p, d[n].p, left, rest);
      } else if k > n {
        ShareAdds(Sum(d[..n]), d[n].p, left, rest);
      }
    }
  }

  lemma {:induction false} SumOfOne(v: seq<Entry>, k: nat)
    requires forall i :: 0 <= i < |v| && i != k ==> v[i].p == 0.0
    ensures Sum(v) == if k < |v| then v[k].p else 0.0
  {
    if v != [] { SumOfOne(v[..|v| - 1], k); }
  }

  /** The argmax keeps its calibrated value and the others their raw order. */
  lemma {:induction false} OrderKept(c: real, d: seq<Entry>, i: nat, j: nat)
    requires Distribution(d) && i < |d| && j < |d|
    ensures CalibratedLabelProb(Some(c), d, d[ArgMax(d)].group) == Some(Clamp(c))
    ensures i != ArgMax(d) && j != ArgMax(d) && d[i].p <= d[j].p ==>
      CalibratedLabelProb(Some(c), d, d[i].group).value <= CalibratedLabelProb(Some(c), d, d[j].group).value
  {
    hide Distribution, CalibratedLabelProb, Sum, Share, ArgMax;
    var k := ArgMax(d);
    CallReturnsValue(c, d, i);
    CallReturnsValue(c, d, j);
    CallReturnsValue(c, d, k);
    if i != k && j != k && d[i].p <= d[j].p && d[k].p < 1.0 {
      ShareOrder(d[i].p, d[j].p, 1.0 - Clamp(c), 1.0 - d[k].p);
    }
  }

  /** The calibrated values of a distribution are probabilities, and sum to one exactly when the raw
      maximum is below one or the argmax keeps all the mass anyway. */
  lemma {:induction false} StaysADistributionIff(c: real, d: seq<Entry>)
    requires Distribution(d)
    ensures d != []
    ensures forall i :: 0 <= i < |d| ==> CalibratedLabelProb(Some(c), d, d[i].group) == Some(Values(c, d)[i].p)
    ensures forall i :: 0 <= i < |d| ==> 0.0 <= Values(c, d)[i].p <= 1.0
    ensures Sum(Values(c, d)) == 1.0 <==> d[ArgMax(d)].p < 1.0 || Clamp(c) == 1.0
  {
    hide CalibratedLabelProb, ValueAt, Values, Clamp, Sum;
    forall i | 0 <= i < |d|
      ensures CalibratedLabelProb(Some(c), d, d[i].group) == Some(Values(c, d)[i].p) && 0.0 <= Values(c, d)[i].p <= 1.0
    {
      CallReturnsValue(c, d, i);
      ValueIsProbability(c, d, i);
    }
    MaxIsPositive(d);
    SumOfValues(c, d);
  }

  lemma {:induction false} SumOfValues(c: real, d: seq<Entry>)
    requires Distribution(d) && d != [] && d[ArgMax(d)].p <= 1.0
    ensures Sum(Values(c, d)) == if d[ArgMax(d)].p < 1.0 then 1.0 else Clamp(c)
  {
    hide Share, Clamp, Sum, ArgMax;
    var k := ArgMax(d);
    if d[k].p < 1.0 {
      SumShared(d, Values(c, d), k, Clamp(c), 1.0 - Clamp(c), 1.0 - d[k].p);
      ShareOrder(0.0, 0.0, 1.0 - Clamp(c), 1.0 - d[k].p);
    } else {
      SumOfOne(Values(c, d), k);
    }
  }

  /** The others share what the argmax leaves in proportion to their raw probabilities. */
  lemma {:induction false} RatiosKept(c: real, d: seq<Entry>, i: nat)
    requires Distribution(d) && i < |d| && i != ArgMax(d) && d[ArgMax(d)].p < 1.0
    ensures CalibratedLabelProb(Some(c), d, d[i].group).Some?
    ensures CalibratedLabelProb(Some(c), d, d[i].group).value * (1.0 - d[ArgMax(d)].p) == d[i].p * (1.0 - Clamp(c))
  {
    hide Distribution, CalibratedLabelProb, Sum, ArgMax;
    CallReturnsValue(c, d, i);
  }

  /** Nothing is said exactly if there is no calibrated value, no entry for the group, or no positive entry. */
  lemma {:induction false} UnknownIff(calibrated: Option<real>, d: seq<Entry>, group: Label)
    ensures CalibratedLabelProb(calibrated, d, group) == None <==>
      || calibrated == None
      || (forall i :: 0 <= i < |d| ==> d[i].group != group)
      || (forall i :: 0 <= i < |d| ==> d[i].p <= 0.0)
  {
    hide Share;
    if calibrated.Some? && Find(d, group).Some? {
      var k := ArgMax(d);
      assert d[k].p <= 0.0 <==> forall i :: 0 <= i < |d| ==> d[i].p <= 0.0;
    }
  }

  /** A raw maximum of one whose calibrated value is below one: half of the mass is gone. */
  lemma {:induction false} CanLoseMass() returns (d: seq<Entry>, c: real)
    ensures Distribution(d) && d[ArgMax(d)].p == 1.0 && Clamp(c) < 1.0
    ensures Sum(Values(c, d)) == 0.5
  {
    d, c := [Entry(Pb, 1.0), Entry(Ab, 0.0)], 0.5;
    assert d[..1] == [Entry(Pb, 1.0)] && d[..1][..0] == [];
    assert Sum(d[..1]) == 1.0;
    assert ArgMax(d[..1]) == 0;
    SumOfValues(c, d);
  }
}
