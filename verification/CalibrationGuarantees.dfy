/**
 * What the isotonic calibrator promises on the data it was fitted to
 * (backend/src/models/calibration.ts:93-111).
 *
 * The fitted values have a closed form in the labels (`FitIsMaxMin`).  The returned closure clamps
 * its answer and gives every point of a run of equal probabilities one value; the theorems say,
 * from the data alone, when that is still the least-squares optimum.
 */
module CalibrationGuarantees {
  import opened Calibration
  import Rounding
  import Sorting

  // ---------------------------------------------------------------- the fit around one point

  /** A prefix of one block has no smaller mean than the block, and a suffix no greater one. */
  lemma {:induction false} BlockSides(b: Block, pts: seq<Point>, k: nat, v: real)
    requires Pools(b, pts) && k <= |pts|
    ensures v <= b.value ==> Surplus(pts[..k], v) >= 0.0
    ensures v >= b.value ==> Surplus(pts[k..], v) <= 0.0
  {
    hide Surplus, SumY;
    assert pts[..k] + pts[k..] == pts;
    SumConcat(pts[..k], pts[k..], b.value);
    if v <= b.value { SurplusMonotone(pts[..k], v, b.value); }
    if v >= b.value { SurplusMonotone(pts[k..], b.value, v); }
  }

  /** Labels never fall short of a lower bound of the block values over a prefix. */
  lemma {:induction false} PrefixSurplus(blocks: seq<Block>, pts: seq<Point>, k: nat, v: real)
    requires Pooled(blocks, pts) && k <= |pts|
    requires forall j | 0 <= j < |blocks| :: blocks[j].value >= v
    ensures Surplus(pts[..k], v) >= 0.0
  {
    if blocks != [] {
      hide Surplus, Pools;
      var b, cut := blocks[|blocks| - 1], |pts| - blocks[|blocks| - 1].count;
      var front := blocks[..|blocks| - 1];
      if k <= cut {
        PrefixSurplus(front, pts[..cut], k, v);
        assert pts[..cut][..k] == pts[..k];
      } else {
        PrefixSurplus(front, pts[..cut], cut, v);
        BlockSides(b, pts[cut..], k - cut, v);
        assert pts[..cut][..cut] == pts[..cut] && pts[..cut] + pts[cut..][..k - cut] == pts[..k];
        SumConcat(pts[..cut], pts[cut..][..k - cut], v);
      }
    }
  }

  /** Labels never exceed an upper bound of the block values over a suffix. */
  lemma {:induction false} SuffixSurplus(blocks: seq<Block>, pts: seq<Point>, k: nat, v: real)
    requires Pooled(blocks, pts) && k <= |pts|
    requires forall j | 0 <= j < |blocks| :: blocks[j].value <= v
    ensures Surplus(pts[k..], v) <= 0.0
  {
    if blocks != [] {
      hide Surplus, Pools;
      var b, cut := blocks[|blocks| - 1], |pts| - blocks[|blocks| - 1].count;
      if k < cut {
        SuffixSurplus(blocks[..|blocks| - 1], pts[..cut], k, v);
        BlockSides(b, pts[cut..], 0, v);
        assert pts[cut..][0..] == pts[cut..] && pts[..cut][k..] + pts[cut..] == pts[k..];
        SumConcat(pts[..cut][k..], pts[cut..], v);
      } else {
        BlockSides(b, pts[cut..], k - cut, v);
        assert pts[cut..][k - cut..] == pts[k..];
      }
    }
  }

  /** Number of points pooled by the first `k` blocks. */
  function Start(blocks: seq<Block>, k: nat): nat
    requires k <= |blocks|
  {
    if k == 0 then 0 else Start(blocks, k - 1) + blocks[k - 1].count
  }

  lemma {:induction false} StartPrefix(blocks: seq<Block>, n: nat, k: nat)
    requires k <= n <= |blocks|
    ensures Start(blocks[..n], k) == Start(blocks, k)
  {
    if k > 0 { StartPrefix(blocks, n, k - 1); }
  }

  lemma {:induction false} StartMonotone(blocks: seq<Block>, k: nat, m: nat)
    requires k <= m <= |blocks|
    ensures Start(blocks, k) <= Start(blocks, m)
  {
    if k < m { StartMonotone(blocks, k, m - 1); }
  }

  lemma {:induction false} LastBlockStart(blocks: seq<Block>, pts: seq<Point>)
    requires Pooled(blocks, pts)
    ensures Start(blocks, |blocks|) == |pts|
  {
    hide Pools;
    if blocks != [] {
      var n := |blocks| - 1;
      LastBlockStart(blocks[..n], pts[..|pts| - blocks[n].count]);
      StartPrefix(blocks, n, n);
    }
  }

  /** The blocks up to `k` pool the points up to `Start(k)`, and fit them as all blocks do. */
  lemma {:induction false} PooledBefore(blocks: seq<Block>, pts: seq<Point>, k: nat)
    requires Pooled(blocks, pts) && k <= |blocks|
    ensures Start(blocks, k) <= |pts| && Pooled(blocks[..k], pts[..Start(blocks, k)])
    ensures Fitted(blocks[..k]) <= Fitted(blocks)
  {
    hide Pools;
    LastBlockStart(blocks, pts);
    if k == |blocks| {
      assert blocks[..k] == blocks && pts[..|pts|] == pts;
    } else {
      var n, cut := |blocks| - 1, |pts| - blocks[|blocks| - 1].count;
      PooledBefore(blocks[..n], pts[..cut], k);
      StartPrefix(blocks, n, k);
      assert blocks[..n][..k] == blocks[..k];
      assert pts[..cut][..Start(blocks, k)] == pts[..Start(blocks, k)];
    }
  }

  /** Block `k` pools the points from `Start(k)` up to `Start(k + 1)`, and fits its value there. */
  lemma {:induction false} BlockSpan(blocks: seq<Block>, pts: seq<Point>, k: nat)
    requires Pooled(blocks, pts) && k < |blocks|
    ensures Start(blocks, k) < Start(blocks, k + 1) <= |pts| == |Fitted(blocks)|
    ensures k == |blocks| - 1 ==> Start(blocks, k + 1) == |pts|
    ensures blocks[k].maxP == pts[Start(blocks, k + 1) - 1].p
    ensures forall i | Start(blocks, k) <= i < Start(blocks, k + 1) :: Fitted(blocks)[i] == blocks[k].value
  {
    hide *;
    FittedLength(blocks, pts);
    LastBlockStart(blocks, pts);
    PooledBefore(blocks, pts, k + 1);
    TopSpan(blocks[..k + 1], pts[..Start(blocks, k + 1)]);
    StartPrefix(blocks, k + 1, k);
  }

  lemma {:induction false} TopSpan(blocks: seq<Block>, pts: seq<Point>)
    requires Pooled(blocks, pts) && blocks != []
    ensures Start(blocks, |blocks| - 1) < |pts| == |Fitted(blocks)|
    ensures blocks[|blocks| - 1].maxP == pts[|pts| - 1].p
    ensures forall i | Start(blocks, |blocks| - 1) <= i < |pts| :: Fitted(blocks)[i] == blocks[|blocks| - 1].value
  {
    hide Surplus, SumY;
    var n := |blocks| - 1;
    var front, rest := blocks[..n], pts[..|pts| - blocks[n].count];
    LastBlockStart(front, rest);
    StartPrefix(blocks, n, n);
    FittedLength(front, rest);
  }

  /** The block whose points include point `i`. */
  lemma {:induction false} BlockOf(blocks: seq<Block>, pts: seq<Point>, i: nat) returns (k: nat)
    requires Pooled(blocks, pts) && i < |pts|
    ensures k < |blocks| && Start(blocks, k) <= i < Start(blocks, k + 1)
  {
    k := |blocks| - 1;
    BlockSpan(blocks, pts, k);
    while i < Start(blocks, k)
      invariant k < |blocks| && i < Start(blocks, k + 1)
      decreases k
    {
      k := k - 1;
    }
  }

  /** The blocks from `k` on pool the points from `Start(k)` on. */
  lemma {:induction false} PooledAfter(blocks: seq<Block>, pts: seq<Point>, k: nat)
    requires Pooled(blocks, pts) && k <= |blocks|
    ensures Start(blocks, k) <= |pts| && Pooled(blocks[k..], pts[Start(blocks, k)..])
  {
    hide Pools, Surplus, Fitted;
    PooledBefore(blocks, pts, k);
    if k == |blocks| {
      LastBlockStart(blocks, pts);
    } else {
      var n, cut := |blocks| - 1, |pts| - blocks[|blocks| - 1].count;
      PooledAfter(blocks[..n], pts[..cut], k);
      StartPrefix(blocks, n, k);
      PooledTail(blocks, pts, k, Start(blocks, k));
    }
  }

  lemma {:induction false} PooledTail(blocks: seq<Block>, pts: seq<Point>, k: nat, from: nat)
    requires k < |blocks| && blocks[|blocks| - 1].count <= |pts|
    requires from <= |pts| - blocks[|blocks| - 1].count
    requires Pools(blocks[|blocks| - 1], pts[|pts| - blocks[|blocks| - 1].count..])
    requires Pooled(blocks[..|blocks| - 1][k..], pts[..|pts| - blocks[|blocks| - 1].count][from..])
    ensures Pooled(blocks[k..], pts[from..])
  {
    hide Pools;
    var b, rest, later := blocks[|blocks| - 1], pts[from..], blocks[k..];
    assert later[..|later| - 1] == blocks[..|blocks| - 1][k..];
    assert rest[..|rest| - b.count] == pts[..|pts| - b.count][from..];
    assert rest[|rest| - b.count..] == pts[|pts| - b.count..];
  }

  lemma {:induction false} StepBefore(blocks: seq<Block>, pts: seq<Point>, k: nat)
    requires Pooled(blocks, pts) && Increasing(blocks) && k < |blocks|
    ensures Start(blocks, k) <= |pts| == |Fitted(blocks)|
    ensures Start(blocks, k) == 0 || Fitted(blocks)[Start(blocks, k) - 1] < blocks[k].value
  {
    hide Pooled;
    BlockSpan(blocks, pts, k);
    if k > 0 { BlockSpan(blocks, pts, k - 1); }
  }

  /**
   * Point `i` lies in a stretch `a..e` of one fitted value: no stretch of labels that ends at `e`
   * and includes the point has a greater mean, and none that begins at `a` has a smaller one.
   */
  lemma {:induction false} Saddle(blocks: seq<Block>, pts: seq<Point>, i: nat) returns (a: nat, e: nat)
    requires Pooled(blocks, pts) && Increasing(blocks) && i < |pts|
    ensures |Fitted(blocks)| == |pts| && a <= i < e <= |pts|
    ensures forall j | a <= j < e :: Fitted(blocks)[j] == Fitted(blocks)[i]
    ensures a == 0 || Fitted(blocks)[a - 1] < Fitted(blocks)[i]
    ensures forall s | 0 <= s <= i :: Surplus(pts[s..e], Fitted(blocks)[i]) <= 0.0
    ensures forall t | i < t <= |pts| :: Surplus(pts[a..t], Fitted(blocks)[i]) >= 0.0
  {
    hide Pooled, Surplus, Fitted;
    var k := BlockOf(blocks, pts, i);
    hide Start;
    BlockSpan(blocks, pts, k);
    a, e := Start(blocks, k), Start(blocks, k + 1);
    StepBefore(blocks, pts, k);
    var v := Fitted(blocks)[i];
    PooledBefore(blocks, pts, k + 1);
    forall s | 0 <= s <= i ensures Surplus(pts[s..e], v) <= 0.0 {
      SuffixSurplus(blocks[..k + 1], pts[..e], s, v);
      assert pts[..e][s..] == pts[s..e];
    }
    PooledAfter(blocks, pts, k);
    forall t | i < t <= |pts| ensures Surplus(pts[a..t], v) >= 0.0 {
      PrefixSurplus(blocks[k..], pts[a..], t - a, v);
      assert pts[a..][..t - a] == pts[a..t];
    }
  }

  // ---------------------------------------------------------------- the fit in closed form

  /** Mean label of the points from `s` up to `t`. */
  function Mean(pts: seq<Point>, s: nat, t: nat): real
    requires s < t <= |pts|
  {
    SumY(pts[s..t]) / (t - s) as real
  }

  lemma {:induction false} MeanSide(pts: seq<Point>, s: nat, t: nat, v: real)
    requires s < t <= |pts|
    ensures Surplus(pts[s..t], v) <= 0.0 <==> Mean(pts, s, t) <= v
    ensures Surplus(pts[s..t], v) >= 0.0 <==> Mean(pts, s, t) >= v
    ensures Surplus(pts[s..t], Mean(pts, s, t)) == 0.0
  {
    var m := Mean(pts, s, t);
    SurplusOfSum(pts[s..t], m);
    DivideBack(SumY(pts[s..t]), (t - s) as real);
    if v < m { SurplusMonotone(pts[s..t], v, m); }
    if m < v { SurplusMonotone(pts[s..t], m, v); }
  }

  function Min(x: real, y: real): real { if x <= y then x else y }

  function Max(x: real, y: real): real { if x >= y then x else y }

  /** The least mean of a stretch that begins at `s` and includes point `i`. */
  function LeastMean(pts: seq<Point>, s: nat, i: nat): real
    requires s <= i < |pts|
    decreases |pts| - i
  {
    if i + 1 == |pts| then Mean(pts, s, i + 1) else Min(Mean(pts, s, i + 1), LeastMean(pts, s, i + 1))
  }

  /** The greatest of the least means over beginnings up to `s`. */
  function MaxMin(pts: seq<Point>, s: nat, i: nat): real
    requires s <= i < |pts|
  {
    if s == 0 then LeastMean(pts, s, i) else Max(LeastMean(pts, s, i), MaxMin(pts, s - 1, i))
  }

  lemma {:induction false} LeastMeanAbove(pts: seq<Point>, s: nat, i: nat, v: real)
    requires s <= i < |pts|
    requires forall t | i < t <= |pts| :: Mean(pts, s, t) >= v
    ensures LeastMean(pts, s, i) >= v
    decreases |pts| - i
  {
    if i + 1 < |pts| { LeastMeanAbove(pts, s, i + 1, v); }
  }

  lemma {:induction false} LeastMeanBelow(pts: seq<Point>, s: nat, i: nat, t: nat)
    requires s <= i < t <= |pts|
    ensures LeastMean(pts, s, i) <= Mean(pts, s, t)
    decreases |pts| - i
  {
    if i + 1 < t { LeastMeanBelow(pts, s, i + 1, t); }
  }

  lemma {:induction false} MaxMinAbove(pts: seq<Point>, s: nat, i: nat, a: nat)
    requires a <= s <= i < |pts|
    ensures MaxMin(pts, s, i) >= LeastMean(pts, a, i)
  {
    if a < s { MaxMinAbove(pts, s - 1, i, a); }
  }

  lemma {:induction false} MaxMinBelow(pts: seq<Point>, s: nat, i: nat, v: real)
    requires s <= i < |pts|
    requires forall a | 0 <= a <= i :: LeastMean(pts, a, i) <= v
    ensures MaxMin(pts, s, i) <= v
  {
    if s > 0 { MaxMinBelow(pts, s - 1, i, v); }
  }

  /**
   * The fitted value of a point is the greatest, over all beginnings, of the least mean label,
   * over all ends, of the stretches that include the point.
   */
  lemma {:induction false} FitIsMaxMin(blocks: seq<Block>, pts: seq<Point>, i: nat)
    requires Pooled(blocks, pts) && Increasing(blocks) && i < |pts|
    ensures |Fitted(blocks)| == |pts|
    ensures Fitted(blocks)[i] == MaxMin(pts, i, i)
  {
    hide Pooled, Surplus, Fitted, Mean;
    var a, e := Saddle(blocks, pts, i);
    var v := Fitted(blocks)[i];
    forall t | i < t <= |pts| ensures Mean(pts, a, t) >= v { MeanSide(pts, a, t, v); }
    LeastMeanAbove(pts, a, i, v);
    MaxMinAbove(pts, i, i, a);
    forall s | 0 <= s <= i ensures LeastMean(pts, s, i) <= v {
      MeanSide(pts, s, e, v);
      LeastMeanBelow(pts, s, i, e);
    }
    MaxMinBelow(pts, i, i, v);
  }

  /**
   * Where the fit steps up, every stretch that ends there has a smaller mean than every stretch that
   * begins there; in any case the two stretches returned have means in the opposite order of the fit.
   */
  lemma {:induction false} AroundBoundary(blocks: seq<Block>, pts: seq<Point>, i: nat) returns (s: nat, t: nat)
    requires Pooled(blocks, pts) && Increasing(blocks) && 0 < i < |pts|
    ensures |Fitted(blocks)| == |pts| && s < i < t <= |pts|
    ensures Mean(pts, s, i) >= Fitted(blocks)[i - 1] && Fitted(blocks)[i] >= Mean(pts, i, t)
    ensures Fitted(blocks)[i - 1] < Fitted(blocks)[i]
       ==> && (forall s' | 0 <= s' < i :: Mean(pts, s', i) <= Fitted(blocks)[i - 1])
           && (forall t' | i < t' <= |pts| :: Fitted(blocks)[i] <= Mean(pts, i, t'))
  {
    hide Pooled, Surplus, Fitted;
    var left, right := i, i;
    s, left := Saddle(blocks, pts, i - 1);
    right, t := Saddle(blocks, pts, i);
    var v, w := Fitted(blocks)[i - 1], Fitted(blocks)[i];
    MeanSide(pts, s, i, v);
    MeanSide(pts, i, t, w);
    if v < w {
      assert left == i && right == i;
      forall s' | 0 <= s' < i ensures Mean(pts, s', i) <= v { MeanSide(pts, s', i, v); }
      forall t' | i < t' <= |pts| ensures w <= Mean(pts, i, t') { MeanSide(pts, i, t', w); }
    }
  }

  // ---------------------------------------------------------------- what the calibrator answers

  /** The first point with the same probability as point `i`. */
  function FirstTied(pts: seq<Point>, i: nat): (j: nat)
    requires i < |pts|
    ensures j <= i && pts[j].p == pts[i].p
    ensures forall k | j <= k <= i :: pts[k].p == pts[i].p
    ensures j == 0 || pts[j - 1].p != pts[i].p
  {
    if i > 0 && pts[i - 1].p == pts[i].p then FirstTied(pts, i - 1) else i
  }

  /** What the returned calibrator answers at the training points. */
  function CalibratedOn(blocks: seq<Block>, pts: seq<Point>): seq<real> {
    seq(|pts|, i requires 0 <= i < |pts| => Calibrate(blocks, pts[i].p))
  }

  function Clamped(f: seq<real>): seq<real> {
    seq(|f|, i requires 0 <= i < |f| => Clamp(f[i]))
  }

  /** The values lie in the range of the calibrator. */
  ghost predicate InRange(f: seq<real>) {
    forall i | 0 <= i < |f| :: EPSILON <= f[i] <= 1.0 - EPSILON
  }

  /** Points of equal probability have equal values. */
  ghost predicate TiesAgree(pts: seq<Point>, f: seq<real>)
    requires |f| == |pts|
  {
    forall i | 0 < i < |pts| && pts[i - 1].p == pts[i].p :: f[i - 1] == f[i]
  }

  lemma {:induction false} TiedValue(pts: seq<Point>, f: seq<real>, i: nat)
    requires |f| == |pts| && TiesAgree(pts, f) && i < |pts|
    ensures f[FirstTied(pts, i)] == f[i]
  {
    if i > 0 && pts[i - 1].p == pts[i].p { TiedValue(pts, f, i - 1); }
  }

  /**
   * What the calibrator returns on the training data, ties included: the clamped fitted value of
   * the first training point with that probability.
   */
  lemma {:induction false} CalibratorOnTraining(blocks: seq<Block>, pts: seq<Point>, i: nat)
    requires Pooled(blocks, pts) && ByProbability(pts) && i < |pts|
    ensures |Fitted(blocks)| == |pts|
    ensures Calibrate(blocks, pts[i].p) == Clamp(Fitted(blocks)[FirstTied(pts, i)])
  {
    var j := FirstTied(pts, i);
    var k := BlockOf(blocks, pts, j);
    BlockSpan(blocks, pts, k);
    forall m | 0 <= m < k ensures blocks[m].maxP < pts[i].p {
      BlockSpan(blocks, pts, m);
      StartMonotone(blocks, m + 1, k);
      assert pts[Start(blocks, m + 1) - 1].p <= pts[j - 1].p;
    }
    assert BlockFor(blocks, pts[i].p) == k;
  }

  /** How many observations have this probability and this label. */
  function Observations(probabilities: seq<real>, labels: seq<real>, p: real, y: real): nat
    requires |probabilities| == |labels|
  {
    if probabilities == [] then 0
    else
      Observations(probabilities[1..], labels[1..], p, y) + (if probabilities[0] == p && labels[0] == y then 1 else 0)
  }

  /** The training points are the observations, each with its own label, in order of probability. */
  lemma {:induction false} TrainingIsTheData(probabilities: seq<real>, labels: seq<real>, p: real, y: real)
    requires |probabilities| == |labels|
    ensures multiset(Training(probabilities, labels))[Point(p, y)] == Observations(probabilities, labels, p, y)
    ensures ByProbability(Training(probabilities, labels))
  {
    Sorting.SortIsSorted(PairUp(probabilities, labels), BY_P);
    PairsCount(probabilities, labels, p, y);
  }

  lemma {:induction false} PairsCount(probabilities: seq<real>, labels: seq<real>, p: real, y: real)
    requires |probabilities| == |labels|
    ensures multiset(PairUp(probabilities, labels))[Point(p, y)] == Observations(probabilities, labels, p, y)
  {
    if probabilities != [] {
      PairsCount(probabilities[1..], labels[1..], p, y);
      assert PairUp(probabilities, labels)
          == [Point(probabilities[0], labels[0])] + PairUp(probabilities[1..], labels[1..]);
    }
  }

  /** Clamping moves a value to the nearest one that is a millionth away from 0 and 1. */
  lemma {:induction false} ClampMeans(x: real, y: real)
    ensures 1.0 / 1000000.0 <= Clamp(x) <= 1.0 - 1.0 / 1000000.0
    ensures 1.0 / 1000000.0 <= y <= 1.0 - 1.0 / 1000000.0 ==> Rounding.Distance(x, Clamp(x)) <= Rounding.Distance(x, y)
  {
  }

  /** Point `i` reaches `p`, and the one before it does not. */
  ghost predicate FirstToReach(pts: seq<Point>, p: real, i: int) {
    0 <= i < |pts| && p <= pts[i].p && (i > 0 ==> pts[i - 1].p < p)
  }

  /**
   * What the calibrator returns at any probability: the clamped fitted value of the first training
   * point that reaches it, of the last one if none does, and the clamped probability itself when
   * there is no training data.
   */
  lemma {:induction false} CalibratorEverywhere(blocks: seq<Block>, pts: seq<Point>, p: real)
    requires Pooled(blocks, pts) && ByProbability(pts)
    ensures |Fitted(blocks)| == |pts|
    ensures pts == [] ==> Calibrate(blocks, p) == Clamp(p)
    ensures forall i | FirstToReach(pts, p, i) :: Calibrate(blocks, p) == Clamp(Fitted(blocks)[i])
    ensures pts != [] && pts[|pts| - 1].p < p ==> Calibrate(blocks, p) == Clamp(Fitted(blocks)[|pts| - 1])
  {
    hide Calibrate, Clamp, Fitted, Pooled;
    FittedLength(blocks, pts);
    if pts == [] { CalibratorUnfitted(blocks, pts, p); }
    forall i | FirstToReach(pts, p, i) ensures Calibrate(blocks, p) == Clamp(Fitted(blocks)[i]) {
      CalibratorWithin(blocks, pts, p, i);
    }
    if pts != [] && pts[|pts| - 1].p < p { CalibratorBeyond(blocks, pts, p); }
  }

  lemma {:induction false} CalibratorUnfitted(blocks: seq<Block>, pts: seq<Point>, p: real)
    requires Pooled(blocks, pts) && pts == []
    ensures Calibrate(blocks, p) == Clamp(p)
  {
  }

  lemma {:induction false} CalibratorWithin(blocks: seq<Block>, pts: seq<Point>, p: real, i: nat)
    requires Pooled(blocks, pts) && ByProbability(pts) && FirstToReach(pts, p, i)
    ensures |Fitted(blocks)| == |pts|
    ensures Calibrate(blocks, p) == Clamp(Fitted(blocks)[i])
  {
    var k := BlockOf(blocks, pts, i);
    BlockSpan(blocks, pts, k);
    forall m | 0 <= m < k ensures blocks[m].maxP < p {
      BlockSpan(blocks, pts, m);
      StartMonotone(blocks, m + 1, k);
      assert pts[Start(blocks, m + 1) - 1].p <= pts[i - 1].p;
    }
    assert pts[i].p <= blocks[k].maxP;
    assert BlockFor(blocks, p) == k;
  }

  lemma {:induction false} CalibratorBeyond(blocks: seq<Block>, pts: seq<Point>, p: real)
    requires Pooled(blocks, pts) && ByProbability(pts) && pts != [] && pts[|pts| - 1].p < p
    ensures |Fitted(blocks)| == |pts|
    ensures Calibrate(blocks, p) == Clamp(Fitted(blocks)[|pts| - 1])
  {
    var k := |blocks| - 1;
    BlockSpan(blocks, pts, k);
    forall m | 0 <= m < k ensures blocks[m].maxP < p {
      BlockSpan(blocks, pts, m);
      assert pts[Start(blocks, m + 1) - 1].p <= pts[|pts| - 1].p;
    }
    assert BlockFor(blocks, p) == k;
  }

  lemma {:induction false} CalibratedValues(blocks: seq<Block>, pts: seq<Point>)
    requires Pooled(blocks, pts) && Increasing(blocks) && ByProbability(pts)
    ensures |Fitted(blocks)| == |pts|
    ensures forall i | 0 <= i < |pts| :: CalibratedOn(blocks, pts)[i] == Clamp(Fitted(blocks)[FirstTied(pts, i)])
    ensures NonDecreasing(CalibratedOn(blocks, pts)) && InRange(CalibratedOn(blocks, pts))
    ensures TiesAgree(pts, CalibratedOn(blocks, pts))
  {
    FittedLength(blocks, pts);
    forall i | 0 <= i < |pts| ensures CalibratedOn(blocks, pts)[i] == Clamp(Fitted(blocks)[FirstTied(pts, i)]) {
      CalibratorOnTraining(blocks, pts, i);
    }
    forall i, j | 0 <= i < j < |pts| ensures CalibratedOn(blocks, pts)[i] <= CalibratedOn(blocks, pts)[j] {
      CalibratorMonotoneAndBounded(blocks, pts[i].p, pts[j].p);
    }
  }

  // ---------------------------------------------------------------- the clamped optimum

  /** Among the non-decreasing sequences within the range the clamped fit is best, by at least the distance. */
  lemma {:induction false} ClampedFitIsOptimal(blocks: seq<Block>, pts: seq<Point>, f: seq<real>)
    requires Pooled(blocks, pts) && |f| == |pts| && NonDecreasing(f) && InRange(f)
    ensures |Fitted(blocks)| == |pts|
    ensures Error(pts, f) >= Error(pts, Clamped(Fitted(blocks))) + Distance(Clamped(Fitted(blocks)), f)
  {
    FittedLength(blocks, pts);
    if blocks == [] {
      assert Clamped(Fitted(blocks)) == [];
    } else {
      hide Error, Distance, Clamp, Twice, Pools;
      var b := blocks[|blocks| - 1];
      var cut := |pts| - b.count;
      var front := blocks[..|blocks| - 1];
      ClampedFitIsOptimal(front, pts[..cut], f[..cut]);
      ClampedBlockOptimal(b, pts[cut..], f[cut..]);
      assert Clamped(Fitted(blocks)) == Clamped(Fitted(front)) + Constant(b.count, Clamp(b.value));
      JoinOptimal(pts, f, cut, Clamped(Fitted(front)), Constant(b.count, Clamp(b.value)));
    }
  }

  lemma {:induction false} ClampedBlockOptimal(b: Block, pts: seq<Point>, f: seq<real>)
    requires Pools(b, pts) && |f| == |pts| && NonDecreasing(f) && InRange(f)
    ensures
      var c := Constant(b.count, Clamp(b.value));
      Error(pts, f) >= Error(pts, c) + Distance(c, f)
  {
    hide Error, Distance, Clamp, Twice, Surplus;
    forall j | 0 <= j < |f| ensures Twice(b.value - Clamp(b.value), Clamp(b.value) - f[j]) >= 0.0 {
      ClampSide(b.value, f[j]);
    }
    BlockOptimal(b, Clamp(b.value), pts, f);
  }

  /** Two stretches that are each best by at least the distance are so together. */
  lemma {:induction false} JoinOptimal(pts: seq<Point>, f: seq<real>, cut: nat, g: seq<real>, h: seq<real>)
    requires |f| == |pts| && cut <= |pts| && |g| == cut && |h| == |pts| - cut
    requires Error(pts[..cut], f[..cut]) >= Error(pts[..cut], g) + Distance(g, f[..cut])
    requires Error(pts[cut..], f[cut..]) >= Error(pts[cut..], h) + Distance(h, f[cut..])
    ensures Error(pts, f) >= Error(pts, g + h) + Distance(g + h, f)
  {
    hide Error, Distance;
    assert pts[..cut] + pts[cut..] == pts && f[..cut] + f[cut..] == f;
    ErrorConcat(pts[..cut], pts[cut..], f[..cut], f[cut..]);
    ErrorConcat(pts[..cut], pts[cut..], g, h);
    DistanceConcat(g, h, f[..cut], f[cut..]);
  }

  lemma {:induction false} ClampSide(v: real, x: real)
    requires EPSILON <= x <= 1.0 - EPSILON
    ensures Twice(v - Clamp(v), Clamp(v) - x) >= 0.0
  {
    var d, e := v - Clamp(v), Clamp(v) - x;
    assert (d <= 0.0 && e <= 0.0) || (d >= 0.0 && e >= 0.0) || d == 0.0;
  }

  /** Every stretch of labels that ends before point `i` has a smaller mean, clamped, than any that begins there. */
  ghost predicate Separated(pts: seq<Point>, i: nat)
    requires 0 < i < |pts|
  {
    forall s, t | 0 <= s < i < t <= |pts| :: Clamp(Mean(pts, s, i)) < Clamp(Mean(pts, i, t))
  }

  /** No run of equal probabilities is separated. */
  ghost predicate NoTieSeparated(pts: seq<Point>) {
    forall i | 0 < i < |pts| && pts[i - 1].p == pts[i].p :: !Separated(pts, i)
  }

  lemma {:induction false} SeparatedIffStep(blocks: seq<Block>, pts: seq<Point>, i: nat)
    requires Pooled(blocks, pts) && Increasing(blocks) && 0 < i < |pts|
    ensures |Fitted(blocks)| == |pts|
    ensures Separated(pts, i) <==> Clamp(Fitted(blocks)[i - 1]) < Clamp(Fitted(blocks)[i])
  {
    hide Pooled, Fitted, Mean;
    var s, t := AroundBoundary(blocks, pts, i);
    if Separated(pts, i) {
      assert Clamp(Mean(pts, s, i)) < Clamp(Mean(pts, i, t));
    }
  }

  /** The calibrator has the least squared error among all non-decreasing values within its range. */
  ghost predicate AttainsOptimum(blocks: seq<Block>, pts: seq<Point>) {
    forall f: seq<real> | |f| == |pts| && NonDecreasing(f) && InRange(f) ::
      Error(pts, CalibratedOn(blocks, pts)) <= Error(pts, f)
  }

  /** Non-decreasing values within the range have the least squared error only if they are the clamped fit. */
  lemma {:induction false} OptimumIsClampedFit(blocks: seq<Block>, pts: seq<Point>, h: seq<real>)
    requires Pooled(blocks, pts) && Increasing(blocks)
    requires |h| == |pts| && NonDecreasing(h) && InRange(h)
    ensures |Fitted(blocks)| == |pts|
    ensures (forall f: seq<real> | |f| == |pts| && NonDecreasing(f) && InRange(f) :: Error(pts, h) <= Error(pts, f))
       <==> h == Clamped(Fitted(blocks))
  {
    FitInRange(blocks, pts);
    hide *;
    var fit := Clamped(Fitted(blocks));
    ClampedFitIsOptimal(blocks, pts, h);
    DistancePositive(fit, h);
    forall f: seq<real> | |f| == |pts| && NonDecreasing(f) && InRange(f) ensures Error(pts, fit) <= Error(pts, f) {
      ClampedFitIsOptimal(blocks, pts, f);
      DistancePositive(fit, f);
    }
  }

  /** The calibrator answers the clamped fit at every training point exactly when no tie is separated. */
  lemma {:induction false} AnswersTheFit(blocks: seq<Block>, pts: seq<Point>)
    requires Pooled(blocks, pts) && Increasing(blocks) && ByProbability(pts)
    ensures CalibratedOn(blocks, pts) == Clamped(Fitted(blocks)) <==> NoTieSeparated(pts)
  {
    hide Pooled, Fitted, Increasing, Separated, Clamp, Calibrate;
    CalibratedValues(blocks, pts);
    FitInRange(blocks, pts);
    var fit, values := Clamped(Fitted(blocks)), CalibratedOn(blocks, pts);
    forall i | 0 < i < |pts| ensures Separated(pts, i) <==> fit[i - 1] < fit[i] {
      SeparatedIffStep(blocks, pts, i);
    }
    if NoTieSeparated(pts) {
      assert TiesAgree(pts, fit);
      forall i | 0 <= i < |pts| ensures values[i] == fit[i] { TiedValue(pts, fit, i); }
    }
  }

  /**
   * The calibrator attains the isotonic optimum within its range exactly when no boundary inside a
   * run of equal probabilities separates the labels.
   */
  lemma {:induction false} CalibratorAttainsOptimum(blocks: seq<Block>, pts: seq<Point>)
    requires Pooled(blocks, pts) && Increasing(blocks) && ByProbability(pts)
    ensures AttainsOptimum(blocks, pts) <==> NoTieSeparated(pts)
  {
    hide Pooled, Fitted, Increasing, Separated, Error;
    CalibratedValues(blocks, pts);
    OptimumIsClampedFit(blocks, pts, CalibratedOn(blocks, pts));
    AnswersTheFit(blocks, pts);
  }

  lemma {:induction false} FitInRange(blocks: seq<Block>, pts: seq<Point>)
    requires Pooled(blocks, pts) && Increasing(blocks)
    ensures |Fitted(blocks)| == |pts|
    ensures NonDecreasing(Clamped(Fitted(blocks))) && InRange(Clamped(Fitted(blocks)))
  {
    FittedLength(blocks, pts);
    FittedBounds(blocks);
  }

  // ---------------------------------------------------------------- among functions of the probability

  /** A monotone function of the probability with values within the range. */
  ghost predicate MonotoneInRange(g: real -> real) {
    && (forall p, q | p <= q :: g(p) <= g(q))
    && (forall p :: EPSILON <= g(p) <= 1.0 - EPSILON)
  }

  /** The values a function of the probability gives to the training points. */
  function Values(g: real -> real, pts: seq<Point>): seq<real> {
    seq(|pts|, i requires 0 <= i < |pts| => g(pts[i].p))
  }

  /** No monotone function with values within the range has a smaller squared error than the calibrator. */
  ghost predicate BestCalibrator(blocks: seq<Block>, pts: seq<Point>) {
    forall g: real -> real | MonotoneInRange(g) ::
      Error(pts, CalibratedOn(blocks, pts)) <= Error(pts, Values(g, pts))
  }

  /** A run of points of one probability and one label. */
  function Flat(n: nat, p: real, m: real): (r: seq<Point>)
    ensures |r| == n
  {
    seq(n, _ => Point(p, m))
  }

  /** The points with every label replaced by the mean label of its probability. */
  function Averaged(pts: seq<Point>): (r: seq<Point>)
    ensures |r| == |pts|
    ensures forall i | 0 <= i < |r| :: r[i].p == pts[i].p
  {
    if pts == [] then []
    else
      var j := FirstTied(pts, |pts| - 1);
      Averaged(pts[..j]) + Flat(|pts| - j, pts[|pts| - 1].p, Mean(pts, j, |pts|))
  }

  lemma {:induction false} AveragedTies(pts: seq<Point>, i: nat)
    requires 0 < i < |pts| && pts[i - 1].p == pts[i].p
    ensures Averaged(pts)[i - 1].y == Averaged(pts)[i].y
  {
    var j := FirstTied(pts, |pts| - 1);
    if i < j { AveragedTies(pts[..j], i); }
  }

  function Labels(pts: seq<Point>): (r: seq<real>)
    ensures |r| == |pts|
  {
    seq(|pts|, i requires 0 <= i < |pts| => pts[i].y)
  }

  /** A stretch of points of mean `m`, given one value: its error is that of the mean plus that of the averages. */
  lemma {:induction false} RunError(pts: seq<Point>, p: real, m: real, c: real)
    ensures Error(pts, Constant(|pts|, c)) == Error(pts, Constant(|pts|, m))
         + Error(Flat(|pts|, p, m), Constant(|pts|, c)) + Twice(Surplus(pts, m), m - c)
  {
    if pts != [] {
      var n := |pts| - 1;
      RunError(pts[..n], p, m, c);
      assert Constant(n + 1, c)[..n] == Constant(n, c) && Constant(n + 1, m)[..n] == Constant(n, m);
      assert Flat(n + 1, p, m)[..n] == Flat(n, p, m);
      Expand(pts[n].y, m, c);
      AddTwice(Surplus(pts[..n], m), pts[n].y - m, m - c);
    }
  }

  lemma {:induction false} AddTwice(x: real, y: real, d: real)
    ensures Twice(x + y, d) == Twice(x, d) + Twice(y, d)
  {
  }

  /** The last run of equal probabilities, cut off. */
  lemma {:induction false} LastRun(pts: seq<Point>, f: seq<real>) returns (j: nat)
    requires |f| == |pts| && TiesAgree(pts, f) && pts != []
    ensures j == FirstTied(pts, |pts| - 1) && j < |pts| && TiesAgree(pts[..j], f[..j])
    ensures f == f[..j] + Constant(|pts| - j, f[|f| - 1])
    ensures
      var m := Mean(pts, j, |pts|);
      && Averaged(pts) == Averaged(pts[..j]) + Flat(|pts| - j, pts[|pts| - 1].p, m)
      && Labels(Averaged(pts)) == Labels(Averaged(pts[..j])) + Constant(|pts| - j, m)
      && Surplus(pts[j..], m) == 0.0
  {
    hide Mean, Surplus, Averaged, Labels, TiesAgree;
    j := FirstTied(pts, |pts| - 1);
    RunValues(pts, f, j);
    RunAverages(pts, j);
  }

  lemma {:induction false} RunValues(pts: seq<Point>, f: seq<real>, j: nat)
    requires |f| == |pts| && TiesAgree(pts, f) && pts != [] && j == FirstTied(pts, |pts| - 1)
    ensures j < |pts| && TiesAgree(pts[..j], f[..j])
    ensures f == f[..j] + Constant(|pts| - j, f[|f| - 1])
  {
    forall k | j <= k < |pts| ensures f[k] == f[|f| - 1] { SameOnRun(pts, f, k); }
  }

  lemma {:induction false} RunAverages(pts: seq<Point>, j: nat)
    requires pts != [] && j == FirstTied(pts, |pts| - 1)
    ensures
      var m := Mean(pts, j, |pts|);
      && Averaged(pts) == Averaged(pts[..j]) + Flat(|pts| - j, pts[|pts| - 1].p, m)
      && Labels(Averaged(pts)) == Labels(Averaged(pts[..j])) + Constant(|pts| - j, m)
      && Surplus(pts[j..], m) == 0.0
  {
    hide Mean, Surplus;
    RunBalance(pts, j);
  }

  /** Values that agree on ties err on the labels as on the averages, up to a constant of the data. */
  lemma {:induction false} AveragesDecide(pts: seq<Point>, f: seq<real>)
    requires |f| == |pts| && TiesAgree(pts, f)
    ensures Error(pts, f) == Error(pts, Labels(Averaged(pts))) + Error(Averaged(pts), f)
  {
    if pts != [] {
      var j := LastRun(pts, f);
      hide *;
      var front, run, m, c := pts[..j], pts[j..], Mean(pts, j, |pts|), f[|f| - 1];
      AveragesDecide(front, f[..j]);
      RunError(run, pts[|pts| - 1].p, m, c);
      ZeroTwice(m - c);
      assert pts == front + run;
      ErrorConcat(front, run, f[..j], Constant(|run|, c));
      ErrorConcat(front, run, Labels(Averaged(front)), Constant(|run|, m));
      ErrorConcat(Averaged(front), Flat(|run|, pts[|pts| - 1].p, m), f[..j], Constant(|run|, c));
    }
  }

  lemma {:induction false} ZeroTwice(d: real)
    ensures Twice(0.0, d) == 0.0
  {
  }

  lemma {:induction false} SameOnRun(pts: seq<Point>, f: seq<real>, k: nat)
    requires |f| == |pts| && TiesAgree(pts, f) && pts != []
    requires FirstTied(pts, |pts| - 1) <= k < |pts|
    ensures f[k] == f[|pts| - 1]
    decreases |pts| - k
  {
    if k + 1 < |pts| { SameOnRun(pts, f, k + 1); }
  }

  /** Every sequence of points has a fit. */
  lemma {:induction false} FitExists(pts: seq<Point>) returns (blocks: seq<Block>)
    ensures Pooled(blocks, pts) && Increasing(blocks)
  {
    blocks := [];
    if pts != [] {
      hide Surplus, SumY;
      var n := |pts| - 1;
      var front := FitExists(pts[..n]);
      SinglePools(pts[n]);
      assert pts[n..n + 1] == [pts[n]];
      blocks := Absorb(front, Block(pts[n].y, 1, pts[n].p, pts[n].y), pts, n);
    }
  }

  lemma {:induction false} Absorb(front: seq<Block>, b: Block, pts: seq<Point>, start: nat) returns (blocks: seq<Block>)
    requires start <= |pts| && b.count > 0
    requires Pooled(front, pts[..start]) && Pools(b, pts[start..|pts|]) && Increasing(front)
    ensures Pooled(blocks, pts) && Increasing(blocks)
    decreases |front|
  {
    hide Pooled, Pools, Merged, Increasing;
    if front != [] && front[|front| - 1].value >= b.value {
      var previous := front[|front| - 1];
      MergeTop(front, b, pts, start, |pts|);
      IncreasingFront(front);
      blocks := Absorb(front[..|front| - 1], Merged(previous, b), pts, start - previous.count);
    } else {
      PushBlock(front, b, pts, start, |pts|);
      blocks := front + [b];
      assert pts[..|pts|] == pts;
    }
  }

  /** The fit of the averages gives tied points one value. */
  lemma {:induction false} AveragedFitAgrees(blocks: seq<Block>, pts: seq<Point>)
    requires Pooled(blocks, Averaged(pts)) && Increasing(blocks)
    ensures |Fitted(blocks)| == |pts| && TiesAgree(pts, Fitted(blocks))
  {
    hide Pooled, Fitted, Surplus, Averaged;
    var flat := Averaged(pts);
    FittedLength(blocks, flat);
    forall i | 0 < i < |pts| && pts[i - 1].p == pts[i].p ensures Fitted(blocks)[i - 1] == Fitted(blocks)[i] {
      var s, t := AroundBoundary(blocks, flat, i);
      AveragedTies(pts, i);
      SingleMean(flat, i - 1);
      SingleMean(flat, i);
      FittedBounds(blocks);
      assert Mean(flat, i - 1, i) == Mean(flat, i, i + 1);
    }
  }

  lemma {:induction false} SingleMean(pts: seq<Point>, i: nat)
    requires i < |pts|
    ensures Mean(pts, i, i + 1) == pts[i].y
  {
    var one := pts[i..i + 1];
    assert one[..0] == [] && one == [pts[i]];
    assert SumY(one) == SumY(one[..0]) + pts[i].y;
  }

  /** The calibrator is best exactly when it answers the clamped fit of the averages. */
  lemma {:induction false} BestIsAveragedFit(blocks: seq<Block>, pts: seq<Point>, grouped: seq<Block>)
    requires Pooled(blocks, pts) && Increasing(blocks) && ByProbability(pts)
    requires Pooled(grouped, Averaged(pts)) && Increasing(grouped)
    ensures |Fitted(grouped)| == |pts|
    ensures BestCalibrator(blocks, pts) <==> CalibratedOn(blocks, pts) == Clamped(Fitted(grouped))
  {
    hide Pooled, Increasing, Fitted, Error, Averaged, Calibrate, Distance;
    var flat, h := Averaged(pts), CalibratedOn(blocks, pts);
    FitInRange(grouped, flat);
    AveragedFitAgrees(grouped, pts);
    var best := Clamped(Fitted(grouped));
    CalibratedValues(blocks, pts);
    AveragesDecide(pts, h);
    AveragesDecide(pts, best);
    ClampedFitIsOptimal(grouped, flat, h);
    DistancePositive(best, h);
    if h == best {
      forall g: real -> real | MonotoneInRange(g) ensures Error(pts, h) <= Error(pts, Values(g, pts)) {
        AveragesDecide(pts, Values(g, pts));
        ClampedFitIsOptimal(grouped, flat, Values(g, pts));
        DistancePositive(best, Values(g, pts));
      }
    }
    if BestCalibrator(blocks, pts) {
      var g := AveragedCalibrator(grouped, pts);
      assert Error(pts, h) <= Error(pts, Values(g, pts));
    }
  }

  /** The calibrator fitted to the averages: monotone, within the range, and their clamped fit. */
  lemma {:induction false} AveragedCalibrator(grouped: seq<Block>, pts: seq<Point>) returns (g: real -> real)
    requires ByProbability(pts) && Pooled(grouped, Averaged(pts)) && Increasing(grouped)
    ensures |Fitted(grouped)| == |pts|
    ensures MonotoneInRange(g) && Values(g, pts) == Clamped(Fitted(grouped))
  {
    hide Pooled, Increasing, Fitted, Averaged, Calibrate;
    g := p => Calibrate(grouped, p);
    forall p, q | p <= q ensures g(p) <= g(q) { CalibratorMonotoneAndBounded(grouped, p, q); }
    forall p ensures EPSILON <= g(p) <= 1.0 - EPSILON { CalibratorMonotoneAndBounded(grouped, p, p); }
    var flat := Averaged(pts);
    AveragedFitAgrees(grouped, pts);
    forall i | 0 <= i < |pts| ensures g(pts[i].p) == Clamp(Fitted(grouped)[i]) {
      CalibratorOnTraining(grouped, flat, i);
      TiedValue(flat, Fitted(grouped), i);
    }
  }

  /** What the calibrator answers at point `i`, in terms of the labels. */
  function LabelAnswer(pts: seq<Point>, i: nat): real
    requires i < |pts|
  {
    var j := FirstTied(pts, i);
    Clamp(MaxMin(pts, j, j))
  }

  /** The same from the averaged labels, where ties make no difference. */
  function AveragedAnswer(pts: seq<Point>, i: nat): real
    requires i < |pts|
  {
    Clamp(MaxMin(Averaged(pts), i, i))
  }

  /**
   * Exactly when the calibrator is the best monotone function of the probability: at every training
   * point the max-min mean of the labels, taken at the first point tied with it, must agree with the
   * max-min mean of the averaged labels, up to the clamp.
   */
  lemma {:induction false} CalibratorIsBest(blocks: seq<Block>, pts: seq<Point>)
    requires Pooled(blocks, pts) && Increasing(blocks) && ByProbability(pts)
    ensures BestCalibrator(blocks, pts)
       <==> forall i | 0 <= i < |pts| :: LabelAnswer(pts, i) == AveragedAnswer(pts, i)
  {
    var grouped := FitExists(Averaged(pts));
    hide Pooled, Increasing, Fitted, Clamp, MaxMin, CalibratedOn, BestCalibrator, Averaged, FirstTied;
    BestIsAveragedFit(blocks, pts, grouped);
    var h, best := CalibratedOn(blocks, pts), Clamped(Fitted(grouped));
    assert |h| == |best| by { CalibratedLength(blocks, pts); }
    forall i | 0 <= i < |pts| ensures h[i] == LabelAnswer(pts, i) && best[i] == AveragedAnswer(pts, i) {
      AnswersAt(blocks, pts, grouped, i);
    }
    hide LabelAnswer, AveragedAnswer;
  }

  lemma {:induction false} CalibratedLength(blocks: seq<Block>, pts: seq<Point>)
    ensures |CalibratedOn(blocks, pts)| == |pts|
  {
  }

  lemma {:induction false} AnswersAt(blocks: seq<Block>, pts: seq<Point>, grouped: seq<Block>, i: nat)
    requires Pooled(blocks, pts) && Increasing(blocks) && ByProbability(pts) && i < |pts|
    requires Pooled(grouped, Averaged(pts)) && Increasing(grouped)
    ensures |CalibratedOn(blocks, pts)| == |Clamped(Fitted(grouped))| == |pts|
    ensures CalibratedOn(blocks, pts)[i] == LabelAnswer(pts, i)
    ensures Clamped(Fitted(grouped))[i] == AveragedAnswer(pts, i)
  {
    hide Pooled, Increasing, Fitted, Clamp, MaxMin, Calibrate, Averaged;
    CalibratorOnTraining(blocks, pts, i);
    FitIsMaxMin(blocks, pts, FirstTied(pts, i));
    FitIsMaxMin(grouped, Averaged(pts), i);
  }

  /** If no tie is separated, no monotone function within the range does better than the calibrator. */
  lemma {:induction false} UnseparatedIsBest(blocks: seq<Block>, pts: seq<Point>)
    requires Pooled(blocks, pts) && Increasing(blocks) && ByProbability(pts) && NoTieSeparated(pts)
    ensures BestCalibrator(blocks, pts)
  {
    hide Pooled, Increasing, NoTieSeparated, Error;
    CalibratorAttainsOptimum(blocks, pts);
    CalibratedLength(blocks, pts);
    forall g: real -> real | MonotoneInRange(g)
      ensures Error(pts, CalibratedOn(blocks, pts)) <= Error(pts, Values(g, pts))
    {
      assert NonDecreasing(Values(g, pts)) && InRange(Values(g, pts));
    }
  }

  /** No run of equal probabilities ends or begins inside the stretch up to `k`. */
  predicate Boundary(pts: seq<Point>, k: nat)
    requires k <= |pts|
  {
    k == 0 || k == |pts| || pts[k - 1].p != pts[k].p
  }

  /** The points from `s` up to `t` are one run of equal probabilities. */
  ghost predicate IsRun(pts: seq<Point>, s: nat, t: nat)
    requires s < t <= |pts|
  {
    && Boundary(pts, s) && Boundary(pts, t)
    && forall k | s <= k < t :: pts[k].p == pts[s].p
  }

  /** Every run that has a label above the lower clamp also has its mean above it. */
  ghost predicate OrdinaryRuns(pts: seq<Point>) {
    forall s, t, k | 0 <= s <= k < t <= |pts| && IsRun(pts, s, t) && pts[k].y > EPSILON :: Mean(pts, s, t) > EPSILON
  }

  lemma {:induction false} AveragedSums(pts: seq<Point>, k: nat, v: real)
    requires k <= |pts| && Boundary(pts, k)
    ensures Surplus(Averaged(pts)[..k], v) == Surplus(pts[..k], v)
  {
    if k == 0 {
      assert Averaged(pts)[..0] == [] && pts[..0] == [];
    } else {
      hide Surplus, Mean, FirstTied;
      var j := FirstTied(pts, |pts| - 1);
      AveragedFront(pts, j);
      hide Averaged;
      if k <= j {
        AveragedSums(pts[..j], k, v);
        assert pts[..j][..k] == pts[..k] && Averaged(pts)[..k] == Averaged(pts[..j])[..k];
      } else {
        AveragedSums(pts[..j], j, v);
        assert pts[..j][..j] == pts[..j] && Averaged(pts[..j])[..j] == Averaged(pts[..j]);
        assert k == |pts|;
        AveragedTotal(pts, j, v);
        assert pts[..k] == pts && Averaged(pts)[..k] == Averaged(pts);
      }
    }
  }

  lemma {:induction false} AveragedFront(pts: seq<Point>, j: nat)
    requires pts != [] && j == FirstTied(pts, |pts| - 1)
    ensures Averaged(pts) == Averaged(pts[..j]) + Flat(|pts| - j, pts[|pts| - 1].p, Mean(pts, j, |pts|))
    ensures Averaged(pts)[..j] == Averaged(pts[..j])
  {
  }

  lemma {:induction false} RunBalance(pts: seq<Point>, j: nat)
    requires j < |pts|
    ensures Surplus(pts[j..], Mean(pts, j, |pts|)) == 0.0
  {
    hide Mean, Surplus;
    MeanSide(pts, j, |pts|, 0.0);
    assert pts[j..|pts|] == pts[j..];
  }

  /** A front with the same surplus, followed by the run or by its mean, has the same surplus. */
  lemma {:induction false} TotalJoins(pts: seq<Point>, j: nat, front: seq<Point>, all: seq<Point>, v: real)
    requires j < |pts| && Surplus(front, v) == Surplus(pts[..j], v)
    requires Surplus(pts[j..], Mean(pts, j, |pts|)) == 0.0
    requires all == front + Flat(|pts| - j, pts[|pts| - 1].p, Mean(pts, j, |pts|))
    ensures Surplus(all, v) == Surplus(pts, v)
  {
    hide *;
    var run, m := pts[j..], Mean(pts, j, |pts|);
    FlatRun(run, pts[|pts| - 1].p, m, v);
    SumsJoin(pts[..j], run, front, Flat(|run|, pts[|pts| - 1].p, m), v);
    assert pts == pts[..j] + run;
  }

  lemma {:induction false} AveragedTotal(pts: seq<Point>, j: nat, v: real)
    requires pts != [] && j == FirstTied(pts, |pts| - 1)
    requires Surplus(Averaged(pts[..j]), v) == Surplus(pts[..j], v)
    ensures Surplus(Averaged(pts), v) == Surplus(pts, v)
  {
    hide *;
    AveragedFront(pts, j);
    RunBalance(pts, j);
    TotalJoins(pts, j, Averaged(pts[..j]), Averaged(pts), v);
  }

  lemma {:induction false} SumsJoin(a: seq<Point>, b: seq<Point>, a': seq<Point>, b': seq<Point>, v: real)
    requires Surplus(a, v) == Surplus(a', v) && Surplus(b, v) == Surplus(b', v)
    ensures Surplus(a + b, v) == Surplus(a' + b', v)
  {
    hide *;
    SumConcat(a, b, v);
    SumConcat(a', b', v);
  }

  /** A run and its mean, repeated, exceed every value by the same total. */
  lemma {:induction false} FlatRun(run: seq<Point>, p: real, m: real, v: real)
    requires Surplus(run, m) == 0.0
    ensures Surplus(Flat(|run|, p, m), v) == Surplus(run, v)
  {
    hide *;
    SurplusOfSum(run, m);
    SurplusOfSum(run, v);
    SurplusOfFlat(|run|, p, m, v);
  }

  lemma {:induction false} SurplusOfFlat(n: nat, p: real, m: real, v: real)
    ensures Surplus(Flat(n, p, m), v) == n as real * m - n as real * v
  {
    if n > 0 {
      SurplusOfFlat(n - 1, p, m, v);
      assert Flat(n, p, m)[..n - 1] == Flat(n - 1, p, m);
      Distribute(n as real - 1.0, m);
      Distribute(n as real - 1.0, v);
    }
  }

  /** Stretches of whole runs have the same mean in the averages. */
  lemma {:induction false} AveragedMeans(pts: seq<Point>, s: nat, t: nat, v: real)
    requires s < t <= |pts| && Boundary(pts, s) && Boundary(pts, t)
    ensures Mean(Averaged(pts), s, t) <= v <==> Mean(pts, s, t) <= v
  {
    hide Surplus, Averaged, Mean;
    var flat := Averaged(pts);
    AveragedSums(pts, s, v);
    AveragedSums(pts, t, v);
    assert pts[..t] == pts[..s] + pts[s..t] && flat[..t] == flat[..s] + flat[s..t];
    SumConcat(pts[..s], pts[s..t], v);
    SumConcat(flat[..s], flat[s..t], v);
    MeanSide(pts, s, t, v);
    MeanSide(flat, s, t, v);
  }

  /** Where the calibrator is best, stretches of whole runs that end with a split run average at most its answer. */
  lemma {:induction false} RunCapped(blocks: seq<Block>, pts: seq<Point>, i: nat, s: nat, e: nat)
    requires Pooled(blocks, pts) && Increasing(blocks) && ByProbability(pts) && BestCalibrator(blocks, pts)
    requires |Fitted(blocks)| == |pts| && 0 <= s <= i < e <= |pts| && Boundary(pts, s) && Boundary(pts, e)
    requires FirstTied(pts, e - 1) <= i
    requires Clamp(Fitted(blocks)[FirstTied(pts, i)]) < Clamp(Fitted(blocks)[i])
    ensures Mean(pts, s, e) <= Clamp(Fitted(blocks)[FirstTied(pts, i)])
  {
    hide *;
    var flat := Averaged(pts);
    var grouped := FitExists(flat);
    RunEnd(blocks, pts, grouped, i, e);
    var a, end := Saddle(grouped, flat, e - 1);
    assert end == e;
    var c := Clamp(Fitted(blocks)[FirstTied(pts, i)]);
    AveragedMeans(pts, s, e, c);
    MeanSide(flat, s, e, Fitted(grouped)[e - 1]);
  }

  lemma {:induction false} RunEnd(blocks: seq<Block>, pts: seq<Point>, grouped: seq<Block>, i: nat, e: nat)
    requires Pooled(blocks, pts) && Increasing(blocks) && ByProbability(pts) && BestCalibrator(blocks, pts)
    requires Pooled(grouped, Averaged(pts)) && Increasing(grouped)
    requires |Fitted(blocks)| == |pts| && i < e <= |pts| && Boundary(pts, e) && FirstTied(pts, e - 1) <= i
    requires Clamp(Fitted(blocks)[FirstTied(pts, i)]) < Clamp(Fitted(blocks)[i])
    ensures |Fitted(grouped)| == |pts|
    ensures Fitted(grouped)[e - 1] <= Clamp(Fitted(blocks)[FirstTied(pts, i)])
    ensures e < |pts| ==> Fitted(grouped)[e - 1] < Fitted(grouped)[e]
  {
    hide Pooled, Increasing, BestCalibrator, Calibrate, Fitted, Averaged, Boundary, ByProbability;
    BestIsAveragedFit(blocks, pts, grouped);
    SameFirst(pts, i, e - 1);
    CalibratorOnTraining(blocks, pts, e - 1);
    assert Clamp(Fitted(grouped)[e - 1]) == CalibratedOn(blocks, pts)[e - 1];
    if e < |pts| { NextRun(blocks, pts, grouped, i, e); }
  }

  lemma {:induction false} NextRun(blocks: seq<Block>, pts: seq<Point>, grouped: seq<Block>, i: nat, e: nat)
    requires Pooled(blocks, pts) && Increasing(blocks) && ByProbability(pts)
    requires |Fitted(blocks)| == |Fitted(grouped)| == |pts| && i < e < |pts| && Boundary(pts, e)
    requires CalibratedOn(blocks, pts) == Clamped(Fitted(grouped))
    ensures Clamp(Fitted(grouped)[e]) >= Clamp(Fitted(blocks)[i])
  {
    hide Pooled, Increasing, Fitted, Calibrate;
    FittedBounds(blocks);
    CalibratorOnTraining(blocks, pts, e);
    assert Clamp(Fitted(grouped)[e]) == CalibratedOn(blocks, pts)[e];
  }

  lemma {:induction false} SameFirst(pts: seq<Point>, i: nat, k: nat)
    requires i <= k < |pts| && FirstTied(pts, k) <= i
    ensures FirstTied(pts, k) == FirstTied(pts, i)
  {
  }

  /** The first boundary inside a run that separates the labels. */
  ghost predicate FirstSeparated(pts: seq<Point>, i: nat) {
    && 0 < i < |pts| && pts[i - 1].p == pts[i].p && Separated(pts, i)
    && forall k | 0 < k < i && pts[k - 1].p == pts[k].p :: !Separated(pts, k)
  }

  lemma {:induction false} FindSeparated(pts: seq<Point>, n: nat) returns (i: nat)
    requires n <= |pts|
    requires exists k | 0 < k < n :: pts[k - 1].p == pts[k].p && Separated(pts, k)
    ensures FirstSeparated(pts, i)
  {
    hide Separated;
    if m :| 0 < m < n - 1 && pts[m - 1].p == pts[m].p && Separated(pts, m) {
      i := FindSeparated(pts, n - 1);
    } else {
      i := n - 1;
    }
  }

  /** Up to the first such boundary the clamped fit agrees on ties. */
  lemma {:induction false} FlatBefore(blocks: seq<Block>, pts: seq<Point>, i: nat, k: nat)
    requires Pooled(blocks, pts) && Increasing(blocks) && FirstSeparated(pts, i) && k < i
    ensures |Fitted(blocks)| == |pts|
    ensures Clamp(Fitted(blocks)[k]) == Clamp(Fitted(blocks)[FirstTied(pts, k)])
  {
    hide Pooled, Increasing, Fitted, Separated, Clamp;
    FittedLength(blocks, pts);
    if k > 0 && pts[k - 1].p == pts[k].p {
      FlatBefore(blocks, pts, i, k - 1);
      SeparatedIffStep(blocks, pts, k);
      ClampedGrows(blocks, pts, k);
    }
  }

  lemma {:induction false} ClampedGrows(blocks: seq<Block>, pts: seq<Point>, k: nat)
    requires Pooled(blocks, pts) && Increasing(blocks) && 0 < k < |pts|
    ensures |Fitted(blocks)| == |pts|
    ensures Clamp(Fitted(blocks)[k - 1]) <= Clamp(Fitted(blocks)[k])
  {
    FittedLength(blocks, pts);
    FittedBounds(blocks);
  }

  /** The end of the run of equal probabilities that point `i` is in. */
  function RunEndOf(pts: seq<Point>, i: nat): (e: nat)
    requires i < |pts|
    ensures i < e <= |pts| && Boundary(pts, e) && FirstTied(pts, e - 1) == FirstTied(pts, i)
    decreases |pts| - i
  {
    if i + 1 < |pts| && pts[i].p == pts[i + 1].p then RunEndOf(pts, i + 1) else i + 1
  }

  /** Above the lower clamp: the block before the boundary starts with a run, and the rest of the run exceeds it. */
  lemma {:induction false} BlockLifts(blocks: seq<Block>, pts: seq<Point>, i: nat, e: nat) returns (a: nat)
    requires Pooled(blocks, pts) && Increasing(blocks) && FirstSeparated(pts, i) && i < e <= |pts|
    requires |Fitted(blocks)| == |pts| && Fitted(blocks)[i - 1] > EPSILON
    ensures a < i && Boundary(pts, a) && Mean(pts, a, e) > Clamp(Fitted(blocks)[i - 1])
  {
    hide Pooled, Increasing, Fitted, Separated, Surplus, Mean;
    var v, w := Fitted(blocks)[i - 1], Fitted(blocks)[i];
    SeparatedIffStep(blocks, pts, i);
    var left, right, end;
    a, left := Saddle(blocks, pts, i - 1);
    right, end := Saddle(blocks, pts, i);
    assert left == i && right == i;
    if a > 0 && pts[a - 1].p == pts[a].p { SeparatedIffStep(blocks, pts, a); }
    assert pts[a..i] + pts[i..e] == pts[a..e];
    SumConcat(pts[a..i], pts[i..e], v);
    SurplusMonotone(pts[i..e], v, w);
    assert Surplus(pts[a..e], v) > 0.0;
    MeanSide(pts, a, e, v);
  }

  /** The label at a boundary above the lower clamp lies above it too. */
  lemma {:induction false} BoundaryLabel(blocks: seq<Block>, pts: seq<Point>, i: nat)
    requires Pooled(blocks, pts) && Increasing(blocks) && 0 < i < |pts| && Separated(pts, i)
    ensures pts[i].y > EPSILON
  {
    hide Pooled, Increasing, Fitted, Separated, Surplus, Mean;
    SeparatedIffStep(blocks, pts, i);
    var a, e := Saddle(blocks, pts, i);
    assert a == i;
    MeanSide(pts, i, i + 1, Fitted(blocks)[i]);
    SingleMean(pts, i);
  }

  /** On ordinary runs a separated tie costs the calibrator its optimality. */
  lemma {:induction false} SeparatedLoses(blocks: seq<Block>, pts: seq<Point>, i: nat)
    requires Pooled(blocks, pts) && Increasing(blocks) && ByProbability(pts) && OrdinaryRuns(pts)
    requires FirstSeparated(pts, i)
    ensures !BestCalibrator(blocks, pts)
  {
    var a, e, c := LiftedStretch(blocks, pts, i);
    hide *;
    if BestCalibrator(blocks, pts) { RunCapped(blocks, pts, i, a, e); }
  }

  /** Whole runs up to a separated one that together average above what the calibrator answers there. */
  lemma {:induction false} LiftedStretch(blocks: seq<Block>, pts: seq<Point>, i: nat) returns (a: nat, e: nat, c: real)
    requires Pooled(blocks, pts) && Increasing(blocks) && ByProbability(pts) && OrdinaryRuns(pts)
    requires FirstSeparated(pts, i)
    ensures |Fitted(blocks)| == |pts| && a <= i < e <= |pts| && Boundary(pts, a) && Boundary(pts, e)
    ensures FirstTied(pts, e - 1) <= i && c == Clamp(Fitted(blocks)[FirstTied(pts, i)]) < Clamp(Fitted(blocks)[i])
    ensures Mean(pts, a, e) > c
  {
    hide Pooled, Increasing, Fitted, Separated, Mean, OrdinaryRuns, ByProbability;
    SeparatedIffStep(blocks, pts, i);
    FlatBefore(blocks, pts, i, i - 1);
    a, e := FirstTied(pts, i), RunEndOf(pts, i);
    c := Clamp(Fitted(blocks)[a]);
    if Fitted(blocks)[i - 1] > EPSILON {
      a := BlockLifts(blocks, pts, i, e);
    } else {
      OrdinaryLift(blocks, pts, i, a, e);
    }
  }

  /** At the lower clamp it is the run itself that averages more. */
  lemma {:induction false} OrdinaryLift(blocks: seq<Block>, pts: seq<Point>, i: nat, a: nat, e: nat)
    requires Pooled(blocks, pts) && Increasing(blocks) && OrdinaryRuns(pts) && FirstSeparated(pts, i)
    requires a == FirstTied(pts, i) && i < e <= |pts| && Boundary(pts, e) && FirstTied(pts, e - 1) == a
    ensures Mean(pts, a, e) > EPSILON
  {
    hide Pooled, Increasing, Separated, Mean;
    BoundaryLabel(blocks, pts, i);
    assert IsRun(pts, a, e);
  }

  /**
   * On data without a run that mixes labels and yet averages at most a millionth, the calibrator is
   * the best monotone function of the probability exactly when no tie is separated.
   */
  lemma {:induction false} OrdinaryCalibratorIsBest(blocks: seq<Block>, pts: seq<Point>)
    requires Pooled(blocks, pts) && Increasing(blocks) && ByProbability(pts) && OrdinaryRuns(pts)
    ensures BestCalibrator(blocks, pts) <==> NoTieSeparated(pts)
  {
    hide Pooled, Increasing, OrdinaryRuns, Separated, BestCalibrator;
    if NoTieSeparated(pts) {
      UnseparatedIsBest(blocks, pts);
    } else {
      var i := FindSeparated(pts, |pts|);
      SeparatedLoses(blocks, pts, i);
    }
  }

  /** Labels 0 and 1 with fewer than a million points at any one probability are such data. */
  lemma {:induction false} BinaryRunsAreOrdinary(pts: seq<Point>)
    requires forall i | 0 <= i < |pts| :: pts[i].y == 0.0 || pts[i].y == 1.0
    requires forall s, t | 0 <= s < t <= |pts| && IsRun(pts, s, t) :: t - s < 1000000
    ensures OrdinaryRuns(pts)
  {
    forall s, t, k | 0 <= s <= k < t <= |pts| && IsRun(pts, s, t) && pts[k].y > EPSILON
      ensures Mean(pts, s, t) > EPSILON
    {
      PositiveSum(pts[s..t], k - s);
      Share(SumY(pts[s..t]), (t - s) as real);
    }
  }

  lemma {:induction false} PositiveSum(pts: seq<Point>, k: nat)
    requires forall i | 0 <= i < |pts| :: pts[i].y == 0.0 || pts[i].y == 1.0
    ensures SumY(pts) >= 0.0
    ensures k < |pts| && pts[k].y == 1.0 ==> SumY(pts) >= 1.0
  {
    if pts != [] {
      PositiveSum(pts[..|pts| - 1], k);
      assert forall i | 0 <= i < |pts| - 1 :: pts[..|pts| - 1][i] == pts[i];
    }
  }

  lemma {:induction false} Share(sum: real, n: real)
    requires sum >= 1.0 && 0.0 < n < 1000000.0
    ensures sum / n > EPSILON
  {
    assert EPSILON * n < 1.0;
    assert EPSILON * n / n == EPSILON;
  }

  /** The fit of two tied points with labels 0 and 1 keeps two blocks. */
  lemma {:induction false} TiedFit(a: Point, b: Point, x: Block, y: Block)
    requires a.p == b.p && a.y < b.y
    requires x == Block(a.y, 1, a.p, a.y) && y == Block(b.y, 1, b.p, b.y)
    ensures Pooled([x, y], [a, b]) && Increasing([x, y]) && ByProbability([a, b])
  {
    SinglePools(a);
    SinglePools(b);
    hide Pools;
    assert [a, b][1..] == [b] && [a, b][..1] == [a] && [a][0..] == [a] && [a][..0] == [];
    assert [x, y][..1] == [x] && [x][..0] == [];
    assert Pooled([], []);
    assert Pooled([x], [a]);
  }

  /**
   * Two tied points with labels 0 and 1: the fit keeps two blocks, the calibrator answers the lower
   * clamp for both, and the constant 1/2 has a smaller error.
   */
  lemma {:induction false} TiedProbabilitiesLoseOptimality()
    ensures
      var pts := [Point(0.5, 0.0), Point(0.5, 1.0)];
      var blocks := [Block(0.0, 1, 0.5, 0.0), Block(1.0, 1, 0.5, 1.0)];
      && Pooled(blocks, pts) && Increasing(blocks) && ByProbability(pts)
      && Error(pts, CalibratedOn(blocks, pts)) > Error(pts, [0.5, 0.5])
  {
    var a, b := Point(0.5, 0.0), Point(0.5, 1.0);
    var x, y := Block(0.0, 1, 0.5, 0.0), Block(1.0, 1, 0.5, 1.0);
    TiedFit(a, b, x, y);
    hide Pooled, Increasing, ByProbability, Error;
    assert BlockFor([x, y], 0.5) == 0;
    assert CalibratedOn([x, y], [a, b]) == [EPSILON, EPSILON];
    TwoPointError(a, b, EPSILON, EPSILON);
    TwoPointError(a, b, 0.5, 0.5);
  }

  lemma {:induction false} TwoPointError(a: Point, b: Point, f: real, g: real)
    ensures Error([a, b], [f, g]) == Square(a.y - f) + Square(b.y - g)
  {
    assert [a, b][..1] == [a] && [f, g][..1] == [f];
    assert [a][..0] == [] && [f][..0] == [];
    assert Error([a], [f]) == Square(a.y - f);
  }
}
