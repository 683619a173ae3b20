/**
 * Isotonic calibration by pool-adjacent-violators (backend/src/models/calibration.ts).
 *
 * `FitBlocks` keeps the source's stack of blocks.  Its result is specified by `Pooled` and
 * `Increasing`; the lemmas show that these two facts make the fit THE least-squares
 * non-decreasing fit, and say exactly what the returned calibrator computes.
 */
module Calibration {
  import opened Sorting

  datatype Point = Point(p: real, y: real)
  datatype Block = Block(sumY: real, count: nat, maxP: real, value: real)

  const EPSILON := 0.000001

  function Clamp(value: real): real {
    if value < EPSILON then EPSILON
    else if value > 1.0 - EPSILON then 1.0 - EPSILON
    else value
  }

  // ---------------------------------------------------------------- specification

  function SumY(pts: seq<Point>): real {
    if pts == [] then 0.0 else SumY(pts[..|pts| - 1]) + pts[|pts| - 1].y
  }

  function Square(x: real): real { x * x }

  /** Squared error of the values `f` on the labels of `pts`. */
  function Error(pts: seq<Point>, f: seq<real>): real
    requires |f| == |pts|
  {
    if pts == [] then 0.0
    else Error(pts[..|pts| - 1], f[..|pts| - 1]) + Square(pts[|pts| - 1].y - f[|pts| - 1])
  }

  /** Squared distance of two sequences of values. */
  function Distance(f: seq<real>, g: seq<real>): real
    requires |f| == |g|
  {
    if f == [] then 0.0
    else Distance(f[..|f| - 1], g[..|f| - 1]) + Square(f[|f| - 1] - g[|f| - 1])
  }

  ghost predicate NonDecreasing(f: seq<real>) {
    forall i, j | 0 <= i < j < |f| :: f[i] <= f[j]
  }

  ghost predicate Increasing(blocks: seq<Block>) {
    forall i, j | 0 <= i < j < |blocks| :: blocks[i].value < blocks[j].value
  }

  ghost predicate ByProbability(pts: seq<Point>) {
    forall i, j | 0 <= i < j < |pts| :: pts[i].p <= pts[j].p
  }

  /** By how much the labels of `pts` exceed `v`, in total. */
  function Surplus(pts: seq<Point>, v: real): real {
    if pts == [] then 0.0 else Surplus(pts[..|pts| - 1], v) + (pts[|pts| - 1].y - v)
  }

  /** `b` pools exactly `pts`: it holds their mean, and no prefix of them has a smaller mean. */
  ghost predicate Pools(b: Block, pts: seq<Point>) {
    && b.count == |pts| > 0
    && b.sumY == SumY(pts)
    && Surplus(pts, b.value) == 0.0
    && b.maxP == pts[|pts| - 1].p
    && forall k | 0 <= k <= |pts| :: Surplus(pts[..k], b.value) >= 0.0
  }

  /** The blocks cut `pts` into contiguous pieces, each pooled by its block. */
  ghost predicate Pooled(blocks: seq<Block>, pts: seq<Point>) {
    if blocks == [] then pts == []
    else
      var b := blocks[|blocks| - 1];
      && b.count <= |pts|
      && Pools(b, pts[|pts| - b.count..])
      && Pooled(blocks[..|blocks| - 1], pts[..|pts| - b.count])
  }

  function Constant(n: nat, v: real): (f: seq<real>)
    ensures |f| == n
  {
    seq(n, _ => v)
  }

  /** The value the blocks give to every training point, in order. */
  function Fitted(blocks: seq<Block>): seq<real> {
    if blocks == [] then []
    else
      var b := blocks[|blocks| - 1];
      Fitted(blocks[..|blocks| - 1]) + Constant(b.count, b.value)
  }

  // ---------------------------------------------------------------- the algorithm

  /** `<=` on probabilities, the comparator of the source's sort. */
  const BY_P: (Point, Point) -> bool := (a: Point, b: Point) => a.p <= b.p

  /** The block that replaces two adjacent ones. */
  function Merged(previous: Block, block: Block): (b: Block)
    requires block.count > 0
    ensures b.count == previous.count + block.count
  {
    var sumY := previous.sumY + block.sumY;
    var count := previous.count + block.count;
    Block(sumY, count, block.maxP, sumY / count as real)
  }

  method FitBlocks(sorted: seq<Point>) returns (blocks: seq<Block>)
    ensures Pooled(blocks, sorted)
    ensures Increasing(blocks)
  {
    blocks := [];
    assert Pooled(blocks, sorted[..0]);
    hide Pooled, Pools, Surplus, SumY, Merged, Increasing;
    for i := 0 to |sorted|
      invariant Pooled(blocks, sorted[..i])
      invariant Increasing(blocks)
    {
      var point := sorted[i];
      var block := Block(point.y, 1, point.p, point.y);
      ghost var start := i;
      SinglePools(point);
      assert sorted[i..i + 1] == [point];
      while |blocks| > 0 && blocks[|blocks| - 1].value >= block.value
        invariant 0 <= start <= i && block.count > 0
        invariant Pools(block, sorted[start..i + 1])
        invariant Pooled(blocks, sorted[..start])
        invariant Increasing(blocks)
        decreases |blocks|
      {
        var previous := blocks[|blocks| - 1];
        MergeTop(blocks, block, sorted, start, i + 1);
        IncreasingFront(blocks);
        blocks := blocks[..|blocks| - 1];
        block := Merged(previous, block);
        start := start - previous.count;
      }
      PushBlock(blocks, block, sorted, start, i + 1);
      blocks := blocks + [block];
    }
    assert sorted[..|sorted|] == sorted;
  }

  function PairUp(probabilities: seq<real>, labels: seq<real>): seq<Point>
    requires |probabilities| == |labels|
  {
    seq(|probabilities|, i requires 0 <= i < |probabilities| => Point(probabilities[i], labels[i]))
  }

  function Training(probabilities: seq<real>, labels: seq<real>): seq<Point>
    requires |probabilities| == |labels|
  {
    StableSort(PairUp(probabilities, labels), BY_P)
  }

  method FitIsotonic(probabilities: seq<real>, labels: seq<real>) returns (blocks: seq<Block>)
    requires |probabilities| == |labels|
    ensures Pooled(blocks, Training(probabilities, labels))
    ensures Increasing(blocks)
    ensures ByProbability(Training(probabilities, labels))
  {
    SortIsSorted(PairUp(probabilities, labels), BY_P);
    blocks := FitBlocks(Training(probabilities, labels));
  }

  /** Index of the first block whose maxP reaches `p`, or of the last block. */
  function BlockFor(blocks: seq<Block>, p: real): (k: nat)
    requires blocks != []
    ensures k < |blocks|
    ensures forall j | 0 <= j < k :: blocks[j].maxP < p
    ensures p <= blocks[k].maxP || k == |blocks| - 1
  {
    if p <= blocks[0].maxP || |blocks| == 1 then 0
    else
      var k := BlockFor(blocks[1..], p);
      assert forall j | 1 <= j < k + 1 :: blocks[j] == blocks[1..][j - 1];
      k + 1
  }

  /** The calibrator returned by `fitIsotonic`, before and after clamping. */
  function Uncalibrated(blocks: seq<Block>, p: real): real {
    if blocks == [] then p else blocks[BlockFor(blocks, p)].value
  }

  function Calibrate(blocks: seq<Block>, p: real): real {
    Clamp(Uncalibrated(blocks, p))
  }

  // ---------------------------------------------------------------- pooling

  lemma {:induction false} SinglePools(point: Point)
    ensures Pools(Block(point.y, 1, point.p, point.y), [point])
  {
    assert [point][..1] == [point] && [point][..0] == [];
    assert SumY([point][..0]) == 0.0 && Surplus([point][..0], point.y) == 0.0;
    assert SumY([point]) == point.y && Surplus([point], point.y) == 0.0;
  }

  lemma {:induction false} SumConcat(a: seq<Point>, b: seq<Point>, v: real)
    ensures SumY(a + b) == SumY(a) + SumY(b)
    ensures Surplus(a + b, v) == Surplus(a, v) + Surplus(b, v)
  {
    if b == [] {
      assert a + b == a;
    } else {
      SumConcat(a, b[..|b| - 1], v);
      assert (a + b)[..|a + b| - 1] == a + b[..|b| - 1];
    }
  }

  lemma {:induction false} SurplusMonotone(pts: seq<Point>, v: real, w: real)
    requires v <= w
    ensures Surplus(pts, w) <= Surplus(pts, v)
    ensures v < w && pts != [] ==> Surplus(pts, w) < Surplus(pts, v)
  {
    if pts != [] { SurplusMonotone(pts[..|pts| - 1], v, w); }
  }

  lemma {:induction false} SurplusOfSum(pts: seq<Point>, v: real)
    ensures Surplus(pts, v) == SumY(pts) - |pts| as real * v
  {
    if pts != [] {
      SurplusOfSum(pts[..|pts| - 1], v);
      Distribute(|pts| as real - 1.0, v);
    }
  }

  lemma {:induction false} Distribute(n: real, v: real)
    ensures (n + 1.0) * v == n * v + v
  {
  }

  lemma {:induction false} DivideBack(x: real, n: real)
    requires n > 0.0
    ensures n * (x / n) == x
  {
  }

  /** The value of a block is the mean of the labels it pools. */
  lemma {:induction false} BlockValueIsMean(b: Block, pts: seq<Point>)
    requires Pools(b, pts)
    ensures b.value == SumY(pts) / |pts| as real
  {
    SurplusOfSum(pts, b.value);
    DivideBack(SumY(pts), |pts| as real);
    SameProduct(|pts| as real, b.value, SumY(pts) / |pts| as real);
  }

  lemma {:induction false} SameProduct(n: real, x: real, y: real)
    requires n > 0.0 && n * x == n * y
    ensures x == y
  {
    assert n * (x - y) == 0.0;
  }

  lemma {:induction false} MergedMean(a: Block, left: seq<Point>, b: Block, right: seq<Point>, v: real)
    requires Pools(a, left) && Pools(b, right)
    requires v == (a.sumY + b.sumY) / (a.count + b.count) as real
    ensures Surplus(left + right, v) == 0.0
  {
    SumConcat(left, right, v);
    SurplusOfSum(left + right, v);
    DivideBack(a.sumY + b.sumY, (a.count + b.count) as real);
  }

  /** Replacing two adjacent blocks out of order by their common mean keeps the prefix property. */
  lemma {:induction false} MergePools(a: Block, left: seq<Point>, b: Block, right: seq<Point>, merged: Block)
    requires Pools(a, left) && Pools(b, right) && a.value >= b.value
    requires merged.sumY == a.sumY + b.sumY && merged.count == a.count + b.count && merged.maxP == b.maxP
    requires Surplus(left + right, merged.value) == 0.0
    ensures Pools(merged, left + right)
  {
    var v := merged.value;
    SumConcat(left, right, v);
    MeanBetween(a, left, b, right, v);
    forall k | 0 <= k <= |left + right| ensures Surplus((left + right)[..k], v) >= 0.0 {
      if k <= |left| {
        assert (left + right)[..k] == left[..k];
        SurplusMonotone(left[..k], v, a.value);
      } else {
        // What the prefix leaves out of `right` has a mean of at most b.value <= v.
        var j := k - |left|;
        assert (left + right)[..k] == left + right[..j] && right[..j] + right[j..] == right;
        SumConcat(left, right[..j], v);
        SumConcat(right[..j], right[j..], b.value);
        SumConcat(right[..j], right[j..], v);
        SurplusMonotone(right[j..], b.value, v);
      }
    }
  }

  lemma {:induction false} TopOfStack(blocks: seq<Block>, pts: seq<Point>, start: nat)
    requires blocks != [] && start <= |pts| && Pooled(blocks, pts[..start])
    ensures blocks[|blocks| - 1].count <= start
    ensures
      var cut := start - blocks[|blocks| - 1].count;
      Pools(blocks[|blocks| - 1], pts[cut..start]) && Pooled(blocks[..|blocks| - 1], pts[..cut])
  {
    var cut := start - blocks[|blocks| - 1].count;
    assert pts[..start][cut..] == pts[cut..start] && pts[..start][..cut] == pts[..cut];
  }

  /** One turn of the inner loop: the top of the stack joins the block under construction. */
  lemma {:induction false} MergeTop(blocks: seq<Block>, b: Block, pts: seq<Point>, start: nat, end: nat)
    requires blocks != [] && start <= end <= |pts| && b.count > 0
    requires Pooled(blocks, pts[..start]) && Pools(b, pts[start..end])
    requires blocks[|blocks| - 1].value >= b.value
    ensures blocks[|blocks| - 1].count <= start
    ensures
      var previous := blocks[|blocks| - 1];
      var cut := start - previous.count;
      Pools(Merged(previous, b), pts[cut..end]) && Pooled(blocks[..|blocks| - 1], pts[..cut])
  {
    hide Surplus, SumY;
    var previous := blocks[|blocks| - 1];
    TopOfStack(blocks, pts, start);
    var left, right := pts[start - previous.count..start], pts[start..end];
    MergedMean(previous, left, b, right, Merged(previous, b).value);
    MergePools(previous, left, b, right, Merged(previous, b));
    assert left + right == pts[start - previous.count..end];
  }

  lemma {:induction false} IncreasingFront(blocks: seq<Block>)
    requires Increasing(blocks) && blocks != []
    ensures Increasing(blocks[..|blocks| - 1])
  {
  }

  lemma {:induction false} PushBlock(blocks: seq<Block>, b: Block, pts: seq<Point>, start: nat, end: nat)
    requires start <= end <= |pts|
    requires Pooled(blocks, pts[..start]) && Pools(b, pts[start..end])
    requires Increasing(blocks) && (blocks == [] || blocks[|blocks| - 1].value < b.value)
    ensures Pooled(blocks + [b], pts[..end]) && Increasing(blocks + [b])
  {
    assert pts[..end][start..] == pts[start..end] && pts[..end][..start] == pts[..start];
    assert (blocks + [b])[..|blocks|] == blocks;
  }

  lemma {:induction false} MeanBetween(a: Block, left: seq<Point>, b: Block, right: seq<Point>, v: real)
    requires Pools(a, left) && Pools(b, right) && a.value >= b.value
    requires Surplus(left, v) + Surplus(right, v) == 0.0
    ensures b.value <= v <= a.value
  {
    if v < b.value {
      SurplusMonotone(left, v, a.value);
      SurplusMonotone(right, v, b.value);
    } else if v > a.value {
      SurplusMonotone(left, a.value, v);
      SurplusMonotone(right, b.value, v);
    }
  }

  // ---------------------------------------------------------------- optimality

  lemma {:induction false} FittedLength(blocks: seq<Block>, pts: seq<Point>)
    requires Pooled(blocks, pts)
    ensures |Fitted(blocks)| == |pts|
  {
    if blocks != [] {
      FittedLength(blocks[..|blocks| - 1], pts[..|pts| - blocks[|blocks| - 1].count]);
    }
  }

  lemma {:induction false} ErrorConcat(a: seq<Point>, b: seq<Point>, f: seq<real>, g: seq<real>)
    requires |a| == |f| && |b| == |g|
    ensures Error(a + b, f + g) == Error(a, f) + Error(b, g)
  {
    if b == [] {
      assert a + b == a && f + g == f;
    } else {
      ErrorConcat(a, b[..|b| - 1], f, g[..|b| - 1]);
      assert (a + b)[..|a + b| - 1] == a + b[..|b| - 1];
      assert (f + g)[..|a + b| - 1] == f + g[..|b| - 1];
    }
  }

  lemma {:induction false} DistanceConcat(f: seq<real>, g: seq<real>, f': seq<real>, g': seq<real>)
    requires |f| == |f'| && |g| == |g'|
    ensures Distance(f + g, f' + g') == Distance(f, f') + Distance(g, g')
  {
    if g == [] {
      assert f + g == f && f' + g' == f';
    } else {
      DistanceConcat(f, g[..|g| - 1], f', g'[..|g| - 1]);
      assert (f + g)[..|f + g| - 1] == f + g[..|g| - 1];
      assert (f' + g')[..|f + g| - 1] == f' + g'[..|g| - 1];
    }
  }

  /** What is left of the error of `f` on one block once the block's own error is taken out. */
  function Excess(v: real, pts: seq<Point>, f: seq<real>): real
    requires |f| == |pts|
  {
    Error(pts, f) - Error(pts, Constant(|pts|, v)) - Distance(Constant(|pts|, v), f)
  }

  function Twice(x: real, y: real): real { 2.0 * x * y }

  lemma {:induction false} ExcessStep(v: real, pts: seq<Point>, f: seq<real>)
    requires |f| == |pts| > 0
    ensures
      var n := |pts| - 1;
      Excess(v, pts, f) == Excess(v, pts[..n], f[..n]) + Twice(pts[n].y - v, v - f[n])
  {
    var n := |pts| - 1;
    assert Constant(n + 1, v)[..n] == Constant(n, v);
    Expand(pts[n].y, v, f[n]);
  }

  lemma {:induction false} Expand(y: real, v: real, f: real)
    ensures Square(y - f) == Square(y - v) + Square(v - f) + Twice(y - v, v - f)
  {
  }

  /** Summation by parts over the first `k` points of one block that is given the value `c`. */
  lemma {:induction false} ByParts(b: Block, c: real, pts: seq<Point>, f: seq<real>, k: nat)
    requires Pools(b, pts) && |f| == |pts| && NonDecreasing(f)
    requires forall j | 0 <= j < |f| :: Twice(b.value - c, c - f[j]) >= 0.0
    requires 0 < k <= |pts|
    ensures Excess(c, pts[..k], f[..k]) >= Twice(Surplus(pts[..k], b.value), c - f[k - 1])
  {
    var v, y := b.value, pts[k - 1].y;
    assert pts[..k][..k - 1] == pts[..k - 1] && f[..k][..k - 1] == f[..k - 1];
    ExcessStep(c, pts[..k], f[..k]);
    var s, e := Surplus(pts[..k - 1], v), Excess(c, pts[..k - 1], f[..k - 1]);
    assert s >= 0.0;
    assert Surplus(pts[..k], v) == s + (y - v);
    Regroup(y, v, c, c - f[k - 1]);
    if k == 1 {
      assert pts[..0] == [] && f[..0] == [];
      assert e == 0.0 && s == 0.0;
      PartsStep(s, y - v, c - f[0], c - f[0], e);
    } else {
      ByParts(b, c, pts, f, k - 1);
      PartsStep(s, y - v, c - f[k - 2], c - f[k - 1], e);
    }
  }

  lemma {:induction false} Regroup(y: real, v: real, c: real, x: real)
    ensures Twice(y - c, x) == Twice(y - v, x) + Twice(v - c, x)
  {
  }

  lemma {:induction false} PartsStep(s: real, d: real, before: real, now: real, excess: real)
    requires s >= 0.0 && now <= before && excess >= Twice(s, before)
    ensures excess + Twice(d, now) >= Twice(s + d, now)
  {
    assert s * now <= s * before;
  }

  lemma {:induction false} BlockOptimal(b: Block, c: real, pts: seq<Point>, f: seq<real>)
    requires Pools(b, pts) && |f| == |pts| && NonDecreasing(f)
    requires forall j | 0 <= j < |f| :: Twice(b.value - c, c - f[j]) >= 0.0
    ensures Error(pts, f) >= Error(pts, Constant(b.count, c)) + Distance(Constant(b.count, c), f)
  {
    ByParts(b, c, pts, f, |pts|);
    assert pts[..|pts|] == pts && f[..|pts|] == f;
  }

  /** The fit beats every non-decreasing sequence, by at least the squared distance to it. */
  lemma {:induction false} FitIsOptimal(blocks: seq<Block>, pts: seq<Point>, f: seq<real>)
    requires Pooled(blocks, pts) && |f| == |pts| && NonDecreasing(f)
    ensures |Fitted(blocks)| == |pts|
    ensures Error(pts, f) >= Error(pts, Fitted(blocks)) + Distance(Fitted(blocks), f)
  {
    FittedLength(blocks, pts);
    if blocks != [] {
      var b := blocks[|blocks| - 1];
      var cut := |pts| - b.count;
      var front := blocks[..|blocks| - 1];
      FitIsOptimal(front, pts[..cut], f[..cut]);
      BlockOptimal(b, b.value, pts[cut..], f[cut..]);
      assert pts[..cut] + pts[cut..] == pts && f[..cut] + f[cut..] == f;
      ErrorConcat(pts[..cut], pts[cut..], f[..cut], f[cut..]);
      ErrorConcat(pts[..cut], pts[cut..], Fitted(front), Constant(b.count, b.value));
      DistanceConcat(Fitted(front), Constant(b.count, b.value), f[..cut], f[cut..]);
    }
  }

  lemma {:induction false} SquarePositive(x: real)
    ensures Square(x) > 0.0 || x == 0.0
  {
    if x != 0.0 { calc { Square(x); x * x; > 0.0; } }
  }

  lemma {:induction false} DistancePositive(f: seq<real>, g: seq<real>)
    requires |f| == |g|
    ensures Distance(f, g) > 0.0 || f == g
    ensures Distance(f, f) == 0.0
  {
    if f != [] {
      var n := |f| - 1;
      DistancePositive(f[..n], g[..n]);
      SquarePositive(f[n] - g[n]);
      assert f == f[..n] + [f[n]] && g == g[..n] + [g[n]];
    }
  }

  /** The values of the fit come from its blocks, and grow with them. */
  lemma {:induction false} FittedBounds(blocks: seq<Block>)
    requires Increasing(blocks)
    ensures NonDecreasing(Fitted(blocks))
    ensures forall i | 0 <= i < |Fitted(blocks)| ::
              blocks != [] && Fitted(blocks)[i] <= blocks[|blocks| - 1].value
  {
    if blocks != [] { FittedBounds(blocks[..|blocks| - 1]); }
  }

  /**
   * Isotonic regression: the fit is non-decreasing, no non-decreasing sequence has a smaller
   * squared error, and none other has the same.
   */
  lemma {:induction false} FitIsIsotonicRegression(blocks: seq<Block>, pts: seq<Point>)
    requires Pooled(blocks, pts) && Increasing(blocks)
    ensures |Fitted(blocks)| == |pts| && NonDecreasing(Fitted(blocks))
    ensures forall f: seq<real> | |f| == |pts| && NonDecreasing(f) ::
              && Error(pts, Fitted(blocks)) <= Error(pts, f)
              && (Error(pts, f) == Error(pts, Fitted(blocks)) ==> f == Fitted(blocks))
  {
    FittedLength(blocks, pts);
    FittedBounds(blocks);
    forall f: seq<real> | |f| == |pts| && NonDecreasing(f)
      ensures Error(pts, Fitted(blocks)) <= Error(pts, f)
      ensures Error(pts, f) == Error(pts, Fitted(blocks)) ==> f == Fitted(blocks)
    {
      FitIsOptimal(blocks, pts, f);
      DistancePositive(Fitted(blocks), f);
    }
  }

  // ---------------------------------------------------------------- the calibrator

  lemma {:induction false} BlockForMonotone(blocks: seq<Block>, p: real, q: real)
    requires blocks != [] && p <= q
    ensures BlockFor(blocks, p) <= BlockFor(blocks, q)
  {
    var j := BlockFor(blocks, q);
    assert p <= blocks[j].maxP || j == |blocks| - 1;
  }

  lemma {:induction false} CalibratorMonotoneAndBounded(blocks: seq<Block>, p: real, q: real)
    requires Increasing(blocks) && p <= q
    ensures Calibrate(blocks, p) <= Calibrate(blocks, q)
    ensures EPSILON <= Calibrate(blocks, p) <= 1.0 - EPSILON
  {
    if blocks != [] {
      BlockForMonotone(blocks, p, q);
    }
  }
}
