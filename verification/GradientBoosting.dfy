/**
 * Gradient-boosted regression trees (backend/src/models/gradientBoosting.ts).
 *
 * `BuildTree`, `CandidateThresholds`, `EvaluateTree` and `TrainBooster` keep the source's loops.
 * `Grow` is the greedy tree as a value; the lemmas relate it to the training partition, to the
 * rows routed by `Evaluate` and to the regularised objective.
 */
module GradientBoosting {
  import opened Sorting

  datatype Config = Config(rounds: nat, learningRate: real, maxDepth: nat, lambda: real, minChild: nat,
                           maxThresholds: nat)
  datatype Data = Data(rows: seq<seq<real>>, gradients: seq<real>, hessians: seq<real>)
  datatype Tree = Leaf(value: real) | Node(feature: nat, threshold: real, left: Tree, right: Tree)
  datatype Candidate = Candidate(feature: nat, threshold: real)
  datatype Option<T> = None | Some(value: T)

  function Width(rows: seq<seq<real>>): nat {
    if rows == [] then 0 else |rows[0]|
  }

  ghost predicate Rectangular(rows: seq<seq<real>>) {
    forall i | 0 <= i < |rows| :: |rows[i]| == Width(rows)
  }

  /** What `trainBooster` hands to `buildTree`: one gradient and one positive hessian per row. */
  ghost predicate ValidData(d: Data) {
    && |d.gradients| == |d.hessians| == |d.rows|
    && Rectangular(d.rows)
    && forall i | 0 <= i < |d.hessians| :: d.hessians[i] > 0.0
  }

  ghost predicate ValidConfig(c: Config) {
    c.lambda > 0.0 && c.minChild >= 1 && c.maxThresholds >= 1
  }

  ghost predicate Within(indices: seq<nat>, n: nat) {
    forall k | 0 <= k < |indices| :: indices[k] < n
  }

  // ---------------------------------------------------------------- sums and scores

  function Total(indices: seq<nat>, values: seq<real>): real
    requires Within(indices, |values|)
  {
    if indices == [] then 0.0
    else Total(indices[..|indices| - 1], values) + values[indices[|indices| - 1]]
  }

  function LeafValue(d: Data, indices: seq<nat>, c: Config): real
    requires ValidData(d) && ValidConfig(c) && Within(indices, |d.rows|)
  {
    HessianPositive(d, indices);
    -Total(indices, d.gradients) / (Total(indices, d.hessians) + c.lambda)
  }

  function Score(d: Data, indices: seq<nat>, c: Config): real
    requires ValidData(d) && ValidConfig(c) && Within(indices, |d.rows|)
  {
    HessianPositive(d, indices);
    SquareOver(Total(indices, d.gradients), Total(indices, d.hessians) + c.lambda)
  }

  function SquareOver(g: real, n: real): real
    requires n > 0.0
  {
    g * g / n
  }

  lemma {:induction false} HessianPositive(d: Data, indices: seq<nat>)
    requires ValidData(d) && Within(indices, |d.rows|)
    ensures Total(indices, d.hessians) >= 0.0
  {
    if indices != [] { HessianPositive(d, indices[..|indices| - 1]); }
  }

  // ---------------------------------------------------------------- splits

  predicate GoesLeft(row: seq<real>, cand: Candidate)
    requires cand.feature < |row|
  {
    row[cand.feature] <= cand.threshold
  }

  /** The indices whose rows go to one side of a split, in order. */
  function Side(d: Data, indices: seq<nat>, cand: Candidate, left: bool): (r: seq<nat>)
    requires ValidData(d) && Within(indices, |d.rows|) && cand.feature < Width(d.rows)
    ensures Within(r, |d.rows|)
  {
    if indices == [] then []
    else
      var n := |indices| - 1;
      Side(d, indices[..n], cand, left) +
      (if GoesLeft(d.rows[indices[n]], cand) == left then [indices[n]] else [])
  }

  lemma {:induction false} SideMembers(d: Data, indices: seq<nat>, cand: Candidate, left: bool, i: nat)
    requires ValidData(d) && Within(indices, |d.rows|) && cand.feature < Width(d.rows) && i < |d.rows|
    ensures i in Side(d, indices, cand, left) <==> i in indices && GoesLeft(d.rows[i], cand) == left
  {
    if indices != [] { SideMembers(d, indices[..|indices| - 1], cand, left, i); }
  }

  predicate Admissible(d: Data, indices: seq<nat>, c: Config, cand: Candidate)
    requires ValidData(d) && Within(indices, |d.rows|) && cand.feature < Width(d.rows)
  {
    |Side(d, indices, cand, true)| >= c.minChild && |Side(d, indices, cand, false)| >= c.minChild
  }

  function Gain(d: Data, indices: seq<nat>, c: Config, cand: Candidate): real
    requires ValidData(d) && ValidConfig(c) && Within(indices, |d.rows|) && cand.feature < Width(d.rows)
  {
    Score(d, Side(d, indices, cand, true), c) + Score(d, Side(d, indices, cand, false), c) - Score(d, indices, c)
  }

  function Distinct(values: seq<real>): (r: seq<real>)
    ensures forall x :: x in r <==> x in values
    ensures forall i, j | 0 <= i < j < |r| :: r[i] != r[j]
  {
    if values == [] then []
    else
      var n := |values| - 1;
      var r := Distinct(values[..n]);
      assert forall x :: x in values <==> x in values[..n] || x == values[n];
      if values[n] in r then r else r + [values[n]]
  }

  const ASCENDING: (real, real) -> bool := (a: real, b: real) => a <= b

  /** The distinct values of a feature on the given rows, ascending. */
  function FeatureValues(d: Data, indices: seq<nat>, feature: nat): seq<real>
    requires ValidData(d) && Within(indices, |d.rows|) && feature < Width(d.rows)
  {
    StableSort(Distinct(seq(|indices|, k requires 0 <= k < |indices| => d.rows[indices[k]][feature])), ASCENDING)
  }

  function Step(n: nat, maxCandidates: nat): (step: nat)
    requires maxCandidates >= 1
    ensures step >= 1
  {
    if n / maxCandidates >= 1 then n / maxCandidates else 1
  }

  /** Midpoints of neighbouring values at `i`, `i + step`, ... */
  function Midpoints(values: seq<real>, i: nat, step: nat): seq<real>
    requires 1 <= i && 1 <= step
    decreases |values| - i
  {
    if i < |values| then [(values[i - 1] + values[i]) / 2.0] + Midpoints(values, i + step, step) else []
  }

  function Thresholds(values: seq<real>, maxCandidates: nat): seq<real>
    requires maxCandidates >= 1
  {
    var step := Step(|values|, maxCandidates);
    Midpoints(values, step, step)
  }

  method CandidateThresholds(d: Data, indices: seq<nat>, feature: nat, maxCandidates: nat)
    returns (thresholds: seq<real>)
    requires ValidData(d) && Within(indices, |d.rows|) && feature < Width(d.rows) && maxCandidates >= 1
    ensures thresholds == Thresholds(FeatureValues(d, indices, feature), maxCandidates)
  {
    var values := FeatureValues(d, indices, feature);
    thresholds := [];
    if |values| <= 1 { return; }
    var step := Step(|values|, maxCandidates);
    var i := step;
    while i < |values|
      invariant i >= 1
      invariant thresholds + Midpoints(values, i, step) == Midpoints(values, step, step)
      decreases |values| - i
    {
      var middle := (values[i - 1] + values[i]) / 2.0;
      assert Midpoints(values, i, step) == [middle] + Midpoints(values, i + step, step);
      assert thresholds + Midpoints(values, i, step) == thresholds + [middle] + Midpoints(values, i + step, step);
      thresholds := thresholds + [middle];
      i := i + step;
    }
  }

  /** The thresholds tried for each feature. */
  function Menu(d: Data, indices: seq<nat>, c: Config): (menu: seq<seq<real>>)
    requires ValidData(d) && ValidConfig(c) && Within(indices, |d.rows|)
    ensures |menu| == Width(d.rows)
  {
    seq(Width(d.rows), f requires 0 <= f < Width(d.rows) => Thresholds(FeatureValues(d, indices, f), c.maxThresholds))
  }

  function Row(feature: nat, thresholds: seq<real>): (r: seq<Candidate>)
    ensures |r| == |thresholds|
    ensures forall k | 0 <= k < |r| :: r[k] == Candidate(feature, thresholds[k])
  {
    seq(|thresholds|, k requires 0 <= k < |thresholds| => Candidate(feature, thresholds[k]))
  }

  /** The candidates of the first `features` features, in the order the source tries them. */
  function Candidates(menu: seq<seq<real>>, features: nat): (r: seq<Candidate>)
    requires features <= |menu|
    ensures Features(r, features)
  {
    if features == 0 then [] else Candidates(menu, features - 1) + Row(features - 1, menu[features - 1])
  }

  ghost predicate Features(cands: seq<Candidate>, width: nat) {
    forall k | 0 <= k < |cands| :: cands[k].feature < width
  }

  /** Among the first `n` candidates, the admissible one of largest gain, the earliest on ties. */
  function BestIndex(d: Data, indices: seq<nat>, c: Config, cands: seq<Candidate>, n: nat): (best: Option<nat>)
    requires ValidData(d) && ValidConfig(c) && Within(indices, |d.rows|)
    requires Features(cands, Width(d.rows)) && n <= |cands|
    ensures best.Some? ==> best.value < n && Admissible(d, indices, c, cands[best.value])
  {
    if n == 0 then None
    else
      var best := BestIndex(d, indices, c, cands, n - 1);
      if !Admissible(d, indices, c, cands[n - 1]) then best
      else if best.None? || Gain(d, indices, c, cands[n - 1]) > Gain(d, indices, c, cands[best.value]) then Some(n - 1)
      else best
  }

  function Best(d: Data, indices: seq<nat>, c: Config, cands: seq<Candidate>, n: nat): (best: Option<Candidate>)
    requires ValidData(d) && ValidConfig(c) && Within(indices, |d.rows|)
    requires Features(cands, Width(d.rows)) && n <= |cands|
    ensures best.Some? ==> best.value.feature < Width(d.rows) && Admissible(d, indices, c, best.value)
  {
    var k := BestIndex(d, indices, c, cands, n);
    if k.None? then None else Some(cands[k.value])
  }

  function AllCandidates(d: Data, indices: seq<nat>, c: Config): (r: seq<Candidate>)
    requires ValidData(d) && ValidConfig(c) && Within(indices, |d.rows|)
    ensures Features(r, Width(d.rows))
  {
    Candidates(Menu(d, indices, c), Width(d.rows))
  }

  /** The split chosen at a node: the best one of all, if it improves the score. */
  function Choice(d: Data, indices: seq<nat>, c: Config): (choice: Option<Candidate>)
    requires ValidData(d) && ValidConfig(c) && Within(indices, |d.rows|)
    ensures choice.Some? ==>
              && choice.value.feature < Width(d.rows)
              && Admissible(d, indices, c, choice.value)
              && Gain(d, indices, c, choice.value) > 0.0
  {
    var cands := AllCandidates(d, indices, c);
    var best := Best(d, indices, c, cands, |cands|);
    if best.None? || Gain(d, indices, c, best.value) <= 0.0 then None else best
  }

  function Grow(d: Data, indices: seq<nat>, depth: nat, c: Config): Tree
    requires ValidData(d) && ValidConfig(c) && Within(indices, |d.rows|)
    decreases c.maxDepth - depth
  {
    if depth >= c.maxDepth || |indices| < 2 * c.minChild then Leaf(LeafValue(d, indices, c))
    else
      match Choice(d, indices, c)
      case None => Leaf(LeafValue(d, indices, c))
      case Some(cand) =>
        Node(cand.feature, cand.threshold,
             Grow(d, Side(d, indices, cand, true), depth + 1, c),
             Grow(d, Side(d, indices, cand, false), depth + 1, c))
  }

  // ---------------------------------------------------------------- the algorithm

  method Sum(indices: seq<nat>, values: seq<real>) returns (total: real)
    requires Within(indices, |values|)
    ensures total == Total(indices, values)
  {
    total := 0.0;
    for k := 0 to |indices|
      invariant total == Total(indices[..k], values)
    {
      assert indices[..k + 1][..k] == indices[..k];
      total := total + values[indices[k]];
    }
    assert indices[..|indices|] == indices;
  }

  method Partition(d: Data, indices: seq<nat>, cand: Candidate) returns (left: seq<nat>, right: seq<nat>)
    requires ValidData(d) && Within(indices, |d.rows|) && cand.feature < Width(d.rows)
    ensures left == Side(d, indices, cand, true) && right == Side(d, indices, cand, false)
  {
    left, right := [], [];
    for k := 0 to |indices|
      invariant left == Side(d, indices[..k], cand, true)
      invariant right == Side(d, indices[..k], cand, false)
    {
      assert indices[..k + 1][..k] == indices[..k];
      if d.rows[indices[k]][cand.feature] <= cand.threshold {
        left := left + [indices[k]];
      } else {
        right := right + [indices[k]];
      }
    }
    assert indices[..|indices|] == indices;
  }

  /** The two statistics of a set of rows: its optimal leaf value and its score. */
  method Statistics(d: Data, indices: seq<nat>, c: Config) returns (leafValue: real, score: real)
    requires ValidData(d) && ValidConfig(c) && Within(indices, |d.rows|)
    ensures leafValue == LeafValue(d, indices, c) && score == Score(d, indices, c)
  {
    var totalGradient := Sum(indices, d.gradients);
    var totalHessian := Sum(indices, d.hessians);
    HessianPositive(d, indices);
    var n := totalHessian + c.lambda;
    leafValue := -totalGradient / n;
    score := totalGradient * totalGradient / n;
    assert score == SquareOver(totalGradient, n);
  }

  /** One candidate: partition the rows, and replace the best split so far if this one gains more. */
  method Consider(d: Data, indices: seq<nat>, parentScore: real, c: Config, cand: Candidate,
                  best: Option<Candidate>, bestGain: real, ghost all: seq<Candidate>, ghost n: nat)
    returns (newBest: Option<Candidate>, newGain: real)
    requires ValidData(d) && ValidConfig(c) && Within(indices, |d.rows|)
    requires parentScore == Score(d, indices, c)
    requires Features(all, Width(d.rows)) && n < |all| && cand == all[n]
    requires best == Best(d, indices, c, all, n)
    requires best.Some? ==> bestGain == Gain(d, indices, c, best.value)
    ensures newBest == Best(d, indices, c, all, n + 1)
    ensures newBest.Some? ==> newGain == Gain(d, indices, c, newBest.value)
  {
    newBest, newGain := best, bestGain;
    var left, right := Partition(d, indices, cand);
    if |left| < c.minChild || |right| < c.minChild { return; }
    var _, leftScore := Statistics(d, left, c);
    var _, rightScore := Statistics(d, right, c);
    var gain := leftScore + rightScore - parentScore;
    if best.None? || gain > bestGain {
      newBest, newGain := Some(cand), gain;
    }
  }

  /** Feature by feature, the candidates are laid out one after the other. */
  lemma {:induction false} CandidateAt(menu: seq<seq<real>>, width: nat, feature: nat, k: nat)
    requires feature < width <= |menu| && k < |menu[feature]|
    ensures |Candidates(menu, feature)| + k < |Candidates(menu, width)|
    ensures Candidates(menu, width)[|Candidates(menu, feature)| + k] == Candidate(feature, menu[feature][k])
  {
    if feature < width - 1 { CandidateAt(menu, width - 1, feature, k); }
  }

  /** The thresholds of one feature, in order. */
  method TryFeature(d: Data, indices: seq<nat>, parentScore: real, c: Config, feature: nat,
                    best: Option<Candidate>, bestGain: real, ghost menu: seq<seq<real>>, ghost all: seq<Candidate>)
    returns (newBest: Option<Candidate>, newGain: real)
    requires ValidData(d) && ValidConfig(c) && Within(indices, |d.rows|)
    requires parentScore == Score(d, indices, c)
    requires feature < Width(d.rows) == |menu| && all == Candidates(menu, |menu|)
    requires menu[feature] == Thresholds(FeatureValues(d, indices, feature), c.maxThresholds)
    requires |Candidates(menu, feature)| <= |all| && best == Best(d, indices, c, all, |Candidates(menu, feature)|)
    requires best.Some? ==> bestGain == Gain(d, indices, c, best.value)
    ensures |Candidates(menu, feature + 1)| <= |all|
    ensures newBest == Best(d, indices, c, all, |Candidates(menu, feature + 1)|)
    ensures newBest.Some? ==> newGain == Gain(d, indices, c, newBest.value)
  {
    newBest, newGain := best, bestGain;
    var thresholds := CandidateThresholds(d, indices, feature, c.maxThresholds);
    ghost var n := |Candidates(menu, feature)|;
    for k := 0 to |thresholds|
      invariant n == |Candidates(menu, feature)| + k
      invariant n <= |all| && newBest == Best(d, indices, c, all, n)
      invariant newBest.Some? ==> newGain == Gain(d, indices, c, newBest.value)
    {
      CandidateAt(menu, |menu|, feature, k);
      newBest, newGain :=
        Consider(d, indices, parentScore, c, Candidate(feature, thresholds[k]), newBest, newGain, all, n);
      n := n + 1;
    }
  }

  /** The search over features and thresholds, keeping the best split so far. */
  method FindBest(d: Data, indices: seq<nat>, parentScore: real, c: Config)
    returns (best: Option<Candidate>, bestGain: real)
    requires ValidData(d) && ValidConfig(c) && Within(indices, |d.rows|)
    requires parentScore == Score(d, indices, c)
    ensures best == Best(d, indices, c, AllCandidates(d, indices, c), |AllCandidates(d, indices, c)|)
    ensures best.Some? ==> bestGain == Gain(d, indices, c, best.value)
  {
    best, bestGain := None, 0.0;
    ghost var menu, all := Menu(d, indices, c), AllCandidates(d, indices, c);
    for feature := 0 to Width(d.rows)
      invariant |Candidates(menu, feature)| <= |all|
      invariant best == Best(d, indices, c, all, |Candidates(menu, feature)|)
      invariant best.Some? ==> bestGain == Gain(d, indices, c, best.value)
    {
      best, bestGain := TryFeature(d, indices, parentScore, c, feature, best, bestGain, menu, all);
    }
  }

  method BuildTree(d: Data, indices: seq<nat>, depth: nat, c: Config) returns (tree: Tree)
    requires ValidData(d) && ValidConfig(c) && Within(indices, |d.rows|)
    ensures tree == Grow(d, indices, depth, c)
    decreases c.maxDepth - depth
  {
    var leafValue, parentScore := Statistics(d, indices, c);
    if depth >= c.maxDepth || |indices| < 2 * c.minChild { return Leaf(leafValue); }
    var best, bestGain := FindBest(d, indices, parentScore, c);
    if best.None? || bestGain <= 0.0 { return Leaf(leafValue); }
    var left, right := Partition(d, indices, best.value);
    var leftTree := BuildTree(d, left, depth + 1, c);
    var rightTree := BuildTree(d, right, depth + 1, c);
    tree := Node(best.value.feature, best.value.threshold, leftTree, rightTree);
  }

  /** Every node tests a feature the rows have. */
  predicate FitsRows(t: Tree, width: nat) {
    t.Node? ==> t.feature < width && FitsRows(t.left, width) && FitsRows(t.right, width)
  }

  function Evaluate(t: Tree, row: seq<real>): real
    requires FitsRows(t, |row|)
  {
    match t
    case Leaf(v) => v
    case Node(f, threshold, l, r) => if row[f] <= threshold then Evaluate(l, row) else Evaluate(r, row)
  }

  method EvaluateTree(tree: Tree, row: seq<real>) returns (value: real)
    requires FitsRows(tree, |row|)
    ensures value == Evaluate(tree, row)
  {
    var node := tree;
    while node.Node?
      invariant FitsRows(node, |row|)
      invariant Evaluate(node, row) == Evaluate(tree, row)
      decreases node
    {
      node := if row[node.feature] <= node.threshold then node.left else node.right;
    }
    value := node.value;
  }

  // ---------------------------------------------------------------- candidate thresholds

  lemma {:induction false} FeatureValuesAscend(d: Data, indices: seq<nat>, feature: nat)
    requires ValidData(d) && Within(indices, |d.rows|) && feature < Width(d.rows)
    ensures
      var values := FeatureValues(d, indices, feature);
      && (forall i, j | 0 <= i < j < |values| :: values[i] < values[j])
      && (forall x :: x in values <==> exists k | 0 <= k < |indices| :: d.rows[indices[k]][feature] == x)
  {
    var raw := seq(|indices|, k requires 0 <= k < |indices| => d.rows[indices[k]][feature]);
    var distinct, values := Distinct(raw), FeatureValues(d, indices, feature);
    SortIsSorted(distinct, ASCENDING);
    SortMembers(distinct, ASCENDING);
    forall i, j | 0 <= i < j < |values| ensures values[i] < values[j] {
      StillDistinct(values, i, j, distinct);
      assert ASCENDING(values[i], values[j]);
    }
    forall x ensures x in values <==> exists k | 0 <= k < |indices| :: d.rows[indices[k]][feature] == x {
      if x in values { var k :| 0 <= k < |raw| && raw[k] == x; }
      if k :| 0 <= k < |indices| && d.rows[indices[k]][feature] == x { assert raw[k] == x; }
    }
  }

  /** Rearranging a sequence without repetition introduces none. */
  lemma {:induction false} StillDistinct(s: seq<real>, i: nat, j: nat, t: seq<real>)
    requires i < j < |s| && multiset(s) == multiset(t)
    requires forall a, b | 0 <= a < b < |t| :: t[a] != t[b]
    ensures s[i] != s[j]
  {
    assert s == s[..i] + [s[i]] + s[i + 1..j] + [s[j]] + s[j + 1..];
    assert s[i] == s[j] ==> multiset(s)[s[i]] >= 2;
    CountDistinct(t, s[i]);
  }

  lemma {:induction false} CountDistinct(t: seq<real>, x: real)
    requires forall a, b | 0 <= a < b < |t| :: t[a] != t[b]
    ensures multiset(t)[x] <= 1
  {
    if t != [] {
      var n := |t| - 1;
      assert t == t[..n] + [t[n]];
      CountDistinct(t[..n], x);
      if t[n] == x { assert x !in t[..n]; }
    }
  }

  lemma {:induction false} MidpointAt(values: seq<real>, i: nat, step: nat, k: nat)
    requires 1 <= i && 1 <= step && k < |Midpoints(values, i, step)|
    requires forall a, b | 0 <= a < b < |values| :: values[a] < values[b]
    ensures exists j | 1 <= j < |values| :: values[j - 1] < Midpoints(values, i, step)[k] < values[j]
    decreases k
  {
    if k == 0 {
      assert values[i - 1] < Midpoints(values, i, step)[0] < values[i];
    } else {
      MidpointAt(values, i + step, step, k - 1);
    }
  }

  lemma {:induction false} ThresholdBetween(values: seq<real>, maxCandidates: nat, threshold: real)
    requires forall a, b | 0 <= a < b < |values| :: values[a] < values[b]
    requires maxCandidates >= 1 && threshold in Thresholds(values, maxCandidates)
    ensures exists j | 1 <= j < |values| :: values[j - 1] < threshold < values[j]
  {
    var step := Step(|values|, maxCandidates);
    var k :| 0 <= k < |Midpoints(values, step, step)| && Midpoints(values, step, step)[k] == threshold;
    MidpointAt(values, step, step, k);
  }

  /** No candidate threshold is useless: every one of them sends some row each way. */
  lemma {:induction false} ThresholdSeparates(d: Data, indices: seq<nat>, feature: nat, maxCandidates: nat,
                                              threshold: real)
    requires ValidData(d) && Within(indices, |d.rows|) && feature < Width(d.rows) && maxCandidates >= 1
    requires threshold in Thresholds(FeatureValues(d, indices, feature), maxCandidates)
    ensures Side(d, indices, Candidate(feature, threshold), true) != []
    ensures Side(d, indices, Candidate(feature, threshold), false) != []
  {
    var values, cand := FeatureValues(d, indices, feature), Candidate(feature, threshold);
    FeatureValuesAscend(d, indices, feature);
    ThresholdBetween(values, maxCandidates, threshold);
    var j :| 1 <= j < |values| && values[j - 1] < threshold < values[j];
    assert values[j - 1] in values && values[j] in values;
    var low :| 0 <= low < |indices| && d.rows[indices[low]][feature] == values[j - 1];
    var high :| 0 <= high < |indices| && d.rows[indices[high]][feature] == values[j];
    SideMembers(d, indices, cand, true, indices[low]);
    SideMembers(d, indices, cand, false, indices[high]);
  }

  lemma {:induction false} MidpointCount(values: seq<real>, i: nat, step: nat, n: nat)
    requires 1 <= step <= i
    ensures |Midpoints(values, i, step)| <= n <==> |values| <= i + n * step
    decreases |values| - i
  {
    if i < |values| {
      if n == 0 {
      } else {
        MidpointCount(values, i + step, step, n - 1);
        assert i + step + (n - 1) * step == i + n * step;
      }
    } else {
      assert n * step >= 0;
    }
  }

  /**
   * `maxThresholds` is not a cap: it bounds the number of thresholds exactly when the remainder
   * of the number of distinct values is at most the stride.  Twice the parameter always does.
   */
  lemma {:induction false} ThresholdCap(values: seq<real>, maxCandidates: nat)
    requires maxCandidates >= 1
    ensures |Thresholds(values, maxCandidates)| <= maxCandidates
       <==> |values| < maxCandidates || |values| % maxCandidates <= |values| / maxCandidates
    ensures |Thresholds(values, maxCandidates)| < 2 * maxCandidates
  {
    var n, m := |values|, maxCandidates;
    var q, r, step := n / m, n % m, Step(n, m);
    assert n == m * q + r;
    MidpointCount(values, step, step, m);
    MidpointCount(values, step, step, 2 * m - 1);
    if q == 0 {
      assert n == r < m;
    } else {
      assert step == q;
      assert q + m * q >= n <==> r <= q;
      TwiceEnough(m, q, r);
    }
  }

  lemma {:induction false} TwiceEnough(m: nat, q: nat, r: nat)
    requires m >= 1 && q >= 1 && r < m
    ensures m * q + r <= q + (2 * m - 1) * q
  {
    assert q + (2 * m - 1) * q == 2 * (m * q);
    assert m * q >= m;
  }

  /** With 31 distinct values and the default parameter 16 the source tries 30 thresholds. */
  lemma {:induction false} ThresholdCapFails(values: seq<real>)
    requires |values| == 31
    ensures |Thresholds(values, 16)| == 30
  {
    MidpointCount(values, 1, 1, 30);
    MidpointCount(values, 1, 1, 29);
  }

  // ---------------------------------------------------------------- the chosen split

  /** The greedy rule: no admissible candidate gains more than the chosen one, and no earlier one as much. */
  lemma {:induction false} BestDominates(d: Data, indices: seq<nat>, c: Config, cands: seq<Candidate>, n: nat, j: nat)
    requires ValidData(d) && ValidConfig(c) && Within(indices, |d.rows|)
    requires Features(cands, Width(d.rows)) && j < n <= |cands|
    requires Admissible(d, indices, c, cands[j])
    ensures
      var best := BestIndex(d, indices, c, cands, n);
      && best.Some?
      && Gain(d, indices, c, cands[j]) <= Gain(d, indices, c, cands[best.value])
      && (j < best.value ==> Gain(d, indices, c, cands[j]) < Gain(d, indices, c, cands[best.value]))
  {
    if j < n - 1 { BestDominates(d, indices, c, cands, n - 1, j); }
  }

  // ---------------------------------------------------------------- leaves and the training partition

  /** A leaf of a tree together with the training rows that reach it. */
  datatype Group = Group(value: real, members: seq<nat>)

  ghost function LeafGroups(d: Data, indices: seq<nat>, t: Tree): seq<Group>
    requires ValidData(d) && Within(indices, |d.rows|) && FitsRows(t, Width(d.rows))
    decreases t
  {
    match t
    case Leaf(v) => [Group(v, indices)]
    case Node(f, threshold, l, r) =>
      LeafGroups(d, Side(d, indices, Candidate(f, threshold), true), l)
      + LeafGroups(d, Side(d, indices, Candidate(f, threshold), false), r)
  }

  ghost function AllMembers(groups: seq<Group>): multiset<nat> {
    if groups == [] then multiset{} else AllMembers(groups[..|groups| - 1]) + multiset(groups[|groups| - 1].members)
  }

  lemma {:induction false} AllMembersConcat(a: seq<Group>, b: seq<Group>)
    ensures AllMembers(a + b) == AllMembers(a) + AllMembers(b)
  {
    if b == [] {
      assert a + b == a;
    } else {
      var last := b[|b| - 1];
      AllMembersConcat(a, b[..|b| - 1]);
      assert (a + b)[..|a + b| - 1] == a + b[..|b| - 1] && (a + b)[|a + b| - 1] == last;
      assert AllMembers(a + b) == AllMembers(a + b[..|b| - 1]) + multiset(last.members);
    }
  }

  lemma {:induction false} SidesPartition(d: Data, indices: seq<nat>, cand: Candidate)
    requires ValidData(d) && Within(indices, |d.rows|) && cand.feature < Width(d.rows)
    ensures multiset(Side(d, indices, cand, true)) + multiset(Side(d, indices, cand, false)) == multiset(indices)
  {
    if indices != [] {
      var n := |indices| - 1;
      SidesPartition(d, indices[..n], cand);
      var left, right, i := Side(d, indices[..n], cand, true), Side(d, indices[..n], cand, false), indices[n];
      assert multiset(indices) == multiset(indices[..n]) + multiset{i} by { assert indices == indices[..n] + [i]; }
      if GoesLeft(d.rows[i], cand) {
        assert Side(d, indices, cand, true) == left + [i] && Side(d, indices, cand, false) == right;
      } else {
        assert Side(d, indices, cand, true) == left && Side(d, indices, cand, false) == right + [i];
      }
    }
  }

  /** The leaves of any tree share out the training rows. */
  lemma {:induction false} LeavesPartition(d: Data, indices: seq<nat>, t: Tree)
    requires ValidData(d) && Within(indices, |d.rows|) && FitsRows(t, Width(d.rows))
    ensures AllMembers(LeafGroups(d, indices, t)) == multiset(indices)
    decreases t
  {
    match t
    case Leaf(v) =>
      assert [Group(v, indices)][..0] == [];
    case Node(f, threshold, l, r) =>
      var cand := Candidate(f, threshold);
      var left, right := Side(d, indices, cand, true), Side(d, indices, cand, false);
      LeavesPartition(d, left, l);
      LeavesPartition(d, right, r);
      SidesPartition(d, indices, cand);
      AllMembersConcat(LeafGroups(d, left, l), LeafGroups(d, right, r));
  }

  /** Prediction agrees with training: every row is predicted by the leaf that holds it. */
  lemma {:induction false} RowsReachTheirLeaf(d: Data, indices: seq<nat>, t: Tree, k: nat, i: nat)
    requires ValidData(d) && Within(indices, |d.rows|) && FitsRows(t, Width(d.rows))
    requires k < |LeafGroups(d, indices, t)| && i in LeafGroups(d, indices, t)[k].members
    ensures i in indices && Evaluate(t, d.rows[i]) == LeafGroups(d, indices, t)[k].value
    decreases t
  {
    if t.Node? {
      var cand := Candidate(t.feature, t.threshold);
      var goesLeft := k < |LeafGroups(d, Side(d, indices, cand, true), t.left)|;
      if goesLeft {
        RowsReachTheirLeaf(d, Side(d, indices, cand, true), t.left, k, i);
      } else {
        RowsReachTheirLeaf(d, Side(d, indices, cand, false), t.right,
                           k - |LeafGroups(d, Side(d, indices, cand, true), t.left)|, i);
      }
      SideMembers(d, indices, cand, goesLeft, i);
    }
  }

  function Depth(t: Tree): nat {
    match t
    case Leaf(_) => 0
    case Node(_, _, l, r) => 1 + if Depth(l) > Depth(r) then Depth(l) else Depth(r)
  }

  /** What greedy growth guarantees at every node and leaf. */
  ghost predicate Grown(t: Tree, d: Data, indices: seq<nat>, depth: nat, c: Config)
    requires ValidData(d) && ValidConfig(c) && Within(indices, |d.rows|)
    decreases t
  {
    match t
    case Leaf(v) => depth <= c.maxDepth && v == LeafValue(d, indices, c)
    case Node(f, threshold, l, r) =>
      var cand := Candidate(f, threshold);
      && f < Width(d.rows)
      && Admissible(d, indices, c, cand)
      && Gain(d, indices, c, cand) > 0.0
      && Grown(l, d, Side(d, indices, cand, true), depth + 1, c)
      && Grown(r, d, Side(d, indices, cand, false), depth + 1, c)
  }

  lemma {:induction false} GrowGrows(d: Data, indices: seq<nat>, depth: nat, c: Config)
    requires ValidData(d) && ValidConfig(c) && Within(indices, |d.rows|) && depth <= c.maxDepth
    ensures Grown(Grow(d, indices, depth, c), d, indices, depth, c)
    decreases c.maxDepth - depth
  {
    if depth < c.maxDepth && |indices| >= 2 * c.minChild && Choice(d, indices, c).Some? {
      var cand := Choice(d, indices, c).value;
      GrowGrows(d, Side(d, indices, cand, true), depth + 1, c);
      GrowGrows(d, Side(d, indices, cand, false), depth + 1, c);
    }
  }

  lemma {:induction false} GrownFits(t: Tree, d: Data, indices: seq<nat>, depth: nat, c: Config)
    requires ValidData(d) && ValidConfig(c) && Within(indices, |d.rows|) && Grown(t, d, indices, depth, c)
    ensures FitsRows(t, Width(d.rows))
    ensures depth + Depth(t) <= c.maxDepth
    decreases t
  {
    if t.Node? {
      var cand := Candidate(t.feature, t.threshold);
      GrownFits(t.left, d, Side(d, indices, cand, true), depth + 1, c);
      GrownFits(t.right, d, Side(d, indices, cand, false), depth + 1, c);
    }
  }

  lemma {:induction false} GroupsWithin(d: Data, indices: seq<nat>, t: Tree)
    requires ValidData(d) && Within(indices, |d.rows|) && FitsRows(t, Width(d.rows))
    ensures GroupsFit(LeafGroups(d, indices, t), |d.rows|)
    decreases t
  {
    if t.Node? {
      var cand := Candidate(t.feature, t.threshold);
      GroupsWithin(d, Side(d, indices, cand, true), t.left);
      GroupsWithin(d, Side(d, indices, cand, false), t.right);
    }
  }

  ghost predicate GroupsFit(groups: seq<Group>, n: nat) {
    forall k | 0 <= k < |groups| :: Within(groups[k].members, n)
  }

  /** Every leaf predicts -G / (H + lambda) of its rows; leaves of a split tree are large enough. */
  lemma {:induction false} GrownLeaf(t: Tree, d: Data, indices: seq<nat>, depth: nat, c: Config, k: nat)
    requires ValidData(d) && ValidConfig(c) && Within(indices, |d.rows|) && Grown(t, d, indices, depth, c)
    requires FitsRows(t, Width(d.rows)) && k < |LeafGroups(d, indices, t)|
    ensures
      var group := LeafGroups(d, indices, t)[k];
      && Within(group.members, |d.rows|)
      && group.value == LeafValue(d, group.members, c)
      && (t.Node? ==> |group.members| >= c.minChild)
    decreases t
  {
    GroupsWithin(d, indices, t);
    if t.Node? {
      var cand := Candidate(t.feature, t.threshold);
      var left, right := Side(d, indices, cand, true), Side(d, indices, cand, false);
      var n := |LeafGroups(d, left, t.left)|;
      if k < n {
        GrownLeaf(t.left, d, left, depth + 1, c, k);
        assert t.left.Leaf? ==> LeafGroups(d, left, t.left)[k].members == left;
      } else {
        GrownLeaf(t.right, d, right, depth + 1, c, k - n);
        assert t.right.Leaf? ==> LeafGroups(d, right, t.right)[k - n].members == right;
      }
    }
  }

  ghost function LeafScores(d: Data, c: Config, groups: seq<Group>): real
    requires ValidData(d) && ValidConfig(c)
    requires GroupsFit(groups, |d.rows|)
  {
    if groups == [] then 0.0
    else LeafScores(d, c, groups[..|groups| - 1]) + Score(d, groups[|groups| - 1].members, c)
  }

  lemma {:induction false} LeafScoresConcat(d: Data, c: Config, a: seq<Group>, b: seq<Group>)
    requires ValidData(d) && ValidConfig(c)
    requires GroupsFit(a, |d.rows|) && GroupsFit(b, |d.rows|) && GroupsFit(a + b, |d.rows|)
    ensures LeafScores(d, c, a + b) == LeafScores(d, c, a) + LeafScores(d, c, b)
  {
    if b == [] {
      assert a + b == a;
    } else {
      LeafScoresConcat(d, c, a, b[..|b| - 1]);
      assert (a + b)[..|a + b| - 1] == a + b[..|b| - 1];
    }
  }

  /** Splitting never lowers the score, and raises it whenever it happens. */
  lemma {:induction false} GrownImproves(t: Tree, d: Data, indices: seq<nat>, depth: nat, c: Config)
    requires ValidData(d) && ValidConfig(c) && Within(indices, |d.rows|) && Grown(t, d, indices, depth, c)
    ensures FitsRows(t, Width(d.rows))
    ensures
      var groups := LeafGroups(d, indices, t);
      && GroupsFit(groups, |d.rows|)
      && LeafScores(d, c, groups) >= Score(d, indices, c)
      && (t.Node? ==> LeafScores(d, c, groups) > Score(d, indices, c))
    decreases t
  {
    GrownFits(t, d, indices, depth, c);
    GroupsWithin(d, indices, t);
    if t.Node? {
      var cand := Candidate(t.feature, t.threshold);
      var left, right := Side(d, indices, cand, true), Side(d, indices, cand, false);
      GrownImproves(t.left, d, left, depth + 1, c);
      GrownImproves(t.right, d, right, depth + 1, c);
      LeafScoresConcat(d, c, LeafGroups(d, left, t.left), LeafGroups(d, right, t.right));
    } else {
      assert [Group(t.value, indices)][..0] == [];
    }
  }

  // ---------------------------------------------------------------- the regularised objective

  /** Second-order loss of predicting `w` on one row. */
  function RowLoss(d: Data, i: nat, w: real): real
    requires i < |d.gradients| && i < |d.hessians|
  {
    d.gradients[i] * w + d.hessians[i] * Half(w)
  }

  function Half(w: real): real { w * w / 2.0 }

  /** Loss of a tree on the given rows, each predicted by `Evaluate`. */
  ghost function Loss(d: Data, indices: seq<nat>, t: Tree): real
    requires ValidData(d) && Within(indices, |d.rows|) && FitsRows(t, Width(d.rows))
  {
    if indices == [] then 0.0
    else
      var i := indices[|indices| - 1];
      Loss(d, indices[..|indices| - 1], t) + RowLoss(d, i, Evaluate(t, d.rows[i]))
  }

  /** Regularisation: lambda / 2 for every squared leaf value. */
  function Penalty(t: Tree, lambda: real): real {
    match t
    case Leaf(v) => lambda * Half(v)
    case Node(_, _, l, r) => Penalty(l, lambda) + Penalty(r, lambda)
  }

  ghost function Objective(d: Data, indices: seq<nat>, t: Tree, c: Config): real
    requires ValidData(d) && Within(indices, |d.rows|) && FitsRows(t, Width(d.rows))
  {
    Loss(d, indices, t) + Penalty(t, c.lambda)
  }

  /** Objective of a constant `w` on rows with gradient sum `g` and hessian sum `h`. */
  function Quadratic(g: real, h: real, lambda: real, w: real): real {
    g * w + h * Half(w) + lambda * Half(w)
  }

  lemma {:induction false} ConstantLoss(d: Data, indices: seq<nat>, w: real)
    requires ValidData(d) && Within(indices, |d.rows|)
    ensures Loss(d, indices, Leaf(w)) == Total(indices, d.gradients) * w + Total(indices, d.hessians) * Half(w)
  {
    if indices != [] {
      var n := |indices| - 1;
      ConstantLoss(d, indices[..n], w);
      Distribute(Total(indices[..n], d.gradients), d.gradients[indices[n]], w);
      Distribute(Total(indices[..n], d.hessians), d.hessians[indices[n]], Half(w));
    }
  }

  lemma {:induction false} Distribute(x: real, y: real, w: real)
    ensures (x + y) * w == x * w + y * w
  {
  }

  lemma {:induction false} LossSplits(d: Data, indices: seq<nat>, t: Tree)
    requires ValidData(d) && Within(indices, |d.rows|) && FitsRows(t, Width(d.rows)) && t.Node?
    ensures
      var cand := Candidate(t.feature, t.threshold);
      Loss(d, indices, t)
      == Loss(d, Side(d, indices, cand, true), t.left) + Loss(d, Side(d, indices, cand, false), t.right)
  {
    if indices != [] {
      var n := |indices| - 1;
      var cand := Candidate(t.feature, t.threshold);
      LossSplits(d, indices[..n], t);
      var left, right := Side(d, indices[..n], cand, true), Side(d, indices[..n], cand, false);
      var i := indices[n];
      assert Evaluate(t, d.rows[i]) == Evaluate(if GoesLeft(d.rows[i], cand) then t.left else t.right, d.rows[i]);
      if GoesLeft(d.rows[i], cand) {
        assert (left + [indices[n]])[..|left|] == left && Side(d, indices, cand, false) == right;
      } else {
        assert (right + [indices[n]])[..|right|] == right && Side(d, indices, cand, true) == left;
      }
    }
  }

  /** Completing the square: `v` is the best constant when D * v == -G. */
  lemma {:induction false} BestConstant(g: real, h: real, lambda: real, v: real, w: real)
    requires h >= 0.0 && lambda > 0.0 && v == -g / (h + lambda)
    ensures Quadratic(g, h, lambda, w) >= Quadratic(g, h, lambda, v) == -SquareOver(g, h + lambda) / 2.0
  {
    var n := h + lambda;
    QuotientFacts(g, n, v);
    Distribute(h, lambda, Half(w));
    Distribute(h, lambda, Half(v));
    SquareGap(n, v, w);
    assert g == -(n * v);
    assert g * w == -(n * v * w);
    assert g * v == -(n * v * v);
  }

  lemma {:induction false} QuotientFacts(g: real, n: real, v: real)
    requires n > 0.0 && v == -g / n
    ensures n * v == -g
    ensures SquareOver(g, n) == n * v * v
  {
    assert g * g == n * (n * v * v) by { assert g == -(n * v); }
    CancelFactor(n, n * v * v);
  }

  lemma {:induction false} CancelFactor(n: real, x: real)
    requires n > 0.0
    ensures n * x / n == x
  {
  }

  lemma {:induction false} SquareGap(n: real, v: real, w: real)
    requires n > 0.0
    ensures -(n * v * w) + n * Half(w) >= -(n * v * v) + n * Half(v)
  {
    var gap := (w - v) * (w - v);
    assert gap >= 0.0;
    assert n * gap >= 0.0;
    assert n * gap == n * w * w - 2.0 * (n * v * w) + n * v * v;
  }

  ghost predicate SameSplits(t: Tree, u: Tree) {
    match t
    case Leaf(_) => u.Leaf?
    case Node(f, threshold, l, r) =>
      u.Node? && u.feature == f && u.threshold == threshold && SameSplits(l, u.left) && SameSplits(r, u.right)
  }

  lemma {:induction false} ConstantObjective(d: Data, indices: seq<nat>, c: Config, w: real)
    requires ValidData(d) && ValidConfig(c) && Within(indices, |d.rows|)
    ensures Objective(d, indices, Leaf(w), c)
         == Quadratic(Total(indices, d.gradients), Total(indices, d.hessians), c.lambda, w)
  {
    ConstantLoss(d, indices, w);
  }

  /** A single leaf: no value does better than -G / (H + lambda), which scores -G^2 / 2(H + lambda). */
  lemma {:induction false} LeafIsOptimal(d: Data, indices: seq<nat>, c: Config, w: real)
    requires ValidData(d) && ValidConfig(c) && Within(indices, |d.rows|)
    ensures Objective(d, indices, Leaf(LeafValue(d, indices, c)), c) == -Score(d, indices, c) / 2.0
    ensures Objective(d, indices, Leaf(w), c) >= -Score(d, indices, c) / 2.0
  {
    var g, h, v := Total(indices, d.gradients), Total(indices, d.hessians), LeafValue(d, indices, c);
    HessianPositive(d, indices);
    ConstantObjective(d, indices, c, w);
    ConstantObjective(d, indices, c, v);
    BestConstant(g, h, c.lambda, v, w);
  }

  /** Keeping the splits of a grown tree, no other leaf values lower the objective. */
  lemma {:induction false} LeafValuesAreOptimal(t: Tree, d: Data, indices: seq<nat>, depth: nat, c: Config, u: Tree)
    requires ValidData(d) && ValidConfig(c) && Within(indices, |d.rows|) && Grown(t, d, indices, depth, c)
    requires SameSplits(t, u)
    ensures FitsRows(t, Width(d.rows)) && FitsRows(u, Width(d.rows))
    ensures
      var groups := LeafGroups(d, indices, t);
      && GroupsFit(groups, |d.rows|)
      && Objective(d, indices, t, c) == -LeafScores(d, c, groups) / 2.0
      && Objective(d, indices, u, c) >= Objective(d, indices, t, c)
    decreases t
  {
    GrownFits(t, d, indices, depth, c);
    GroupsWithin(d, indices, t);
    if t.Node? {
      var cand := Candidate(t.feature, t.threshold);
      var left, right := Side(d, indices, cand, true), Side(d, indices, cand, false);
      LeafValuesAreOptimal(t.left, d, left, depth + 1, c, u.left);
      LeafValuesAreOptimal(t.right, d, right, depth + 1, c, u.right);
      LeafScoresConcat(d, c, LeafGroups(d, left, t.left), LeafGroups(d, right, t.right));
      LossSplits(d, indices, t);
      LossSplits(d, indices, u);
    } else {
      assert [Group(t.value, indices)][..0] == [];
      LeafIsOptimal(d, indices, c, u.value);
    }
  }

  /** The tree `BuildTree` returns is at least as good as any constant, and better when it splits. */
  lemma {:induction false} TreeBeatsConstant(d: Data, indices: seq<nat>, c: Config, w: real)
    requires ValidData(d) && ValidConfig(c) && Within(indices, |d.rows|)
    ensures
      var t := Grow(d, indices, 0, c);
      && FitsRows(t, Width(d.rows))
      && Objective(d, indices, t, c) <= Objective(d, indices, Leaf(w), c)
      && (t.Node? ==> Objective(d, indices, t, c) < Objective(d, indices, Leaf(w), c))
  {
    var t := Grow(d, indices, 0, c);
    GrowGrows(d, indices, 0, c);
    SameSplitsReflexive(t);
    LeafValuesAreOptimal(t, d, indices, 0, c, t);
    GrownImproves(t, d, indices, 0, c);
    LeafIsOptimal(d, indices, c, w);
  }

  /** The tree with every leaf value scaled, as a round adds it to the scores. */
  function Shrunk(t: Tree, rate: real): Tree {
    match t
    case Leaf(v) => Leaf(rate * v)
    case Node(f, threshold, l, r) => Node(f, threshold, Shrunk(l, rate), Shrunk(r, rate))
  }

  /** What a step of the given rate keeps of an improvement. */
  function Kept(rate: real, x: real): real { rate * (2.0 - rate) * x }

  lemma {:induction false} ShrunkEvaluates(t: Tree, rate: real, row: seq<real>)
    requires FitsRows(t, |row|)
    ensures FitsRows(Shrunk(t, rate), |row|) && Evaluate(Shrunk(t, rate), row) == rate * Evaluate(t, row)
  {
    if t.Node? {
      ShrunkEvaluates(t.left, rate, row);
      ShrunkEvaluates(t.right, rate, row);
    }
  }

  lemma {:induction false} ShrunkFits(t: Tree, rate: real, width: nat)
    requires FitsRows(t, width)
    ensures FitsRows(Shrunk(t, rate), width)
  {
    if t.Node? {
      ShrunkFits(t.left, rate, width);
      ShrunkFits(t.right, rate, width);
    }
  }

  lemma {:induction false} ShrunkQuadratic(g: real, h: real, lambda: real, v: real, rate: real)
    requires h >= 0.0 && lambda > 0.0 && v == -g / (h + lambda)
    ensures Quadratic(g, h, lambda, rate * v) == Kept(rate, Quadratic(g, h, lambda, v))
  {
    var n := h + lambda;
    QuotientFacts(g, n, v);
    var x := n * v * v;
    assert g == -(n * v);
    CompleteSquare(n, v, rate);
    CompleteSquare(n, v, 1.0);
    Distribute(h, lambda, Half(rate * v));
    Distribute(h, lambda, Half(v));
    assert 1.0 * v == v;
    ShareOf(x, rate);
  }

  lemma {:induction false} CompleteSquare(n: real, v: real, rate: real)
    ensures -(n * v) * (rate * v) + n * Half(rate * v) == (n * v * v) * (rate * rate / 2.0 - rate)
  {
    assert Half(rate * v) == rate * rate / 2.0 * (v * v);
    assert n * (rate * rate / 2.0 * (v * v)) == (n * v * v) * (rate * rate / 2.0);
    assert -(n * v) * (rate * v) == -((n * v * v) * rate);
  }

  lemma {:induction false} ShareOf(x: real, rate: real)
    ensures x * (rate * rate / 2.0 - rate) == Kept(rate, x * (1.0 / 2.0 - 1.0))
  {
  }

  lemma {:induction false} NodeObjective(d: Data, indices: seq<nat>, t: Tree, c: Config)
    requires ValidData(d) && Within(indices, |d.rows|) && FitsRows(t, Width(d.rows)) && t.Node?
    ensures
      var cand := Candidate(t.feature, t.threshold);
      Objective(d, indices, t, c)
      == Objective(d, Side(d, indices, cand, true), t.left, c) + Objective(d, Side(d, indices, cand, false), t.right, c)
  {
    LossSplits(d, indices, t);
  }

  lemma {:induction false} LeafStep(d: Data, indices: seq<nat>, c: Config, t: Tree, rate: real)
    requires ValidData(d) && ValidConfig(c) && Within(indices, |d.rows|)
    requires t == Leaf(LeafValue(d, indices, c)) && FitsRows(Shrunk(t, rate), Width(d.rows))
    ensures Objective(d, indices, Shrunk(t, rate), c) == Kept(rate, Objective(d, indices, t, c))
  {
    var g, h, v := Total(indices, d.gradients), Total(indices, d.hessians), LeafValue(d, indices, c);
    HessianPositive(d, indices);
    assert v == -g / (h + c.lambda);
    hide Quadratic, Objective, Kept, Total, LeafValue;
    ConstantObjective(d, indices, c, v);
    ConstantObjective(d, indices, c, rate * v);
    ShrunkQuadratic(g, h, c.lambda, v, rate);
    assert Objective(d, indices, t, c) == Quadratic(g, h, c.lambda, v);
    assert Shrunk(t, rate) == Leaf(rate * v);
    assert Objective(d, indices, Shrunk(t, rate), c) == Quadratic(g, h, c.lambda, rate * v);
  }

  /** A scaled step keeps that share of what the grown tree does to the objective. */
  lemma {:induction false} ShrunkObjective(t: Tree, d: Data, indices: seq<nat>, depth: nat, c: Config, rate: real)
    requires ValidData(d) && ValidConfig(c) && Within(indices, |d.rows|) && Grown(t, d, indices, depth, c)
    ensures FitsRows(t, Width(d.rows)) && FitsRows(Shrunk(t, rate), Width(d.rows))
    ensures Objective(d, indices, Shrunk(t, rate), c) == Kept(rate, Objective(d, indices, t, c))
    decreases t
  {
    hide Objective, Kept, LeafValue, ValidData, Gain, Admissible;
    GrownFits(t, d, indices, depth, c);
    ShrunkFits(t, rate, Width(d.rows));
    if t.Node? {
      var cand := Candidate(t.feature, t.threshold);
      var left, right := Side(d, indices, cand, true), Side(d, indices, cand, false);
      ShrunkObjective(t.left, d, left, depth + 1, c, rate);
      ShrunkObjective(t.right, d, right, depth + 1, c, rate);
      NodeObjective(d, indices, t, c);
      NodeObjective(d, indices, Shrunk(t, rate), c);
      DistributeShare(rate, Objective(d, left, t.left, c), Objective(d, right, t.right, c));
    } else {
      LeafStep(d, indices, c, t, rate);
    }
  }

  lemma {:induction false} DistributeShare(rate: real, x: real, y: real)
    ensures Kept(rate, x + y) == Kept(rate, x) + Kept(rate, y)
  {
  }

  lemma {:induction false} SameSplitsReflexive(t: Tree)
    ensures SameSplits(t, t)
  {
    if t.Node? {
      SameSplitsReflexive(t.left);
      SameSplitsReflexive(t.right);
    }
  }

  // ---------------------------------------------------------------- boosting

  datatype Booster = Booster(base: real, trees: seq<Tree>)

  function ClampProbability(value: real): real {
    if value < 0.000001 then 0.000001 else if value > 0.999999 then 0.999999 else value
  }

  ghost predicate AllFit(trees: seq<Tree>, width: nat) {
    forall k | 0 <= k < |trees| :: FitsRows(trees[k], width)
  }

  /** The score of a row: the base plus the scaled predictions of the trees. */
  function RowScore(m: Booster, row: seq<real>, learningRate: real): real
    requires AllFit(m.trees, |row|)
    decreases |m.trees|
  {
    if m.trees == [] then m.base
    else
      var n := |m.trees| - 1;
      RowScore(m.(trees := m.trees[..n]), row, learningRate) + learningRate * Evaluate(m.trees[n], row)
  }

  /** Gradient and hessian of the logistic loss at the given scores. */
  function RoundData(rows: seq<seq<real>>, labels: seq<real>, scores: seq<real>, sigmoid: real -> real): Data
    requires |rows| == |labels| == |scores|
  {
    Data(rows,
         seq(|rows|, i requires 0 <= i < |rows| => sigmoid(scores[i]) - labels[i]),
         seq(|rows|, i requires 0 <= i < |rows| => Hessian(sigmoid(scores[i]))))
  }

  function Hessian(probability: real): (h: real)
    ensures h >= 0.000001
  {
    var h := probability * (1.0 - probability);
    if h < 0.000001 then 0.000001 else h
  }

  function Range(n: nat): (r: seq<nat>)
    ensures |r| == n && forall i | 0 <= i < n :: r[i] == i
  {
    seq(n, i => i)
  }

  function Scores(m: Booster, rows: seq<seq<real>>, learningRate: real): (r: seq<real>)
    requires Rectangular(rows) && AllFit(m.trees, Width(rows))
    ensures |r| == |rows|
  {
    seq(|rows|, i requires 0 <= i < |rows| => RowScore(m, rows[i], learningRate))
  }

  /** Tree `k` of a trained model is the greedy tree for the scores of the trees before it. */
  ghost predicate Trained(m: Booster, rows: seq<seq<real>>, labels: seq<real>, c: Config, sigmoid: real -> real, k: nat)
    requires ValidConfig(c) && Rectangular(rows) && |rows| == |labels| && k < |m.trees|
  {
    && AllFit(m.trees[..k], Width(rows))
    && m.trees[k] == Grow(RoundData(rows, labels, Scores(m.(trees := m.trees[..k]), rows, c.learningRate), sigmoid),
                          Range(|rows|), 0, c)
  }

  /** One more tree, grown on the current scores, leaves the earlier trees as they were trained. */
  lemma {:induction false} ExtendTrained(m: Booster, tree: Tree, rows: seq<seq<real>>, labels: seq<real>, c: Config,
                                         sigmoid: real -> real, k: nat)
    requires ValidConfig(c) && Rectangular(rows) && |rows| == |labels| && k <= |m.trees|
    requires AllFit(m.trees, Width(rows))
    requires k < |m.trees| ==> Trained(m, rows, labels, c, sigmoid, k)
    requires tree == Grow(RoundData(rows, labels, Scores(m, rows, c.learningRate), sigmoid), Range(|rows|), 0, c)
    ensures Trained(m.(trees := m.trees + [tree]), rows, labels, c, sigmoid, k)
  {
    var next := m.(trees := m.trees + [tree]);
    assert next.trees[..k] == m.trees[..k];
    if k == |m.trees| {
      assert m.trees[..k] == m.trees;
      assert next.(trees := next.trees[..k]) == m;
    } else {
      assert next.(trees := next.trees[..k]) == m.(trees := m.trees[..k]);
    }
  }

  ghost predicate AllTrained(m: Booster, rows: seq<seq<real>>, labels: seq<real>, c: Config, sigmoid: real -> real)
    requires ValidConfig(c) && Rectangular(rows) && |rows| == |labels|
  {
    AllFit(m.trees, Width(rows)) && forall k | 0 <= k < |m.trees| :: Trained(m, rows, labels, c, sigmoid, k)
  }

  lemma {:induction false} ExtendAllTrained(m: Booster, tree: Tree, rows: seq<seq<real>>, labels: seq<real>, c: Config,
                                            sigmoid: real -> real)
    requires ValidConfig(c) && Rectangular(rows) && |rows| == |labels| && AllTrained(m, rows, labels, c, sigmoid)
    requires tree == Grow(RoundData(rows, labels, Scores(m, rows, c.learningRate), sigmoid), Range(|rows|), 0, c)
    requires FitsRows(tree, Width(rows))
    ensures AllTrained(m.(trees := m.trees + [tree]), rows, labels, c, sigmoid)
  {
    forall k | 0 <= k <= |m.trees| ensures Trained(m.(trees := m.trees + [tree]), rows, labels, c, sigmoid, k) {
      ExtendTrained(m, tree, rows, labels, c, sigmoid, k);
    }
  }

  /** Scores after adding one more tree. */
  function Shifted(scores: seq<real>, tree: Tree, rows: seq<seq<real>>, learningRate: real): seq<real>
    requires Rectangular(rows) && FitsRows(tree, Width(rows)) && |scores| == |rows|
  {
    seq(|rows|, i requires 0 <= i < |rows| => scores[i] + learningRate * Evaluate(tree, rows[i]))
  }

  lemma {:induction false} ExtendScores(m: Booster, tree: Tree, rows: seq<seq<real>>, learningRate: real)
    requires Rectangular(rows) && AllFit(m.trees, Width(rows)) && FitsRows(tree, Width(rows))
    ensures AllFit(m.trees + [tree], Width(rows))
    ensures Shifted(Scores(m, rows, learningRate), tree, rows, learningRate)
         == Scores(m.(trees := m.trees + [tree]), rows, learningRate)
  {
    var next := m.(trees := m.trees + [tree]);
    forall i | 0 <= i < |rows|
      ensures Shifted(Scores(m, rows, learningRate), tree, rows, learningRate)[i]
              == RowScore(next, rows[i], learningRate)
    {
      ExtendRowScore(m, tree, rows[i], learningRate);
    }
  }

  lemma {:induction false} ExtendRowScore(m: Booster, tree: Tree, row: seq<real>, learningRate: real)
    requires AllFit(m.trees, |row|) && FitsRows(tree, |row|)
    ensures AllFit(m.trees + [tree], |row|)
    ensures RowScore(m.(trees := m.trees + [tree]), row, learningRate)
         == RowScore(m, row, learningRate) + learningRate * Evaluate(tree, row)
  {
    assert (m.trees + [tree])[..|m.trees|] == m.trees;
  }

  method AddTree(tree: Tree, rows: seq<seq<real>>, learningRate: real, scores: array<real>)
    requires Rectangular(rows) && FitsRows(tree, Width(rows)) && scores.Length == |rows|
    modifies scores
    ensures scores[..] == Shifted(old(scores[..]), tree, rows, learningRate)
  {
    ghost var before := scores[..];
    for i := 0 to |rows|
      invariant forall j | 0 <= j < i :: scores[j] == Shifted(before, tree, rows, learningRate)[j]
      invariant forall j | i <= j < |rows| :: scores[j] == before[j]
    {
      var value := EvaluateTree(tree, rows[i]);
      scores[i] := scores[i] + learningRate * value;
    }
  }

  method BuildRound(rows: seq<seq<real>>, labels: seq<real>, scores: seq<real>, c: Config, sigmoid: real -> real)
    returns (tree: Tree)
    requires ValidConfig(c) && Rectangular(rows) && |rows| == |labels| == |scores|
    ensures tree == Grow(RoundData(rows, labels, scores, sigmoid), Range(|rows|), 0, c)
    ensures FitsRows(tree, Width(rows))
  {
    var d := RoundData(rows, labels, scores, sigmoid);
    tree := BuildTree(d, Range(|rows|), 0, c);
    GrowGrows(d, Range(|rows|), 0, c);
    GrownFits(tree, d, Range(|rows|), 0, c);
  }

  function LabelSum(labels: seq<real>): real {
    if labels == [] then 0.0 else LabelSum(labels[..|labels| - 1]) + labels[|labels| - 1]
  }

  /** The share of positive labels, clamped; no labels count as one. */
  function PositiveShare(labels: seq<real>): real {
    ClampProbability(LabelSum(labels) / (if |labels| > 1 then |labels| as real else 1.0))
  }

  method PositiveRate(labels: seq<real>) returns (rate: real)
    ensures rate == PositiveShare(labels)
    ensures 0.000001 <= rate <= 0.999999
  {
    var positives := 0.0;
    for i := 0 to |labels|
      invariant positives == LabelSum(labels[..i])
    {
      assert labels[..i + 1][..i] == labels[..i];
      positives := positives + labels[i];
    }
    assert labels[..|labels|] == labels;
    rate := ClampProbability(positives / (if |labels| > 1 then |labels| as real else 1.0));
  }

  method TrainBooster(rows: seq<seq<real>>, labels: seq<real>, c: Config, sigmoid: real -> real, logit: real -> real)
    returns (model: Booster, scores: array<real>)
    requires ValidConfig(c) && Rectangular(rows) && |rows| == |labels|
    ensures model.base == logit(PositiveShare(labels))
    ensures |model.trees| == c.rounds && AllTrained(model, rows, labels, c, sigmoid)
    ensures scores[..] == Scores(model, rows, c.learningRate)
  {
    var rate := PositiveRate(labels);
    model := Booster(logit(rate), []);
    scores := new real[|rows|](_ => model.base);
    assert scores[..] == Scores(model, rows, c.learningRate);
    for round := 0 to c.rounds
      invariant model.base == logit(PositiveShare(labels))
      invariant |model.trees| == round && AllTrained(model, rows, labels, c, sigmoid)
      invariant fresh(scores) && scores[..] == Scores(model, rows, c.learningRate)
    {
      var tree := BuildRound(rows, labels, scores[..], c, sigmoid);
      ExtendAllTrained(model, tree, rows, labels, c, sigmoid);
      ExtendScores(model, tree, rows, c.learningRate);
      AddTree(tree, rows, c.learningRate, scores);
      model := model.(trees := model.trees + [tree]);
    }
  }

  /** Serving uses the very score that training ended with, for every training row. */
  method PredictBooster(model: Booster, row: seq<real>, c: Config, sigmoid: real -> real) returns (probability: real)
    requires AllFit(model.trees, |row|)
    ensures probability == ClampProbability(sigmoid(RowScore(model, row, c.learningRate)))
  {
    var score := model.base;
    for k := 0 to |model.trees|
      invariant score == RowScore(model.(trees := model.trees[..k]), row, c.learningRate)
    {
      assert model.trees[..k + 1][..k] == model.trees[..k];
      var value := EvaluateTree(model.trees[k], row);
      score := score + c.learningRate * value;
    }
    assert model.trees[..|model.trees|] == model.trees;
    probability := ClampProbability(sigmoid(score));
  }

  /** A step lowers the objective by the kept share of what its tree would, and strictly when the tree splits. */
  ghost predicate StepLowers(d: Data, indices: seq<nat>, c: Config, t: Tree) {
    var step := Shrunk(t, c.learningRate);
    && ValidData(d) && Within(indices, |d.rows|) && FitsRows(t, Width(d.rows)) && FitsRows(step, Width(d.rows))
    && Objective(d, indices, step, c) == Kept(c.learningRate, Objective(d, indices, t, c)) <= 0.0
    && (t.Node? ==> Objective(d, indices, step, c) < 0.0)
  }

  /** What a round adds to the scores is the prediction of its scaled tree. */
  ghost predicate StepTaken(scores: seq<real>, t: Tree, rows: seq<seq<real>>, rate: real) {
    && Rectangular(rows) && FitsRows(t, Width(rows)) && FitsRows(Shrunk(t, rate), Width(rows)) && |scores| == |rows|
    && forall i | 0 <= i < |rows| ::
         Shifted(scores, t, rows, rate)[i] == scores[i] + Evaluate(Shrunk(t, rate), rows[i])
  }

  /**
   * The step of a boosting round, its tree scaled by the learning rate, never raises the regularised
   * objective for a rate up to one, and lowers it when the tree splits.
   */
  lemma {:induction false} RoundImproves(m: Booster, rows: seq<seq<real>>, labels: seq<real>, c: Config,
                                         sigmoid: real -> real, k: nat)
    requires ValidConfig(c) && Rectangular(rows) && |rows| == |labels| && k < |m.trees|
    requires Trained(m, rows, labels, c, sigmoid, k) && 0.0 < c.learningRate <= 1.0
    ensures
      var before := Scores(m.(trees := m.trees[..k]), rows, c.learningRate);
      && StepTaken(before, m.trees[k], rows, c.learningRate)
      && StepLowers(RoundData(rows, labels, before, sigmoid), Range(|rows|), c, m.trees[k])
  {
    var before := Scores(m.(trees := m.trees[..k]), rows, c.learningRate);
    var d := RoundData(rows, labels, before, sigmoid);
    hide StepLowers, StepTaken, Grow, Scores, RoundData, Range;
    RoundDataValid(rows, labels, before, sigmoid);
    StepImproves(d, Range(|rows|), c, m.trees[k]);
    GrowGrows(d, Range(|rows|), 0, c);
    GrownFits(m.trees[k], d, Range(|rows|), 0, c);
    ShrunkStep(before, m.trees[k], rows, c.learningRate);
  }

  lemma {:induction false} RoundDataValid(rows: seq<seq<real>>, labels: seq<real>, scores: seq<real>,
                                          sigmoid: real -> real)
    requires Rectangular(rows) && |rows| == |labels| == |scores|
    ensures
      var d := RoundData(rows, labels, scores, sigmoid);
      ValidData(d) && d.rows == rows && Within(Range(|rows|), |d.rows|)
  {
  }

  lemma {:induction false} StepImproves(d: Data, indices: seq<nat>, c: Config, t: Tree)
    requires ValidData(d) && ValidConfig(c) && Within(indices, |d.rows|) && 0.0 < c.learningRate <= 1.0
    requires t == Grow(d, indices, 0, c)
    ensures StepLowers(d, indices, c, t)
  {
    hide Objective, Kept, Grow, Grown;
    GrowGrows(d, indices, 0, c);
    ShrunkObjective(t, d, indices, 0, c, c.learningRate);
    ZeroObjective(d, indices, c);
    TreeBeatsConstant(d, indices, c, 0.0);
    KeptSign(c.learningRate, Objective(d, indices, t, c));
  }

  lemma {:induction false} ShrunkStep(scores: seq<real>, t: Tree, rows: seq<seq<real>>, rate: real)
    requires Rectangular(rows) && FitsRows(t, Width(rows)) && |scores| == |rows|
    ensures StepTaken(scores, t, rows, rate)
  {
    ShrunkFits(t, rate, Width(rows));
    forall i | 0 <= i < |rows|
      ensures Shifted(scores, t, rows, rate)[i] == scores[i] + Evaluate(Shrunk(t, rate), rows[i])
    {
      ShrunkEvaluates(t, rate, rows[i]);
    }
  }

  lemma {:induction false} KeptSign(rate: real, x: real)
    requires 0.0 < rate <= 1.0 && x <= 0.0
    ensures Kept(rate, x) <= 0.0 && (x < 0.0 ==> Kept(rate, x) < 0.0)
  {
    var y := 2.0 - rate;
    Positive(rate, y);
    var z := rate * y;
    if x < 0.0 { Positive(z, -x); }
    assert Kept(rate, x) == z * x;
  }

  lemma {:induction false} Positive(x: real, y: real)
    requires x > 0.0 && y > 0.0
    ensures x * y > 0.0
  {
  }

  lemma {:induction false} ZeroObjective(d: Data, indices: seq<nat>, c: Config)
    requires ValidData(d) && ValidConfig(c) && Within(indices, |d.rows|)
    ensures Objective(d, indices, Leaf(0.0), c) == 0.0
  {
    ConstantObjective(d, indices, c, 0.0);
  }
}
