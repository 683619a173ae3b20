/**
 * What boosting does for the labels (backend/src/models/gradientBoosting.ts): every tree points
 * towards them, its leaves are their regularised residual means, and greedy growth stops only
 * where no split is left.
 */
module BoostingGuarantees {
  import opened GradientBoosting

  // ---------------------------------------------------------------- every tree points towards the labels

  /** How far a label is from what the scores so far predict. */
  function Residual(target: real, score: real, sigmoid: real -> real): real {
    target - sigmoid(score)
  }

  function Product(x: real, y: real): real { x * y }

  /** The predictions of a tree against the residuals of the first `n` rows. */
  ghost function Agreement(t: Tree, rows: seq<seq<real>>, labels: seq<real>, scores: seq<real>,
                           sigmoid: real -> real, n: nat): real
    requires Rectangular(rows) && FitsRows(t, Width(rows)) && n <= |rows| == |labels| == |scores|
  {
    if n == 0 then 0.0
    else
      Agreement(t, rows, labels, scores, sigmoid, n - 1)
      + Product(Evaluate(t, rows[n - 1]), Residual(labels[n - 1], scores[n - 1], sigmoid))
  }

  ghost function Descent(d: Data, indices: seq<nat>, t: Tree): real
    requires ValidData(d) && Within(indices, |d.rows|) && FitsRows(t, Width(d.rows))
  {
    if indices == [] then 0.0
    else
      var i := indices[|indices| - 1];
      Descent(d, indices[..|indices| - 1], t) + RowDescent(d, i, Evaluate(t, d.rows[i]))
  }

  function RowDescent(d: Data, i: nat, w: real): real
    requires i < |d.gradients|
  {
    Product(w, -d.gradients[i])
  }

  lemma {:induction false} DescentSplits(d: Data, indices: seq<nat>, t: Tree)
    requires ValidData(d) && Within(indices, |d.rows|) && FitsRows(t, Width(d.rows)) && t.Node?
    ensures
      var cand := Candidate(t.feature, t.threshold);
      Descent(d, indices, t)
      == Descent(d, Side(d, indices, cand, true), t.left) + Descent(d, Side(d, indices, cand, false), t.right)
  {
    hide RowDescent;
    if indices != [] {
      var n := |indices| - 1;
      var cand := Candidate(t.feature, t.threshold);
      DescentSplits(d, indices[..n], t);
      var left, right := Side(d, indices[..n], cand, true), Side(d, indices[..n], cand, false);
      var i := indices[n];
      assert Evaluate(t, d.rows[i]) == Evaluate(if GoesLeft(d.rows[i], cand) then t.left else t.right, d.rows[i]);
      if GoesLeft(d.rows[i], cand) {
        assert (left + [indices[n]])[..|left|] == left && Side(d, indices, cand, false) == right;
      } else {
        assert (right + [indices[n]])[..|right|] == right && Side(d, indices, cand, true) == left;
      }
    }
  }

  lemma {:induction false} LeafDescent(d: Data, indices: seq<nat>, w: real)
    requires ValidData(d) && Within(indices, |d.rows|)
    ensures Descent(d, indices, Leaf(w)) == -Product(Total(indices, d.gradients), w)
  {
    hide Product;
    if indices != [] {
      var n := |indices| - 1;
      LeafDescent(d, indices[..n], w);
      AddProduct(Total(indices[..n], d.gradients), d.gradients[indices[n]], w);
    } else {
      ProductSign(0.0, w);
    }
  }

  lemma {:induction false} AddProduct(x: real, y: real, w: real)
    ensures Product(x + y, w) == Product(x, w) - Product(w, -y)
  {
  }

  lemma {:induction false} ProductSign(x: real, w: real)
    requires x == 0.0
    ensures Product(x, w) == 0.0
  {
  }

  lemma {:induction false} OptimalLeafDescent(d: Data, indices: seq<nat>, c: Config)
    requires ValidData(d) && ValidConfig(c) && Within(indices, |d.rows|)
    ensures Descent(d, indices, Leaf(LeafValue(d, indices, c))) == Score(d, indices, c)
  {
    var g, h, v := Total(indices, d.gradients), Total(indices, d.hessians), LeafValue(d, indices, c);
    HessianPositive(d, indices);
    LeafDescent(d, indices, v);
    QuotientFacts(g, h + c.lambda, v);
    TimesNegated(h + c.lambda, v, g);
  }

  lemma {:induction false} TimesNegated(n: real, v: real, g: real)
    requires n * v == -g
    ensures n * v * v == -Product(g, v)
  {
  }

  /** On the rows it is grown on, a tree descends by the sum of its leaf scores. */
  lemma {:induction false} GrownDescends(t: Tree, d: Data, indices: seq<nat>, depth: nat, c: Config)
    requires ValidData(d) && ValidConfig(c) && Within(indices, |d.rows|) && Grown(t, d, indices, depth, c)
    ensures FitsRows(t, Width(d.rows))
    ensures GroupsFit(LeafGroups(d, indices, t), |d.rows|)
    ensures Descent(d, indices, t) == LeafScores(d, c, LeafGroups(d, indices, t))
    decreases t
  {
    GrownFits(t, d, indices, depth, c);
    GroupsWithin(d, indices, t);
    if t.Node? {
      var cand := Candidate(t.feature, t.threshold);
      var left, right := Side(d, indices, cand, true), Side(d, indices, cand, false);
      GrownDescends(t.left, d, left, depth + 1, c);
      GrownDescends(t.right, d, right, depth + 1, c);
      LeafScoresConcat(d, c, LeafGroups(d, left, t.left), LeafGroups(d, right, t.right));
      DescentSplits(d, indices, t);
    } else {
      assert [Group(t.value, indices)][..0] == [];
      OptimalLeafDescent(d, indices, c);
    }
  }

  lemma {:induction false} SquareOverSign(g: real, n: real)
    requires n > 0.0
    ensures SquareOver(g, n) >= 0.0
  {
    assert g * g >= 0.0;
  }

  lemma {:induction false} ScoreSign(d: Data, indices: seq<nat>, c: Config)
    requires ValidData(d) && ValidConfig(c) && Within(indices, |d.rows|)
    ensures Score(d, indices, c) >= 0.0
  {
    HessianPositive(d, indices);
    SquareOverSign(Total(indices, d.gradients), Total(indices, d.hessians) + c.lambda);
  }

  lemma {:induction false} DescentSign(d: Data, indices: seq<nat>, c: Config, t: Tree)
    requires ValidData(d) && ValidConfig(c) && Within(indices, |d.rows|) && t == Grow(d, indices, 0, c)
    ensures FitsRows(t, Width(d.rows))
    ensures Descent(d, indices, t) >= 0.0
    ensures t.Node? ==> Descent(d, indices, t) > 0.0
  {
    hide Grow, Grown, Descent, Score, LeafScores, LeafGroups, GroupsFit;
    GrowGrows(d, indices, 0, c);
    GrownDescends(t, d, indices, 0, c);
    GrownImproves(t, d, indices, 0, c);
    ScoreSign(d, indices, c);
  }

  lemma {:induction false} AgreementIsDescent(t: Tree, rows: seq<seq<real>>, labels: seq<real>, scores: seq<real>,
                                              sigmoid: real -> real, n: nat)
    requires Rectangular(rows) && FitsRows(t, Width(rows)) && n <= |rows| == |labels| == |scores|
    ensures ValidData(RoundData(rows, labels, scores, sigmoid))
    ensures Agreement(t, rows, labels, scores, sigmoid, n)
         == Descent(RoundData(rows, labels, scores, sigmoid), Range(n), t)
  {
    if n > 0 {
      AgreementIsDescent(t, rows, labels, scores, sigmoid, n - 1);
      assert Range(n)[..n - 1] == Range(n - 1);
    }
  }

  /**
   * Every tree of a trained model agrees with what the labels still ask for: weighed against the
   * residuals its predictions add up to at least zero, and to more than zero once it splits.
   */
  lemma {:induction false} TreesFollowLabels(m: Booster, rows: seq<seq<real>>, labels: seq<real>, c: Config,
                                             sigmoid: real -> real, k: nat)
    requires ValidConfig(c) && Rectangular(rows) && |rows| == |labels| && k < |m.trees|
    requires Trained(m, rows, labels, c, sigmoid, k)
    ensures FitsRows(m.trees[k], Width(rows))
    ensures
      var before := Scores(m.(trees := m.trees[..k]), rows, c.learningRate);
      && Agreement(m.trees[k], rows, labels, before, sigmoid, |rows|) >= 0.0
      && (m.trees[k].Node? ==> Agreement(m.trees[k], rows, labels, before, sigmoid, |rows|) > 0.0)
  {
    var before := Scores(m.(trees := m.trees[..k]), rows, c.learningRate);
    var d := RoundData(rows, labels, before, sigmoid);
    hide Grow, Scores, RoundData, Range, Agreement, Descent;
    RoundDataValid(rows, labels, before, sigmoid);
    DescentSign(d, Range(|rows|), c, m.trees[k]);
    AgreementIsDescent(m.trees[k], rows, labels, before, sigmoid, |rows|);
  }

  /** How far a round moves the first `n` scores, against the residuals it started from. */
  ghost function Movement(before: seq<real>, after: seq<real>, labels: seq<real>, sigmoid: real -> real, n: nat): real
    requires n <= |before| == |after| == |labels|
  {
    if n == 0 then 0.0
    else
      Movement(before, after, labels, sigmoid, n - 1)
      + Product(after[n - 1] - before[n - 1], Residual(labels[n - 1], before[n - 1], sigmoid))
  }

  lemma {:induction false} MovementIsAgreement(before: seq<real>, after: seq<real>, t: Tree, rows: seq<seq<real>>,
                                               labels: seq<real>, sigmoid: real -> real, rate: real, n: nat)
    requires Rectangular(rows) && FitsRows(t, Width(rows)) && n <= |before| == |after| == |labels| == |rows|
    requires forall i | 0 <= i < |rows| :: after[i] == before[i] + rate * Evaluate(t, rows[i])
    ensures Movement(before, after, labels, sigmoid, n)
         == Product(rate, Agreement(t, rows, labels, before, sigmoid, n))
  {
    hide Product;
    if n > 0 {
      MovementIsAgreement(before, after, t, rows, labels, sigmoid, rate, n - 1);
      var residual := Residual(labels[n - 1], before[n - 1], sigmoid);
      ScaleProduct(rate, Evaluate(t, rows[n - 1]), residual, after[n - 1] - before[n - 1]);
      SumProduct(rate, Agreement(t, rows, labels, before, sigmoid, n - 1),
                 Product(Evaluate(t, rows[n - 1]), residual));
    } else {
      ProductSign(0.0, rate);
      ProductSwaps(0.0, rate);
    }
  }

  lemma {:induction false} ScaleProduct(rate: real, w: real, residual: real, step: real)
    requires step == rate * w
    ensures Product(step, residual) == Product(rate, Product(w, residual))
  {
  }

  lemma {:induction false} SumProduct(rate: real, x: real, y: real)
    ensures Product(rate, x + y) == Product(rate, x) + Product(rate, y)
  {
  }

  lemma {:induction false} ProductSwaps(x: real, y: real)
    ensures Product(x, y) == Product(y, x)
  {
  }

  lemma {:induction false} ProductKeepsSign(rate: real, x: real)
    requires rate > 0.0
    ensures x >= 0.0 ==> Product(rate, x) >= 0.0
    ensures x > 0.0 ==> Product(rate, x) > 0.0
  {
  }

  lemma {:induction false} RoundShifts(m: Booster, rows: seq<seq<real>>, rate: real, k: nat)
    requires Rectangular(rows) && k < |m.trees|
    requires AllFit(m.trees[..k], Width(rows)) && FitsRows(m.trees[k], Width(rows))
    ensures AllFit(m.trees[..k + 1], Width(rows))
    ensures
      var before := Scores(m.(trees := m.trees[..k]), rows, rate);
      var after := Scores(m.(trees := m.trees[..k + 1]), rows, rate);
      forall i | 0 <= i < |rows| :: after[i] == before[i] + rate * Evaluate(m.trees[k], rows[i])
  {
    var earlier := m.(trees := m.trees[..k]);
    assert m.trees[..k + 1] == earlier.trees + [m.trees[k]];
    forall i | 0 <= i < |rows|
      ensures RowScore(m.(trees := m.trees[..k + 1]), rows[i], rate)
              == RowScore(earlier, rows[i], rate) + rate * Evaluate(m.trees[k], rows[i])
    {
      ExtendRowScore(earlier, m.trees[k], rows[i], rate);
    }
  }

  /**
   * With a positive learning rate every round moves the scores of the training rows towards their
   * labels: what it adds, weighed against the residuals, is never negative and positive for a split tree.
   */
  lemma {:induction false} RoundsFollowLabels(m: Booster, rows: seq<seq<real>>, labels: seq<real>, c: Config,
                                              sigmoid: real -> real, k: nat)
    requires ValidConfig(c) && Rectangular(rows) && |rows| == |labels| && k < |m.trees| && c.learningRate > 0.0
    requires Trained(m, rows, labels, c, sigmoid, k)
    ensures AllFit(m.trees[..k + 1], Width(rows))
    ensures
      var before, after := Scores(m.(trees := m.trees[..k]), rows, c.learningRate),
                           Scores(m.(trees := m.trees[..k + 1]), rows, c.learningRate);
      && Movement(before, after, labels, sigmoid, |rows|) >= 0.0
      && (m.trees[k].Node? ==> Movement(before, after, labels, sigmoid, |rows|) > 0.0)
  {
    hide Scores, Agreement, Movement, Product, Grow;
    TreesFollowLabels(m, rows, labels, c, sigmoid, k);
    RoundShifts(m, rows, c.learningRate, k);
    var before, after := Scores(m.(trees := m.trees[..k]), rows, c.learningRate),
                         Scores(m.(trees := m.trees[..k + 1]), rows, c.learningRate);
    MovementIsAgreement(before, after, m.trees[k], rows, labels, sigmoid, c.learningRate, |rows|);
    ProductKeepsSign(c.learningRate, Agreement(m.trees[k], rows, labels, before, sigmoid, |rows|));
  }

  // ---------------------------------------------------------------- leaves in terms of the labels

  /** The turns a row takes from the root to its leaf, `true` to the left. */
  function Path(t: Tree, row: seq<real>): seq<bool>
    requires FitsRows(t, |row|)
  {
    match t
    case Leaf(_) => []
    case Node(f, threshold, l, r) =>
      if row[f] <= threshold then [true] + Path(l, row) else [false] + Path(r, row)
  }

  /** The values of those rows that take the given path. */
  ghost function PathTotal(t: Tree, rows: seq<seq<real>>, indices: seq<nat>, path: seq<bool>, values: seq<real>): real
    requires Rectangular(rows) && FitsRows(t, Width(rows)) && Within(indices, |rows|) && |values| == |rows|
  {
    if indices == [] then 0.0
    else
      var i := indices[|indices| - 1];
      PathTotal(t, rows, indices[..|indices| - 1], path, values) + if Path(t, rows[i]) == path then values[i] else 0.0
  }

  lemma {:induction false} LeafTotal(w: real, rows: seq<seq<real>>, indices: seq<nat>, values: seq<real>)
    requires Rectangular(rows) && Within(indices, |rows|) && |values| == |rows|
    ensures PathTotal(Leaf(w), rows, indices, [], values) == Total(indices, values)
  {
    if indices != [] { LeafTotal(w, rows, indices[..|indices| - 1], values); }
  }

  lemma {:induction false} SideTotal(d: Data, indices: seq<nat>, t: Tree, goesLeft: bool, rest: seq<bool>,
                                     values: seq<real>)
    requires ValidData(d) && Within(indices, |d.rows|) && FitsRows(t, Width(d.rows)) && t.Node?
    requires |values| == |d.rows|
    ensures
      var side := Side(d, indices, Candidate(t.feature, t.threshold), goesLeft);
      PathTotal(t, d.rows, indices, [goesLeft] + rest, values)
      == PathTotal(if goesLeft then t.left else t.right, d.rows, side, rest, values)
  {
    var child := if goesLeft then t.left else t.right;
    var cand := Candidate(t.feature, t.threshold);
    if indices == [] {
      assert Side(d, indices, cand, goesLeft) == [];
    } else {
      hide Path, PathTotal;
      var n := |indices| - 1;
      var side, i := Side(d, indices[..n], cand, goesLeft), indices[n];
      SideTotal(d, indices[..n], t, goesLeft, rest, values);
      PathStep(t, d.rows[i], goesLeft, rest);
      PathTotalNext(t, d.rows, indices[..n], i, [goesLeft] + rest, values);
      assert indices == indices[..n] + [i];
      if GoesLeft(d.rows[i], cand) == goesLeft {
        PathTotalNext(child, d.rows, side, i, rest, values);
        assert Side(d, indices, cand, goesLeft) == side + [i];
      } else {
        assert Side(d, indices, cand, goesLeft) == side;
      }
    }
  }

  lemma {:induction false} PathTotalNext(t: Tree, rows: seq<seq<real>>, indices: seq<nat>, i: nat, path: seq<bool>,
                                         values: seq<real>)
    requires Rectangular(rows) && FitsRows(t, Width(rows))
    requires Within(indices, |rows|) && |values| == |rows| && i < |rows|
    ensures Within(indices + [i], |rows|)
    ensures PathTotal(t, rows, indices + [i], path, values)
         == PathTotal(t, rows, indices, path, values) + if Path(t, rows[i]) == path then values[i] else 0.0
  {
    hide Path;
    assert (indices + [i])[..|indices|] == indices;
  }

  lemma {:induction false} PathStep(t: Tree, row: seq<real>, goesLeft: bool, rest: seq<bool>)
    requires FitsRows(t, |row|) && t.Node?
    ensures Path(t, row) == [goesLeft] + rest
       <==> (row[t.feature] <= t.threshold) == goesLeft && Path(if goesLeft then t.left else t.right, row) == rest
  {
    var path := Path(t, row);
    if path == [goesLeft] + rest {
      assert path[0] == goesLeft && path[1..] == rest;
    }
    assert path[1..] == Path(if row[t.feature] <= t.threshold then t.left else t.right, row);
  }

  lemma {:induction false} LeafProduct(g: real, n: real, v: real)
    requires n > 0.0 && v == -g / n
    ensures Product(v, n) == -g
  {
    QuotientFacts(g, n, v);
  }

  /** The prediction for row `i`, times lambda plus the hessians at its leaf, is minus the gradients there. */
  ghost predicate PathBalance(t: Tree, d: Data, indices: seq<nat>, c: Config, i: nat) {
    && ValidData(d) && Within(indices, |d.rows|) && FitsRows(t, Width(d.rows)) && i < |d.rows|
    && var path := Path(t, d.rows[i]);
       Product(Evaluate(t, d.rows[i]), PathTotal(t, d.rows, indices, path, d.hessians) + c.lambda)
       == -PathTotal(t, d.rows, indices, path, d.gradients)
  }

  lemma {:induction false} LeafBalance(d: Data, indices: seq<nat>, c: Config, i: nat)
    requires ValidData(d) && ValidConfig(c) && Within(indices, |d.rows|) && i < |d.rows|
    ensures PathBalance(Leaf(LeafValue(d, indices, c)), d, indices, c, i)
  {
    hide Product, PathTotal;
    var v := LeafValue(d, indices, c);
    LeafTotal(v, d.rows, indices, d.hessians);
    LeafTotal(v, d.rows, indices, d.gradients);
    HessianPositive(d, indices);
    LeafProduct(Total(indices, d.gradients), Total(indices, d.hessians) + c.lambda, v);
  }

  lemma {:induction false} NodeBalance(t: Tree, d: Data, indices: seq<nat>, c: Config, i: nat, goesLeft: bool)
    requires ValidData(d) && Within(indices, |d.rows|) && FitsRows(t, Width(d.rows)) && t.Node? && i < |d.rows|
    requires goesLeft == (d.rows[i][t.feature] <= t.threshold)
    requires
      var child := if goesLeft then t.left else t.right;
      PathBalance(child, d, Side(d, indices, Candidate(t.feature, t.threshold), goesLeft), c, i)
    ensures PathBalance(t, d, indices, c, i)
  {
    hide Product, PathTotal;
    var child := if goesLeft then t.left else t.right;
    var rest := Path(child, d.rows[i]);
    assert Path(t, d.rows[i]) == [goesLeft] + rest;
    SideTotal(d, indices, t, goesLeft, rest, d.hessians);
    SideTotal(d, indices, t, goesLeft, rest, d.gradients);
  }

  lemma {:induction false} GrownPath(t: Tree, d: Data, indices: seq<nat>, depth: nat, c: Config, i: nat)
    requires ValidData(d) && ValidConfig(c) && Within(indices, |d.rows|) && Grown(t, d, indices, depth, c)
    requires i in indices
    ensures PathBalance(t, d, indices, c, i)
    decreases t
  {
    hide PathBalance, Gain, Admissible, LeafValue;
    GrownFits(t, d, indices, depth, c);
    if t.Node? {
      var cand := Candidate(t.feature, t.threshold);
      var goesLeft := GoesLeft(d.rows[i], cand);
      SideMembers(d, indices, cand, goesLeft, i);
      GrownPath(if goesLeft then t.left else t.right, d, Side(d, indices, cand, goesLeft), depth + 1, c, i);
      NodeBalance(t, d, indices, c, i, goesLeft);
    } else {
      LeafBalance(d, indices, c, i);
    }
  }

  /** How far each label is from what the scores so far predict. */
  function Residuals(labels: seq<real>, scores: seq<real>, sigmoid: real -> real): (r: seq<real>)
    requires |labels| == |scores|
    ensures |r| == |labels|
  {
    seq(|labels|, i requires 0 <= i < |labels| => Residual(labels[i], scores[i], sigmoid))
  }

  /** The variance p * (1 - p) of each prediction, kept at one millionth or more. */
  function Variances(scores: seq<real>, sigmoid: real -> real): (r: seq<real>)
    ensures |r| == |scores|
  {
    seq(|scores|, i requires 0 <= i < |scores| => Variance(sigmoid(scores[i])))
  }

  function Variance(p: real): real {
    if p - p * p >= 1.0 / 1000000.0 then p - p * p else 1.0 / 1000000.0
  }

  lemma {:induction false} NegatedTotal(t: Tree, rows: seq<seq<real>>, indices: seq<nat>, path: seq<bool>,
                                        values: seq<real>, negated: seq<real>)
    requires Rectangular(rows) && FitsRows(t, Width(rows)) && Within(indices, |rows|)
    requires |values| == |negated| == |rows| && forall i | 0 <= i < |rows| :: negated[i] == -values[i]
    ensures PathTotal(t, rows, indices, path, negated) == -PathTotal(t, rows, indices, path, values)
  {
    if indices != [] { NegatedTotal(t, rows, indices[..|indices| - 1], path, values, negated); }
  }

  lemma {:induction false} HessianIsVariance(p: real)
    ensures Hessian(p) == Variance(p)
  {
    assert p * (1.0 - p) == p - p * p;
  }

  lemma {:induction false} RoundDataMeaning(rows: seq<seq<real>>, labels: seq<real>, scores: seq<real>,
                                            sigmoid: real -> real)
    requires Rectangular(rows) && |rows| == |labels| == |scores|
    ensures
      var d := RoundData(rows, labels, scores, sigmoid);
      && d.rows == rows && |d.gradients| == |rows| && d.hessians == Variances(scores, sigmoid)
      && forall i | 0 <= i < |rows| :: d.gradients[i] == -Residuals(labels, scores, sigmoid)[i]
  {
    forall i | 0 <= i < |rows| ensures Hessian(sigmoid(scores[i])) == Variance(sigmoid(scores[i])) {
      HessianIsVariance(sigmoid(scores[i]));
    }
  }

  /** For row `i`: the residuals of the rows that share its leaf, divided by lambda plus their variances. */
  ghost predicate ResidualShare(t: Tree, rows: seq<seq<real>>, residuals: seq<real>, variances: seq<real>, lambda: real,
                                i: nat)
  {
    && Rectangular(rows) && FitsRows(t, Width(rows)) && |residuals| == |variances| == |rows| && i < |rows|
    && var path := Path(t, rows[i]);
       Product(Evaluate(t, rows[i]), PathTotal(t, rows, Range(|rows|), path, variances) + lambda)
       == PathTotal(t, rows, Range(|rows|), path, residuals)
  }

  lemma {:induction false} RoundPath(d: Data, c: Config, i: nat)
    requires ValidData(d) && ValidConfig(c) && i < |d.rows|
    ensures PathBalance(Grow(d, Range(|d.rows|), 0, c), d, Range(|d.rows|), c, i)
  {
    var all := Range(|d.rows|);
    hide Grow, PathBalance, Range;
    GrowGrows(d, all, 0, c);
    assert all[i] == i && i in all;
    GrownPath(Grow(d, all, 0, c), d, all, 0, c, i);
  }

  lemma {:induction false} RoundShare(d: Data, residuals: seq<real>, c: Config, i: nat)
    requires ValidData(d) && ValidConfig(c) && i < |d.rows| == |residuals|
    requires forall j | 0 <= j < |d.rows| :: d.gradients[j] == -residuals[j]
    ensures ResidualShare(Grow(d, Range(|d.rows|), 0, c), d.rows, residuals, d.hessians, c.lambda, i)
  {
    var all := Range(|d.rows|);
    var t := Grow(d, all, 0, c);
    hide Grow, PathTotal, Product, Path, Evaluate, Range, FitsRows;
    RoundPath(d, c, i);
    NegatedTotal(t, d.rows, all, Path(t, d.rows[i]), residuals, d.gradients);
  }

  /** Every prediction of a trained tree on a training row is the regularised mean of the residuals at its leaf. */
  lemma {:induction false} PredictionIsResidualShare(m: Booster, rows: seq<seq<real>>, labels: seq<real>, c: Config,
                                                     sigmoid: real -> real, k: nat, i: nat)
    requires ValidConfig(c) && Rectangular(rows) && |rows| == |labels| && k < |m.trees| && i < |rows|
    requires Trained(m, rows, labels, c, sigmoid, k)
    ensures
      var before := Scores(m.(trees := m.trees[..k]), rows, c.learningRate);
      ResidualShare(m.trees[k], rows, Residuals(labels, before, sigmoid), Variances(before, sigmoid), c.lambda, i)
  {
    var before := Scores(m.(trees := m.trees[..k]), rows, c.learningRate);
    var d := RoundData(rows, labels, before, sigmoid);
    hide Grow, Scores, RoundData, Residuals, Variances, ResidualShare;
    RoundDataValid(rows, labels, before, sigmoid);
    RoundDataMeaning(rows, labels, before, sigmoid);
    RoundShare(d, Residuals(labels, before, sigmoid), c, i);
  }

  // ---------------------------------------------------------------- greedy growth is exhausted

  /** No split of the rows leaves `minChild` on both sides and gains anything. */
  ghost predicate NoSplitLeft(d: Data, indices: seq<nat>, c: Config)
    requires ValidData(d) && ValidConfig(c) && Within(indices, |d.rows|)
  {
    forall f, x | 0 <= f < Width(d.rows) && x in Thresholds(FeatureValues(d, indices, f), c.maxThresholds) ::
      var left, right := Side(d, indices, Candidate(f, x), true), Side(d, indices, Candidate(f, x), false);
      |left| < c.minChild || |right| < c.minChild || Score(d, left, c) + Score(d, right, c) <= Score(d, indices, c)
  }

  /** The split of a node leaves `minChild` rows on both sides and no other such split scores more. */
  ghost predicate BestSplit(d: Data, indices: seq<nat>, c: Config, cand: Candidate)
    requires ValidData(d) && ValidConfig(c) && Within(indices, |d.rows|) && cand.feature < Width(d.rows)
  {
    var left, right := Side(d, indices, cand, true), Side(d, indices, cand, false);
    && |left| >= c.minChild && |right| >= c.minChild
    && cand.threshold in Thresholds(FeatureValues(d, indices, cand.feature), c.maxThresholds)
    && Score(d, left, c) + Score(d, right, c) > Score(d, indices, c)
    && forall f, x | 0 <= f < Width(d.rows) && x in Thresholds(FeatureValues(d, indices, f), c.maxThresholds) ::
         var otherLeft, otherRight := Side(d, indices, Candidate(f, x), true), Side(d, indices, Candidate(f, x), false);
         && |otherLeft| >= c.minChild && |otherRight| >= c.minChild
         ==> Score(d, otherLeft, c) + Score(d, otherRight, c) <= Score(d, left, c) + Score(d, right, c)
  }

  /** Every node splits as well as it can, and a leaf above the greatest depth has no split left. */
  ghost predicate Exhausted(t: Tree, d: Data, indices: seq<nat>, depth: nat, c: Config)
    requires ValidData(d) && ValidConfig(c) && Within(indices, |d.rows|)
    decreases t
  {
    match t
    case Leaf(_) => depth == c.maxDepth || NoSplitLeft(d, indices, c)
    case Node(f, threshold, l, r) =>
      var cand := Candidate(f, threshold);
      && depth < c.maxDepth && f < Width(d.rows) && BestSplit(d, indices, c, cand)
      && Exhausted(l, d, Side(d, indices, cand, true), depth + 1, c)
      && Exhausted(r, d, Side(d, indices, cand, false), depth + 1, c)
  }

  lemma {:induction false} SideSizes(d: Data, indices: seq<nat>, cand: Candidate)
    requires ValidData(d) && Within(indices, |d.rows|) && cand.feature < Width(d.rows)
    ensures |Side(d, indices, cand, true)| + |Side(d, indices, cand, false)| == |indices|
  {
    var left, right := Side(d, indices, cand, true), Side(d, indices, cand, false);
    SidesPartition(d, indices, cand);
    assert |multiset(left) + multiset(right)| == |multiset(indices)|;
  }

  /** Every feature with every one of its thresholds is among the candidates, and nothing else. */
  lemma {:induction false} CandidatesAreAll(d: Data, indices: seq<nat>, c: Config, cand: Candidate)
    requires ValidData(d) && ValidConfig(c) && Within(indices, |d.rows|)
    ensures cand in AllCandidates(d, indices, c)
       <==> cand.feature < Width(d.rows)
            && cand.threshold in Thresholds(FeatureValues(d, indices, cand.feature), c.maxThresholds)
  {
    CandidateIn(Menu(d, indices, c), Width(d.rows), cand);
  }

  lemma {:induction false} CandidateIn(menu: seq<seq<real>>, width: nat, cand: Candidate)
    requires width <= |menu|
    ensures cand in Candidates(menu, width) <==> cand.feature < width && cand.threshold in menu[cand.feature]
  {
    if width > 0 {
      CandidateIn(menu, width - 1, cand);
      var row := Row(width - 1, menu[width - 1]);
      assert cand in row <==> cand.feature == width - 1 && cand.threshold in menu[width - 1] by {
        if cand.feature == width - 1 && cand.threshold in menu[width - 1] {
          var k :| 0 <= k < |menu[width - 1]| && menu[width - 1][k] == cand.threshold;
          assert row[k] == cand;
        }
      }
    }
  }

  lemma {:induction false} ChoiceDominates(d: Data, indices: seq<nat>, c: Config, f: nat, x: real)
    requires ValidData(d) && ValidConfig(c) && Within(indices, |d.rows|) && f < Width(d.rows)
    requires x in Thresholds(FeatureValues(d, indices, f), c.maxThresholds)
    requires Admissible(d, indices, c, Candidate(f, x))
    ensures
      var gain, choice := Gain(d, indices, c, Candidate(f, x)), Choice(d, indices, c);
      gain <= if choice.None? then 0.0 else Gain(d, indices, c, choice.value)
  {
    hide Gain, Admissible, Thresholds, FeatureValues, AllCandidates, Width, ValidData;
    var cands := AllCandidates(d, indices, c);
    CandidatesAreAll(d, indices, c, Candidate(f, x));
    var j :| 0 <= j < |cands| && cands[j] == Candidate(f, x);
    BestDominates(d, indices, c, cands, |cands|, j);
  }

  lemma {:induction false} ChoiceOffered(d: Data, indices: seq<nat>, c: Config)
    requires ValidData(d) && ValidConfig(c) && Within(indices, |d.rows|) && Choice(d, indices, c).Some?
    ensures
      var cand := Choice(d, indices, c).value;
      && cand.feature < Width(d.rows)
      && cand.threshold in Thresholds(FeatureValues(d, indices, cand.feature), c.maxThresholds)
  {
    hide Gain, Admissible, Thresholds, FeatureValues, AllCandidates, Width, ValidData;
    CandidatesAreAll(d, indices, c, Choice(d, indices, c).value);
  }

  lemma {:induction false} NoChoiceNoSplit(d: Data, indices: seq<nat>, c: Config)
    requires ValidData(d) && ValidConfig(c) && Within(indices, |d.rows|) && Choice(d, indices, c).None?
    ensures NoSplitLeft(d, indices, c)
  {
    hide Score, Side, Thresholds, FeatureValues, Choice, Width, ValidData;
    forall f, x | 0 <= f < Width(d.rows) && x in Thresholds(FeatureValues(d, indices, f), c.maxThresholds)
                  && Admissible(d, indices, c, Candidate(f, x))
      ensures Gain(d, indices, c, Candidate(f, x)) <= 0.0
    {
      ChoiceDominates(d, indices, c, f, x);
    }
  }

  lemma {:induction false} ChoiceIsBest(d: Data, indices: seq<nat>, c: Config)
    requires ValidData(d) && ValidConfig(c) && Within(indices, |d.rows|) && Choice(d, indices, c).Some?
    ensures Choice(d, indices, c).value.feature < Width(d.rows) && BestSplit(d, indices, c, Choice(d, indices, c).value)
  {
    hide Score, Side, Thresholds, FeatureValues, Choice, Width, ValidData;
    ChoiceOffered(d, indices, c);
    forall f, x | 0 <= f < Width(d.rows) && x in Thresholds(FeatureValues(d, indices, f), c.maxThresholds)
                  && Admissible(d, indices, c, Candidate(f, x))
      ensures Gain(d, indices, c, Candidate(f, x)) <= Gain(d, indices, c, Choice(d, indices, c).value)
    {
      ChoiceDominates(d, indices, c, f, x);
    }
  }

  /** The shortcut on small nodes changes nothing: fewer than twice `minChild` rows cannot be split. */
  lemma {:induction false} TooFewRows(d: Data, indices: seq<nat>, c: Config)
    requires ValidData(d) && ValidConfig(c) && Within(indices, |d.rows|) && |indices| < 2 * c.minChild
    ensures NoSplitLeft(d, indices, c)
  {
    forall f, x | 0 <= f < Width(d.rows) && x in Thresholds(FeatureValues(d, indices, f), c.maxThresholds)
      ensures |Side(d, indices, Candidate(f, x), true)| < c.minChild
              || |Side(d, indices, Candidate(f, x), false)| < c.minChild
    {
      SideSizes(d, indices, Candidate(f, x));
    }
  }

  /** The tree is greedy to the end: best splits at its nodes, no split left at a leaf short of the greatest depth. */
  lemma {:induction false} GrowExhausts(d: Data, indices: seq<nat>, depth: nat, c: Config)
    requires ValidData(d) && ValidConfig(c) && Within(indices, |d.rows|) && depth <= c.maxDepth
    ensures Exhausted(Grow(d, indices, depth, c), d, indices, depth, c)
    decreases c.maxDepth - depth
  {
    hide NoSplitLeft, BestSplit, LeafValue;
    if depth >= c.maxDepth {
    } else if |indices| < 2 * c.minChild {
      TooFewRows(d, indices, c);
    } else {
      match Choice(d, indices, c)
      case None =>
        NoChoiceNoSplit(d, indices, c);
      case Some(cand) =>
        ChoiceIsBest(d, indices, c);
        GrowExhausts(d, Side(d, indices, cand, true), depth + 1, c);
        GrowExhausts(d, Side(d, indices, cand, false), depth + 1, c);
    }
  }

  // ---------------------------------------------------------------- where thresholds lie

  /** Threshold `k` is halfway between two neighbouring values, at every stride of the values in order. */
  lemma {:induction false} ThresholdAt(values: seq<real>, maxCandidates: nat, k: nat)
    requires maxCandidates >= 1 && k < |Thresholds(values, maxCandidates)|
    ensures
      var stride := if |values| < maxCandidates then 1 else |values| / maxCandidates;
      var j := (k + 1) * stride;
      1 <= j < |values| && 2.0 * Thresholds(values, maxCandidates)[k] == values[j - 1] + values[j]
  {
    var step := Step(|values|, maxCandidates);
    StepIsStride(|values|, maxCandidates);
    MidpointIs(values, step, step, k);
    assert step + k * step == (k + 1) * step;
  }

  lemma {:induction false} StepIsStride(n: nat, m: nat)
    requires m >= 1
    ensures Step(n, m) == if n < m then 1 else n / m
  {
    assert n == m * (n / m) + n % m;
  }

  lemma {:induction false} MidpointIs(values: seq<real>, i: nat, step: nat, k: nat)
    requires 1 <= i && 1 <= step && k < |Midpoints(values, i, step)|
    ensures
      var j := i + k * step;
      1 <= j < |values| && 2.0 * Midpoints(values, i, step)[k] == values[j - 1] + values[j]
    decreases k
  {
    if k > 0 {
      MidpointIs(values, i + step, step, k - 1);
      assert i + step + (k - 1) * step == i + k * step;
    }
  }

  // ---------------------------------------------------------------- a tree is a table of boxes

  /** One condition of a leaf: the feature lies above `low` and at or below `high`. */
  datatype Bound = AtMost(feature: nat, limit: real) | Above(feature: nat, limit: real)
  datatype Region = Region(bounds: seq<Bound>, value: real)

  predicate Meets(row: seq<real>, b: Bound) {
    b.feature < |row| && if b.AtMost? then row[b.feature] <= b.limit else row[b.feature] > b.limit
  }

  ghost predicate Inside(row: seq<real>, region: Region) {
    forall k | 0 <= k < |region.bounds| :: Meets(row, region.bounds[k])
  }

  /** The regions of a tree, from left to right. */
  function Regions(t: Tree, bounds: seq<Bound>): seq<Region> {
    match t
    case Leaf(v) => [Region(bounds, v)]
    case Node(f, threshold, l, r) =>
      Regions(l, bounds + [AtMost(f, threshold)]) + Regions(r, bounds + [Above(f, threshold)])
  }

  /** Every region below a node carries the conditions that led to the node. */
  lemma {:induction false} RegionsKeepBounds(t: Tree, bounds: seq<Bound>, k: nat)
    requires k < |Regions(t, bounds)|
    ensures bounds <= Regions(t, bounds)[k].bounds
  {
    if t.Node? {
      var n := |Regions(t.left, bounds + [AtMost(t.feature, t.threshold)])|;
      if k < n {
        RegionsKeepBounds(t.left, bounds + [AtMost(t.feature, t.threshold)], k);
      } else {
        RegionsKeepBounds(t.right, bounds + [Above(t.feature, t.threshold)], k - n);
      }
    }
  }

  lemma {:induction false} OutsideRegions(t: Tree, row: seq<real>, bounds: seq<Bound>, k: nat)
    requires bounds != [] && !Meets(row, bounds[|bounds| - 1]) && k < |Regions(t, bounds)|
    ensures !Inside(row, Regions(t, bounds)[k])
  {
    RegionsKeepBounds(t, bounds, k);
    assert Regions(t, bounds)[k].bounds[|bounds| - 1] == bounds[|bounds| - 1];
  }

  /** Region `k` of the table holds the row, no other one does, and its value is the prediction. */
  ghost predicate Predicts(table: seq<Region>, row: seq<real>, value: real, k: nat) {
    && k < |table| && Inside(row, table[k]) && table[k].value == value
    && forall j | 0 <= j < |table| && j != k :: !Inside(row, table[j])
  }

  /** Exactly one region of a tree holds a row, and its value is the prediction. */
  lemma {:induction false} PredictionByRegion(t: Tree, row: seq<real>, bounds: seq<Bound>) returns (k: nat)
    requires FitsRows(t, |row|) && forall j | 0 <= j < |bounds| :: Meets(row, bounds[j])
    ensures Predicts(Regions(t, bounds), row, Evaluate(t, row), k)
  {
    if t.Leaf? {
      k := 0;
    } else {
      var leftBounds := bounds + [AtMost(t.feature, t.threshold)];
      var rightBounds := bounds + [Above(t.feature, t.threshold)];
      var lefts, rights := Regions(t.left, leftBounds), Regions(t.right, rightBounds);
      if row[t.feature] <= t.threshold {
        k := PredictionByRegion(t.left, row, leftBounds);
        forall j | 0 <= j < |rights| ensures !Inside(row, rights[j]) { OutsideRegions(t.right, row, rightBounds, j); }
      } else {
        k := PredictionByRegion(t.right, row, rightBounds);
        forall j | 0 <= j < |lefts| ensures !Inside(row, lefts[j]) { OutsideRegions(t.left, row, leftBounds, j); }
        k := |lefts| + k;
      }
    }
  }

  // ---------------------------------------------------------------- the base score

  lemma {:induction false} LabelSumCounts(labels: seq<real>)
    requires forall i | 0 <= i < |labels| :: labels[i] == 0.0 || labels[i] == 1.0
    ensures LabelSum(labels) == multiset(labels)[1.0] as real
  {
    if labels != [] {
      LabelSumCounts(labels[..|labels| - 1]);
      assert labels == labels[..|labels| - 1] + [labels[|labels| - 1]];
    }
  }

  /** The base probability is the number of positive labels over the number of rows, kept within its range. */
  lemma {:induction false} BaseIsPositiveShare(labels: seq<real>)
    requires forall i | 0 <= i < |labels| :: labels[i] == 0.0 || labels[i] == 1.0
    ensures
      var n, positives, share := |labels| as real, multiset(labels)[1.0] as real, PositiveShare(labels);
      if labels == [] || positives < n / 1000000.0 then share == 1.0 / 1000000.0
      else if n - positives < n / 1000000.0 then share == 1.0 - 1.0 / 1000000.0
      else share * n == positives
  {
    LabelSumCounts(labels);
    if labels != [] { ShareOfCount(multiset(labels)[1.0] as real, |labels| as real); }
  }

  lemma {:induction false} ShareOfCount(positives: real, n: real)
    requires n >= 1.0
    ensures positives / n < 0.000001 <==> positives < n / 1000000.0
    ensures positives / n > 0.999999 <==> n - positives < n / 1000000.0
    ensures positives / n * n == positives
  {
    var q := positives / n;
    assert q * n == positives;
    assert q < 0.000001 ==> q * n < 0.000001 * n;
    assert q >= 0.000001 ==> q * n >= 0.000001 * n;
    assert q > 0.999999 ==> q * n > 0.999999 * n;
    assert q <= 0.999999 ==> q * n <= 0.999999 * n;
  }
}
