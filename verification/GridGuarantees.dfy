/** In which order the grid of ensemble weights is searched, and what its step is (backend/src/models/ensemble.ts). */
module GridGuarantees {
  import opened SimplexGrid

  /** `c` comes before `d`: at their first difference, position `p`, it is smaller. */
  ghost predicate BeforeAt(c: seq<nat>, d: seq<nat>, p: nat) {
    p < |c| && p < |d| && c[..p] == d[..p] && c[p] < d[p]
  }

  ghost predicate Before(c: seq<nat>, d: seq<nat>) { exists p: nat :: BeforeAt(c, d, p) }

  ghost predicate Ascending(cs: seq<seq<nat>>) { forall i, j | 0 <= i < j < |cs| :: Before(cs[i], cs[j]) }

  lemma {:induction false} PrependBefore(i: nat, c: seq<nat>, d: seq<nat>)
    requires Before(c, d)
    ensures Before([i] + c, [i] + d)
  {
    var p: nat :| BeforeAt(c, d, p);
    assert ([i] + c)[..p + 1] == [i] + c[..p] && ([i] + d)[..p + 1] == [i] + d[..p];
    assert BeforeAt([i] + c, [i] + d, p + 1);
  }

  lemma {:induction false} PrependAscends(i: nat, cs: seq<seq<nat>>)
    requires Ascending(cs)
    ensures Ascending(PrependAll(i, cs))
  {
    if cs != [] { PrependAt(i, cs, 0); }
    forall x, y | 0 <= x < y < |PrependAll(i, cs)| ensures Before(PrependAll(i, cs)[x], PrependAll(i, cs)[y]) {
      PrependAt(i, cs, x);
      PrependAt(i, cs, y);
      PrependBefore(i, cs[x], cs[y]);
    }
  }

  lemma {:induction false} SmallerFirst(c: seq<nat>, d: seq<nat>)
    requires c != [] && d != [] && c[0] < d[0]
    ensures Before(c, d)
  {
    assert c[..0] == d[..0];
    assert BeforeAt(c, d, 0);
  }

  lemma {:induction false} CompositionsAscend(n: nat, k: nat)
    requires k >= 1
    ensures Ascending(Compositions(n, k))
    decreases k, 0, 0
  {
    if k > 1 { FirstBelowAscends(n, k, n + 1); }
  }

  lemma {:induction false} FirstBelowAscends(n: nat, k: nat, m: nat)
    requires k >= 2 && m <= n + 1
    ensures Ascending(FirstBelow(n, k, m))
    decreases k - 1, 1, m
  {
    if m > 0 {
      var rest := Compositions(n - (m - 1), k - 1);
      var earlier, block := FirstBelow(n, k, m - 1), PrependAll(m - 1, rest);
      FirstBelowAscends(n, k, m - 1);
      CompositionsAscend(n - (m - 1), k - 1);
      PrependAscends(m - 1, rest);
      forall c, d | c in earlier && d in block ensures Before(c, d) {
        FirstBelowMembers(n, k, m - 1, c);
        PrependMembers(m - 1, rest, d);
        SmallerFirst(c, d);
      }
      hide FirstBelow, PrependAll, Compositions, Before;
      ConcatAscends(earlier, block);
      FirstBelowUnfolds(n, k, m);
    }
  }

  lemma {:induction false} FirstBelowUnfolds(n: nat, k: nat, m: nat)
    requires k >= 2 && 1 <= m <= n + 1
    ensures FirstBelow(n, k, m) == FirstBelow(n, k, m - 1) + PrependAll(m - 1, Compositions(n - (m - 1), k - 1))
  {
  }

  lemma {:induction false} ConcatAscends(a: seq<seq<nat>>, b: seq<seq<nat>>)
    requires Ascending(a) && Ascending(b) && forall c, d | c in a && d in b :: Before(c, d)
    ensures Ascending(a + b)
  {
    hide Before;
    forall i, j | 0 <= i < j < |a + b| ensures Before((a + b)[i], (a + b)[j]) {
      if i < |a| <= j { assert a[i] in a && b[j - |a|] in b; }
    }
  }

  /** The first difference of two grid points decides: the earlier one has the smaller weight there. */
  lemma {:induction false} GridIsLexicographic(count: nat, steps: nat, i: nat, j: nat)
    requires count >= 1 && steps >= 1 && i < j < |Grid(count, steps)|
    ensures |Grid(count, steps)[i]| == |Grid(count, steps)[j]| == count
    ensures
      var v, w := Grid(count, steps)[i], Grid(count, steps)[j];
      exists p | 0 <= p < count :: v[p] < w[p] && forall q | 0 <= q < p :: v[q] == w[q]
  {
    var cs := Compositions(steps, count);
    GridLength(count, steps);
    GridOnSimplex(count, steps, i);
    GridOnSimplex(count, steps, j);
    CompositionsAscend(steps, count);
    ExtendAt(cs, steps, i);
    ExtendAt(cs, steps, j);
    var c, d := cs[i], cs[j];
    var p: nat :| BeforeAt(c, d, p);
    WeightsTotal(c, steps);
    WeightsTotal(d, steps);
    WeightsAt(c, steps, p);
    WeightsAt(d, steps, p);
    SmallerQuotient(c[p], d[p], steps);
    forall q | 0 <= q < p ensures Weights(c, steps)[q] == Weights(d, steps)[q] {
      WeightsAt(c, steps, q);
      WeightsAt(d, steps, q);
      assert c[..p][q] == d[..p][q];
    }
  }

  lemma {:induction false} SmallerQuotient(a: nat, b: nat, s: nat)
    requires s >= 1 && a < b
    ensures a as real / s as real < b as real / s as real
  {
  }

  /** The number of steps is the whole number nearest to the inverse of the step, upwards from the middle. */
  lemma {:induction false} StepsMean(step: real)
    requires step > 0.0 && Steps(step) >= 1
    ensures (Steps(step) as real - 0.5) * step <= 1.0 < (Steps(step) as real + 0.5) * step
  {
    var q, n := 1.0 / step, Steps(step) as real;
    assert q * step == 1.0;
    assert n - 0.5 <= q < n + 0.5;
    Ordered(n - 0.5, q, n + 0.5, step);
  }

  lemma {:induction false} Ordered(low: real, x: real, high: real, step: real)
    requires low <= x < high && step > 0.0
    ensures low * step <= x * step < high * step
  {
  }
}
