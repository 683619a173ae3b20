/** The grid of ensemble weights: `simplexGrid` (backend/src/models/ensemble.ts). */
module SimplexGrid {

  // ---------------------------------------------------------------- compositions

  function Sum(c: seq<nat>): nat { if c == [] then 0 else c[0] + Sum(c[1..]) }

  function PrependAll(i: nat, cs: seq<seq<nat>>): seq<seq<nat>> {
    if cs == [] then [] else [[i] + cs[0]] + PrependAll(i, cs[1..])
  }

  /** The ways to write `n` as a sum of `k` parts, ordered by the first part. */
  function Compositions(n: nat, k: nat): seq<seq<nat>>
    requires k >= 1
    decreases k, 0, 0
  {
    if k == 1 then [[n]] else FirstBelow(n, k, n + 1)
  }

  /** Those whose first part is below `m`. */
  function FirstBelow(n: nat, k: nat, m: nat): seq<seq<nat>>
    requires k >= 2 && m <= n + 1
    decreases k - 1, 1, m
  {
    if m == 0 then [] else FirstBelow(n, k, m - 1) + PrependAll(m - 1, Compositions(n - (m - 1), k - 1))
  }

  predicate Splits(c: seq<nat>, n: nat, k: nat) { |c| == k && Sum(c) == n }

  lemma {:induction false} PrependMembers(i: nat, cs: seq<seq<nat>>, c: seq<nat>)
    ensures c in PrependAll(i, cs) <==> c != [] && c[0] == i && c[1..] in cs
  {
    if cs != [] {
      PrependMembers(i, cs[1..], c);
      assert c in PrependAll(i, cs) <==> c == [i] + cs[0] || c in PrependAll(i, cs[1..]);
      assert c == [i] + cs[0] <==> c != [] && c[0] == i && c[1..] == cs[0];
      assert forall x :: x in cs <==> x == cs[0] || x in cs[1..];
    }
  }

  /** The list holds all the compositions and nothing else. */
  lemma {:induction false} AllCompositions(n: nat, k: nat, c: seq<nat>)
    requires k >= 1
    ensures c in Compositions(n, k) <==> Splits(c, n, k)
    decreases k, 0, 0
  {
    if k == 1 {
      if |c| == 1 { assert Sum(c) == c[0] + Sum(c[1..]) == c[0]; }
      assert c in Compositions(n, 1) <==> c == [n];
    } else {
      FirstBelowMembers(n, k, n + 1, c);
    }
  }

  lemma {:induction false} FirstBelowMembers(n: nat, k: nat, m: nat, c: seq<nat>)
    requires k >= 2 && m <= n + 1
    ensures c in FirstBelow(n, k, m) <==> Splits(c, n, k) && c[0] < m
    decreases k - 1, 1, m
  {
    if m > 0 {
      FirstBelowMembers(n, k, m - 1, c);
      var block := PrependAll(m - 1, Compositions(n - (m - 1), k - 1));
      PrependMembers(m - 1, Compositions(n - (m - 1), k - 1), c);
      if c != [] { AllCompositions(n - (m - 1), k - 1, c[1..]); }
      assert c in FirstBelow(n, k, m) <==> c in FirstBelow(n, k, m - 1) || c in block;
    }
  }

  ghost predicate Distinct<T>(s: seq<T>) { forall i, j | 0 <= i < j < |s| :: s[i] != s[j] }

  lemma {:induction false} PrependAt(i: nat, cs: seq<seq<nat>>, j: nat)
    requires j < |cs|
    ensures |PrependAll(i, cs)| == |cs| && PrependAll(i, cs)[j] == [i] + cs[j]
  {
    if |cs| > 1 { PrependAt(i, cs[1..], if j == 0 then 0 else j - 1); }
  }

  lemma {:induction false} PrependDistinct(i: nat, cs: seq<seq<nat>>)
    requires Distinct(cs)
    ensures Distinct(PrependAll(i, cs))
  {
    if cs != [] { PrependAt(i, cs, 0); }
    forall x, y | 0 <= x < y < |PrependAll(i, cs)| ensures PrependAll(i, cs)[x] != PrependAll(i, cs)[y] {
      PrependAt(i, cs, x);
      PrependAt(i, cs, y);
      assert ([i] + cs[x])[1..] == cs[x] && ([i] + cs[y])[1..] == cs[y];
    }
  }

  lemma {:induction false} ConcatDistinct<T>(a: seq<T>, b: seq<T>)
    requires Distinct(a) && Distinct(b) && forall x | x in a :: x !in b
    ensures Distinct(a + b)
  {
    forall i, j | 0 <= i < j < |a + b| ensures (a + b)[i] != (a + b)[j] {
      if i < |a| <= j { assert a[i] in a && b[j - |a|] in b; }
    }
  }

  /** No composition is listed twice. */
  lemma {:induction false} CompositionsDistinct(n: nat, k: nat)
    requires k >= 1
    ensures Distinct(Compositions(n, k))
    decreases k, 0, 0
  {
    if k > 1 { FirstBelowDistinct(n, k, n + 1); }
  }

  lemma {:induction false} FirstBelowDistinct(n: nat, k: nat, m: nat)
    requires k >= 2 && m <= n + 1
    ensures Distinct(FirstBelow(n, k, m))
    decreases k - 1, 1, m
  {
    if m > 0 {
      var earlier, block := FirstBelow(n, k, m - 1), PrependAll(m - 1, Compositions(n - (m - 1), k - 1));
      FirstBelowDistinct(n, k, m - 1);
      CompositionsDistinct(n - (m - 1), k - 1);
      PrependDistinct(m - 1, Compositions(n - (m - 1), k - 1));
      forall c | c in earlier ensures c !in block {
        FirstBelowMembers(n, k, m - 1, c);
        PrependMembers(m - 1, Compositions(n - (m - 1), k - 1), c);
      }
      ConcatDistinct(earlier, block);
    }
  }

  // ---------------------------------------------------------------- the grid

  function Weights(c: seq<nat>, steps: nat): seq<real>
    requires steps >= 1
  {
    if c == [] then [] else [c[0] as real / steps as real] + Weights(c[1..], steps)
  }

  function ExtendAll(prefix: seq<real>, cs: seq<seq<nat>>, steps: nat): seq<seq<real>>
    requires steps >= 1
  {
    if cs == [] then [] else [prefix + Weights(cs[0], steps)] + ExtendAll(prefix, cs[1..], steps)
  }

  lemma {:induction false} ExtendConcat(prefix: seq<real>, a: seq<seq<nat>>, b: seq<seq<nat>>, steps: nat)
    requires steps >= 1
    ensures ExtendAll(prefix, a + b, steps) == ExtendAll(prefix, a, steps) + ExtendAll(prefix, b, steps)
  {
    if a == [] {
      assert a + b == b;
    } else {
      ExtendConcat(prefix, a[1..], b, steps);
      assert (a + b)[1..] == a[1..] + b;
    }
  }

  lemma {:induction false} ExtendPrepended(prefix: seq<real>, i: nat, cs: seq<seq<nat>>, steps: nat)
    requires steps >= 1
    ensures ExtendAll(prefix, PrependAll(i, cs), steps) == ExtendAll(prefix + [i as real / steps as real], cs, steps)
  {
    if cs != [] {
      ExtendPrepended(prefix, i, cs[1..], steps);
      assert ([i] + cs[0])[1..] == cs[0];
      assert prefix + ([i as real / steps as real] + Weights(cs[0], steps))
             == (prefix + [i as real / steps as real]) + Weights(cs[0], steps);
    }
  }

  lemma {:induction false} ExtendLeaf(prefix: seq<real>, remaining: nat, steps: nat)
    requires steps >= 1
    ensures ExtendAll(prefix, Compositions(remaining, 1), steps) == [prefix + [remaining as real / steps as real]]
  {
    var c: seq<nat> := [remaining];
    assert Weights(c, steps) == [remaining as real / steps as real];
  }

  lemma {:induction false} ExtendNothing(prefix: seq<real>, n: nat, k: nat, steps: nat)
    requires steps >= 1
    ensures k >= 2 ==> ExtendAll(prefix, FirstBelow(n, k, 0), steps) == []
  {
  }

  lemma {:induction false} ExtendBlock(prefix: seq<real>, n: nat, k: nat, i: nat, steps: nat)
    requires steps >= 1 && k >= 2 && i <= n
    ensures ExtendAll(prefix, FirstBelow(n, k, i + 1), steps)
         == ExtendAll(prefix, FirstBelow(n, k, i), steps)
            + ExtendAll(prefix + [i as real / steps as real], Compositions(n - i, k - 1), steps)
  {
    ExtendPrepended(prefix, i, Compositions(n - i, k - 1), steps);
    ExtendConcat(prefix, FirstBelow(n, k, i), PrependAll(i, Compositions(n - i, k - 1)), steps);
  }

  /** The grid for `count` components. */
  function Grid(count: nat, steps: nat): seq<seq<real>>
    requires count >= 1 && steps >= 1
  {
    ExtendAll([], Compositions(steps, count), steps)
  }

  /** `Math.round(1 / step)`. */
  function Steps(step: real): int
    requires step > 0.0
  {
    (1.0 / step + 0.5).Floor
  }

  /** The list the recursive helper pushes to. */
  class Collector {
    var results: seq<seq<real>>

    constructor ()
      ensures results == []
    {
      results := [];
    }

    method Recurse(steps: nat, remaining: nat, left: nat, prefix: seq<real>)
      requires steps >= 1 && left >= 1
      modifies this
      ensures results == old(results) + ExtendAll(prefix, Compositions(remaining, left), steps)
      decreases left
    {
      hide ExtendAll, FirstBelow, PrependAll;
      ExtendNothing(prefix, remaining, left, steps);
      if left == 1 {
        results := results + [prefix + [remaining as real / steps as real]];
        ExtendLeaf(prefix, remaining, steps);
        return;
      }
      for i := 0 to remaining + 1
        invariant results == old(results) + ExtendAll(prefix, FirstBelow(remaining, left, i), steps)
      {
        Recurse(steps, remaining - i, left - 1, prefix + [i as real / steps as real]);
        ExtendBlock(prefix, remaining, left, i, steps);
      }
    }
  }

  method BuildSimplexGrid(count: nat, step: real) returns (results: seq<seq<real>>)
    requires count >= 1 && step > 0.0 && Steps(step) >= 1
    ensures results == Grid(count, Steps(step))
  {
    var collector := new Collector();
    collector.Recurse(Steps(step), Steps(step), count, []);
    results := collector.results;
  }

  // ---------------------------------------------------------------- what the grid holds

  function Total(w: seq<real>): real { if w == [] then 0.0 else w[0] + Total(w[1..]) }

  lemma {:induction false} WeightsTotal(c: seq<nat>, steps: nat)
    requires steps >= 1
    ensures |Weights(c, steps)| == |c| && Total(Weights(c, steps)) == Sum(c) as real / steps as real
  {
    if c != [] { WeightsTotal(c[1..], steps); }
  }

  lemma {:induction false} WeightsAt(c: seq<nat>, steps: nat, i: nat)
    requires steps >= 1 && i < |c|
    ensures |Weights(c, steps)| == |c| && Weights(c, steps)[i] == c[i] as real / steps as real
  {
    if |c| > 1 { WeightsAt(c[1..], steps, if i == 0 then 0 else i - 1); }
  }

  lemma {:induction false} QuotientInjective(a: nat, b: nat, s: nat)
    requires s >= 1 && a as real / s as real == b as real / s as real
    ensures a == b
  {
    assert a as real == a as real / s as real * s as real;
  }

  lemma {:induction false} WeightsInjective(c: seq<nat>, d: seq<nat>, steps: nat)
    requires steps >= 1 && Weights(c, steps) == Weights(d, steps)
    ensures c == d
  {
    WeightsTotal(c, steps);
    WeightsTotal(d, steps);
    forall i | 0 <= i < |c| ensures c[i] == d[i] {
      WeightsAt(c, steps, i);
      WeightsAt(d, steps, i);
      QuotientInjective(c[i], d[i], steps);
    }
  }

  lemma {:induction false} ExtendAt(cs: seq<seq<nat>>, steps: nat, i: nat)
    requires steps >= 1 && i < |cs|
    ensures |ExtendAll([], cs, steps)| == |cs| && ExtendAll([], cs, steps)[i] == Weights(cs[i], steps)
  {
    if |cs| > 1 { ExtendAt(cs[1..], steps, if i == 0 then 0 else i - 1); }
  }

  /** Every composition of the steps appears exactly once, and nothing else does. */
  lemma {:induction false} GridIsEveryComposition(count: nat, steps: nat)
    requires count >= 1 && steps >= 1
    ensures Distinct(Grid(count, steps))
    ensures forall c | Splits(c, steps, count) :: Weights(c, steps) in Grid(count, steps)
    ensures forall i | 0 <= i < |Grid(count, steps)| :: exists c ::
            Splits(c, steps, count) && Weights(c, steps) == Grid(count, steps)[i]
  {
    var cs := Compositions(steps, count);
    CompositionsDistinct(steps, count);
    GridLength(count, steps);
    forall i, j | 0 <= i < j < |Grid(count, steps)| ensures Grid(count, steps)[i] != Grid(count, steps)[j] {
      ExtendAt(cs, steps, i);
      ExtendAt(cs, steps, j);
      if Weights(cs[i], steps) == Weights(cs[j], steps) { WeightsInjective(cs[i], cs[j], steps); }
    }
    forall c | Splits(c, steps, count) ensures Weights(c, steps) in Grid(count, steps) {
      AllCompositions(steps, count, c);
      var i :| 0 <= i < |cs| && cs[i] == c;
      ExtendAt(cs, steps, i);
    }
    forall i | 0 <= i < |Grid(count, steps)|
      ensures exists c :: Splits(c, steps, count) && Weights(c, steps) == Grid(count, steps)[i]
    {
      ExtendAt(cs, steps, i);
      AllCompositions(steps, count, cs[i]);
      assert Splits(cs[i], steps, count) && Weights(cs[i], steps) == Grid(count, steps)[i];
    }
  }

  lemma {:induction false} GridLength(count: nat, steps: nat)
    requires count >= 1 && steps >= 1
    ensures |Grid(count, steps)| == |Compositions(steps, count)|
  {
    if Compositions(steps, count) != [] { ExtendAt(Compositions(steps, count), steps, 0); }
  }

  /** Every grid point is a vector of non-negative weights that add up to one. */
  lemma {:induction false} GridOnSimplex(count: nat, steps: nat, i: nat)
    requires count >= 1 && steps >= 1 && i < |Grid(count, steps)|
    ensures var w := Grid(count, steps)[i];
            |w| == count && Total(w) == 1.0 && forall k | 0 <= k < count :: 0.0 <= w[k] <= 1.0
  {
    GridIsEveryComposition(count, steps);
    var c :| Splits(c, steps, count) && Weights(c, steps) == Grid(count, steps)[i];
    WeightsTotal(c, steps);
    forall k | 0 <= k < count ensures 0.0 <= Weights(c, steps)[k] <= 1.0 {
      WeightsAt(c, steps, k);
      PartBelowSum(c, k);
      Quotient(c[k] as real, steps as real);
    }
    Quotient(steps as real, steps as real);
  }

  lemma {:induction false} PartBelowSum(c: seq<nat>, k: nat)
    requires k < |c|
    ensures c[k] <= Sum(c)
  {
    if k > 0 { PartBelowSum(c[1..], k - 1); }
  }

  lemma {:induction false} Quotient(x: real, s: real)
    requires s > 0.0 && 0.0 <= x <= s
    ensures 0.0 <= x / s <= 1.0 && s / s == 1.0 && 0.0 / s == 0.0
  {
  }

  /** All the weight on component `i`. */
  function Unit(count: nat, i: nat): seq<real> { seq(count, k => if k == i then 1.0 else 0.0) }

  function UnitParts(count: nat, i: nat, steps: nat): seq<nat>
    requires i < count
  {
    if i == 0 then [steps] + Zeros(count - 1) else [0] + UnitParts(count - 1, i - 1, steps)
  }

  function Zeros(n: nat): seq<nat> { if n == 0 then [] else [0] + Zeros(n - 1) }

  lemma {:induction false} ZerosAt(n: nat)
    ensures |Zeros(n)| == n && Sum(Zeros(n)) == 0 && forall k | 0 <= k < n :: Zeros(n)[k] == 0
  {
    if n > 0 { ZerosAt(n - 1); }
  }

  lemma {:induction false} UnitPartsAt(count: nat, i: nat, steps: nat)
    requires i < count
    ensures Splits(UnitParts(count, i, steps), steps, count)
    ensures forall k | 0 <= k < count :: UnitParts(count, i, steps)[k] == if k == i then steps else 0
  {
    if i == 0 { ZerosAt(count - 1); } else { UnitPartsAt(count - 1, i - 1, steps); }
  }

  /** Each component on its own is one of the grid points. */
  lemma {:induction false} GridHoldsUnits(count: nat, steps: nat, i: nat)
    requires i < count && steps >= 1
    ensures Unit(count, i) in Grid(count, steps)
  {
    var c := UnitParts(count, i, steps);
    UnitPartsAt(count, i, steps);
    WeightsTotal(c, steps);
    forall k | 0 <= k < count ensures Weights(c, steps)[k] == Unit(count, i)[k] {
      WeightsAt(c, steps, k);
      Quotient(steps as real, steps as real);
    }
    assert Weights(c, steps) == Unit(count, i);
    GridIsEveryComposition(count, steps);
  }
}
