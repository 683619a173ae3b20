/** Array.prototype.sort as the services use it: a stable sort by a comparator. */
module Sorting {

  ghost predicate TotalPreorder<T(!new)>(le: (T, T) -> bool) {
    && (forall x, y :: le(x, y) || le(y, x))
    && (forall x, y, z :: le(x, y) && le(y, z) ==> le(x, z))
  }

  ghost predicate InOrder<T>(s: seq<T>, le: (T, T) -> bool) {
    forall i, j | 0 <= i < j < |s| :: le(s[i], s[j])
  }

  /** The elements of `s` equivalent to `x`, in their order. */
  ghost function Ties<T>(s: seq<T>, x: T, le: (T, T) -> bool): seq<T> {
    if s == [] then []
    else (if le(x, s[0]) && le(s[0], x) then [s[0]] else []) + Ties(s[1..], x, le)
  }

  function Insert<T>(x: T, s: seq<T>, le: (T, T) -> bool): (r: seq<T>)
    ensures multiset(r) == multiset{x} + multiset(s)
  {
    if s == [] || le(x, s[0]) then [x] + s
    else
      assert s == [s[0]] + s[1..];
      [s[0]] + Insert(x, s[1..], le)
  }

  function StableSort<T>(s: seq<T>, le: (T, T) -> bool): (r: seq<T>)
    ensures multiset(r) == multiset(s)
    ensures |r| == |s|
  {
    if s == [] then []
    else
      assert s == [s[0]] + s[1..];
      var r := Insert(s[0], StableSort(s[1..], le), le);
      assert |r| == |multiset(r)| == |multiset(s)| == |s|;
      r
  }

  lemma {:induction false} InsertSorted<T(!new)>(x: T, s: seq<T>, le: (T, T) -> bool)
    requires TotalPreorder(le) && InOrder(s, le)
    ensures InOrder(Insert(x, s, le), le)
  {
    if s == [] || le(x, s[0]) {
    } else {
      InsertSorted(x, s[1..], le);
      var rest := Insert(x, s[1..], le);
      forall y | y in rest ensures le(s[0], y) {
        assert y in multiset(rest);
        if y != x { assert y in s[1..]; }
      }
    }
  }

  lemma {:induction false} SortIsSorted<T(!new)>(s: seq<T>, le: (T, T) -> bool)
    requires TotalPreorder(le)
    ensures InOrder(StableSort(s, le), le)
  {
    if s != [] {
      SortIsSorted(s[1..], le);
      InsertSorted(s[0], StableSort(s[1..], le), le);
    }
  }

  lemma {:induction false} InsertTies<T(!new)>(x: T, s: seq<T>, y: T, le: (T, T) -> bool)
    requires TotalPreorder(le)
    ensures Ties(Insert(x, s, le), y, le) == Ties([x] + s, y, le)
  {
    if s == [] || le(x, s[0]) {
    } else {
      InsertTies(x, s[1..], y, le);
      assert ([s[0]] + Insert(x, s[1..], le))[1..] == Insert(x, s[1..], le);
      assert ([x] + s[1..])[1..] == s[1..];
      assert ([x] + s)[1..] == s;
      // x and s[0] are not equivalent, so at most one of them ties with y.
    }
  }

  /** Elements the comparator cannot tell apart keep their relative order. */
  lemma {:induction false} SortIsStable<T(!new)>(s: seq<T>, y: T, le: (T, T) -> bool)
    requires TotalPreorder(le)
    ensures Ties(StableSort(s, le), y, le) == Ties(s, y, le)
  {
    if s != [] {
      var rest := StableSort(s[1..], le);
      SortIsStable(s[1..], y, le);
      InsertTies(s[0], rest, y, le);
      assert ([s[0]] + rest)[1..] == rest;
    }
  }

  lemma {:induction false} SortMembers<T>(s: seq<T>, le: (T, T) -> bool)
    ensures forall x :: x in StableSort(s, le) <==> x in s
  {
    forall x ensures x in StableSort(s, le) <==> x in s {
      assert x in StableSort(s, le) <==> x in multiset(StableSort(s, le));
      assert x in s <==> x in multiset(s);
    }
  }

  lemma {:induction false} OnceEach<T>(s: seq<T>, i: nat, k: nat)
    requires i < k < |s|
    requires forall x :: multiset(s)[x] <= 1
    ensures s[i] != s[k]
  {
    assert s == s[..k] + s[k..];
    assert s[..k][i] == s[i] && s[k..][0] == s[k];
    assert s[i] in multiset(s[..k]) && s[k] in multiset(s[k..]);
    assert multiset(s)[s[k]] == multiset(s[..k])[s[k]] + multiset(s[k..])[s[k]];
  }

  lemma {:induction false} CountedOnce<T>(s: seq<T>)
    requires forall i, k | 0 <= i < k < |s| :: s[i] != s[k]
    ensures forall x :: multiset(s)[x] <= 1
  {
    if s != [] {
      var n := |s| - 1;
      CountedOnce(s[..n]);
      assert s == s[..n] + [s[n]];
      assert s[n] !in multiset(s[..n]);
    }
  }

  lemma {:induction false} SameDistinctMembers<T>(a: seq<T>, b: seq<T>)
    requires forall i, k | 0 <= i < k < |a| :: a[i] != a[k]
    requires forall i, k | 0 <= i < k < |b| :: b[i] != b[k]
    requires forall x :: x in a <==> x in b
    ensures multiset(a) == multiset(b)
  {
    CountedOnce(a);
    CountedOnce(b);
    forall x ensures multiset(a)[x] == multiset(b)[x] {
      assert x in a <==> x in multiset(a);
      assert x in b <==> x in multiset(b);
    }
  }

  lemma {:induction false} SortIsDistinct<T>(s: seq<T>, le: (T, T) -> bool)
    requires forall i, k | 0 <= i < k < |s| :: s[i] != s[k]
    ensures forall i, k | 0 <= i < k < |s| :: StableSort(s, le)[i] != StableSort(s, le)[k]
  {
    hide StableSort;
    CountedOnce(s);
    forall i, k | 0 <= i < k < |s| ensures StableSort(s, le)[i] != StableSort(s, le)[k] {
      OnceEach(StableSort(s, le), i, k);
    }
  }

  // ---------------------------------------------------------------- counting

  function CountIf<T>(s: seq<T>, p: T -> bool): nat {
    if s == [] then 0 else CountIf(s[..|s| - 1], p) + (if p(s[|s| - 1]) then 1 else 0)
  }

  lemma {:induction false} CountConcat<T>(a: seq<T>, b: seq<T>, p: T -> bool)
    ensures CountIf(a + b, p) == CountIf(a, p) + CountIf(b, p)
  {
    if b == [] {
      assert a + b == a;
    } else {
      CountConcat(a, b[..|b| - 1], p);
      assert (a + b)[..|a + b| - 1] == a + b[..|b| - 1];
    }
  }

  lemma {:induction false} CountWithout<T>(b: seq<T>, k: nat, p: T -> bool)
    requires k < |b|
    ensures CountIf(b, p) == CountIf(b[..k] + b[k + 1..], p) + (if p(b[k]) then 1 else 0)
  {
    CountConcat(b[..k], b[k + 1..], p);
    CountConcat(b[..k + 1], b[k + 1..], p);
    assert b[..k + 1] + b[k + 1..] == b;
    assert b[..k + 1][..k] == b[..k];
  }

  lemma {:induction false} MultisetWithout<T>(b: seq<T>, k: nat)
    requires k < |b|
    ensures multiset(b[..k] + b[k + 1..]) == multiset(b) - multiset{b[k]}
  {
    assert b == b[..k] + ([b[k]] + b[k + 1..]);
  }

  /** Counting does not depend on the order. */
  lemma {:induction false} CountPermutation<T>(a: seq<T>, b: seq<T>, p: T -> bool)
    requires multiset(a) == multiset(b)
    ensures CountIf(a, p) == CountIf(b, p)
  {
    if a == [] {
      assert |multiset(b)| == 0;
    } else {
      var n := |a| - 1;
      assert a[n] in multiset(b);
      var k :| 0 <= k < |b| && b[k] == a[n];
      MultisetWithout(a, n);
      MultisetWithout(b, k);
      assert a[..n] + a[n + 1..] == a[..n];
      CountPermutation(a[..n], b[..k] + b[k + 1..], p);
      CountWithout(b, k, p);
    }
  }

  // ---------------------------------------------------------------- sorting related sequences

  /** Element by element, `b` relates to `a`. */
  ghost predicate Pairwise<T(!new)>(a: seq<T>, b: seq<T>, rel: (T, T) -> bool) {
    |a| == |b| && forall i | 0 <= i < |a| :: rel(a[i], b[i])
  }

  /** The comparator cannot tell related elements apart. */
  ghost predicate Respects<T(!new)>(le: (T, T) -> bool, rel: (T, T) -> bool) {
    forall x, y, x', y' :: rel(x, x') && rel(y, y') ==> le(x, y) == le(x', y')
  }

  lemma {:induction false} PairwiseCons<T(!new)>(x: T, a: seq<T>, y: T, b: seq<T>, rel: (T, T) -> bool)
    requires Pairwise(a, b, rel) && rel(x, y)
    ensures Pairwise([x] + a, [y] + b, rel)
  {
    forall i | 0 <= i < |a| + 1 ensures rel(([x] + a)[i], ([y] + b)[i]) {
      if i > 0 { assert rel(a[i - 1], b[i - 1]); }
    }
  }

  lemma {:induction false} InsertPairwise<T(!new)>(x: T, y: T, a: seq<T>, b: seq<T>, le: (T, T) -> bool,
        rel: (T, T) -> bool)
    requires Pairwise(a, b, rel) && rel(x, y) && Respects(le, rel)
    ensures Pairwise(Insert(x, a, le), Insert(y, b, le), rel)
  {
    if a != [] {
      assert rel(a[0], b[0]);
      if !le(x, a[0]) {
        InsertPairwise(x, y, a[1..], b[1..], le, rel);
        PairwiseCons(a[0], Insert(x, a[1..], le), b[0], Insert(y, b[1..], le), rel);
      } else {
        PairwiseCons(x, a, y, b, rel);
      }
    }
  }

  /** Sequences that differ only in what the comparator ignores are sorted alike. */
  lemma {:induction false} SortPairwise<T(!new)>(a: seq<T>, b: seq<T>, le: (T, T) -> bool, rel: (T, T) -> bool)
    requires Pairwise(a, b, rel) && Respects(le, rel)
    ensures Pairwise(StableSort(a, le), StableSort(b, le), rel)
  {
    if a != [] {
      SortPairwise(a[1..], b[1..], le, rel);
      InsertPairwise(a[0], b[0], StableSort(a[1..], le), StableSort(b[1..], le), le, rel);
    }
  }
}
