/** The match record shared by the training and backtesting components (backend/src/schemas.ts). */
module Records {

  datatype Option<T> = None | Some(value: T)

  datatype Outcome = HomeWin | Draw | AwayWin

  datatype Match = Match(
    index: int,
    league: Option<string>, competition: Option<string>, season: Option<string>,
    date: Option<string>, sourceProvider: Option<string>, updatedAt: Option<string>,
    homeTeam: Option<string>, awayTeam: Option<string>,
    homeGoals: int, awayGoals: int, outcome: Outcome, totalGoals: int,
    totalCorners: Option<int>, totalCards: Option<int>,
    homeYellowCards: Option<int>, awayYellowCards: Option<int>,
    homeRedCards: Option<int>, awayRedCards: Option<int>)

  /** A present, non-empty string: what `isString` and the truthiness tests accept. */
  predicate Truthy(s: Option<string>) {
    s.Some? && s.value != ""
  }

  /** The `??` operator. */
  function OrElse(s: Option<string>, t: Option<string>): Option<string> {
    if s.Some? then s else t
  }

  /** The elements without repetition, in order of first occurrence: `[...new Set(values)]`. */
  function Unique(values: seq<string>): (r: seq<string>)
    ensures forall x :: x in r <==> x in values
    ensures forall i, j | 0 <= i < j < |r| :: r[i] != r[j]
  {
    if values == [] then []
    else
      var n := |values| - 1;
      assert forall x :: x in values <==> x in values[..n] || x == values[n];
      AddOnce(Unique(values[..n]), values[n])
  }

  /** Adding to a JavaScript `Set`. */
  function AddOnce(set_: seq<string>, value: string): seq<string> {
    if value in set_ then set_ else set_ + [value]
  }

  lemma {:induction false} UniqueSnoc(values: seq<string>, value: string)
    ensures Unique(values + [value]) == AddOnce(Unique(values), value)
  {
    assert (values + [value])[..|values|] == values;
  }
}

/** Code-point order on strings: `<` on strings and the default `Array.prototype.sort`. */
module StringOrder {
  import opened Sorting
  import opened Records

  predicate Le(a: string, b: string) {
    a == "" || (b != "" && (a[0] < b[0] || (a[0] == b[0] && Le(a[1..], b[1..]))))
  }

  const LE: (string, string) -> bool := (a: string, b: string) => Le(a, b)

  lemma {:induction false} Total(a: string, b: string)
    ensures Le(a, b) || Le(b, a)
    ensures Le(a, b) && Le(b, a) ==> a == b
  {
    if a != "" && b != "" {
      Total(a[1..], b[1..]);
      assert a == [a[0]] + a[1..] && b == [b[0]] + b[1..];
    }
  }

  lemma {:induction false} Transitive(a: string, b: string, c: string)
    requires Le(a, b) && Le(b, c)
    ensures Le(a, c)
  {
    if a != "" && a[0] == b[0] == c[0] { Transitive(a[1..], b[1..], c[1..]); }
  }

  lemma {:induction false} IsPreorder()
    ensures TotalPreorder(LE)
  {
    forall a, b ensures LE(a, b) || LE(b, a) { Total(a, b); }
    forall a, b, c | LE(a, b) && LE(b, c) ensures LE(a, c) { Transitive(a, b, c); }
  }

  /** First and last of the sorted strings, if any. */
  function Least(values: seq<string>): Option<string> {
    if values == [] then None else Some(StableSort(values, LE)[0])
  }

  function Greatest(values: seq<string>): Option<string> {
    if values == [] then None else Some(StableSort(values, LE)[|values| - 1])
  }

  /** Running minimum and maximum, as the incremental model keeps them. */
  function Lower(best: Option<string>, value: string): Option<string> {
    if best.None? || !Le(best.value, value) then Some(value) else best
  }

  function Higher(best: Option<string>, value: string): Option<string> {
    if best.None? || !Le(value, best.value) then Some(value) else best
  }

  lemma {:induction false} Extremes(values: seq<string>)
    requires values != []
    ensures Least(values).Some? && Least(values).value in values
    ensures forall x | x in values :: Le(Least(values).value, x)
    ensures Greatest(values).Some? && Greatest(values).value in values
    ensures forall x | x in values :: Le(x, Greatest(values).value)
  {
    var s := StableSort(values, LE);
    IsPreorder();
    SortIsSorted(values, LE);
    SortMembers(values, LE);
    forall x | x in values ensures Le(s[0], x) && Le(x, s[|s| - 1]) {
      assert x in s;
      var k :| 0 <= k < |s| && s[k] == x;
      assert LE(x, x);
      assert k == 0 || LE(s[0], s[k]);
      assert k == |s| - 1 || LE(s[k], s[|s| - 1]);
    }
    assert s[0] in s && s[|s| - 1] in s;
  }

  /** Sorting at the end and keeping a running extreme agree. */
  lemma {:induction false} RunningExtremes(values: seq<string>, value: string)
    ensures Least(values + [value]) == Lower(Least(values), value)
    ensures Greatest(values + [value]) == Higher(Greatest(values), value)
  {
    var all := values + [value];
    Extremes(all);
    if values == [] {
      assert all[0] == value;
    } else {
      Extremes(values);
      assert Least(values).value in all && Greatest(values).value in all && value in all;
      RunningLeast(values, value, Least(values).value, Least(all).value);
      RunningGreatest(values, value, Greatest(values).value, Greatest(all).value);
    }
  }

  lemma {:induction false} RunningLeast(values: seq<string>, value: string, before: string, now: string)
    requires now in values || now == value
    requires forall x | x in values :: Le(before, x)
    requires Le(now, before) && Le(now, value)
    ensures now == if Le(before, value) then before else value
  {
    Total(before, now);
    if now in values && !Le(before, value) { Transitive(before, now, value); }
  }

  lemma {:induction false} RunningGreatest(values: seq<string>, value: string, before: string, now: string)
    requires now in values || now == value
    requires forall x | x in values :: Le(x, before)
    requires Le(before, now) && Le(value, now)
    ensures now == if Le(value, before) then before else value
  {
    Total(before, now);
    if now in values && !Le(value, before) { Transitive(value, now, before); }
  }
}
