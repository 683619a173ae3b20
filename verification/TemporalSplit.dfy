/** The temporal split by competition (backend/src/mlops.ts). */
module TemporalSplit {
  import opened Sorting
  import opened Records

  /** `instant` stands for the normalisation of dates, `collate` for the locale order of names. */
  datatype Setup = Setup(instant: Match -> Option<int>, collate: (string, string) -> bool)
  {
    predicate Dated(r: Match) { instant(r).Some? }

    function Instant(r: Match): int { if instant(r).Some? then instant(r).value else 0 }

    predicate Before(a: Match, b: Match) { Instant(a) < Instant(b) || (Instant(a) == Instant(b) && a.index <= b.index) }

    /** The comparator of both sorts. */
    function ByInstant(): (Match, Match) -> bool { (a: Match, b: Match) => Before(a, b) }
  }

  function CompetitionOf(r: Match): string {
    var named := OrElse(r.competition, r.league);
    if named.Some? then named.value else "sem-competicao"
  }

  // ---------------------------------------------------------------- how many rows go where

  datatype Counts = Counts(train: nat, validation: nat, test: nat)

  predicate Ratios(validationRatio: real, testRatio: real) {
    0.0 < testRatio < 1.0 && 0.0 <= validationRatio < 1.0
  }

  function AtLeastOne(x: int): nat { if x > 1 then x else 1 }

  function TestRows(total: nat, testRatio: real): nat { AtLeastOne((total as real * testRatio).Floor) }

  function WantedValidation(total: nat, validationRatio: real): nat {
    if validationRatio > 0.0 then AtLeastOne((total as real * validationRatio).Floor) else 0
  }

  lemma {:induction false} ShareBelow(total: nat, ratio: real)
    requires total >= 2 && 0.0 < ratio < 1.0
    ensures 1 <= TestRows(total, ratio) <= total - 1
  {
    assert total as real * ratio < total as real;
  }

  /** Validation gives way to leave one training row; the test share is never cut. */
  function CountsOf(total: nat, validationRatio: real, testRatio: real): (c: Counts)
    requires Ratios(validationRatio, testRatio)
    ensures c.train + c.validation + c.test == total
    ensures total >= 2 ==> c.train >= 1 && c.test >= 1
  {
    if total <= 1 then Counts(total, 0, 0)
    else
      ShareBelow(total, testRatio);
      var test, wanted := TestRows(total, testRatio), WantedValidation(total, validationRatio);
      var validation := if wanted <= total - 1 - test then wanted else total - 1 - test;
      Counts(total - test - validation, validation, test)
  }

  method CompetitionCounts(total: nat, validationRatio: real, testRatio: real) returns (c: Counts)
    requires Ratios(validationRatio, testRatio)
    ensures c == CountsOf(total, validationRatio, testRatio)
  {
    hide TestRows, WantedValidation;
    if total <= 1 { return Counts(total, 0, 0); }
    ShareBelow(total, testRatio);
    var test: int := TestRows(total, testRatio);
    var validation: int := WantedValidation(total, validationRatio);
    while total - test - validation < 1
      invariant test == TestRows(total, testRatio)
      invariant 0 <= validation <= WantedValidation(total, validationRatio)
      invariant validation < WantedValidation(total, validationRatio) ==> total - test - validation <= 1
      decreases validation + test
    {
      if validation > 0 {
        validation := validation - 1;
      } else if test > 1 {
        test := test - 1;
      } else {
        break;
      }
    }
    c := Counts(total - test - validation, validation, test);
  }

  // ---------------------------------------------------------------- specification

  function Dated(s: Setup, records: seq<Match>): seq<Match> {
    if records == [] then []
    else
      var n := |records| - 1;
      Dated(s, records[..n]) + (if s.Dated(records[n]) then [records[n]] else [])
  }

  function Group(dated: seq<Match>, competition: string): seq<Match> {
    if dated == [] then []
    else
      var n := |dated| - 1;
      Group(dated[..n], competition) + (if CompetitionOf(dated[n]) == competition then [dated[n]] else [])
  }

  /** The competitions in order of appearance. */
  function Competitions(dated: seq<Match>): seq<string> {
    if dated == [] then [] else AddOnce(Competitions(dated[..|dated| - 1]), CompetitionOf(dated[|dated| - 1]))
  }

  datatype Part = Train | Validation | Test

  /** The slice of a competition that goes to a part. */
  function Slice(sorted: seq<Match>, c: Counts, part: Part): seq<Match>
    requires c.train + c.validation + c.test == |sorted|
  {
    match part
    case Train => sorted[..c.train]
    case Validation => sorted[c.train..c.train + c.validation]
    case Test => sorted[c.train + c.validation..]
  }

  function SliceOf(s: Setup, dated: seq<Match>, competition: string, validationRatio: real, testRatio: real,
        part: Part): seq<Match>
    requires Ratios(validationRatio, testRatio)
  {
    var sorted := StableSort(Group(dated, competition), s.ByInstant());
    Slice(sorted, CountsOf(|sorted|, validationRatio, testRatio), part)
  }

  /** The slices of the listed competitions, joined. */
  function Joined(s: Setup, dated: seq<Match>, keys: seq<string>, validationRatio: real, testRatio: real,
        part: Part): seq<Match>
    requires Ratios(validationRatio, testRatio)
  {
    if keys == [] then []
    else
      var n := |keys| - 1;
      Joined(s, dated, keys[..n], validationRatio, testRatio, part)
        + SliceOf(s, dated, keys[n], validationRatio, testRatio, part)
  }

  function PartOf(s: Setup, records: seq<Match>, validationRatio: real, testRatio: real, part: Part): seq<Match>
    requires Ratios(validationRatio, testRatio)
  {
    var dated := Dated(s, records);
    StableSort(Joined(s, dated, StableSort(Competitions(dated), s.collate), validationRatio, testRatio, part),
               s.ByInstant())
  }

  /** The report on the listed competitions. */
  function RowsOf(dated: seq<Match>, keys: seq<string>, validationRatio: real, testRatio: real): seq<Row>
    requires Ratios(validationRatio, testRatio)
  {
    if keys == [] then []
    else
      var k := keys[|keys| - 1];
      RowsOf(dated, keys[..|keys| - 1], validationRatio, testRatio)
      + [Row(k, |Group(dated, k)|, CountsOf(|Group(dated, k)|, validationRatio, testRatio))]
  }

  predicate SharesIndex(a: seq<Match>, b: seq<Match>) {
    exists i, j | 0 <= i < |a| && 0 <= j < |b| :: a[i].index == b[j].index
  }

  predicate Disjoint(train: seq<Match>, validation: seq<Match>, test: seq<Match>) {
    !SharesIndex(validation, train) && !SharesIndex(test, train) && !SharesIndex(test, validation)
  }

  // ---------------------------------------------------------------- the algorithm

  datatype Row = Row(competition: string, total: nat, counts: Counts)

  datatype Split = Split(train: seq<Match>, validation: seq<Match>, test: seq<Match>, discardedRows: nat,
                         competitions: seq<Row>)

  datatype Result = InvalidTestRatio | InvalidValidationRatio | TooLittleTraining | Leakage | Done(split: Split)

  function Chosen(ratio: Option<real>, fallback: real): real { if ratio.Some? then ratio.value else fallback }

  method KeepDated(s: Setup, records: seq<Match>) returns (dated: seq<Match>, discarded: nat)
    ensures dated == Dated(s, records) && |dated| + discarded == |records|
  {
    dated, discarded := [], 0;
    for i := 0 to |records|
      invariant dated == Dated(s, records[..i]) && |dated| + discarded == i
    {
      assert records[..i + 1][..i] == records[..i];
      if s.Dated(records[i]) { dated := dated + [records[i]]; } else { discarded := discarded + 1; }
    }
    assert records[..|records|] == records;
  }

  /** The grouping of a prefix. */
  ghost predicate Grouped(dated: seq<Match>, groups: map<string, seq<Match>>, keys: seq<string>) {
    && keys == Competitions(dated)
    && (forall k :: k in groups <==> k in keys)
    && (forall k | k in groups :: groups[k] == Group(dated, k))
    && (forall k | k !in groups :: Group(dated, k) == [])
  }

  lemma {:induction false} GroupedStep(dated: seq<Match>, r: Match, groups: map<string, seq<Match>>, keys: seq<string>)
    requires Grouped(dated, groups, keys)
    ensures var key := CompetitionOf(r);
            Grouped(dated + [r], groups[key := (if key in groups then groups[key] else []) + [r]], AddOnce(keys, key))
  {
    hide Group, CompetitionOf;
    assert (dated + [r])[..|dated|] == dated;
    forall k ensures Group(dated + [r], k) == Group(dated, k) + (if k == CompetitionOf(r) then [r] else []) {
      GroupStep(dated, r, k);
    }
  }

  /** The groups and the order in which their keys were first set. */
  method GroupByCompetition(dated: seq<Match>) returns (groups: map<string, seq<Match>>, keys: seq<string>)
    ensures Grouped(dated, groups, keys)
  {
    hide CompetitionOf, AddOnce;
    groups, keys := map[], [];
    for i := 0 to |dated|
      invariant Grouped(dated[..i], groups, keys)
    {
      hide Grouped;
      assert dated[..i + 1] == dated[..i] + [dated[i]];
      GroupedStep(dated[..i], dated[i], groups, keys);
      var key := CompetitionOf(dated[i]);
      var bucket := if key in groups then groups[key] else [];
      keys := AddOnce(keys, key);
      groups := groups[key := bucket + [dated[i]]];
    }
    assert dated[..|dated|] == dated;
  }

  lemma {:induction false} GroupStep(dated: seq<Match>, r: Match, k: string)
    ensures Group(dated + [r], k) == Group(dated, k) + (if k == CompetitionOf(r) then [r] else [])
  {
    assert (dated + [r])[..|dated|] == dated;
  }

  /** Whether an index of `a` occurs in `b`. */
  method FindShared(a: seq<Match>, b: seq<Match>) returns (shared: bool)
    ensures shared == SharesIndex(a, b)
  {
    var indices := set r | r in b :: r.index;
    for i := 0 to |a|
      invariant forall k, j | 0 <= k < i && 0 <= j < |b| :: a[k].index != b[j].index
    {
      if a[i].index in indices {
        var r :| r in b && r.index == a[i].index;
        var j :| 0 <= j < |b| && b[j] == r;
        return true;
      }
      forall j | 0 <= j < |b| ensures a[i].index != b[j].index { assert b[j] in b; }
    }
    shared := false;
  }

  method SplitCompetitions(s: Setup, dated: seq<Match>, validationRatio: real, testRatio: real)
    returns (train: seq<Match>, validation: seq<Match>, test: seq<Match>, rows: seq<Row>)
    requires Ratios(validationRatio, testRatio)
    ensures var keys := StableSort(Competitions(dated), s.collate);
            && train == Joined(s, dated, keys, validationRatio, testRatio, Train)
            && validation == Joined(s, dated, keys, validationRatio, testRatio, Validation)
            && test == Joined(s, dated, keys, validationRatio, testRatio, Test)
            && rows == RowsOf(dated, keys, validationRatio, testRatio)
  {
    hide CountsOf, Group, Competitions, StableSort;
    var groups, found := GroupByCompetition(dated);
    var keys := StableSort(found, s.collate);
    SortMembers(found, s.collate);
    train, validation, test, rows := [], [], [], [];
    for i := 0 to |keys|
      invariant train == Joined(s, dated, keys[..i], validationRatio, testRatio, Train)
      invariant validation == Joined(s, dated, keys[..i], validationRatio, testRatio, Validation)
      invariant test == Joined(s, dated, keys[..i], validationRatio, testRatio, Test)
      invariant rows == RowsOf(dated, keys[..i], validationRatio, testRatio)
    {
      assert keys[..i + 1][..i] == keys[..i];
      var items := StableSort(groups[keys[i]], s.ByInstant());
      var counts := CompetitionCounts(|items|, validationRatio, testRatio);
      train := train + Slice(items, counts, Train);
      validation := validation + Slice(items, counts, Validation);
      test := test + Slice(items, counts, Test);
      rows := rows + [Row(keys[i], |items|, counts)];
    }
    assert keys[..|keys|] == keys;
  }

  method ComputeTemporalSplit(s: Setup, records: seq<Match>, testOption: Option<real>, validationOption: Option<real>)
    returns (result: Result)
    ensures var t, v := Chosen(testOption, 0.2), Chosen(validationOption, 0.0);
            if !(0.0 < t < 1.0) then result == InvalidTestRatio
            else if !(0.0 <= v < 1.0) then result == InvalidValidationRatio
            else if v + t >= 0.9 then result == TooLittleTraining
            else
              var train, validation, test :=
                PartOf(s, records, v, t, Train), PartOf(s, records, v, t, Validation), PartOf(s, records, v, t, Test);
              if !Disjoint(train, validation, test) then result == Leakage
              else
                && result.Done? && result.split.train == train && result.split.validation == validation
                && result.split.test == test
                && result.split.discardedRows == |records| - |Dated(s, records)|
                && result.split.competitions
                   == RowsOf(Dated(s, records), StableSort(Competitions(Dated(s, records)), s.collate), v, t)
  {
    hide Joined, SharesIndex;
    var testRatio := Chosen(testOption, 0.2);
    if !(0.0 < testRatio < 1.0) { return InvalidTestRatio; }
    var validationRatio := Chosen(validationOption, 0.0);
    if !(0.0 <= validationRatio < 1.0) { return InvalidValidationRatio; }
    if validationRatio + testRatio >= 0.9 { return TooLittleTraining; }
    var dated, discarded := KeepDated(s, records);
    var train, validation, test, rows := SplitCompetitions(s, dated, validationRatio, testRatio);
    train := StableSort(train, s.ByInstant());
    validation := StableSort(validation, s.ByInstant());
    test := StableSort(test, s.ByInstant());
    var shared := FindShared(validation, train);
    if !shared { shared := FindShared(test, train); }
    if !shared { shared := FindShared(test, validation); }
    if shared { return Leakage; }
    result := Done(Split(train, validation, test, discarded, rows));
  }

  // ---------------------------------------------------------------- conservation

  predicate DistinctStrings(keys: seq<string>) { forall i, j | 0 <= i < j < |keys| :: keys[i] != keys[j] }

  /** All rows of the listed competitions. */
  function AllGroups(dated: seq<Match>, keys: seq<string>): multiset<Match> {
    if keys == [] then multiset{}
    else AllGroups(dated, keys[..|keys| - 1]) + multiset(Group(dated, keys[|keys| - 1]))
  }

  lemma {:induction false} GroupBagStep(dated: seq<Match>, r: Match, k: string)
    ensures multiset(Group(dated + [r], k))
            == multiset(Group(dated, k)) + (if k == CompetitionOf(r) then multiset{r} else multiset{})
  {
    hide Group, CompetitionOf;
    GroupStep(dated, r, k);
  }

  lemma {:induction false} AllGroupsStep(dated: seq<Match>, r: Match, keys: seq<string>)
    requires DistinctStrings(keys)
    ensures AllGroups(dated + [r], keys)
            == AllGroups(dated, keys) + (if CompetitionOf(r) in keys then multiset{r} else multiset{})
  {
    hide Group, CompetitionOf, DistinctStrings;
    if keys != [] {
      var n := |keys| - 1;
      LastIsNew(keys);
      AllGroupsStep(dated, r, keys[..n]);
      GroupBagStep(dated, r, keys[n]);
    }
  }

  lemma {:induction false} LastIsNew(keys: seq<string>)
    requires keys != [] && DistinctStrings(keys)
    ensures DistinctStrings(keys[..|keys| - 1]) && keys[|keys| - 1] !in keys[..|keys| - 1]
    ensures forall x :: x in keys <==> x in keys[..|keys| - 1] || x == keys[|keys| - 1]
  {
  }

  lemma {:induction false} NoGroups(keys: seq<string>)
    ensures AllGroups([], keys) == multiset{}
  {
    if keys != [] { NoGroups(keys[..|keys| - 1]); }
  }

  /** The groups of distinct competitions that cover the rows hold each row once. */
  lemma {:induction false} GroupsConserve(dated: seq<Match>, keys: seq<string>)
    requires DistinctStrings(keys) && forall r | r in dated :: CompetitionOf(r) in keys
    ensures AllGroups(dated, keys) == multiset(dated)
  {
    hide CompetitionOf, DistinctStrings;
    if dated == [] {
      NoGroups(keys);
    } else {
      var n := |dated| - 1;
      assert dated == dated[..n] + [dated[n]];
      assert forall r | r in dated[..n] :: r in dated;
      GroupsConserve(dated[..n], keys);
      AllGroupsStep(dated[..n], dated[n], keys);
    }
  }

  lemma {:induction false} CompetitionsCover(dated: seq<Match>)
    ensures DistinctStrings(Competitions(dated)) && forall r | r in dated :: CompetitionOf(r) in Competitions(dated)
  {
    hide CompetitionOf;
    if dated != [] {
      var n := |dated| - 1;
      CompetitionsCover(dated[..n]);
      assert forall r :: r in dated <==> r in dated[..n] || r == dated[n];
    }
  }

  lemma {:induction false} SortedDistinct(keys: seq<string>, le: (string, string) -> bool)
    requires DistinctStrings(keys)
    ensures DistinctStrings(StableSort(keys, le))
  {
    var sorted := StableSort(keys, le);
    forall i, j | 0 <= i < j < |sorted| ensures sorted[i] != sorted[j] {
      if sorted[i] == sorted[j] { Twice(sorted, i, j); OnceOnly(keys, sorted[i]); }
    }
  }

  lemma {:induction false} Twice<T>(s: seq<T>, i: nat, j: nat)
    requires i < j < |s| && s[i] == s[j]
    ensures multiset(s)[s[i]] >= 2
  {
    assert s == s[..i + 1] + s[i + 1..];
    assert s[i] in s[..i + 1] by { assert s[..i + 1][i] == s[i]; }
    assert s[j] in s[i + 1..] by { assert s[i + 1..][j - i - 1] == s[j]; }
  }

  lemma {:induction false} OnceOnly(keys: seq<string>, k: string)
    requires DistinctStrings(keys)
    ensures multiset(keys)[k] <= 1
  {
    if keys != [] {
      var n := |keys| - 1;
      OnceOnly(keys[..n], k);
      assert keys == keys[..n] + [keys[n]];
      if k == keys[n] { assert k !in keys[..n]; }
    }
  }

  lemma {:induction false} SlicesConserve(sorted: seq<Match>, c: Counts)
    requires c.train + c.validation + c.test == |sorted|
    ensures multiset(Slice(sorted, c, Train)) + multiset(Slice(sorted, c, Validation))
              + multiset(Slice(sorted, c, Test))
            == multiset(sorted)
  {
    assert sorted == Slice(sorted, c, Train) + Slice(sorted, c, Validation) + Slice(sorted, c, Test);
  }

  lemma {:induction false} JoinedConserves(s: Setup, dated: seq<Match>, keys: seq<string>, v: real, t: real)
    requires Ratios(v, t)
    ensures multiset(Joined(s, dated, keys, v, t, Train)) + multiset(Joined(s, dated, keys, v, t, Validation))
            + multiset(Joined(s, dated, keys, v, t, Test)) == AllGroups(dated, keys)
  {
    hide CountsOf, Group, StableSort, Slice;
    if keys != [] {
      var n := |keys| - 1;
      JoinedConserves(s, dated, keys[..n], v, t);
      var sorted := StableSort(Group(dated, keys[n]), s.ByInstant());
      SlicesConserve(sorted, CountsOf(|sorted|, v, t));
    }
  }

  /** Train, validation and test together are exactly the validly dated rows. */
  lemma {:induction false} SplitConserves(s: Setup, records: seq<Match>, v: real, t: real)
    requires Ratios(v, t)
    ensures multiset(PartOf(s, records, v, t, Train)) + multiset(PartOf(s, records, v, t, Validation))
            + multiset(PartOf(s, records, v, t, Test)) == multiset(Dated(s, records))
  {
    hide StableSort, Joined, AllGroups, CompetitionOf;
    var dated := Dated(s, records);
    var found := Competitions(dated);
    var keys := StableSort(found, s.collate);
    CompetitionsCover(dated);
    SortedDistinct(found, s.collate);
    SortMembers(found, s.collate);
    GroupsConserve(dated, keys);
    JoinedConserves(s, dated, keys, v, t);
  }

  // ---------------------------------------------------------------- order in time

  lemma {:induction false} GroupMembers(dated: seq<Match>, k: string, r: Match)
    ensures r in Group(dated, k) <==> r in dated && CompetitionOf(r) == k
  {
    hide CompetitionOf;
    if dated != [] {
      GroupMembers(dated[..|dated| - 1], k, r);
      assert r in dated <==> r in dated[..|dated| - 1] || r == dated[|dated| - 1];
    }
  }

  lemma {:induction false} SliceMembers(s: Setup, dated: seq<Match>, k: string, v: real, t: real, part: Part, r: Match)
    requires Ratios(v, t) && r in SliceOf(s, dated, k, v, t, part)
    ensures CompetitionOf(r) == k
  {
    hide CountsOf, CompetitionOf;
    var sorted := StableSort(Group(dated, k), s.ByInstant());
    assert r in sorted;
    SortMembers(Group(dated, k), s.ByInstant());
    GroupMembers(dated, k, r);
  }

  /** A row of a part sits in the slice of its own competition. */
  lemma {:induction false} JoinedMembers(s: Setup, dated: seq<Match>, keys: seq<string>, v: real, t: real, part: Part,
                                         r: Match)
    requires Ratios(v, t) && r in Joined(s, dated, keys, v, t, part)
    ensures r in SliceOf(s, dated, CompetitionOf(r), v, t, part)
  {
    hide SliceOf, CompetitionOf;
    var n := |keys| - 1;
    if r in Joined(s, dated, keys[..n], v, t, part) {
      JoinedMembers(s, dated, keys[..n], v, t, part, r);
    } else {
      SliceMembers(s, dated, keys[n], v, t, part, r);
    }
  }

  predicate Earlier(p: Part, q: Part) { (p == Train && q != Train) || (p == Validation && q == Test) }

  lemma {:induction false} SlicesInOrder(s: Setup, sorted: seq<Match>, c: Counts, p: Part, q: Part, a: Match, b: Match)
    requires c.train + c.validation + c.test == |sorted| && Earlier(p, q)
    requires InOrder(sorted, s.ByInstant()) && a in Slice(sorted, c, p) && b in Slice(sorted, c, q)
    ensures s.Instant(a) <= s.Instant(b)
  {
    var i :| 0 <= i < |Slice(sorted, c, p)| && Slice(sorted, c, p)[i] == a;
    var j :| 0 <= j < |Slice(sorted, c, q)| && Slice(sorted, c, q)[j] == b;
    var x := if p == Train then i else c.train + i;
    var y := if q == Validation then c.train + j else c.train + c.validation + j;
    assert sorted[x] == a && sorted[y] == b && x < y;
    assert s.ByInstant()(sorted[x], sorted[y]);
  }

  lemma {:induction false} InstantOrder(s: Setup)
    ensures TotalPreorder(s.ByInstant())
  {
  }

  /** Within a competition no row of an earlier part is later than a row of a later part. */
  lemma {:induction false} SplitIsChronological(s: Setup, records: seq<Match>, v: real, t: real, p: Part, q: Part,
                                                a: Match, b: Match)
    requires Ratios(v, t) && Earlier(p, q) && CompetitionOf(a) == CompetitionOf(b)
    requires a in PartOf(s, records, v, t, p) && b in PartOf(s, records, v, t, q)
    ensures s.Instant(a) <= s.Instant(b)
  {
    hide CountsOf, CompetitionOf, Joined, Slice, StableSort;
    var dated := Dated(s, records);
    var keys := StableSort(Competitions(dated), s.collate);
    SortMembers(Joined(s, dated, keys, v, t, p), s.ByInstant());
    SortMembers(Joined(s, dated, keys, v, t, q), s.ByInstant());
    JoinedMembers(s, dated, keys, v, t, p, a);
    JoinedMembers(s, dated, keys, v, t, q, b);
    var group := Group(dated, CompetitionOf(a));
    InstantOrder(s);
    SortIsSorted(group, s.ByInstant());
    SlicesInOrder(s, StableSort(group, s.ByInstant()), CountsOf(|group|, v, t), p, q, a, b);
  }

  // ---------------------------------------------------------------- the disjointness check

  predicate DistinctIndices(records: seq<Match>) {
    forall i, j | 0 <= i < j < |records| :: records[i].index != records[j].index
  }

  lemma {:induction false} DatedDistinct(s: Setup, records: seq<Match>)
    requires DistinctIndices(records)
    ensures DistinctIndices(Dated(s, records)) && forall r | r in Dated(s, records) :: r in records
  {
    if records != [] {
      var n := |records| - 1;
      DatedDistinct(s, records[..n]);
      forall r | r in Dated(s, records[..n]) ensures r in records && r.index != records[n].index {
        var i :| 0 <= i < n && records[..n][i] == r;
        assert records[i] == r;
      }
    }
  }

  lemma {:induction false} AtMostOnce(rows: seq<Match>, r: Match)
    requires DistinctIndices(rows)
    ensures multiset(rows)[r] <= 1
  {
    if rows != [] {
      var n := |rows| - 1;
      AtMostOnce(rows[..n], r);
      assert rows == rows[..n] + [rows[n]];
      if r == rows[n] { assert r !in rows[..n]; }
    }
  }

  /** Two disjoint shares of rows with distinct indices have no index in common. */
  lemma {:induction false} NoSharedIndex(rows: seq<Match>, a: seq<Match>, b: seq<Match>)
    requires DistinctIndices(rows) && multiset(a) + multiset(b) <= multiset(rows)
    ensures !SharesIndex(a, b)
  {
    forall i, j | 0 <= i < |a| && 0 <= j < |b| ensures a[i].index != b[j].index {
      assert a[i] in multiset(a) && b[j] in multiset(b);
      assert a[i] in multiset(rows) && b[j] in multiset(rows);
      var x :| 0 <= x < |rows| && rows[x] == a[i];
      var y :| 0 <= y < |rows| && rows[y] == b[j];
      AtMostOnce(rows, a[i]);
      assert (multiset(a) + multiset(b))[a[i]] <= 1;
      assert a[i] != b[j];
    }
  }

  /** With distinct indices the split never reports leakage. */
  lemma {:induction false} NeverLeaks(s: Setup, records: seq<Match>, v: real, t: real)
    requires Ratios(v, t) && DistinctIndices(records)
    ensures Disjoint(PartOf(s, records, v, t, Train), PartOf(s, records, v, t, Validation),
                     PartOf(s, records, v, t, Test))
  {
    hide PartOf, SharesIndex, DistinctIndices;
    DatedDistinct(s, records);
    SplitConserves(s, records, v, t);
    var train, validation, test :=
      PartOf(s, records, v, t, Train), PartOf(s, records, v, t, Validation), PartOf(s, records, v, t, Test);
    NoSharedIndex(Dated(s, records), validation, train);
    NoSharedIndex(Dated(s, records), test, train);
    NoSharedIndex(Dated(s, records), test, validation);
  }
}
