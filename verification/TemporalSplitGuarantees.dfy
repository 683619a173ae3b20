/** How many rows of each competition the temporal split puts where, and in which order (backend/src/mlops.ts). */
module TemporalSplitGuarantees {
  import opened Sorting
  import opened Records
  import opened TemporalSplit

  // ---------------------------------------------------------------- the counts of one competition

  /** `n` is the whole part of a share, but at least one. */
  predicate WholeShare(n: nat, total: nat, ratio: real) {
    && n >= 1 && total as real * ratio < n as real + 1.0
    && (n > 1 ==> n as real <= total as real * ratio)
  }

  /**
   * A single row is for training.  Else the test rows are the whole share, the validation rows too
   * (none for a ratio of zero) unless that would leave nothing to train on: then one row trains.
   */
  lemma {:induction false} CountsMean(total: nat, v: real, t: real)
    requires Ratios(v, t)
    ensures
      var c := CountsOf(total, v, t);
      && c.train + c.validation + c.test == total
      && (total < 2 ==> c.train == total)
      && (total >= 2 ==>
            && WholeShare(c.test, total, t)
            && (v == 0.0 ==> c.validation == 0)
            && (c.train >= 1)
            && (v > 0.0 ==>
                  || WholeShare(c.validation, total, v)
                  || (c.train == 1 && exists wanted :: c.validation < wanted && WholeShare(wanted, total, v))))
  {
    hide TestRows, WantedValidation;
    if total >= 2 {
      ShareBelow(total, t);
      TestMeans(total, t);
      if v > 0.0 { WantedMeans(total, v); } else { NothingWanted(total, v); }
      var wanted := WantedValidation(total, v);
      var c := CountsOf(total, v, t);
      if c.validation != wanted { assert c.validation < wanted; }
    }
  }

  lemma {:induction false} TestMeans(total: nat, t: real)
    requires 0.0 < t < 1.0
    ensures WholeShare(TestRows(total, t), total, t)
  {
    FloorMeans(total as real * t);
  }

  lemma {:induction false} WantedMeans(total: nat, v: real)
    requires 0.0 < v < 1.0
    ensures WholeShare(WantedValidation(total, v), total, v)
  {
    FloorMeans(total as real * v);
  }

  lemma {:induction false} NothingWanted(total: nat, v: real)
    requires v <= 0.0
    ensures WantedValidation(total, v) == 0
  {
  }

  lemma {:induction false} FloorMeans(x: real)
    ensures x.Floor as real <= x < x.Floor as real + 1.0
  {
  }

  // ---------------------------------------------------------------- the counts of every competition

  /** The name a row is grouped under. */
  function NameOf(r: Match): string {
    match r.competition
    case Some(name) => name
    case None => match r.league case Some(name) => name case None => "sem-competicao"
  }

  function InCompetition(k: string): Match -> bool { (r: Match) => NameOf(r) == k }

  function DatedIn(s: Setup, k: string): Match -> bool { (r: Match) => s.instant(r) != None && NameOf(r) == k }

  function HasDate(s: Setup): Match -> bool { (r: Match) => s.instant(r) != None }

  lemma {:induction false} GroupCounts(s: Setup, records: seq<Match>, k: string)
    ensures |Dated(s, records)| == CountIf(records, HasDate(s))
    ensures |Group(Dated(s, records), k)| == CountIf(records, DatedIn(s, k))
  {
    if records != [] {
      var n := |records| - 1;
      var before := Dated(s, records[..n]);
      GroupCounts(s, records[..n], k);
      if s.Dated(records[n]) {
        assert (before + [records[n]])[..|before|] == before;
      } else {
        assert before + [] == before;
      }
    }
  }

  lemma {:induction false} AllOrNone(rows: seq<Match>, k: string, name: string)
    requires forall i | 0 <= i < |rows| :: NameOf(rows[i]) == name
    ensures CountIf(rows, InCompetition(k)) == if name == k then |rows| else 0
  {
    if rows != [] { AllOrNone(rows[..|rows| - 1], k, name); }
  }

  lemma {:induction false} NamesInGroup(dated: seq<Match>, k: string)
    ensures forall i | 0 <= i < |Group(dated, k)| :: NameOf(Group(dated, k)[i]) == k
  {
    forall i | 0 <= i < |Group(dated, k)| ensures NameOf(Group(dated, k)[i]) == k {
      GroupMembers(dated, k, Group(dated, k)[i]);
    }
  }

  /** The rows a competition of `total` rows sends to a part. */
  function ShareOf(total: nat, v: real, t: real, part: Part): nat
    requires Ratios(v, t)
  {
    match part
    case Train => CountsOf(total, v, t).train
    case Validation => CountsOf(total, v, t).validation
    case Test => CountsOf(total, v, t).test
  }

  lemma {:induction false} SliceCounts(s: Setup, dated: seq<Match>, name: string, v: real, t: real, part: Part,
                                       k: string)
    requires Ratios(v, t)
    ensures CountIf(SliceOf(s, dated, name, v, t, part), InCompetition(k))
         == if name == k then ShareOf(|Group(dated, k)|, v, t, part) else 0
  {
    hide CountsOf, StableSort;
    var group := Group(dated, name);
    var sorted := StableSort(group, s.ByInstant());
    NamesInGroup(dated, name);
    SortMembers(group, s.ByInstant());
    forall i | 0 <= i < |sorted| ensures NameOf(sorted[i]) == name { assert sorted[i] in group; }
    AllOrNone(SliceOf(s, dated, name, v, t, part), k, name);
  }

  lemma {:induction false} JoinedCounts(s: Setup, dated: seq<Match>, keys: seq<string>, v: real, t: real, part: Part,
                                        k: string)
    requires Ratios(v, t) && DistinctStrings(keys)
    ensures CountIf(Joined(s, dated, keys, v, t, part), InCompetition(k))
         == if k in keys then ShareOf(|Group(dated, k)|, v, t, part) else 0
  {
    hide SliceOf, ShareOf, InCompetition;
    if keys != [] {
      var n := |keys| - 1;
      JoinedCounts(s, dated, keys[..n], v, t, part, k);
      LastIsNew(keys);
      SliceCounts(s, dated, keys[n], v, t, part, k);
      CountConcat(Joined(s, dated, keys[..n], v, t, part), SliceOf(s, dated, keys[n], v, t, part), InCompetition(k));
    }
  }

  /** Every part holds, of every competition, its share of the dated rows of that competition. */
  lemma {:induction false} PartSizes(s: Setup, records: seq<Match>, v: real, t: real, part: Part, k: string)
    requires Ratios(v, t)
    ensures CountIf(PartOf(s, records, v, t, part), InCompetition(k))
         == ShareOf(CountIf(records, DatedIn(s, k)), v, t, part)
  {
    hide Joined, ShareOf, InCompetition, StableSort, DatedIn;
    var dated := Dated(s, records);
    var keys := StableSort(Competitions(dated), s.collate);
    var joined := Joined(s, dated, keys, v, t, part);
    CompetitionsCover(dated);
    SortedDistinct(Competitions(dated), s.collate);
    SortMembers(Competitions(dated), s.collate);
    JoinedCounts(s, dated, keys, v, t, part, k);
    CountPermutation(StableSort(joined, s.ByInstant()), joined, InCompetition(k));
    GroupCounts(s, records, k);
    if k !in keys { NoRows(dated, k, v, t, part); }
  }

  lemma {:induction false} NoRows(dated: seq<Match>, k: string, v: real, t: real, part: Part)
    requires Ratios(v, t) && k !in Competitions(dated)
    ensures ShareOf(|Group(dated, k)|, v, t, part) == 0
  {
    CompetitionsCover(dated);
    if Group(dated, k) != [] { GroupMembers(dated, k, Group(dated, k)[0]); }
  }

  /** Every part is in order of time, and of index at the same instant. */
  lemma {:induction false} PartInOrder(s: Setup, records: seq<Match>, v: real, t: real, part: Part, i: nat, j: nat)
    requires Ratios(v, t) && i < j < |PartOf(s, records, v, t, part)|
    ensures
      var a, b := PartOf(s, records, v, t, part)[i], PartOf(s, records, v, t, part)[j];
      s.Instant(a) < s.Instant(b) || (s.Instant(a) == s.Instant(b) && a.index <= b.index)
  {
    hide Joined, StableSort;
    var dated := Dated(s, records);
    var joined := Joined(s, dated, StableSort(Competitions(dated), s.collate), v, t, part);
    InstantOrder(s);
    SortIsSorted(joined, s.ByInstant());
    assert s.ByInstant()(StableSort(joined, s.ByInstant())[i], StableSort(joined, s.ByInstant())[j]);
  }

  /** The report lists each competition with its dated rows and its counts. */
  lemma {:induction false} ReportRow(s: Setup, records: seq<Match>, keys: seq<string>, v: real, t: real, i: nat)
    requires Ratios(v, t)
    ensures
      var rows := RowsOf(Dated(s, records), keys, v, t);
      && |rows| == |keys|
      && (i < |keys| ==>
            var total := CountIf(records, DatedIn(s, keys[i]));
            rows[i] == Row(keys[i], total, CountsOf(total, v, t)))
  {
    hide CountsOf, DatedIn;
    if keys != [] {
      var n := |keys| - 1;
      ReportRow(s, records, keys[..n], v, t, if i < n then i else 0);
      GroupCounts(s, records, keys[n]);
    }
  }

  /** The competitions listed are those of the dated rows, each once. */
  lemma {:induction false} ListedCompetitions(s: Setup, records: seq<Match>)
    ensures
      var keys := StableSort(Competitions(Dated(s, records)), s.collate);
      && (forall i, j | 0 <= i < j < |keys| :: keys[i] != keys[j])
      && forall k :: k in keys <==> CountIf(records, DatedIn(s, k)) > 0
  {
    hide StableSort, DatedIn;
    var dated := Dated(s, records);
    CompetitionsCover(dated);
    SortedDistinct(Competitions(dated), s.collate);
    SortMembers(Competitions(dated), s.collate);
    forall k ensures k in Competitions(dated) <==> CountIf(records, DatedIn(s, k)) > 0 {
      GroupCounts(s, records, k);
      CompetitionHasRows(dated, k);
    }
  }

  lemma {:induction false} CompetitionHasRows(dated: seq<Match>, k: string)
    ensures k in Competitions(dated) <==> |Group(dated, k)| > 0
  {
    if dated != [] { CompetitionHasRows(dated[..|dated| - 1], k); }
  }

  function HasIndex(index: int): Match -> bool { (r: Match) => r.index == index }

  /** Leakage is an index that occurs on both sides. */
  lemma {:induction false} SharingMeans(a: seq<Match>, b: seq<Match>)
    ensures SharesIndex(a, b) <==> exists x: int :: CountIf(a, HasIndex(x)) > 0 && CountIf(b, HasIndex(x)) > 0
  {
    if SharesIndex(a, b) {
      var i, j :| 0 <= i < |a| && 0 <= j < |b| && a[i].index == b[j].index;
      IndexOccurs(a, a[i].index);
      IndexOccurs(b, a[i].index);
      assert CountIf(a, HasIndex(a[i].index)) > 0 && CountIf(b, HasIndex(a[i].index)) > 0;
    }
    if x: int :| CountIf(a, HasIndex(x)) > 0 && CountIf(b, HasIndex(x)) > 0 {
      IndexOccurs(a, x);
      IndexOccurs(b, x);
    }
  }

  lemma {:induction false} IndexOccurs(rows: seq<Match>, x: int)
    ensures CountIf(rows, HasIndex(x)) > 0 <==> exists i | 0 <= i < |rows| :: rows[i].index == x
  {
    if rows != [] {
      var n := |rows| - 1;
      IndexOccurs(rows[..n], x);
      if i :| 0 <= i < |rows| && rows[i].index == x { if i < n { assert rows[..n][i].index == x; } }
      if i :| 0 <= i < n && rows[..n][i].index == x { assert rows[i].index == x; }
    }
  }
}
