/**
 * Walk-forward backtest (backend/src/backtesting.ts): records are grouped by instant, every group
 * is predicted from the state before it, and only then enters the state.
 */
module Backtesting {
  import opened Sorting
  import opened Records
  import opened Training
  import opened TeamProfiles
  import opened BatchTraining
  import opened IncrementalModel
  import Markets

  datatype Request = Request(
    homeTeam: string, awayTeam: string,
    league: Option<string>, competition: Option<string>, season: Option<string>, date: Option<string>)

  function RequestFor(r: Match): Request {
    Request(if r.homeTeam.Some? then r.homeTeam.value else "", if r.awayTeam.Some? then r.awayTeam.value else "",
            r.league, r.competition, r.season, r.date)
  }

  /** One evaluated match with what the model answered for it. */
  datatype Evaluation<R> = Evaluation(target: Match, response: R)

  datatype Backtest<R> = TemporalLeakage | Report(initialWindow: nat, evaluatedRows: nat,
                                                  evaluations: seq<Evaluation<R>>)

  /** `predict` stands for `predictMarkets`, `parse` for the conversion of a date to an instant. */
  datatype Setup<R> = Setup(minRows: Option<nat>, window: Option<nat>, teamKey: string -> string,
                            parse: string -> Option<int>, predict: (Model, Request) -> R)
  {
    function MinRows(): nat { if minRows.Some? then minRows.value else 20 }

    function InitialWindow(): nat {
      if window.Some? then window.value else if MinRows() > 20 then MinRows() else 20
    }

    /** `None` is the source's TemporalLeakageError. */
    function InstantOf(r: Match): Option<int> {
      if !Truthy(r.date) then None else parse(r.date.value)
    }

    predicate Dated(records: seq<Match>) {
      forall k | 0 <= k < |records| :: InstantOf(records[k]).Some?
    }

    function Instant(r: Match): int {
      if InstantOf(r).Some? then InstantOf(r).value else 0
    }

    predicate Before(a: Match, b: Match) {
      Instant(a) < Instant(b) || (Instant(a) == Instant(b) && a.index <= b.index)
    }

    function Ordered(records: seq<Match>): seq<Match> {
      StableSort(records, Comparator())
    }

    function Comparator(): (Match, Match) -> bool {
      (a: Match, b: Match) => Before(a, b)
    }

    // -------------------------------------------------------------- specification

    /** The records strictly earlier than `t`. */
    function Past(records: seq<Match>, t: int): seq<Match> {
      if records == [] then []
      else
        var n := |records| - 1;
        Past(records[..n], t) + (if Instant(records[n]) < t then [records[n]] else [])
    }

    predicate Eligible(records: seq<Match>, target: Match) {
      |Past(records, Instant(target))| >= InitialWindow()
    }

    /** The answer for a target: the model of all strictly earlier records, asked without the result. */
    function Answer(records: seq<Match>, target: Match): R {
      predict(SnapshotOf(Past(records, Instant(target)), MinRows(), teamKey), RequestFor(target))
    }

    /** Evaluations of the first `n` targets. */
    function WalkForward(ordered: seq<Match>, n: nat): seq<Evaluation<R>>
      requires n <= |ordered|
    {
      if n == 0 then []
      else
        var target := ordered[n - 1];
        WalkForward(ordered, n - 1)
        + (if Eligible(ordered, target) then [Evaluation(target, Answer(ordered, target))] else [])
    }

    /** The whole report. */
    function Expected(records: seq<Match>): Backtest<R> {
      if !Dated(records) then TemporalLeakage
      else
        var evaluations := WalkForward(Ordered(records), |records|);
        Report(InitialWindow(), |evaluations|, evaluations)
    }

    function IsEarlier(t: int): Match -> bool { (r: Match) => Instant(r) < t }

    function IsEligible(records: seq<Match>): Match -> bool { (r: Match) => Eligible(records, r) }
  }

  ghost predicate Chronological<R>(s: Setup<R>, records: seq<Match>) {
    forall i, j | 0 <= i < j < |records| :: s.Instant(records[i]) <= s.Instant(records[j])
  }

  lemma {:induction false} OrderedIsChronological<R>(s: Setup<R>, records: seq<Match>)
    ensures Chronological(s, s.Ordered(records))
    ensures multiset(s.Ordered(records)) == multiset(records)
  {
    var le := s.Comparator();
    SortIsSorted(records, le);
    forall i, j | 0 <= i < j < |s.Ordered(records)|
      ensures s.Instant(s.Ordered(records)[i]) <= s.Instant(s.Ordered(records)[j])
    {
      assert le(s.Ordered(records)[i], s.Ordered(records)[j]);
    }
  }

  /** In chronological order the strict past of a group is the list up to the group. */
  lemma {:induction false} PastIsPrefix<R>(s: Setup<R>, records: seq<Match>, start: nat, t: int)
    requires start <= |records|
    requires forall k | 0 <= k < start :: s.Instant(records[k]) < t
    requires forall k | start <= k < |records| :: s.Instant(records[k]) >= t
    ensures s.Past(records, t) == records[..start]
  {
    if records != [] {
      var n := |records| - 1;
      if start <= n {
        PastIsPrefix(s, records[..n], start, t);
        assert records[..n][..start] == records[..start];
      } else {
        PastIsPrefix(s, records[..n], n, t);
        assert records[..start] == records[..n] + [records[n]];
      }
    }
  }

  // ---------------------------------------------------------------- the algorithm

  method CheckDates<R>(s: Setup<R>, records: seq<Match>) returns (dated: bool)
    ensures dated == s.Dated(records)
  {
    for k := 0 to |records|
      invariant s.Dated(records[..k])
    {
      if s.InstantOf(records[k]).None? { return false; }
      assert forall j | 0 <= j < k :: s.InstantOf(records[..k][j]).Some?;
    }
    assert records[..|records|] == records;
    dated := true;
  }

  method EndOfGroup<R>(s: Setup<R>, ordered: seq<Match>, start: nat) returns (end: nat)
    requires start < |ordered|
    ensures start < end <= |ordered|
    ensures forall k | start <= k < end :: s.Instant(ordered[k]) == s.Instant(ordered[start])
    ensures end < |ordered| ==> s.Instant(ordered[end]) != s.Instant(ordered[start])
  {
    end := start;
    while end < |ordered| && s.Instant(ordered[end]) == s.Instant(ordered[start])
      invariant start <= end <= |ordered|
      invariant forall k | start <= k < end :: s.Instant(ordered[k]) == s.Instant(ordered[start])
    {
      end := end + 1;
    }
  }

  /** Predicts one group from the state before it, when enough rows were accumulated. */
  method PredictGroup<R>(s: Setup<R>, ordered: seq<Match>, start: nat, end: nat, model: IncrementalFrequencyModel)
    returns (evaluations: seq<Evaluation<R>>)
    requires start < end <= |ordered| && Chronological(s, ordered)
    requires forall k | start <= k < end :: s.Instant(ordered[k]) == s.Instant(ordered[start])
    requires forall k | 0 <= k < start :: s.Instant(ordered[k]) < s.Instant(ordered[start])
    requires model.Valid() && model.ids == Markets.MARKET_IDS && model.history == ordered[..start]
    requires model.minRows == s.MinRows() && model.teamKey == s.teamKey
    ensures s.WalkForward(ordered, end) == s.WalkForward(ordered, start) + evaluations
  {
    hide SnapshotOf, IncrementalFrequencyModel.Valid;
    evaluations := [];
    PastIsPrefix(s, ordered, start, s.Instant(ordered[start]));
    if start >= s.InitialWindow() {
      var snapshot := model.Snapshot();
      evaluations := PredictTargets(s, ordered, start, end, Freeze(snapshot));
    } else {
      NothingEligible(s, ordered, start, end);
    }
  }

  /** The targets of a group; nothing is updated meanwhile, so the snapshot reads the same for all of them. */
  method PredictTargets<R>(s: Setup<R>, ordered: seq<Match>, start: nat, end: nat, model: Model)
    returns (evaluations: seq<Evaluation<R>>)
    requires start < end <= |ordered|
    requires forall k | start <= k < end :: s.Eligible(ordered, ordered[k])
    requires forall k | start <= k < end :: s.Answer(ordered, ordered[k]) == s.predict(model, RequestFor(ordered[k]))
    ensures s.WalkForward(ordered, end) == s.WalkForward(ordered, start) + evaluations
  {
    hide SnapshotOf, Setup.WalkForward, Setup.Answer, Setup.Eligible;
    evaluations := [];
    for k := start to end
      invariant s.WalkForward(ordered, k) == s.WalkForward(ordered, start) + evaluations
    {
      WalkForwardStep(s, ordered, k);
      evaluations := evaluations + [Evaluation(ordered[k], s.predict(model, RequestFor(ordered[k])))];
    }
  }

  lemma {:induction false} WalkForwardStep<R>(s: Setup<R>, ordered: seq<Match>, k: nat)
    requires k < |ordered| && s.Eligible(ordered, ordered[k])
    ensures s.WalkForward(ordered, k + 1)
            == s.WalkForward(ordered, k) + [Evaluation(ordered[k], s.Answer(ordered, ordered[k]))]
  {
    hide SnapshotOf, Setup.Answer, Setup.Eligible;
  }

  lemma {:induction false} NothingEligible<R>(s: Setup<R>, ordered: seq<Match>, start: nat, end: nat)
    requires start <= end <= |ordered|
    requires forall k | start <= k < end :: !s.Eligible(ordered, ordered[k])
    ensures s.WalkForward(ordered, end) == s.WalkForward(ordered, start)
  {
    if start < end { NothingEligible(s, ordered, start, end - 1); }
  }

  method UpdateGroup(model: IncrementalFrequencyModel, ordered: seq<Match>, start: nat, end: nat)
    requires start <= end <= |ordered|
    requires model.Valid() && model.history == ordered[..start]
    modifies model, model.profiles.Values
    ensures model.Valid() && model.history == ordered[..end]
    ensures forall k | k in model.profiles ::
            fresh(model.profiles[k]) || model.profiles[k] in old(model.profiles.Values)
  {
    hide IncrementalFrequencyModel.Valid;
    for k := start to end
      invariant model.Valid() && model.history == ordered[..k]
      invariant forall j | j in model.profiles ::
                fresh(model.profiles[j]) || model.profiles[j] in old(model.profiles.Values)
    {
      model.Update(ordered[k]);
      assert ordered[..k + 1] == ordered[..k] + [ordered[k]];
    }
  }

  method RunBacktest<R>(s: Setup<R>, records: seq<Match>) returns (report: Backtest<R>)
    ensures report == s.Expected(records)
  {
    hide IncrementalFrequencyModel.Valid, SnapshotOf, StableSort;
    var dated := CheckDates(s, records);
    if !dated { return TemporalLeakage; }
    var ordered := s.Ordered(records);
    OrderedIsChronological(s, records);
    var model := new IncrementalFrequencyModel(s.MinRows(), s.teamKey);
    var evaluations: seq<Evaluation<R>> := [];
    var cursor := 0;
    while cursor < |ordered|
      invariant 0 <= cursor <= |ordered|
      invariant 0 < cursor < |ordered| ==> s.Instant(ordered[cursor - 1]) < s.Instant(ordered[cursor])
      invariant fresh(model) && fresh(model.profiles.Values)
      invariant model.Valid() && model.history == ordered[..cursor]
      invariant evaluations == s.WalkForward(ordered, cursor)
    {
      var start := cursor;
      cursor := EndOfGroup(s, ordered, start);
      var found := PredictGroup(s, ordered, start, cursor, model);
      evaluations := evaluations + found;
      UpdateGroup(model, ordered, start, cursor);
    }
    report := Report(s.InitialWindow(), |evaluations|, evaluations);
  }

  // ---------------------------------------------------------------- what the backtest guarantees

  lemma {:induction false} PastCount<R>(s: Setup<R>, records: seq<Match>, t: int)
    ensures |s.Past(records, t)| == CountIf(records, s.IsEarlier(t))
  {
    if records != [] { PastCount(s, records[..|records| - 1], t); }
  }

  lemma {:induction false} SameEligibility<R>(s: Setup<R>, a: seq<Match>, b: seq<Match>, target: Match)
    requires multiset(a) == multiset(b)
    ensures s.Eligible(a, target) == s.Eligible(b, target)
  {
    PastCount(s, a, s.Instant(target));
    PastCount(s, b, s.Instant(target));
    CountPermutation(a, b, s.IsEarlier(s.Instant(target)));
  }

  lemma {:induction false} WalkForwardLength<R>(s: Setup<R>, ordered: seq<Match>, n: nat, all: seq<Match>)
    requires n <= |ordered| && multiset(ordered) == multiset(all)
    ensures |s.WalkForward(ordered, n)| == CountIf(ordered[..n], s.IsEligible(all))
  {
    if n > 0 {
      WalkForwardLength(s, ordered, n - 1, all);
      assert ordered[..n][..n - 1] == ordered[..n - 1];
      SameEligibility(s, ordered, all, ordered[n - 1]);
    }
  }

  /** `evaluatedRows` is the number of records with at least `initialWindow` strictly earlier records. */
  lemma {:induction false} EvaluatedRowsAreEligible<R>(s: Setup<R>, records: seq<Match>)
    ensures |s.WalkForward(s.Ordered(records), |records|)| == CountIf(records, s.IsEligible(records))
  {
    var ordered := s.Ordered(records);
    WalkForwardLength(s, ordered, |records|, records);
    assert ordered[..|records|] == ordered;
    CountPermutation(ordered, records, s.IsEligible(records));
  }

  lemma {:induction false} PastMembers<R>(s: Setup<R>, records: seq<Match>, t: int, k: nat)
    requires k < |s.Past(records, t)|
    ensures s.Past(records, t)[k] in records && s.Instant(s.Past(records, t)[k]) < t
  {
    var n := |records| - 1;
    if k < |s.Past(records[..n], t)| { PastMembers(s, records[..n], t, k); }
  }

  /**
   * The incremental backtest is the quadratic one: without a league or competition called 'global',
   * every answer is that of a model trained from scratch on exactly the strictly earlier records.
   */
  lemma {:induction false} AnswersAreRetrained<R>(s: Setup<R>, records: seq<Match>, target: Match)
    requires forall k | 0 <= k < |records| :: !NamesGlobal(records[k])
    ensures s.Answer(records, target)
         == s.predict(Batch(s.Past(records, s.Instant(target)), s.MinRows(), s.teamKey), RequestFor(target))
  {
    hide Batch, SnapshotOf;
    var past := s.Past(records, s.Instant(target));
    forall k | 0 <= k < |past| ensures !NamesGlobal(past[k]) { PastMembers(s, records, s.Instant(target), k); }
    IncrementalEqualsBatch(past, s.MinRows(), s.teamKey);
  }

  /** Two records for the same fixture: same place in the order, same question, and the same record before `t`. */
  predicate Twins<R>(s: Setup<R>, t: int, a: Match, b: Match) {
    && s.Instant(a) == s.Instant(b) && a.index == b.index && RequestFor(a) == RequestFor(b)
    && (s.Instant(a) < t ==> a == b)
  }

  function TwinsAt<R>(s: Setup<R>, t: int): (Match, Match) -> bool {
    (a: Match, b: Match) => Twins(s, t, a, b)
  }

  lemma {:induction false} SamePast<R>(s: Setup<R>, a: seq<Match>, b: seq<Match>, t: int, u: int)
    requires Pairwise(a, b, TwinsAt(s, t)) && u <= t
    ensures s.Past(a, u) == s.Past(b, u)
  {
    if a != [] {
      var n := |a| - 1;
      assert TwinsAt(s, t)(a[n], b[n]);
      assert Pairwise(a[..n], b[..n], TwinsAt(s, t));
      SamePast(s, a[..n], b[..n], t, u);
    }
  }

  /**
   * Strict look-back: changing anything but order and request of the records at instant `t` or later
   * changes no answer, and no eligibility, of a target up to `t`.
   */
  lemma {:induction false} NoLookahead<R>(s: Setup<R>, a: seq<Match>, b: seq<Match>, t: int, k: nat)
    requires Pairwise(a, b, TwinsAt(s, t)) && k < |a|
    requires s.Instant(s.Ordered(a)[k]) <= t
    ensures |s.Ordered(b)| == |a|
    ensures s.Eligible(s.Ordered(a), s.Ordered(a)[k]) == s.Eligible(s.Ordered(b), s.Ordered(b)[k])
    ensures s.Answer(s.Ordered(a), s.Ordered(a)[k]) == s.Answer(s.Ordered(b), s.Ordered(b)[k])
  {
    hide SnapshotOf;
    SortPairwise(a, b, s.Comparator(), TwinsAt(s, t));
    var x, y := s.Ordered(a)[k], s.Ordered(b)[k];
    assert TwinsAt(s, t)(x, y);
    SamePast(s, s.Ordered(a), s.Ordered(b), t, s.Instant(x));
  }
}
