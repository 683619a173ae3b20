/**
 * What a walk-forward report says (backend/src/backtesting.ts): which matches it evaluates, in which
 * order, and from what each of them was answered.
 */
module BacktestGuarantees {
  import opened Sorting
  import opened Records
  import opened Training
  import opened IncrementalModel
  import opened Backtesting

  /** The initial window: the given one, else `minRows` (20 when absent) but at least 20. */
  function WindowOf(minRows: Option<nat>, window: Option<nat>): nat {
    match window
    case Some(w) => w
    case None => if minRows.None? || minRows.value < 20 then 20 else minRows.value
  }

  /** A match has a usable date when it is a non-empty string the parser accepts. */
  predicate HasInstant<R>(s: Setup<R>, r: Match) {
    r.date.Some? && r.date.value != "" && s.parse(r.date.value).Some?
  }

  function When<R>(s: Setup<R>, r: Match): int {
    if HasInstant(s, r) then s.parse(r.date.value).value else 0
  }

  function EarlierThan<R>(s: Setup<R>, target: Match): Match -> bool {
    (x: Match) => When(s, x) < When(s, target)
  }

  /** At least `window` of the records are strictly earlier. */
  function HasHistory<R>(s: Setup<R>, records: seq<Match>): Match -> bool {
    (r: Match) => CountIf(records, EarlierThan(s, r)) >= WindowOf(s.minRows, s.window)
  }

  lemma {:induction false} SameInstant<R>(s: Setup<R>, r: Match)
    ensures s.Instant(r) == When(s, r) && (s.InstantOf(r).Some? <==> HasInstant(s, r))
  {
  }

  lemma {:induction false} SameCount<R>(s: Setup<R>, records: seq<Match>, target: Match)
    ensures CountIf(records, s.IsEarlier(s.Instant(target))) == CountIf(records, EarlierThan(s, target))
  {
    if records != [] {
      SameCount(s, records[..|records| - 1], target);
      SameInstant(s, records[|records| - 1]);
      SameInstant(s, target);
    }
  }

  lemma {:induction false} EligibleMeans<R>(s: Setup<R>, records: seq<Match>, target: Match)
    ensures s.Eligible(records, target) <==> HasHistory(s, records)(target)
  {
    PastCount(s, records, s.Instant(target));
    SameCount(s, records, target);
  }

  lemma {:induction false} SameEligible<R>(s: Setup<R>, all: seq<Match>, records: seq<Match>)
    ensures CountIf(records, s.IsEligible(all)) == CountIf(records, HasHistory(s, all))
  {
    if records != [] {
      SameEligible(s, all, records[..|records| - 1]);
      EligibleMeans(s, all, records[|records| - 1]);
    }
  }

  // ---------------------------------------------------------------- which matches are evaluated

  /** How often a match was evaluated. */
  function Evaluated<R>(evaluations: seq<Evaluation<R>>, target: Match): nat {
    if evaluations == [] then 0
    else
      var n := |evaluations| - 1;
      Evaluated(evaluations[..n], target) + (if evaluations[n].target == target then 1 else 0)
  }

  lemma {:induction false} EvaluatedOnceMore<R>(evaluations: seq<Evaluation<R>>, e: Evaluation<R>, target: Match)
    ensures Evaluated(evaluations + [e], target)
         == Evaluated(evaluations, target) + (if e.target == target then 1 else 0)
  {
    assert (evaluations + [e])[..|evaluations|] == evaluations;
  }

  /** One more target adds to the evaluations of that match alone, and only when it is eligible. */
  lemma {:induction false} EvaluatedStep<R>(s: Setup<R>, ordered: seq<Match>, n: nat, target: Match)
    requires n < |ordered|
    ensures Evaluated(s.WalkForward(ordered, n + 1), target)
         == Evaluated(s.WalkForward(ordered, n), target)
            + (if ordered[n] == target && s.Eligible(ordered, target) then 1 else 0)
  {
    hide Setup.Eligible, Setup.Answer, Evaluated;
    var r, before := ordered[n], s.WalkForward(ordered, n);
    if s.Eligible(ordered, r) {
      EvaluatedOnceMore(before, Evaluation(r, s.Answer(ordered, r)), target);
    } else {
      assert s.WalkForward(ordered, n + 1) == before;
    }
  }

  lemma {:induction false} EvaluatedSoFar<R>(s: Setup<R>, ordered: seq<Match>, n: nat, target: Match)
    requires n <= |ordered|
    ensures Evaluated(s.WalkForward(ordered, n), target)
         == if s.Eligible(ordered, target) then multiset(ordered[..n])[target] else 0
  {
    hide Setup.Eligible, Setup.WalkForward, Evaluated;
    if n == 0 {
      NothingEvaluated(s, ordered, target);
    } else {
      EvaluatedSoFar(s, ordered, n - 1, target);
      EvaluatedStep(s, ordered, n - 1, target);
      OneMoreOccurrence(ordered, n - 1, target);
    }
  }

  lemma {:induction false} NothingEvaluated<R>(s: Setup<R>, ordered: seq<Match>, target: Match)
    ensures Evaluated(s.WalkForward(ordered, 0), target) == 0 == multiset(ordered[..0])[target]
  {
  }

  lemma {:induction false} OneMoreOccurrence(ordered: seq<Match>, n: nat, target: Match)
    requires n < |ordered|
    ensures multiset(ordered[..n + 1])[target]
         == multiset(ordered[..n])[target] + (if ordered[n] == target then 1 else 0)
  {
    assert ordered[..n + 1] == ordered[..n] + [ordered[n]];
  }

  /**
   * A match is evaluated, as often as it occurs, exactly when at least the initial window of records
   * lies strictly before it; `evaluatedRows` counts these matches.
   */
  lemma {:induction false} EvaluatedExactly<R>(s: Setup<R>, records: seq<Match>, target: Match)
    ensures
      var evaluations := s.WalkForward(s.Ordered(records), |records|);
      && Evaluated(evaluations, target)
         == (if CountIf(records, EarlierThan(s, target)) >= WindowOf(s.minRows, s.window)
             then multiset(records)[target] else 0)
      && |evaluations| == CountIf(records, HasHistory(s, records))
  {
    var ordered := s.Ordered(records);
    hide Setup.Eligible, Setup.WalkForward;
    EvaluatedSoFar(s, ordered, |ordered|, target);
    assert ordered[..|ordered|] == ordered;
    SameEligibility(s, ordered, records, target);
    EligibleMeans(s, records, target);
    EvaluatedRowsAreEligible(s, records);
    SameEligible(s, records, records);
  }

  // ---------------------------------------------------------------- order and answers

  /** Time order, and among simultaneous matches the order of their indices. */
  predicate NotAfter<R>(s: Setup<R>, a: Match, b: Match) {
    When(s, a) < When(s, b) || (When(s, a) == When(s, b) && a.index <= b.index)
  }

  lemma {:induction false} OrderedMeans<R>(s: Setup<R>, records: seq<Match>, i: nat, j: nat)
    requires i < j < |s.Ordered(records)|
    ensures NotAfter(s, s.Ordered(records)[i], s.Ordered(records)[j])
  {
    var le, ordered := s.Comparator(), s.Ordered(records);
    ComparatorOrders(s);
    SortIsSorted(records, le);
    assert le(ordered[i], ordered[j]);
    SameInstant(s, ordered[i]);
    SameInstant(s, ordered[j]);
  }

  lemma {:induction false} ComparatorOrders<R>(s: Setup<R>)
    ensures TotalPreorder(s.Comparator())
  {
  }

  lemma {:induction false} TargetsInOrder<R>(s: Setup<R>, records: seq<Match>, n: nat, k: nat)
    requires n <= |s.Ordered(records)| && k < |s.WalkForward(s.Ordered(records), n)|
    ensures exists i | 0 <= i < n :: s.WalkForward(s.Ordered(records), n)[k].target == s.Ordered(records)[i]
    ensures
      var evaluations := s.WalkForward(s.Ordered(records), n);
      forall j | 0 <= j < k :: NotAfter(s, evaluations[j].target, evaluations[k].target)
  {
    hide Setup.Eligible, Setup.Answer, Setup.Ordered, NotAfter;
    var ordered := s.Ordered(records);
    var before := s.WalkForward(ordered, n - 1);
    if k < |before| {
      TargetsInOrder(s, records, n - 1, k);
    } else {
      assert s.WalkForward(ordered, n)[k].target == ordered[n - 1];
      forall j | 0 <= j < k ensures NotAfter(s, before[j].target, ordered[n - 1]) {
        TargetsInOrder(s, records, n - 1, j);
        var i :| 0 <= i < n - 1 && before[j].target == ordered[i];
        OrderedMeans(s, records, i, n - 1);
      }
    }
  }

  /** `past` holds exactly the records strictly before `target`. */
  ghost predicate IsPast<R>(s: Setup<R>, records: seq<Match>, target: Match, past: seq<Match>) {
    forall x: Match :: multiset(past)[x] == if When(s, x) < When(s, target) then multiset(records)[x] else 0
  }

  lemma {:induction false} PastMeans<R>(s: Setup<R>, records: seq<Match>, target: Match)
    ensures IsPast(s, records, target, s.Past(records, s.Instant(target)))
  {
    hide When;
    if records == [] {
    } else {
      var n := |records| - 1;
      PastMeans(s, records[..n], target);
      assert records == records[..n] + [records[n]];
      SameInstant(s, records[n]);
      SameInstant(s, target);
    }
  }

  /** What is asked about a match: its teams and context, nothing of its result. */
  predicate AsksAbout(q: Request, r: Match) {
    && q.homeTeam == (match r.homeTeam case Some(name) => name case None => "")
    && q.awayTeam == (match r.awayTeam case Some(name) => name case None => "")
    && q.league == r.league && q.competition == r.competition && q.season == r.season && q.date == r.date
  }

  /** An answer is what the model of some rows, all of them strictly earlier, says about the match. */
  ghost predicate AnsweredFrom<R>(s: Setup<R>, records: seq<Match>, e: Evaluation<R>, past: seq<Match>, q: Request) {
    && IsPast(s, records, e.target, past) && AsksAbout(q, e.target)
    && e.response == s.predict(SnapshotOf(past, if s.minRows.Some? then s.minRows.value else 20, s.teamKey), q)
  }

  ghost predicate FromPast<R>(s: Setup<R>, records: seq<Match>, e: Evaluation<R>) {
    exists past, q :: AnsweredFrom(s, records, e, past, q)
  }

  lemma {:induction false} EvaluationMeans<R>(s: Setup<R>, ordered: seq<Match>, n: nat, k: nat)
    requires n <= |ordered| && k < |s.WalkForward(ordered, n)|
    ensures
      var e := s.WalkForward(ordered, n)[k];
      AnsweredFrom(s, ordered, e, s.Past(ordered, s.Instant(e.target)), RequestFor(e.target))
  {
    hide Setup.Eligible, SnapshotOf, IsPast, Setup.Past, Setup.Instant;
    var before := s.WalkForward(ordered, n - 1);
    if k < |before| {
      EvaluationMeans(s, ordered, n - 1, k);
    } else {
      PastMeans(s, ordered, ordered[n - 1]);
    }
  }

  /** The whole report: an error exactly for a match without usable date; else the evaluated matches in time order. */
  lemma {:induction false} ReportMeans<R>(s: Setup<R>, records: seq<Match>)
    ensures s.Expected(records).TemporalLeakage? <==> exists i | 0 <= i < |records| :: !HasInstant(s, records[i])
    ensures s.Expected(records).Report? ==>
              var report := s.Expected(records);
              && report.initialWindow == WindowOf(s.minRows, s.window)
              && report.evaluatedRows == |report.evaluations| == CountIf(records, HasHistory(s, records))
              && (forall j, k | 0 <= j < k < |report.evaluations| ::
                    NotAfter(s, report.evaluations[j].target, report.evaluations[k].target))
              && forall k | 0 <= k < |report.evaluations| ::
                   FromPast(s, records, report.evaluations[k])
  {
    hide Setup.WalkForward, NotAfter, AnsweredFrom, Setup.Ordered, HasInstant, Setup.InstantOf;
    forall i | 0 <= i < |records| ensures s.InstantOf(records[i]).Some? <==> HasInstant(s, records[i]) {
      SameInstant(s, records[i]);
    }
    assert s.Dated(records) <==> forall i | 0 <= i < |records| :: HasInstant(s, records[i]);
    if s.Expected(records).Report? {
      var ordered := s.Ordered(records);
      OrderedIsChronological(s, records);
      assert |ordered| == |multiset(ordered)| == |records|;
      var evaluations := s.WalkForward(ordered, |records|);
      EvaluatedRows(s, records);
      forall j, k | 0 <= j < k < |evaluations| ensures NotAfter(s, evaluations[j].target, evaluations[k].target) {
        TargetsInOrder(s, records, |records|, k);
      }
      forall k | 0 <= k < |evaluations| ensures FromPast(s, records, evaluations[k]) {
        EvaluationMeans(s, ordered, |records|, k);
        SameRecords(s, ordered, records, evaluations[k], s.Past(ordered, s.Instant(evaluations[k].target)),
                    RequestFor(evaluations[k].target));
      }
    }
  }

  lemma {:induction false} EvaluatedRows<R>(s: Setup<R>, records: seq<Match>)
    ensures |s.WalkForward(s.Ordered(records), |records|)| == CountIf(records, HasHistory(s, records))
  {
    EvaluatedRowsAreEligible(s, records);
    SameEligible(s, records, records);
  }

  lemma {:induction false} SameRecords<R>(s: Setup<R>, a: seq<Match>, b: seq<Match>, e: Evaluation<R>, past: seq<Match>,
                                          q: Request)
    requires multiset(a) == multiset(b) && AnsweredFrom(s, a, e, past, q)
    ensures AnsweredFrom(s, b, e, past, q)
  {
    hide SnapshotOf, AsksAbout, When;
  }
}
