/** What the pre-match features guarantee over whole runs (backend/src/preMatchFeatures.ts). */
module FeatureGuarantees {
  import opened Records
  import opened StringOrder
  import opened PreMatchFeatures
  import opened FeatureGeneration

  // ---------------------------------------------------------------- no leakage

  /** The same fixture, possibly with another result. */
  predicate SameFixture(a: Match, b: Match) {
    b == a.(homeGoals := b.homeGoals, awayGoals := b.awayGoals, outcome := b.outcome, totalGoals := b.totalGoals)
  }

  predicate AgreeBefore(a: seq<Match>, b: seq<Match>, j: nat) {
    |a| == |b| && (forall i | 0 <= i < |a| :: SameFixture(a[i], b[i]))
      && (forall i | 0 <= i < j && i < |a| :: a[i] == b[i])
  }

  lemma {:induction false} ExamplesGrow(s: Setup, ordered: seq<Match>, n: nat, m: nat)
    requires n <= m <= |ordered|
    ensures ExamplesOf(s, ordered, n) <= ExamplesOf(s, ordered, m)
  {
    hide FeaturesAt;
    if n < m { ExamplesGrow(s, ordered, n, m - 1); }
  }

  lemma {:induction false} SameFixtureSameFeatures(s: Setup, past: seq<Match>, a: Match, b: Match)
    requires SameFixture(a, b)
    ensures FeaturesAt(s, past, a) == FeaturesAt(s, past, b)
  {
    hide HistoryFeatures, Rating, Entries, PairAfter;
  }

  lemma {:induction false} ExamplesAgree(s: Setup, a: seq<Match>, b: seq<Match>, j: nat, n: nat)
    requires AgreeBefore(a, b, j) && n <= |a|
    ensures |ExamplesOf(s, a, n)| == |ExamplesOf(s, b, n)|
    ensures n <= j + 1
            ==> forall k | 0 <= k < |ExamplesOf(s, a, n)| ::
                ExamplesOf(s, a, n)[k].features == ExamplesOf(s, b, n)[k].features
  {
    hide FeaturesAt;
    if n > 0 {
      ExamplesAgree(s, a, b, j, n - 1);
      assert SameFixture(a[n - 1], b[n - 1]);
      if n <= j + 1 {
        assert a[..n - 1] == b[..n - 1];
        SameFixtureSameFeatures(s, a[..n - 1], a[n - 1], b[n - 1]);
      }
    }
  }

  /** Changing results at position `j` or later changes no feature at positions up to and including `j`. */
  lemma {:induction false} NonInterference(s: Setup, a: seq<Match>, b: seq<Match>, j: nat)
    requires AgreeBefore(a, b, j) && j < |a|
    ensures |ExamplesOf(s, a, |a|)| == |ExamplesOf(s, b, |b|)|
    ensures |ExamplesOf(s, a, j + 1)| <= |ExamplesOf(s, a, |a|)|
    ensures forall k | 0 <= k < |ExamplesOf(s, a, j + 1)| ::
              ExamplesOf(s, a, |a|)[k].features == ExamplesOf(s, b, |b|)[k].features
  {
    ExamplesAgree(s, a, b, j, |a|);
    ExamplesAgree(s, a, b, j, j + 1);
    ExamplesGrow(s, a, j + 1, |a|);
    ExamplesGrow(s, b, j + 1, |b|);
  }

  // ---------------------------------------------------------------- ratings

  lemma {:induction false} ExpectedRange(s: Setup, home: real, away: real)
    ensures 0.0 < Expected(s, home, away) < 1.0
  {
    Reciprocal(s.pow10((away - home - ELO_HOME_ADVANTAGE) / 400.0));
  }

  lemma {:induction false} Reciprocal(x: real)
    requires x > 0.0
    ensures 0.0 < 1.0 / (1.0 + x) < 1.0
  {
  }

  /** What the home team gains, and the away team loses. */
  function Gain(s: Setup, past: seq<Match>, r: Match): real {
    ELO_K * (Score(r) - Expected(s, Rating(s, past, s.HomeKey(r)), Rating(s, past, s.AwayKey(r))))
  }

  lemma {:induction false} RatingStep(s: Setup, past: seq<Match>, r: Match, key: string)
    requires s.Regular(r)
    ensures -20.0 < Gain(s, past, r) < 20.0
    ensures Rating(s, past + [r], key) == Rating(s, past, key)
                                        + (if Usable(r) && key == s.HomeKey(r) then Gain(s, past, r)
                                           else if Usable(r) && key == s.AwayKey(r) then -Gain(s, past, r) else 0.0)
  {
    assert (past + [r])[..|past|] == past;
    ExpectedRange(s, Rating(s, past, s.HomeKey(r)), Rating(s, past, s.AwayKey(r)));
  }

  /** The teams of the usable records, in order of appearance. */
  function TeamsSeen(s: Setup, past: seq<Match>): seq<string> {
    if past == [] then []
    else
      var before, r := TeamsSeen(s, past[..|past| - 1]), past[|past| - 1];
      if Usable(r) then AddOnce(AddOnce(before, s.HomeKey(r)), s.AwayKey(r)) else before
  }

  predicate Distinct(keys: seq<string>) { forall i, j | 0 <= i < j < |keys| :: keys[i] != keys[j] }

  function RatingSum(s: Setup, past: seq<Match>, keys: seq<string>): real {
    if keys == [] then 0.0 else RatingSum(s, past, keys[..|keys| - 1]) + Rating(s, past, keys[|keys| - 1])
  }

  lemma {:induction false} SeenDistinct(s: Setup, past: seq<Match>)
    ensures Distinct(TeamsSeen(s, past))
  {
    if past != [] { SeenDistinct(s, past[..|past| - 1]); }
  }

  lemma {:induction false} UnseenRating(s: Setup, past: seq<Match>, key: string)
    requires key !in TeamsSeen(s, past)
    ensures Rating(s, past, key) == ELO_START
  {
    if past != [] { UnseenRating(s, past[..|past| - 1], key); }
  }

  lemma {:induction false} SumStep(s: Setup, past: seq<Match>, r: Match, keys: seq<string>)
    requires Distinct(keys) && Usable(r) && s.Regular(r)
    ensures RatingSum(s, past + [r], keys) == RatingSum(s, past, keys)
                                            + (if s.HomeKey(r) in keys then Gain(s, past, r) else 0.0)
                                            - (if s.AwayKey(r) in keys then Gain(s, past, r) else 0.0)
  {
    hide Rating, Gain;
    if keys != [] {
      var n := |keys| - 1;
      SumStep(s, past, r, keys[..n]);
      RatingStep(s, past, r, keys[n]);
      assert forall x :: x in keys <==> x in keys[..n] || x == keys[n];
      assert keys[n] !in keys[..n];
    }
  }

  lemma {:induction false} SumAddOnce(s: Setup, past: seq<Match>, keys: seq<string>, key: string)
    requires key !in keys ==> Rating(s, past, key) == ELO_START
    ensures RatingSum(s, past, AddOnce(keys, key)) - ELO_START * |AddOnce(keys, key)| as real
         == RatingSum(s, past, keys) - ELO_START * |keys| as real
  {
    hide Rating;
    if key !in keys { assert (keys + [key])[..|keys|] == keys; }
  }

  /** Elo is conserved: the ratings of the teams seen add up to 1500 each. */
  lemma {:induction false} TotalEloConserved(s: Setup, past: seq<Match>)
    requires s.AllRegular(past)
    ensures RatingSum(s, past, TeamsSeen(s, past)) == ELO_START * |TeamsSeen(s, past)| as real
  {
    if past != [] {
      var before, r := past[..|past| - 1], past[|past| - 1];
      assert past == before + [r] && s.Regular(r);
      TotalEloConserved(s, before);
      if Usable(r) {
        var seen := TeamsSeen(s, before);
        var home, away := s.HomeKey(r), s.AwayKey(r);
        if home !in seen { UnseenRating(s, before, home); }
        if away !in seen { UnseenRating(s, before, away); }
        SumAddOnce(s, before, seen, home);
        SumAddOnce(s, before, AddOnce(seen, home), away);
        SeenDistinct(s, past);
        SumStep(s, before, r, TeamsSeen(s, past));
      } else {
        SameSum(s, before, r, TeamsSeen(s, before));
      }
    }
  }

  lemma {:induction false} SameSum(s: Setup, past: seq<Match>, r: Match, keys: seq<string>)
    requires !Usable(r)
    ensures RatingSum(s, past + [r], keys) == RatingSum(s, past, keys)
  {
    if keys != [] {
      SameSum(s, past, r, keys[..|keys| - 1]);
      assert (past + [r])[..|past|] == past;
    }
  }

  /** Over its last `k` matches a rating moves by less than 20 a match. */
  lemma {:induction false} Drift(s: Setup, past: seq<Match>, key: string, k: nat)
    requires s.AllRegular(past) && 1 <= k <= |Entries(s, past, key)|
    ensures Near(Rating(s, past, key), Entries(s, past, key)[|Entries(s, past, key)| - k].eloBefore, k)
  {
    hide Gain, Rating, SummaryOf, Near;
    var before, r := past[..|past| - 1], past[|past| - 1];
    assert past == before + [r] && s.Regular(r);
    RatingStep(s, before, r, key);
    var e, now := Entries(s, before, key), EntryOf(s, before, r, key);
    if now == [] {
      assert Entries(s, past, key) == e;
      Drift(s, before, key, k);
    } else {
      assert Entries(s, past, key) == e + [now[0]] && now[0].eloBefore == Rating(s, before, key);
      if k > 1 {
        Drift(s, before, key, k - 1);
        Nearer(e[|e| - (k - 1)].eloBefore, Rating(s, before, key), Rating(s, past, key), k);
      } else {
        Nearer(Rating(s, before, key), Rating(s, before, key), Rating(s, past, key), 1);
      }
    }
  }

  predicate Near(x: real, y: real, k: nat) { -20.0 * k as real < x - y < 20.0 * k as real }

  lemma {:induction false} Nearer(x: real, y: real, z: real, k: nat)
    requires k > 0 && (x == y || Near(y, x, k - 1)) && -20.0 < z - y < 20.0
    ensures Near(z, x, k)
  {
    assert (k - 1) as real == k as real - 1.0;
  }

  lemma {:induction false} RoundWithin(x: real, bound: int)
    requires -(bound as real) < x < bound as real
    ensures -(bound as real) <= Round(x) <= bound as real
  {
    var f := (x * 1000.0 + 0.5).Floor;
    assert -(bound * 1000) <= f <= bound * 1000;
  }

  /** `eloRecentChange` looks back at most six matches, so it stays within 120. */
  lemma {:induction false} EloRecentChangeBounded(s: Setup, past: seq<Match>, key: string, side: Venue,
                                                  timestamp: Option<int>)
    requires s.AllRegular(past)
    ensures -120.0 < RecentChange(Entries(s, past, key), Rating(s, past, key)) < 120.0
    ensures -120.0 <= StateFeatures(s, TeamAfter(s, past, key), side, timestamp).eloRecentChange <= 120.0
  {
    hide FormOf, WeightedMean, MeanElo, GamesWithin, RestDays, Rating;
    var e, elo := Entries(s, past, key), Rating(s, past, key);
    if e != [] { Drift(s, past, key, if |e| <= 6 then |e| else 6); }
    RoundWithin(RecentChange(e, elo), 120);
    CappedStateSuffices(s, e, elo, side, timestamp);
  }

  // ---------------------------------------------------------------- head to head

  lemma {:induction false} MeetingsSplit(s: Setup, past: seq<Match>, a: string, b: string)
    requires s.AllRegular(past) && a != b
    ensures WinsOver(s, past, a, b) + WinsOver(s, past, b, a) + DrawsBetween(s, past, a, b) == Meetings(s, past, a, b)
  {
    if past != [] {
      assert s.Regular(past[|past| - 1]);
      MeetingsSplit(s, past[..|past| - 1], a, b);
    }
  }

  /** Every meeting of a pair is a win of one side or a draw, and the rate is the share won by today's home team. */
  lemma {:induction false} HeadToHeadConserved(s: Setup, past: seq<Match>, r: Match)
    requires s.AllRegular(past) && Usable(r) && s.Regular(r)
    ensures var h := PairAfter(s, past, s.HomeKey(r), s.AwayKey(r));
          h.firstKeyWins + h.secondKeyWins + h.draws == h.meetings
    ensures FeaturesAt(s, past, r).h2hHomeWinRate
         == (var met := Meetings(s, past, s.HomeKey(r), s.AwayKey(r));
             if met == 0 then None
               else Some(Round(WinsOver(s, past, s.HomeKey(r), s.AwayKey(r)) as real / met as real)))
  {
    hide HistoryFeatures, Rating, Entries, Round;
    MeetingsSplit(s, past, s.HomeKey(r), s.AwayKey(r));
    Total(s.HomeKey(r), s.AwayKey(r));
  }

  // ---------------------------------------------------------------- windows

  lemma {:induction false} TallyBounds(window: seq<Summary>, flag: Flag)
    ensures 0 <= Tally(flag, window) <= |window|
    ensures Tally(Won, window) + Tally(Drew, window) + Tally(Lost, window) == |window|
  {
    if window != [] { TallyBounds(window[..|window| - 1], flag); }
  }

  lemma {:induction false} ShareBounds(count: int, n: nat, bound: nat)
    requires 0 < n && 0 <= count <= bound * n
    ensures 0.0 <= Share(count, n) <= bound as real
  {
    hide Round;
    var q := count as real / n as real;
    Quotient(count as real, n as real, bound as real);
    RoundInside(q, bound);
  }

  lemma {:induction false} RoundInside(q: real, bound: nat)
    requires 0.0 <= q <= bound as real
    ensures 0.0 <= Round(q) <= bound as real
  {
    assert 0 <= (q * 1000.0 + 0.5).Floor <= bound * 1000;
  }

  lemma {:induction false} Quotient(c: real, n: real, bound: real)
    requires n > 0.0 && 0.0 <= c <= bound * n
    ensures 0.0 <= c / n <= bound
  {
  }

  /** Shares are in [0, 1], points per game in [0, 3], and every match of the window is won, drawn or lost. */
  lemma {:induction false} FormIsConsistent(window: seq<Summary>)
    ensures var f := FormOf(window);
            && f.sampleSize == |window| && f.wins + f.draws + f.losses == f.sampleSize
            && 0.0 <= f.pointsPerGame <= 3.0 && f.goalDiff == f.goalsFor - f.goalsAgainst
            && 0.0 <= f.over15Pct <= 1.0 && 0.0 <= f.over25Pct <= 1.0 && 0.0 <= f.over35Pct <= 1.0
            && 0.0 <= f.bttsPct <= 1.0 && 0.0 <= f.cleanSheetPct <= 1.0 && 0.0 <= f.failedToScorePct <= 1.0
  {
    hide Share, Tally;
    if window != [] {
      var n := |window|;
      TallyBounds(window, Won);
      ShareBounds(Tally(Won, window) * 3 + Tally(Drew, window), n, 3);
      ShareOfFlag(window, IsOver15);
      ShareOfFlag(window, IsOver25);
      ShareOfFlag(window, IsOver35);
      ShareOfFlag(window, IsBtts);
      ShareOfFlag(window, CleanSheet);
      ShareOfFlag(window, Blank);
    }
  }

  lemma {:induction false} ShareOfFlag(window: seq<Summary>, flag: Flag)
    requires window != []
    ensures 0.0 <= Share(Tally(flag, window), |window|) <= 1.0
  {
    TallyBounds(window, flag);
    ShareBounds(Tally(flag, window), |window|, 1);
  }

  /** The venue streak is the longest run of matches at the last venue that ends the history. */
  lemma {:induction false} StreakIsLongestRun(entries: seq<Entry>)
    requires entries != []
    ensures var n, k := |entries|, Streak(entries);
            && 1 <= k <= n
            && (forall i | n - k <= i < n :: entries[i].venue == entries[n - 1].venue)
            && (k < n ==> entries[n - k - 1].venue != entries[n - 1].venue)
  {
    if |entries| > 1 { StreakIsLongestRun(entries[..|entries| - 1]); }
  }

  predicate Ascending(dates: seq<int>) { forall i, j | 0 <= i < j < |dates| :: dates[i] <= dates[j] }

  /** How many of the dates are not before `until`. */
  function NotBefore(dates: seq<int>, until: int): nat {
    if dates == [] then 0
    else NotBefore(dates[..|dates| - 1], until) + (if dates[|dates| - 1] >= until then 1 else 0)
  }

  /** The smaller of what is there and what the cap leaves room for. */
  function Saturated(found: nat, taken: nat, cap: nat): nat {
    if taken >= cap then 0 else if found <= cap - taken then found else cap - taken
  }

  /**
   * The cap of 40 dates only saturates the count of recent games; matches at the current timestamp,
   * which are not counted, still take their place under the cap.
   */
  lemma {:induction false} RecentGamesSaturate(dates: seq<int>, from: int, until: int, cap: nat)
    requires Ascending(dates)
    ensures CountWithin(LastN(dates, cap), from, until)
         == Saturated(CountWithin(dates, from, until), NotBefore(dates, until), cap)
  {
    hide LastN;
    var n := |dates| - 1;
    if dates == [] || cap == 0 {
      LastNOfNothing(dates, cap);
    } else {
      LastNStep(dates, cap);
      if dates[n] < from {
        NoneWithin(dates, from, until);
        NoneWithin(LastN(dates, cap), from, until);
      } else {
        assert Ascending(dates[..n]);
        RecentGamesSaturate(dates[..n], from, until, cap - 1);
        CountSnoc(dates[..n], dates[n], from, until);
        CountSnoc(LastN(dates[..n], cap - 1), dates[n], from, until);
        assert dates == dates[..n] + [dates[n]];
        if dates[n] < until { AllBefore(dates, until); }
      }
    }
  }

  lemma {:induction false} AllBefore(dates: seq<int>, until: int)
    requires forall i | 0 <= i < |dates| :: dates[i] < until
    ensures NotBefore(dates, until) == 0
  {
    if dates != [] { AllBefore(dates[..|dates| - 1], until); }
  }

  lemma {:induction false} LastNOfNothing<T>(s: seq<T>, cap: nat)
    requires s == [] || cap == 0
    ensures LastN(s, cap) == []
  {
  }

  lemma {:induction false} LastNStep(dates: seq<int>, cap: nat)
    requires dates != [] && cap > 0
    ensures LastN(dates, cap) == LastN(dates[..|dates| - 1], cap - 1) + [dates[|dates| - 1]]
    ensures forall i | 0 <= i < |LastN(dates, cap)| :: LastN(dates, cap)[i] == dates[|dates| - |LastN(dates, cap)| + i]
    ensures |LastN(dates, cap)| <= |dates|
  {
  }

  lemma {:induction false} CountSnoc(dates: seq<int>, date: int, from: int, until: int)
    ensures CountWithin(dates + [date], from, until)
            == CountWithin(dates, from, until) + (if from <= date < until then 1 else 0)
  {
    assert (dates + [date])[..|dates|] == dates;
  }

  lemma {:induction false} NoneWithin(dates: seq<int>, from: int, until: int)
    requires forall i | 0 <= i < |dates| :: dates[i] < from
    ensures CountWithin(dates, from, until) == 0
  {
    if dates != [] { NoneWithin(dates[..|dates| - 1], from, until); }
  }

  // ---------------------------------------------------------------- what one match means

  /** The two summaries of a match mirror each other, and points follow the goals. */
  lemma {:induction false} SummariesMirror(r: Match, timestamp: Option<int>, homeElo: real, awayElo: real)
    ensures var home, away := SummaryOf(r, Home, timestamp, awayElo), SummaryOf(r, Away, timestamp, homeElo);
            && home.goalsFor == r.homeGoals == away.goalsAgainst && home.goalsAgainst == r.awayGoals == away.goalsFor
            && (home.points == 3 <==> r.homeGoals > r.awayGoals) && (away.points == 3 <==> r.awayGoals > r.homeGoals)
            && (home.points == 1 <==> r.homeGoals == r.awayGoals) && (home.points == 1 <==> away.points == 1)
            && home.points + away.points == (if r.homeGoals == r.awayGoals then 2 else 3)
            && home.btts == away.btts && (home.over35 ==> home.over25) && (home.over25 ==> home.over15)
            && home.opponentElo == awayElo && away.opponentElo == homeElo
  {
  }

  /** The winner's rating rises and the loser's falls, whatever was expected. */
  lemma {:induction false} WinnerGains(s: Setup, past: seq<Match>, r: Match)
    requires Usable(r) && s.Regular(r)
    ensures var home, away := s.HomeKey(r), s.AwayKey(r);
            && (r.homeGoals > r.awayGoals ==> Rating(s, past + [r], home) > Rating(s, past, home)
                                              && Rating(s, past + [r], away) < Rating(s, past, away))
            && (r.homeGoals < r.awayGoals ==> Rating(s, past + [r], home) < Rating(s, past, home)
                                              && Rating(s, past + [r], away) > Rating(s, past, away))
  {
    hide Rating;
    RatingStep(s, past, r, s.HomeKey(r));
    RatingStep(s, past, r, s.AwayKey(r));
    ExpectedRange(s, Rating(s, past, s.HomeKey(r)), Rating(s, past, s.AwayKey(r)));
  }

  lemma {:induction false} WeightsPositive(s: Setup, window: seq<Summary>, timestamp: Option<int>)
    ensures if window == [] then Weights(s, window, timestamp) == 0.0 else Weights(s, window, timestamp) > 0.0
  {
    hide Weight;
    if window != [] { WeightsPositive(s, window[..|window| - 1], timestamp); }
  }

  function Scaled(w: real, value: int): real { w * value as real }

  lemma {:induction false} WeightedSumWithin(s: Setup, window: seq<Summary>, timestamp: Option<int>, pick: Pick,
                                             lo: int, hi: int)
    requires forall i | 0 <= i < |window| :: lo <= Value(pick, window[i]) <= hi
    ensures Scaled(Weights(s, window, timestamp), lo) <= WeightedSum(s, window, timestamp, pick)
         <= Scaled(Weights(s, window, timestamp), hi)
  {
    hide Weight, Value, Scaled, Weights, WeightedSum;
    WeightedStep(s, window, timestamp, pick);
    if window == [] {
      ScaledNothing(lo);
      ScaledNothing(hi);
    } else {
      var n := |window| - 1;
      WeightedSumWithin(s, window[..n], timestamp, pick, lo, hi);
      WeightedTerm(Weights(s, window[..n], timestamp), Weight(s, window[n], timestamp), Value(pick, window[n]), lo, hi);
    }
  }

  lemma {:induction false} WeightedStep(s: Setup, window: seq<Summary>, timestamp: Option<int>, pick: Pick)
    ensures if window == [] then Weights(s, window, timestamp) == WeightedSum(s, window, timestamp, pick) == 0.0
            else
              var n := |window| - 1;
              && Weights(s, window, timestamp) == Weights(s, window[..n], timestamp) + Weight(s, window[n], timestamp)
              && WeightedSum(s, window, timestamp, pick)
                 == WeightedSum(s, window[..n], timestamp, pick)
                   + Scaled(Weight(s, window[n], timestamp), Value(pick, window[n]))
  {
    hide Weight, Value;
  }

  lemma {:induction false} ScaledNothing(value: int)
    ensures Scaled(0.0, value) == 0.0
  {
  }

  lemma {:induction false} WeightedTerm(before: real, w: real, value: int, lo: int, hi: int)
    requires w > 0.0 && lo <= value <= hi
    ensures Scaled(before + w, lo) == Scaled(before, lo) + Scaled(w, lo)
    ensures Scaled(before + w, hi) == Scaled(before, hi) + Scaled(w, hi)
    ensures Scaled(w, lo) <= Scaled(w, value) <= Scaled(w, hi)
  {
  }

  /** The recency-weighted mean lies within the values it averages, for any decay. */
  lemma {:induction false} WeightedMeanWithin(s: Setup, window: seq<Summary>, timestamp: Option<int>, pick: Pick,
                                              lo: int, hi: int)
    requires window != [] && forall i | 0 <= i < |window| :: lo <= Value(pick, window[i]) <= hi
    ensures lo as real <= WeightedMean(s, window, timestamp, pick) <= hi as real
  {
    hide Value, Weights, WeightedSum;
    WeightsPositive(s, window, timestamp);
    WeightedSumWithin(s, window, timestamp, pick, lo, hi);
    Between(WeightedSum(s, window, timestamp, pick), Weights(s, window, timestamp), lo as real, hi as real);
  }

  lemma {:induction false} Between(x: real, w: real, lo: real, hi: real)
    requires w > 0.0 && w * lo <= x <= w * hi
    ensures lo <= x / w <= hi
  {
    assert (w * lo) / w == lo && (w * hi) / w == hi;
    assert (w * lo) / w <= x / w <= (w * hi) / w;
  }
}
