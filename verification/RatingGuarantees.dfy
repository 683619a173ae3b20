/** What the Elo ratings say about results (backend/src/preMatchFeatures.ts), stated on the ratings alone. */
module RatingGuarantees {
  import opened Records
  import opened PreMatchFeatures
  import opened FeatureGeneration
  import opened FeatureGuarantees

  predicate HomeBeats(r: Match) { r.homeGoals > r.awayGoals }

  predicate AwayBeats(r: Match) { r.awayGoals > r.homeGoals }

  predicate Draws(r: Match) { r.homeGoals == r.awayGoals }

  /** How far the visitors are rated above the home team. */
  function Lead(s: Setup, past: seq<Match>, r: Match): real {
    Rating(s, past, s.AwayKey(r)) - Rating(s, past, s.HomeKey(r))
  }

  /** What the match adds to the rating of the home team. */
  function HomeChange(s: Setup, past: seq<Match>, r: Match): real {
    Rating(s, past + [r], s.HomeKey(r)) - Rating(s, past, s.HomeKey(r))
  }

  lemma {:induction false} SameTeams(s: Setup, a: Match, b: Match)
    requires SameFixture(a, b)
    ensures s.HomeKey(a) == s.HomeKey(b) && s.AwayKey(a) == s.AwayKey(b)
    ensures (Usable(a) <==> Usable(b)) && (s.Regular(a) <==> s.Regular(b))
  {
  }

  /**
   * A draw is worth exactly half a win: it leaves both teams halfway between what a home win and an
   * away win of the same fixture would have left, and these two are twenty points apart.
   */
  lemma {:induction false} DrawIsHalfway(s: Setup, past: seq<Match>, r: Match, win: Match, loss: Match)
    requires Usable(r) && s.Regular(r) && SameFixture(r, win) && SameFixture(r, loss)
    requires Draws(r) && HomeBeats(win) && AwayBeats(loss)
    ensures
      var home, away := s.HomeKey(r), s.AwayKey(r);
      && 2.0 * Rating(s, past + [r], home) == Rating(s, past + [win], home) + Rating(s, past + [loss], home)
      && 2.0 * Rating(s, past + [r], away) == Rating(s, past + [win], away) + Rating(s, past + [loss], away)
      && Rating(s, past + [win], home) - Rating(s, past + [loss], home) == 20.0
      && Rating(s, past + [loss], away) - Rating(s, past + [win], away) == 20.0
  {
    hide Rating;
    SameTeams(s, r, win);
    SameTeams(s, r, loss);
    RatingStep(s, past, r, s.HomeKey(r));
    RatingStep(s, past, r, s.AwayKey(r));
    RatingStep(s, past, win, s.HomeKey(r));
    RatingStep(s, past, win, s.AwayKey(r));
    RatingStep(s, past, loss, s.HomeKey(r));
    RatingStep(s, past, loss, s.AwayKey(r));
  }

  /** What one team wins the other loses, and nobody else is touched; unplayed fixtures change nothing. */
  lemma {:induction false} OnlyTheTwoMove(s: Setup, past: seq<Match>, r: Match, key: string)
    requires s.Regular(r)
    ensures Usable(r) ==> Rating(s, past + [r], s.AwayKey(r)) == Rating(s, past, s.AwayKey(r)) - HomeChange(s, past, r)
    ensures !Usable(r) || (key != s.HomeKey(r) && key != s.AwayKey(r))
            ==> Rating(s, past + [r], key) == Rating(s, past, key)
  {
    hide Rating;
    RatingStep(s, past, r, s.HomeKey(r));
    RatingStep(s, past, r, s.AwayKey(r));
    RatingStep(s, past, r, key);
  }

  /** A team that has not played is rated 1500. */
  lemma {:induction false} NewcomerRating(s: Setup, past: seq<Match>, key: string)
    requires forall i | 0 <= i < |past| && Usable(past[i]) :: key != s.HomeKey(past[i]) && key != s.AwayKey(past[i])
    ensures Rating(s, past, key) == 1500.0
  {
    if past != [] {
      NewcomerRating(s, past[..|past| - 1], key);
      assert past[|past| - 1] in past;
    }
  }

  // ---------------------------------------------------------------- what was expected

  /** All that is used of the power of ten: it increases, and `pow10(0)` is one. */
  ghost predicate PowerOfTen(pow10: real -> Positive) {
    pow10(0.0) == 1.0 && pow10(1.0) == 10.0 && forall x, y | x < y :: pow10(x) < pow10(y)
  }

  lemma {:induction false} ChangeOfResult(s: Setup, past: seq<Match>, r: Match)
    requires Usable(r) && s.Regular(r)
    ensures HomeChange(s, past, r)
         == (if HomeBeats(r) then 20.0 else if Draws(r) then 10.0 else 0.0)
            - 20.0 / (1.0 + s.pow10((Lead(s, past, r) - 60.0) / 400.0))
  {
    hide Rating;
    RatingStep(s, past, r, s.HomeKey(r));
    TwentyTimes(s.pow10((Lead(s, past, r) - 60.0) / 400.0));
  }

  lemma {:induction false} TwentyTimes(x: Positive)
    ensures 20.0 * (1.0 / (1.0 + x)) == 20.0 / (1.0 + x)
  {
  }

  /**
   * Playing at home is worth sixty points: a draw raises the home team exactly when the visitors are
   * rated more than sixty above it, and lowers it exactly when they are rated less than sixty above.
   */
  lemma {:induction false} DrawFavoursTheWeaker(s: Setup, past: seq<Match>, r: Match)
    requires Usable(r) && s.Regular(r) && Draws(r) && PowerOfTen(s.pow10)
    ensures HomeChange(s, past, r) > 0.0 <==> Lead(s, past, r) > 60.0
    ensures HomeChange(s, past, r) < 0.0 <==> Lead(s, past, r) < 60.0
  {
    hide Rating, HomeChange, Lead;
    ChangeOfResult(s, past, r);
    var x := (Lead(s, past, r) - 60.0) / 400.0;
    assert x > 0.0 <==> Lead(s, past, r) > 60.0;
    assert x < 0.0 <==> Lead(s, past, r) < 60.0;
    AgainstTen(s.pow10(x));
  }

  lemma {:induction false} AgainstTen(x: Positive)
    ensures 10.0 - 20.0 / (1.0 + x) > 0.0 <==> x > 1.0
    ensures 10.0 - 20.0 / (1.0 + x) < 0.0 <==> x < 1.0
  {
    var q := 20.0 / (1.0 + x);
    assert q * (1.0 + x) == 20.0;
    assert q < 10.0 <==> 10.0 * (1.0 + x) > 20.0 by { SmallerQuotient(q, 10.0, 1.0 + x, 20.0); }
    assert q > 10.0 <==> 10.0 * (1.0 + x) < 20.0 by { SmallerQuotient(q, 10.0, 1.0 + x, 20.0); }
  }

  lemma {:induction false} SmallerQuotient(q: real, c: real, n: real, x: real)
    requires n > 0.0 && q * n == x
    ensures q < c <==> x < c * n
    ensures q > c <==> x > c * n
  {
    if q < c { assert (c - q) * n > 0.0; }
    if q > c { assert (q - c) * n > 0.0; }
  }

  /** The further ahead the visitors were rated, the more the same result is worth to the home team. */
  lemma {:induction false} SurprisePays(s: Setup, before: seq<Match>, past: seq<Match>, r: Match)
    requires Usable(r) && s.Regular(r) && PowerOfTen(s.pow10)
    ensures HomeChange(s, past, r) > HomeChange(s, before, r) <==> Lead(s, past, r) > Lead(s, before, r)
  {
    hide Rating, HomeChange, Lead;
    ChangeOfResult(s, past, r);
    ChangeOfResult(s, before, r);
    var x, y := (Lead(s, past, r) - 60.0) / 400.0, (Lead(s, before, r) - 60.0) / 400.0;
    assert x > y <==> Lead(s, past, r) > Lead(s, before, r);
    assert x < y <==> Lead(s, past, r) < Lead(s, before, r);
    Decreasing(s.pow10(x), s.pow10(y));
    Decreasing(s.pow10(y), s.pow10(x));
  }

  lemma {:induction false} Decreasing(x: Positive, y: Positive)
    ensures x > y ==> 20.0 / (1.0 + x) < 20.0 / (1.0 + y)
  {
    if x > y {
      var q, p := 20.0 / (1.0 + x), 20.0 / (1.0 + y);
      assert q * (1.0 + x) == 20.0 && p * (1.0 + y) == 20.0;
      SmallerQuotient(p, q, 1.0 + y, 20.0);
      assert q > 0.0;
      assert q * (x - y) > 0.0;
      assert q * (1.0 + x) == q * (1.0 + y) + q * (x - y);
    }
  }

  /** Four hundred points are a factor of ten: against visitors rated 460 above, a home win is worth 200 / 11. */
  lemma {:induction false} FourHundredIsTenfold(s: Setup, past: seq<Match>, r: Match)
    requires Usable(r) && s.Regular(r) && PowerOfTen(s.pow10) && HomeBeats(r) && Lead(s, past, r) == 460.0
    ensures HomeChange(s, past, r) == 200.0 / 11.0
  {
    hide Rating, HomeChange, Lead;
    ChangeOfResult(s, past, r);
  }

  predicate Given(text: Option<string>) { text != None && text != Some("") }

  /**
   * A record is usable exactly when both teams and the date are given; then the home team is the one
   * named as home team, and the time the one its date is parsed to.
   */
  lemma {:induction false} KeysMean(s: Setup, r: Match)
    ensures Usable(r) <==> Given(r.homeTeam) && Given(r.awayTeam) && Given(r.date)
    ensures Usable(r) ==>
              && s.HomeKey(r) == s.teamKey(r.homeTeam.value) && s.AwayKey(r) == s.teamKey(r.awayTeam.value)
              && s.TimestampOf(r) == s.parse(r.date.value)
  {
  }
}
