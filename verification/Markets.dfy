/** Markets, their selections and the labels a played match gives them (backend/src/markets.ts). */
module Markets {
  import opened Records

  datatype Market =
    | ResultMarket | Over15 | Over25 | Over35 | Under25 | Under35 | BothTeamsScore | DoubleChance | Cards | Corners

  const MARKET_IDS: seq<Market> :=
    [ResultMarket, Over15, Over25, Over35, Under25, Under35, BothTeamsScore, DoubleChance, Cards, Corners]

  datatype Labels = Labels(labels: map<string, bool>, columnsUsed: seq<string>)

  function Selections(m: Market): (keys: seq<string>)
    ensures keys != []
  {
    match m
    case ResultMarket => ["home_win", "draw", "away_win"]
    case Over15 => ["over_1_5", "under_or_equal_1_5"]
    case Over25 => ["over_2_5", "under_or_equal_2_5"]
    case Over35 => ["over_3_5", "under_or_equal_3_5"]
    case Under25 => ["under_2_5", "over_or_equal_2_5"]
    case Under35 => ["under_3_5", "over_or_equal_3_5"]
    case BothTeamsScore => ["btts_yes", "btts_no"]
    case DoubleChance => ["1x", "12", "x2"]
    case Cards => ["cards_over_3_5", "cards_over_4_5", "cards_over_5_5"]
    case Corners => ["corners_over_8_5", "corners_over_9_5"]
  }

  const GOALS: seq<string> := ["FTHG", "FTAG"]

  function Pair(positive: string, negative: string, value: bool): Option<Labels> {
    Some(Labels(map[positive := value, negative := !value], GOALS))
  }

  function CardColumns(r: Match): seq<string> {
    (if r.homeYellowCards.Some? then ["HY"] else [])
    + (if r.awayYellowCards.Some? then ["AY"] else [])
    + (if r.homeRedCards.Some? then ["HR"] else [])
    + (if r.awayRedCards.Some? then ["AR"] else [])
  }

  /** `null` when the record lacks the columns of the market.  Counts are integers, so `x > 1.5` is `x > 1`. */
  function DeriveLabels(r: Match, m: Market): Option<Labels> {
    match m
    case ResultMarket =>
      Some(Labels(map["home_win" := r.outcome == HomeWin, "draw" := r.outcome == Draw,
                      "away_win" := r.outcome == AwayWin],
                  GOALS))
    case DoubleChance =>
      Some(Labels(map["1x" := r.outcome != AwayWin, "12" := r.outcome != Draw, "x2" := r.outcome != HomeWin], GOALS))
    case Over15 => Pair("over_1_5", "under_or_equal_1_5", r.totalGoals > 1)
    case Over25 => Pair("over_2_5", "under_or_equal_2_5", r.totalGoals > 2)
    case Over35 => Pair("over_3_5", "under_or_equal_3_5", r.totalGoals > 3)
    case Under25 => Pair("under_2_5", "over_or_equal_2_5", r.totalGoals <= 2)
    case Under35 => Pair("under_3_5", "over_or_equal_3_5", r.totalGoals <= 3)
    case BothTeamsScore => Pair("btts_yes", "btts_no", r.homeGoals > 0 && r.awayGoals > 0)
    case Corners =>
      if r.totalCorners.None? then None
      else Some(Labels(map["corners_over_8_5" := r.totalCorners.value > 8,
                           "corners_over_9_5" := r.totalCorners.value > 9],
                       ["HC", "AC"]))
    case Cards =>
      if r.totalCards.None? then None
      else Some(Labels(map["cards_over_3_5" := r.totalCards.value > 3, "cards_over_4_5" := r.totalCards.value > 4,
                           "cards_over_5_5" := r.totalCards.value > 5], CardColumns(r)))
  }

  /** Whether a selection came out; an absent label reads as false. */
  predicate Happened(labels: Labels, key: string) {
    key in labels.labels && labels.labels[key]
  }
}
