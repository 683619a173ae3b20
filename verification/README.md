# Verification of the prediction pipeline and the transactional state machines

Dafny models of the statistical pipeline of the backend, its data path, and two transactional
repositories, with proofs about them. `dafny verify dfyconfig.toml` checks the whole project.

The models follow the source's form. Objects the source mutates are classes whose methods are proved
against pure specification functions; loops are loops with invariants; the theorems are lemmas about
the specification functions.

| file | models |
|---|---|
| `Calibration.dfy`, `CalibrationGuarantees.dfy` | isotonic calibration by pooling adjacent violators, and what its calibrator promises |
| `GradientBoosting.dfy`, `BoostingGuarantees.dfy` | regression trees grown greedily on gradients and Hessians, boosting rounds, and what they do for the labels |
| `Markets.dfy`, `Training.dfy`, `TeamProfiles.dfy`, `BatchTraining.dfy`, `FrequencyGuarantees.dfy`, `TrainingGuarantees.dfy` | the frequency model trained in one go, and every number of it as a count of matches |
| `IncrementalModel.dfy` | the same model kept match by match, with live shared profiles |
| `Backtesting.dfy`, `BacktestGuarantees.dfy` | the walk-forward backtest over the incremental model |
| `PreMatchFeatures.dfy`, `FeatureGeneration.dfy`, `FeatureGuarantees.dfy`, `RatingGuarantees.dfy`, `FormGuarantees.dfy` | sequential features from capped state, and what ratings and forms say |
| `GoalDistribution.dfy`, `GoalMarkets.dfy`, `GoalPredictions.dfy`, `GoalGuarantees.dfy` | the Dixon-Coles matrix, the markets quantised from it and the models' predictions |
| `SimplexGrid.dfy`, `GridGuarantees.dfy`, `Ensemble.dfy`, `EnsembleLearning.dfy`, `EnsembleCoverage.dfy`, `EnsembleGuarantees.dfy` | coherent ensembles and their learnt weights |
| `Evaluation.dfy`, `EvaluationGuarantees.dfy` | calibration bins and the Brier decomposition |
| `Csv.dfy`, `CsvGuarantees.dfy`, `Importer.dfy`, `ImporterGuarantees.dfy`, `TemporalSplit.dfy`, `TemporalSplitGuarantees.dfy` | the data path |
| `Identity.dfy`, `IdentityGuarantees.dfy`, `IdentityReturns.dfy`, `IdentityOutcomes.dfy`, `IdentityRepository.dfy` | users, sessions and ownership |
| `JobQueue.dfy`, `JobQueueGuarantees.dfy`, `JobLifecycle.dfy` | the durable job queue |
| `Records.dfy`, `Sorting.dfy`, `Rounding.dfy` | match records, string order, stable sorting, counting and rounding |

## Findings

Some documented promises hold only under a condition the code does not check. Each has its exact
condition or a counterexample among the lemmas.

- The calibrator answers tied probabilities with the value of the first block that reaches them. It attains the
  least squared error within its range exactly when no boundary inside a run of equal probabilities separates the
  labels (`CalibratorAttainsOptimum`), and is the best monotone function under a condition on the labels alone
  (`CalibratorIsBest`, `OrdinaryCalibratorIsBest`).
- The cap on split candidates can be exceeded almost twofold (`ThresholdCap`, `ThresholdCapFails`).
- Incremental and batch training differ exactly when a league or competition is called "global"
  (`IncrementalEqualsBatch`), and a snapshot keeps changing with later updates (`SnapshotIsLive`).
- The quantised 1X2 of a matrix can exceed one by two millionths (`OneXTwo`, `OneXTwoCanExceed`), though that of the
  two configured models never does (`ConfiguredPredictionsSumToOne`).
- The ensemble can be worse than a component that prices fewer markets, and only then (`CoverageIsExact`).
- A last CSV line that is one empty cell and has no line break is lost (`RoundTripUnterminated`).
- The count of ambiguous rows depends on the order of the input (`AmbiguousRowsInAnyOrder`, `NamedInAnyOrder`), and with
  empty team identifiers so does the detection itself (`MissedExactly`, `EmptyIdentifierHidesConflict`).
- An identity whose personal organisation already exists is never at home again: with an active owner it is refused at
  its first login (`FirstLogin`), otherwise it is let in once and refused from then on (`NextLogin`). Deleting an account
  and coming back leads there (`DeletedThenReturned`), and the second account can never be deleted (`NeverDeletedAgain`).

## Model

| member | source | states |
|---|---|---|
| `Calibration.FitIsotonic` | backend/src/models/calibration.ts:94-106 | pushes and pops the block stack; the blocks left pool consecutive stretches of the points sorted by probability, every prefix mean of a block is at least the block mean, and block values strictly increase |
| `Calibration.FitBlocks` | backend/src/models/calibration.ts:96-106 | the stack loop on its own, over any points already sorted |
| `Calibration.BlockValueIsMean` | backend/src/models/calibration.ts:98-104 | a block value is the mean of its labels, not only a quotient of carried sums |
| `Calibration.MergePools` | backend/src/models/calibration.ts:99-104 | popping and merging keeps the prefix-mean invariant |
| `Calibration.FitIsOptimal` | backend/src/models/calibration.ts:93-106 | any non-decreasing sequence has squared error at least that of the fitted values plus its squared distance from them |
| `Calibration.FitIsIsotonicRegression` | backend/src/models/calibration.ts:92-106 | the fitted values are non-decreasing and are the only minimiser of squared error among all non-decreasing sequences of that length |
| `Calibration.CalibratorMonotoneAndBounded` | backend/src/models/calibration.ts:107-110 | the returned calibrator is non-decreasing and stays in [1e-6, 1 - 1e-6]; CalibratorEverywhere says which value it returns |
| `CalibrationGuarantees.FitIsMaxMin` | backend/src/models/calibration.ts:92-106 | the fitted value of a point has a closed form in the labels: the greatest, over beginnings, of the least mean, over ends, of the stretches that include the point |
| `CalibrationGuarantees.Saddle` | backend/src/models/calibration.ts:98-104 | around every point the fit is one value on a stretch such that no stretch ending with it has a greater mean and none beginning with it a smaller one |
| `CalibrationGuarantees.CalibratorOnTraining` | backend/src/models/calibration.ts:107-110 | at a training probability the calibrator answers the clamped fitted value of the first point tied with it |
| `CalibrationGuarantees.CalibratorEverywhere` | backend/src/models/calibration.ts:107-110 | at any probability the calibrator answers the clamped fitted value of the first training point that reaches it, of the last one beyond them all, and the clamped probability itself without training data |
| `CalibrationGuarantees.TrainingIsTheData` | backend/src/models/calibration.ts:94-94 | the points fitted are the observations, each probability with its own label, in order of probability |
| `CalibrationGuarantees.ClampMeans` | backend/src/models/calibration.ts:107-110 | clamping moves a value to the nearest one a millionth away from 0 and 1 |
| `CalibrationGuarantees.ClampedFitIsOptimal` | backend/src/models/calibration.ts:107-110 | among non-decreasing values within the range of the calibrator the clamped fit has the least squared error, by at least the squared distance |
| `CalibrationGuarantees.CalibratorAttainsOptimum` | backend/src/models/calibration.ts:107-110 | the calibrator attains that least squared error on its training points if and only if no boundary inside a run of equal probabilities separates the labels: some stretch that ends there has a clamped mean no smaller than some stretch that begins there |
| `CalibrationGuarantees.UnseparatedIsBest` | backend/src/models/calibration.ts:107-110 | then no monotone function of the probability with values within the range does better on the training points |
| `CalibrationGuarantees.CalibratorIsBest` | backend/src/models/calibration.ts:107-110 | for any data the calibrator is the best such function if and only if at every point the clamped max-min mean of the labels, taken at the first point tied with it, equals the clamped max-min mean of the labels averaged over ties |
| `CalibrationGuarantees.OrdinaryCalibratorIsBest` | backend/src/models/calibration.ts:107-110 | on data in which every run of equal probabilities with a label above a millionth also averages above it, that is the case if and only if no boundary inside a run separates the labels |
| `CalibrationGuarantees.BinaryRunsAreOrdinary` | backend/src/models/calibration.ts:94-94 | labels 0 and 1 with fewer than a million points at any one probability are such data |
| `CalibrationGuarantees.TiedProbabilitiesLoseOptimality` | backend/src/models/calibration.ts:107-110 | concrete tied points on which the calibrator does not attain the optimum |
| `GradientBoosting.Sum` | backend/src/models/gradientBoosting.ts:124-128 | the accumulator loop sums the selected values |
| `GradientBoosting.CandidateThresholds` | backend/src/models/gradientBoosting.ts:99-106 | midpoints of every step-th pair of neighbours among the distinct sorted values |
| `GradientBoosting.FeatureValuesAscend` | backend/src/models/gradientBoosting.ts:100-100 | the values the thresholds come from are strictly increasing and are exactly the values that occur |
| `GradientBoosting.ThresholdSeparates` | backend/src/models/gradientBoosting.ts:104-104 | every candidate threshold has rows on both sides |
| `GradientBoosting.ThresholdCap` | backend/src/models/gradientBoosting.ts:102-104 | fewer than twice the maximum number of candidates are returned, and the maximum itself is kept if and only if there are fewer values than the maximum or the remainder of the division is at most the quotient |
| `GradientBoosting.ThresholdCapFails` | backend/src/models/gradientBoosting.ts:99-106 | thirty-one distinct values give thirty candidates although the maximum is sixteen |
| `GradientBoosting.Partition` | backend/src/models/gradientBoosting.ts:78-80 | the loop splits the indices into the two sides of a candidate, in order |
| `GradientBoosting.FindBest` | backend/src/models/gradientBoosting.ts:76-88 | the nested loops keep the first admissible candidate of greatest gain |
| `GradientBoosting.BestDominates` | backend/src/models/gradientBoosting.ts:81-86 | no admissible candidate has a greater gain than the one kept |
| `GradientBoosting.BuildTree` | backend/src/models/gradientBoosting.ts:58-97 | the recursive method builds the tree the greedy specification describes |
| `GradientBoosting.EvaluateTree` | backend/src/models/gradientBoosting.ts:108-112 | the descent loop computes the value of the leaf a row is routed to |
| `GradientBoosting.LeavesPartition` | backend/src/models/gradientBoosting.ts:78-96 | the leaves of any tree partition the training indices |
| `GradientBoosting.RowsReachTheirLeaf` | backend/src/models/gradientBoosting.ts:91-111 | prediction routes every training row to the leaf that holds its index |
| `GradientBoosting.GrownFits` | backend/src/models/gradientBoosting.ts:70-70 | a grown tree tests only existing features and is at most maxDepth deep |
| `GradientBoosting.GrownLeaf` | backend/src/models/gradientBoosting.ts:68-90 | every leaf carries -G/(H + lambda) of its indices, and every leaf of a split tree holds at least minChild rows |
| `GradientBoosting.GrownImproves` | backend/src/models/gradientBoosting.ts:73-90 | the sum of G^2/(H + lambda) over the leaves is at least that of the root, and greater if any split was made |
| `GradientBoosting.LeafIsOptimal` | backend/src/models/gradientBoosting.ts:68-68 | -G/(H + lambda) minimises the regularised second-order objective on a set of rows |
| `GradientBoosting.LeafValuesAreOptimal` | backend/src/models/gradientBoosting.ts:58-97 | no other leaf values on the same splits have a smaller regularised objective |
| `GradientBoosting.TreeBeatsConstant` | backend/src/models/gradientBoosting.ts:58-97 | a grown tree has a regularised objective no greater than any constant, strictly smaller once it splits |
| `GradientBoosting.TrainBooster` | backend/src/models/gradientBoosting.ts:36-56 | the base is the logit of the clamped share of positive labels; round by round, every tree is grown on the gradients of the scores before it, and the score array ends as base plus the learning rate times all trees |
| `GradientBoosting.PredictBooster` | backend/src/models/gradientBoosting.ts:114-118 | prediction clamps the sigmoid of the score training would hold for that row |
| `GradientBoosting.ShrunkObjective` | backend/src/models/gradientBoosting.ts:53-53 | a step scaled by any rate changes the regularised objective by rate times (2 - rate) of what the grown tree itself does |
| `GradientBoosting.RoundImproves` | backend/src/models/gradientBoosting.ts:43-54 | for a learning rate in (0, 1] the step a round takes, its tree scaled by the rate, never raises the regularised objective, and lowers it whenever the tree splits |
| `BoostingGuarantees.TreesFollowLabels` | backend/src/models/gradientBoosting.ts:43-52 | weighed against label minus predicted probability at the scores before its round, the predictions of every trained tree add up to at least zero, and to more once it splits, for any sigmoid |
| `BoostingGuarantees.RoundsFollowLabels` | backend/src/models/gradientBoosting.ts:53-53 | with a positive learning rate what a round adds to the scores does so too |
| `BoostingGuarantees.PredictionIsResidualShare` | backend/src/models/gradientBoosting.ts:48-68 | a trained tree predicts, for a training row, the sum of label minus probability over the rows that share its leaf, divided by lambda plus the sum of their variances of at least a millionth |
| `BoostingGuarantees.GrowExhausts` | backend/src/models/gradientBoosting.ts:70-90 | every node takes a split that no feature and threshold with minChild rows on both sides beats, and a leaf short of the greatest depth has no such split that gains; the shortcut on small nodes changes nothing |
| `BoostingGuarantees.ThresholdAt` | backend/src/models/gradientBoosting.ts:102-104 | each threshold lies halfway between the two neighbours at the next multiple of the stride among the distinct values in order |
| `BoostingGuarantees.PredictionByRegion` | backend/src/models/gradientBoosting.ts:108-112 | a tree is a table of boxes, closed above and open below in every feature: exactly one holds a row, and its value is the prediction |
| `BoostingGuarantees.BaseIsPositiveShare` | backend/src/models/gradientBoosting.ts:37-38 | for labels 0 and 1 the base probability is the number of ones over the number of rows, kept a millionth away from 0 and 1 |
| `TeamProfiles.TeamProfile.Update` | backend/src/training.ts:307-354 | one match adds its contribution to every counter of the live profile object |
| `TeamProfiles.CreditMatch` | backend/src/training.ts:251-259 | find-or-create and update for both teams of a match; profiles stay distinct objects and old ones stay in place |
| `TeamProfiles.ProfileExists` | backend/src/training.ts:251-256 | a profile exists exactly for the teams that played a match with both names |
| `TeamProfiles.ProfileIsTotal` | backend/src/training.ts:307-354 | every counter of a profile is the sum over all its matches, on either side |
| `TeamProfiles.ResultsBalance` | backend/src/training.ts:314-335 | matches = home + away = wins + draws + losses, and the same for each venue |
| `TeamProfiles.GoalsBalance` | backend/src/training.ts:315-330 | goals for and against are the sums of the venue counters |
| `TeamProfiles.ThresholdsNest` | backend/src/training.ts:337-353 | over 3.5 <= over 2.5 <= over 1.5 <= matches, and likewise for corners and cards, none above their rows |
| `BatchTraining.BuildSegmentModel` | backend/src/training.ts:150-201 | counts, totals, probabilities and status of one segment |
| `BatchTraining.BuildContextSegments` | backend/src/training.ts:106-142 | one segment for every league, season, league and season, competition and season, and competition key; a record is counted once for each time a key names it |
| `BatchTraining.BuildTeamProfiles` | backend/src/training.ts:248-262 | profiles of all records, as fresh distinct objects |
| `BatchTraining.TrainModel` | backend/src/training.ts:27-60 | the model trained from a record list is the batch specification of that list |
| `IncrementalModel.CountersAreCounts` | backend/src/incrementalModel.ts:80-92 | the counters kept match by match are the counts over all records |
| `IncrementalModel.HeaderOfAll` | backend/src/incrementalModel.ts:65-73 | running extremes and sets are those of sorting and de-duplicating everything at the end |
| `IncrementalModel.IncrementalFrequencyModel.Update` | backend/src/incrementalModel.ts:64-93 | one record extends the history the state stands for, updating the live profiles in place |
| `IncrementalModel.IncrementalFrequencyModel.Snapshot` | backend/src/incrementalModel.ts:101-129 | reads the state of the history so far, and hands out the live profile objects themselves |
| `IncrementalModel.IncrementalEqualsBatch` | backend/src/incrementalModel.ts:37-43 | the snapshot after any record list equals batch training on that list if and only if no record names its league or competition global |
| `IncrementalModel.GlobalCountsTwice` | backend/src/incrementalModel.ts:178-188 | in every market the incremental global sample exceeds the batch one by exactly the number of leagues and competitions called global among the labelled records |
| `IncrementalModel.SnapshotIsLive` | backend/src/incrementalModel.ts:117-117 | an earlier snapshot still reads as it did after one more record if and only if that record does not credit a team of the snapshot |
| `IncrementalModel.UpdateUnderSnapshot` | backend/src/incrementalModel.ts:64-78 | updating the model after taking a snapshot changes what the profiles of that snapshot read |
| `FrequencyGuarantees.PositivesCoverSample` | backend/src/markets.ts:125-198 | in every segment the positives of a result or goal market add up to its sample, because each match comes out in exactly one selection; those of double chance to twice the sample |
| `FrequencyGuarantees.GoalMarketsAgree` | backend/src/markets.ts:155-188 | in every segment overs are nested, and each Under market counts what the Over market leaves |
| `FrequencyGuarantees.PercentageRange` | backend/src/training.ts:172-177 | percentages are in [0, 100], and 100 for a selection that always came out |
| `TrainingGuarantees.LabelsMean` | backend/src/markets.ts:125-214 | a match has labels for a market exactly when it has the columns, and a selection is true exactly when the event it bets on occurred, in result, goals, corners or cards |
| `TrainingGuarantees.PositivesMean` | backend/src/markets.ts:125-214 | for every market and selection the positives of a segment are the occurrences of the segment among the matches in which the event occurred, and the global positives are the number of those matches |
| `TrainingGuarantees.SampleMeans` | backend/src/training.ts:106-142 | the sample of a segment counts the matches that have the columns of the market |
| `TrainingGuarantees.DoubleChanceAddsUp` | backend/src/markets.ts:143-153 | in every segment each double chance counts what its two results count together |
| `TrainingGuarantees.ContextMeans` | backend/src/training.ts:116-134 | how often a match counts under a key: once for each of its league, season, competition and their combinations that spells that key |
| `TrainingGuarantees.PercentageMeans` | backend/src/training.ts:172-177 | a percentage is the tenth of a percent nearest to the share, upwards from the middle, and zero without a sample |
| `TrainingGuarantees.MarketMeans` | backend/src/training.ts:62-104 | the model of a market read back in counts of matches: usable rows, availability from minRows on, positives, totals, percentages and columns used |
| `TrainingGuarantees.SegmentModelMeans` | backend/src/training.ts:106-142 | a key has a segment exactly when a counted match has it among its contexts, and the segment counts the matches of that context |
| `TrainingGuarantees.FirstDifferenceDecides` | backend/src/training.ts:203-205 | dates and names are ordered by their first difference, a prefix first |
| `TrainingGuarantees.HeaderMeans` | backend/src/training.ts:40-49 | providers and competitions are exactly those some record provides, the dates and the last update are the extremes of those provided, and every market has its model |
| `TrainingGuarantees.CountersMean` | backend/src/training.ts:307-354 | every counter of a profile counts the matches its team hosts or visits in which a stated fact holds of result, goals, corners or cards |
| `TrainingGuarantees.GoalsMean` | backend/src/training.ts:307-335 | goals for are the home goals of hosted and the away goals of visited matches, goals against the others |
| `TrainingGuarantees.PlaysMean` | backend/src/training.ts:251-258 | a team plays a match exactly when both teams are named and it is one of them |
| `TrainingGuarantees.FirstNameKept` | backend/src/training.ts:264-270 | a profile keeps the name its team first appeared under |
| `Backtesting.RunBacktest` | backend/src/backtesting.ts:23-85 | the grouped loop yields, in order, every eligible target with the answer from the state before its instant, and fails exactly when a record has no valid date |
| `Backtesting.PredictGroup` | backend/src/backtesting.ts:54-58 | all targets of one instant are answered from one snapshot taken before any of them is added |
| `Backtesting.UpdateGroup` | backend/src/backtesting.ts:83-84 | the group enters the state only afterwards |
| `Backtesting.OrderedIsChronological` | backend/src/backtesting.ts:27-27 | the order is chronological and keeps all records |
| `Backtesting.PastIsPrefix` | backend/src/backtesting.ts:48-52 | in that order the records strictly earlier than a group are the list up to the group |
| `Backtesting.AnswersAreRetrained` | backend/src/backtesting.ts:37-45 | without a league or competition called global every answer is that of a model trained from scratch on exactly the strictly earlier records |
| `Backtesting.EvaluatedRowsAreEligible` | backend/src/backtesting.ts:54-57 | evaluatedRows is the number of records with at least initialWindow strictly earlier records |
| `Backtesting.NoLookahead` | backend/src/backtesting.ts:37-39 | changing results at an instant or later changes neither the answer nor the eligibility of any target up to that instant |
| `BacktestGuarantees.EvaluatedExactly` | backend/src/backtesting.ts:31-57 | a match is evaluated, as often as it occurs, exactly when at least the initial window of records lies strictly before it, the window being the given one or else the greater of minRows, or 20, and 20; evaluatedRows counts these matches |
| `BacktestGuarantees.ReportMeans` | backend/src/backtesting.ts:23-85 | the report is an error exactly when a match has no usable date; otherwise the evaluations are in order of time and index, each answered by a model of exactly the strictly earlier rows to a request that names teams and context and no result |
| `Sorting.SortIsSorted` | backend/src/backtesting.ts:27-27 | the sort used by the services orders by the comparator |
| `Sorting.SortIsStable` | backend/src/models/calibration.ts:94-94 | what the comparator cannot tell apart keeps its order |
| `PreMatchFeatures.PushKeepsLast` | backend/src/preMatchFeatures.ts:395-398 | push on a list of the last cap entries gives the last cap entries of the longer list |
| `PreMatchFeatures.ComputeWindowForm` | backend/src/preMatchFeatures.ts:286-320 | the accumulator loop computes the form of the last entries |
| `PreMatchFeatures.ComputeExpWeighted` | backend/src/preMatchFeatures.ts:377-388 | the loop computes the recency-weighted mean |
| `PreMatchFeatures.TeamState.UpdateTeam` | backend/src/preMatchFeatures.ts:322-343 | one match changes the team object to the specified next state |
| `PreMatchFeatures.ApplyElo` | backend/src/preMatchFeatures.ts:345-352 | both ratings move from the ratings before the match, and the old ones are remembered |
| `PreMatchFeatures.H2HState.Update` | backend/src/preMatchFeatures.ts:410-429 | one meeting changes the pair object to the specified next state |
| `FeatureGeneration.CutStep` | backend/src/preMatchFeatures.ts:336-351 | the capped update of a state is the cut of the history with one more match |
| `FeatureGeneration.TeamStep` | backend/src/preMatchFeatures.ts:250-257 | after a match the state of every team is the cut of its full history |
| `FeatureGeneration.CappedStateSuffices` | backend/src/preMatchFeatures.ts:264-284 | the features read from the capped state equal those recomputed from all earlier matches of the team, where the numbers of recent games look at the last forty dates |
| `FeatureGeneration.PairKeyIsUnorderedPair` | backend/src/preMatchFeatures.ts:400-402 | keys without a bar give equal pair keys if and only if they form the same unordered pair |
| `FeatureGeneration.PairStep` | backend/src/preMatchFeatures.ts:258-258 | after a match the head-to-head record is that of all earlier meetings of the pair |
| `FeatureGeneration.GenerateSequentialFeatures` | backend/src/preMatchFeatures.ts:177-262 | each example carries the features recomputed from all usable records before it; records without teams or date are skipped |
| `FeatureGuarantees.NonInterference` | backend/src/preMatchFeatures.ts:15-17 | two lists that differ only in results from a position on have the same features up to and including it |
| `FeatureGuarantees.TotalEloConserved` | backend/src/preMatchFeatures.ts:345-349 | ratings of the teams seen add up to 1500 for each |
| `FeatureGuarantees.Drift` | backend/src/preMatchFeatures.ts:345-351 | over its last k matches a rating moves by less than 20 k |
| `FeatureGuarantees.EloRecentChangeBounded` | backend/src/preMatchFeatures.ts:270-270 | the recent change stays strictly within 120 before rounding, and within 120 after it |
| `FeatureGuarantees.HeadToHeadConserved` | backend/src/preMatchFeatures.ts:404-429 | wins of both sides and draws add up to the meetings, and the rate is the share of the earlier meetings won by the current home team at either venue |
| `FeatureGuarantees.WinnerGains` | backend/src/preMatchFeatures.ts:346-349 | the rating of the winner rises and that of the loser falls, whatever was expected |
| `FeatureGuarantees.SummariesMirror` | backend/src/preMatchFeatures.ts:323-335 | the summaries of one match mirror each other and points follow the goals |
| `FeatureGuarantees.WeightedMeanWithin` | backend/src/preMatchFeatures.ts:377-388 | the recency-weighted mean lies within the values it averages, for any decay |
| `FeatureGuarantees.FormIsConsistent` | backend/src/preMatchFeatures.ts:286-320 | won, drawn and lost add up to the sample, shares are in [0, 1] and points per game in [0, 3], for every window |
| `FeatureGuarantees.StreakIsLongestRun` | backend/src/preMatchFeatures.ts:339-340 | the venue streak is the longest run at the last venue that ends the history |
| `FeatureGuarantees.RecentGamesSaturate` | backend/src/preMatchFeatures.ts:371-375 | over dates in order the cap of forty only saturates the number of recent games; matches at the current timestamp take their place under the cap without being counted |
| `RatingGuarantees.DrawIsHalfway` | backend/src/preMatchFeatures.ts:347-349 | a draw leaves both ratings halfway between what a home win and an away win of the fixture would have left, and these two are twenty points apart |
| `RatingGuarantees.OnlyTheTwoMove` | backend/src/preMatchFeatures.ts:345-352 | what the home team gains the away team loses, and no other rating moves |
| `RatingGuarantees.DrawFavoursTheWeaker` | backend/src/preMatchFeatures.ts:346-346 | for an increasing power of ten, a draw raises the home team exactly when the visitors are rated more than sixty points above it, and lowers it exactly when less |
| `RatingGuarantees.SurprisePays` | backend/src/preMatchFeatures.ts:346-348 | the same result is worth more to the home team exactly when the visitors were rated further ahead |
| `RatingGuarantees.FourHundredIsTenfold` | backend/src/preMatchFeatures.ts:346-348 | against visitors rated 460 points above, a home win is worth 200 / 11 points |
| `RatingGuarantees.NewcomerRating` | backend/src/preMatchFeatures.ts:163-166 | a team that has not played is rated 1500 |
| `RatingGuarantees.KeysMean` | backend/src/preMatchFeatures.ts:188-191 | a record is usable exactly when both teams and the date are given; the home team is the one named as home team, and the time the one the date is parsed to |
| `FormGuarantees.SummaryMeans` | backend/src/preMatchFeatures.ts:323-335 | a summary holds points, goals and the lines 1.5, 2.5 and 3.5 of the match as one team saw it |
| `FormGuarantees.HistoryGrows` | backend/src/preMatchFeatures.ts:250-257 | the history of a team grows with every usable match it plays by one entry with its venue, its goals and both ratings from before the match |
| `FormGuarantees.FormMeans` | backend/src/preMatchFeatures.ts:286-320 | the form of a window number by number: counts of matches, sums of goals, and means to the nearest thousandth |
| `FormGuarantees.PointsAddUp` | backend/src/preMatchFeatures.ts:315-315 | three times the wins plus the draws are the points of the window |
| `FormGuarantees.WindowsMean` | backend/src/preMatchFeatures.ts:267-283 | forms are those of the last 5, 10 and 20 matches and of the last 10 at the venue of today, the opponents rated are the last 5 |
| `FormGuarantees.HistoryMeans` | backend/src/preMatchFeatures.ts:266-275 | rounded ratings, the change over the last six matches, whole days of rest, games of the last 7 and 14 days, and the streak at the venue of today |
| `FormGuarantees.WeightByAge` | backend/src/preMatchFeatures.ts:382-383 | a match k days ago weighs exp(-decay k), one not known to be past weighs exp(0) |
| `FormGuarantees.OlderWeighsLess` | backend/src/preMatchFeatures.ts:382-383 | with a positive decay and an increasing exponential the older of two matches weighs less |
| `FormGuarantees.SidesMean` | backend/src/preMatchFeatures.ts:187-206 | the home side of the features is about the host of today, its rating, all its earlier matches and those it hosted; the away side about the visitor and its matches away |
| `FormGuarantees.MatchMeans` | backend/src/preMatchFeatures.ts:202-215 | rating gap and gap with sixty points for playing at home to the nearest thousandth, and the context of the match |
| `FormGuarantees.HeadToHeadMeans` | backend/src/preMatchFeatures.ts:404-408 | meetings are the earlier matches of the two teams at either venue, and the rate is the share of them the home team of today won |
| `FormGuarantees.LastMeetingRead` | backend/src/preMatchFeatures.ts:212-213 | the season changed exactly when the last meeting was in another season, and the days since it are whole |
| `FormGuarantees.ExamplesMean` | backend/src/preMatchFeatures.ts:187-248 | one example for each record with both teams and a date, in order, with the features of all records before it |
| `GoalDistribution.ComputeDistribution` | backend/src/models/goalDistribution.ts:42-74 | the matrix filled and normalised in place, with both marginals and both expectations |
| `GoalDistribution.FillMatrix` | backend/src/models/goalDistribution.ts:45-55 | the first pass stores the raw masses and their total |
| `GoalDistribution.Normalise` | backend/src/models/goalDistribution.ts:56-66 | the second pass divides in place and accumulates row and column sums |
| `GoalDistribution.TotalPositive` | backend/src/models/goalDistribution.ts:56-56 | the total is positive for any rates and rho, so the fallback divisor is never used |
| `GoalDistribution.SumsToOne` | backend/src/models/goalDistribution.ts:38-40 | the normalised matrix is non-negative and sums to one for any rates and rho |
| `GoalDistribution.MarginalChange` | backend/src/models/goalDistribution.ts:29-35 | a row or column sum differs from the independent one by exactly what clamping adds to its low-score cells |
| `GoalDistribution.CorrectionKeepsMarginals` | backend/src/models/goalDistribution.ts:25-35 | with rates of at least 1e-6 the correction keeps all row and column sums if and only if none of the four factors is negative |
| `GoalDistribution.MarginalsOfPoisson` | backend/src/models/goalDistribution.ts:25-28 | in that case total and normalised marginals are those of rho = 0 |
| `GoalDistribution.ConfiguredRho` | backend/src/models/poisson.ts:98-99 | for the configured rho and positive rates the clamp is inert if and only if both rates are at most twenty |
| `GoalDistribution.DixonColesKeepsMarginals` | backend/src/models/poisson.ts:122-124 | for any team strengths the Dixon-Coles model has the marginals of the Poisson model |
| `GoalMarkets.MarketsFromDistribution` | backend/src/models/goalDistribution.ts:83-127 | the accumulating loops compute the masses of the events and the markets quantised from them |
| `GoalMarkets.QuantizeComplement` | backend/src/models/goalDistribution.ts:135-138 | quantising the complement of a quantised value is exact |
| `GoalMarkets.MassImplies` | backend/src/models/goalDistribution.ts:91-102 | a more demanding event has no more mass |
| `GoalMarkets.ResultsPartition` | backend/src/models/goalDistribution.ts:94-95 | home, draw and away share out the whole mass |
| `GoalMarkets.MarketsAreCoherent` | backend/src/models/goalDistribution.ts:76-82 | overs are nested, both teams scoring is at most over 1.5, every binary pair adds up to exactly one and every Under market mirrors its Over market, for every non-negative matrix |
| `GoalMarkets.OneXTwo` | backend/src/models/goalDistribution.ts:103-106 | for a matrix that sums to one the quantised 1X2 adds up to exactly one if and only if quantised home and draw are at most 0.999999 together; otherwise it exceeds one by at most two millionths |
| `GoalMarkets.RoomForAway` | backend/src/models/goalDistribution.ts:103-106 | home and draw of at most 0.999998 together always meet that condition |
| `GoalMarkets.OneXTwoCanExceed` | backend/src/models/goalDistribution.ts:104-106 | a matrix with two scores of about a half each reaches the excess of two millionths |
| `GoalMarkets.DoubleChanceComplements` | backend/src/models/goalDistribution.ts:115-119 | when the 1X2 adds up to one, each double chance is exactly the complement of the third result |
| `GoalMarkets.CertainScore` | backend/src/models/goalDistribution.ts:91-126 | with all the mass on one score every market prices what that score means |
| `GoalGuarantees.PricesMean` | backend/src/models/goalDistribution.ts:83-127 | every market is priced from the mass of its scores, to the nearest millionth from one to a million less one; complements are exact and Under markets mirror Over markets |
| `GoalGuarantees.PoissonMeans` | backend/src/models/goalDistribution.ts:14-23 | the Poisson probabilities start at exp(-rate) and k + 1 goals are rate / (k + 1) times as likely as k, for a rate of at least a millionth |
| `GoalGuarantees.CellsKeepRatio` | backend/src/models/goalDistribution.ts:56-66 | any two cells stand to each other as their raw masses do |
| `GoalGuarantees.RhoMeans` | backend/src/models/goalDistribution.ts:29-35 | with rates of at least 1e-6 and no factor clamped, 0-0 and 1-1 are together less likely than 0-1 and 1-0, as products, exactly for a positive rho, and equally likely exactly for rho zero |
| `GoalGuarantees.ExpectationMeans` | backend/src/models/goalDistribution.ts:67-69 | expected goals, before rounding, are the probabilities of at least one, two and more goals added up |
| `GoalGuarantees.ClampLambdaMeans` | backend/src/models/poisson.ts:144-147 | a strength is moved to the nearest rate in [0.15, 6] |
| `GoalPredictions.PredictMatch` | backend/src/models/poisson.ts:116-125 | the prediction of the Poisson family from two strengths |
| `GoalPredictions.PredictionsAreCoherent` | backend/src/models/poisson.ts:116-125 | every prediction of the family, for any rho, is coherent, its 1X2 up to two millionths |
| `GoalPredictions.ShareOfOneNil` | backend/src/models/poisson.ts:122-124 | with rates in [0.15, 6] and rho in [-0.05, 0] the score 0-1 has at least two millionths of the mass, whatever the exponential |
| `GoalPredictions.ConfiguredPredictionsSumToOne` | backend/src/models/poisson.ts:98-125 | every prediction of the two configured models has a 1X2 that adds up to exactly one and double chances that complement the third result |
| `SimplexGrid.Collector.Recurse` | backend/src/models/ensemble.ts:163-169 | the recursive helper pushes, in order, the prefix extended by every composition of what remains |
| `SimplexGrid.BuildSimplexGrid` | backend/src/models/ensemble.ts:160-172 | the grid for a number of components and a step |
| `SimplexGrid.GridIsEveryComposition` | backend/src/models/ensemble.ts:160-172 | every composition of the steps appears exactly once and nothing else does |
| `SimplexGrid.GridOnSimplex` | backend/src/models/ensemble.ts:160-172 | every grid point is a vector of weights in [0, 1] that add up to one |
| `SimplexGrid.GridHoldsUnits` | backend/src/models/ensemble.ts:160-172 | each component on its own is a grid point |
| `GridGuarantees.GridIsLexicographic` | backend/src/models/ensemble.ts:163-169 | of two grid points the earlier has the smaller weight at their first difference |
| `GridGuarantees.StepsMean` | backend/src/models/ensemble.ts:161-161 | the number of steps is the whole number nearest to the inverse of the step |
| `Ensemble.CombineCoherent` | backend/src/models/ensemble.ts:28-50 | the loops compute the weighted averages of the priced selections, made coherent |
| `Ensemble.EnforceCoherence` | backend/src/models/ensemble.ts:52-82 | market by market, the result is derived from the averaged base markets |
| `EnsembleLearning.ScorePrediction` | backend/src/models/foldScoring.ts:25-39 | sum and number of the market Brier scores |
| `EnsembleLearning.CombinedMembers` | backend/src/models/ensemble.ts:47-49 | which markets a combination prices depends on the components, not on the weights |
| `EnsembleLearning.FiniteBrier` | backend/src/models/ensemble.ts:96-96 | the pooled score is finite if and only if some component prices a base market of some item, for every weighting |
| `EnsembleLearning.LearnEnsembleWeights` | backend/src/models/ensemble.ts:85-103 | returns the first grid point of least pooled Brier score, or uniform weights when nothing can be scored |
| `EnsembleLearning.UnitWeightIsProjection` | backend/src/models/ensemble.ts:28-50 | all the weight on one component gives its coherent projection if and only if it prices every base market that some component prices |
| `EnsembleLearning.NeverWorseThanComponent` | backend/src/models/ensemble.ts:84-103 | on the learning set the learnt weights are never worse than the coherent projection of a component that prices every base market priced |
| `EnsembleCoverage.FewerMarketsCanWin` | backend/src/models/ensemble.ts:84-103 | for any pattern of base markets priced in which a component prices some but not every one, there are prices and an outcome for which the component beats every weighting |
| `EnsembleCoverage.CoverageIsExact` | backend/src/models/ensemble.ts:84-103 | on items where a component prices some base market, the learnt ensemble is never worse than it, for all prices and outcomes, if and only if it prices every base market that some component prices |
| `EnsembleLearning.ProjectionIsIdempotent` | backend/src/models/ensemble.ts:52-82 | a coherent prediction whose 1X2 adds up to one is left alone by the coherence step |
| `EnsembleLearning.BinaryMarketsCoherent` | backend/src/models/ensemble.ts:76-82 | in every combination a binary market adds up to exactly one, and an Under market comes with its Over market and mirrors it |
| `EnsembleLearning.CombinedResultsCoherent` | backend/src/models/ensemble.ts:54-60 | for probabilities and non-negative weights the combined 1X2 adds up to one if and only if home and draw leave a millionth; the excess is at most a millionth |
| `EnsembleGuarantees.AverageIsWeighted` | backend/src/models/ensemble.ts:33-45 | the average of a selection, times the weight of the components that price it, is the sum of their weighted prices; it is zero when they carry no weight |
| `EnsembleGuarantees.EntriesMean` | backend/src/models/ensemble.ts:52-82 | what every market of a coherent prediction says, from the averages of its base |
| `EnsembleGuarantees.ResultsMean` | backend/src/models/ensemble.ts:54-60 | home and draw keep their share of the averaged total where the clamp allows, and away is the rest of one, but at least a millionth |
| `EnsembleGuarantees.ActualMeans` | backend/src/models/types.ts:52-77 | a selection is scored against one exactly when the event it bets on occurred, the event being the one training counts |
| `EnsembleGuarantees.BrierMeans` | backend/src/models/foldScoring.ts:28-36 | the score of a market is least exactly for the certain forecast of what came out |
| `EnsembleGuarantees.PooledBrierMeans` | backend/src/models/ensemble.ts:89-96 | what learning minimises is a mean over items and scored markets, least exactly for a weighting that says the truth everywhere |
| `Evaluation.CalibrationBins` | backend/src/evaluation.ts:222-240 | the loop collects the non-empty bins with their rounded means |
| `Evaluation.ExactlyOneBin` | backend/src/evaluation.ts:225-229 | every probability is in exactly one of the ten bins |
| `Evaluation.BinsPartition` | backend/src/evaluation.ts:224-229 | summing any quantity bin by bin is summing it once over all observations |
| `Evaluation.BrierDecompositionIsExact` | backend/src/evaluation.ts:242-253 | before rounding, reliability - resolution + uncertainty is the mean squared error of the forecast that replaces each probability by its bin mean |
| `Evaluation.RoundedDecomposition` | backend/src/evaluation.ts:234-235 | with bin means rounded to within eps the recomposed score is off by at most 4 eps + 3 eps^2 |
| `Evaluation.FourDigits` | backend/src/evaluation.ts:231-253 | for the four digits the bins carry, that is at most 0.00021, and at most 0.00026 for the score rounded to four digits in turn |
| `EvaluationGuarantees.BinsMean` | backend/src/evaluation.ts:222-240 | the bins are the tenths that hold observations, in order, each with its bounds, its number of observations and their rounded means |
| `EvaluationGuarantees.ReliabilityMeans` | backend/src/evaluation.ts:242-247 | reliability is zero exactly when every bin is borne out, and positive otherwise |
| `EvaluationGuarantees.ResolutionMeans` | backend/src/evaluation.ts:242-249 | resolution is zero exactly when every bin comes out at the overall rate, and positive otherwise |
| `EvaluationGuarantees.UncertaintyMeans` | backend/src/evaluation.ts:242-251 | for outcomes 0 and 1 uncertainty is the mean squared error of always forecasting the overall rate |
| `Csv.ParseCsvRowsDetailed` | backend/src/csv.ts:55-100 | the character loop computes the specified rows and quote state |
| `Csv.UnterminatedIffOdd` | backend/src/csv.ts:71-73 | for every input, an unterminated quote is reported if and only if the number of quotes is odd |
| `Csv.RoundTrip` | backend/src/csv.ts:55-100 | reading any encoded table, cells quoted or bare, lines ended by LF or CRLF, gives back exactly its rows |
| `Csv.RoundTripUnterminated` | backend/src/csv.ts:94-97 | the last line may lack its break if and only if it is not one empty cell |
| `Csv.RecordColumn` | backend/src/csv.ts:13-18 | with distinct headers every column of a record is its trimmed cell, or empty when the row is short |
| `Csv.RecordsRoundTrip` | backend/src/csv.ts:4-20 | a written table reads back as one record for each line that is not blank |
| `CsvGuarantees.BreaksAreInterchangeable` | backend/src/csv.ts:83-91 | outside quotes LF, CR and CRLF may replace each other in any text, as long as no CR and LF come together that were apart |
| `CsvGuarantees.RowsAndCells` | backend/src/csv.ts:60-99 | for every text, one row for each break outside quotes and one for a last line that is not empty; one cell for each row and one more for each comma outside quotes |
| `CsvGuarantees.RecordsMean` | backend/src/csv.ts:4-20 | for every text, one record for each row after the first with more than white space in it |
| `CsvGuarantees.CellOfRecord` | backend/src/csv.ts:10-18 | for every text, each such row has its record in order, with the trimmed cell under the trimmed header of the last column so named |
| `Importer.DeduplicateRecords` | backend/src/import/localStateImporter.ts:349-393 | a record survives if and only if all records with its provider and identifier are equal, each key survives once, duplicates are the records minus the distinct keys, and the issues are listed row by row |
| `Importer.DetectAmbiguousAliases` | backend/src/import/localStateImporter.ts:395-421 | the loops compute the conflicts and their number |
| `Importer.ConflictsAreExact` | backend/src/import/localStateImporter.ts:402-416 | for any input, the conflicts are exactly the teams of an alias that its first named mention and a later mention with another identifier contest |
| `Importer.NamedConflicts` | backend/src/import/localStateImporter.ts:402-416 | with identifiers present these are all the teams that share a provider alias with another team |
| `Importer.RaisedExactly` | backend/src/import/localStateImporter.ts:402-416 | for any input, a conflict is raised for an alias if and only if a named team is followed by a different identifier |
| `Importer.MissedExactly` | backend/src/import/localStateImporter.ts:404-404 | two identifiers of one alias go unnoticed if and only if all the empty ones come first and only one team is named |
| `Importer.PrepareBatch` | backend/src/import/localStateImporter.ts:89-108 | deduplication, detection and filter composed, with their counts |
| `ImporterGuarantees.AliasNamesOneTeam` | backend/src/import/localStateImporter.ts:90-99 | after filtering, the teams that an alias of a provider names are one, up to absent identifiers |
| `ImporterGuarantees.RaisedIsTheRest` | backend/src/import/localStateImporter.ts:404-405 | for any input, an alias raises a conflict for every mention but those before its first identifier and those that repeat it |
| `ImporterGuarantees.RaisedByOthers` | backend/src/import/localStateImporter.ts:404-405 | with identifiers present that is the number of its mentions whose team differs from that of the first |
| `ImporterGuarantees.NamedInAnyOrder` | backend/src/import/localStateImporter.ts:404-405 | with identifiers present, two orders of the same mentions raise as many conflicts for an alias if and only if the mentions they begin with are equally frequent |
| `ImporterGuarantees.AmbiguousRowsInAnyOrder` | backend/src/import/localStateImporter.ts:89-106 | two orders of one input have as many ambiguous rows if and only if, over all aliases, they pass over as many mentions |
| `ImporterGuarantees.AmbiguousCountDependsOnOrder` | backend/src/import/localStateImporter.ts:404-405 | three records whose order decides whether one or two rows count as ambiguous |
| `ImporterGuarantees.OrderDoesNotMatter` | backend/src/import/localStateImporter.ts:89-106 | reordering the input changes neither the duplicates nor, as long as absent identifiers stay on their side of the first identifier of their alias, the records kept |
| `ImporterGuarantees.NamedStayNamed` | backend/src/import/localStateImporter.ts:404-404 | with identifiers present in all records that is always the case |
| `ImporterGuarantees.EmptyIdentifierHidesConflict` | backend/src/import/localStateImporter.ts:404-416 | two records of which one order has a conflict and the other has none, because an empty identifier seen first is overwritten |
| `ImporterGuarantees.FilterKeepsOrder` | backend/src/import/localStateImporter.ts:89-99 | exactly the records without a contested team are kept, each in its place among them |
| `ImporterGuarantees.RejectedMeans` | backend/src/import/localStateImporter.ts:89-108 | rejected are the conflicting duplicates and the ambiguous aliases, and no plain duplicate |
| `TemporalSplit.CompetitionCounts` | backend/src/mlops.ts:131-141 | the adjustment loop terminates with the closed form: the test share is kept and validation gives way to one training row |
| `TemporalSplit.CountsOf` | backend/src/mlops.ts:131-141 | the three counts add up to the total, and from two rows on there is a training row and a test row |
| `TemporalSplit.GroupByCompetition` | backend/src/mlops.ts:69-76 | the groups hold the rows of their competition in order |
| `TemporalSplit.ComputeTemporalSplit` | backend/src/mlops.ts:46-129 | ratio errors in the order they are checked, leakage exactly when an index is shared, otherwise the three sorted parts, the number discarded and the counts by competition |
| `TemporalSplit.SplitConserves` | backend/src/mlops.ts:83-102 | train, validation and test together are a permutation of the validly dated rows |
| `TemporalSplit.SplitIsChronological` | backend/src/mlops.ts:85-90 | within a competition no row of an earlier part is later than a row of a later part |
| `TemporalSplit.NeverLeaks` | backend/src/mlops.ts:147-164 | with distinct indices the disjointness check never fails |
| `TemporalSplitGuarantees.CountsMean` | backend/src/mlops.ts:131-141 | a single row trains; otherwise the test rows are the whole share but at least one, and the validation rows too unless that would leave nothing to train on |
| `TemporalSplitGuarantees.PartSizes` | backend/src/mlops.ts:78-102 | every part holds of every competition its share of the dated rows of that competition |
| `TemporalSplitGuarantees.PartInOrder` | backend/src/mlops.ts:104-108 | every part is in order of time and index |
| `TemporalSplitGuarantees.ReportRow` | backend/src/mlops.ts:95-101 | the report lists each competition with its dated rows and its counts |
| `TemporalSplitGuarantees.SharingMeans` | backend/src/mlops.ts:147-164 | leakage is an index that occurs on both sides |
| `IdentityRepository.Repository.TransferAndRevokeMemberships` | backend/src/infrastructure/database/identityRepository.ts:432-491 | the loop over the memberships, statement by statement, is the specified departure |
| `IdentityRepository.Repository.Deactivate` | backend/src/infrastructure/database/identityRepository.ts:270-281 | a transaction: the specified new state, or the old one with the error |
| `IdentityRepository.Repository.PrepareDeletion` | backend/src/infrastructure/database/identityRepository.ts:283-304 | a transaction: the specified new state, or the old one with the error |
| `IdentityRepository.Repository.Resolve` | backend/src/infrastructure/database/identityRepository.ts:32-171 | a transaction: the specified actor and state, or the old state with the error |
| `IdentityRepository.Repository.Block` | backend/src/infrastructure/database/identityRepository.ts:249-268 | disables the user and revokes its access, or changes nothing |
| `IdentityRepository.Repository.RevokeLocalAccess` | backend/src/infrastructure/database/identityRepository.ts:407-430 | sessions of the user and its keys in every organisation it has a row in |
| `IdentityRepository.Repository.RevokeOneSession` | backend/src/infrastructure/database/identityRepository.ts:195-223 | revokes the open sessions of the actor with that identifier |
| `IdentityRepository.Repository.Synchronise` | backend/src/infrastructure/database/identityRepository.ts:306-323 | refreshes the profile, or changes nothing |
| `IdentityGuarantees.PromotionIsUnique` | backend/src/infrastructure/database/identityRepository.ts:464-477 | because the old owner is revoked first, the promotion never meets a second active owner |
| `IdentityGuarantees.LeaveSucceeds` | backend/src/infrastructure/database/identityRepository.ts:432-491 | a departure succeeds if and only if every ownership that needs a successor has the replacement among the other active members; it leaves the user no active membership |
| `IdentityGuarantees.OwnershipIsPassedOn` | backend/src/infrastructure/database/identityRepository.ts:456-483 | every organisation the user owned belongs to the replacement afterwards, or is closed when nobody else was active in it |
| `IdentityGuarantees.DeactivationIsSound` | backend/src/infrastructure/database/identityRepository.ts:270-281 | keeps every active organisation with exactly one active owner, leaves the user no membership and no open session, and otherwise changes nothing; with its exact success condition |
| `IdentityGuarantees.DeletionIsSound` | backend/src/infrastructure/database/identityRepository.ts:283-304 | the same for deletion, which also fails if and only if the erased subject is already taken by another row |
| `IdentityGuarantees.KeysRevoked` | backend/src/infrastructure/database/identityRepository.ts:413-429 | a key is revoked exactly when the user created it in an organisation it has a row in |
| `IdentityGuarantees.StepKeepsSound` | backend/src/infrastructure/database/identityRepository.ts:29-324 | every step of identity keeps every active organisation with exactly one active owner |
| `IdentityGuarantees.RunKeepsSound` | backend/src/infrastructure/database/identityRepository.ts:29-324 | so does every run |
| `IdentityGuarantees.ResolvedActor` | backend/src/infrastructure/database/identityRepository.ts:71-105 | who resolves is an active, verified user through an open session of its own |
| `IdentityGuarantees.ResolvedSeat` | backend/src/infrastructure/database/identityRepository.ts:107-144 | the actor holds an active membership with the role named; its organisation is active if and only if it was not created just now over a closed personal organisation |
| `IdentityGuarantees.RevocationTakesEffect` | backend/src/infrastructure/database/identityRepository.ts:198-209 | exactly the open sessions of the actor under that identifier are revoked, and the answer says whether there was one |
| `IdentityGuarantees.BlockTakesEffect` | backend/src/infrastructure/database/identityRepository.ts:249-268 | the user is disabled, its sessions and its keys are revoked, memberships stay |
| `IdentityGuarantees.RevokedNeverResolves` | backend/src/infrastructure/database/identityRepository.ts:103-105 | over every run a revoked session never resolves |
| `IdentityGuarantees.DisabledNeverResolves` | backend/src/infrastructure/database/identityRepository.ts:72-74 | over every run a disabled user row never resolves |
| `IdentityGuarantees.SessionUserFixed` | backend/src/infrastructure/database/identityRepository.ts:134-144 | over every run the user of a session never changes |
| `IdentityGuarantees.RemovedNeverReturns` | backend/src/infrastructure/database/identityRepository.ts:270-304 | after a successful removal no later login in any run resolves to that user |
| `IdentityOutcomes.ReturningLogin` | backend/src/infrastructure/database/identityRepository.ts:43-171 | a known identity is let in exactly when nothing stands against it, and is told the first obstacle otherwise: email of another row, disabled, unverified, foreign or revoked session, no open membership |
| `IdentityOutcomes.ReturningActor` | backend/src/infrastructure/database/identityRepository.ts:107-171 | it sits in the oldest open membership in the organisation of its session, or in its oldest one; profile, session and log are written and nothing else |
| `IdentityOutcomes.SynchroniseMeans` | backend/src/infrastructure/database/identityRepository.ts:306-323 | a foreign subject is refused, so is an email of another row; else the row is updated, a missing email leaving the stored one, and logged |
| `IdentityOutcomes.RevokeOneMeans` | backend/src/infrastructure/database/identityRepository.ts:195-223 | false without an open session under the identifier; else those sessions are closed and logged |
| `IdentityOutcomes.RevokeEveryMeans` | backend/src/infrastructure/database/identityRepository.ts:225-240 | every session of the user is closed and logged, users and memberships stay |
| `IdentityOutcomes.PendingMeans` | backend/src/infrastructure/database/identityRepository.ts:242-247 | only the verification of that user is taken back |
| `IdentityOutcomes.DeactivationMeans` | backend/src/infrastructure/database/identityRepository.ts:270-281 | refused exactly when a needed successor is missing or the log cannot name the actor; else the user row is disabled and logged |
| `IdentityOutcomes.OthersMean` | backend/src/infrastructure/database/identityRepository.ts:445-456 | an owner needs a successor exactly when the organisation has another active member |
| `IdentityReturns.FirstLogin` | backend/src/infrastructure/database/identityRepository.ts:43-171 | an identity that is not known is let in if and only if profile and session are admissible and its personal organisation does not exist or has no active owner; with an active one it is refused and nothing changes |
| `IdentityReturns.NextLogin` | backend/src/infrastructure/database/identityRepository.ts:107-144 | after a first login the identity can log in again if and only if its personal organisation did not exist before |
| `IdentityReturns.DeletedThenReturned` | backend/src/infrastructure/database/identityRepository.ts:378-405 | a run: an identity logs in, is deleted and comes back; it is let in as owner of its closed organisation, and refused from then on |
| `IdentityReturns.NeverDeletedAgain` | backend/src/infrastructure/database/identityRepository.ts:283-304 | over every run, a deleted identity that comes back can never be deleted again |
| `IdentityReturns.ResolvedSubject` | backend/src/infrastructure/database/identityRepository.ts:144-171 | a resolved actor carries the subject of its row |
| `JobQueue.JobStore.Insert` | backend/src/infrastructure/database/jobQueue.ts:296-365 | inserts job and audit row, or finds the job with the same queue and key |
| `JobQueue.JobStore.Cancel` | backend/src/infrastructure/database/jobQueue.ts:112-132 | the conditional update and whether it met a row |
| `JobQueue.JobStore.Start` | backend/src/infrastructure/database/jobQueue.ts:187-202 | starts a job unless cancellation was requested; an attempt beyond the limit is refused |
| `JobQueue.JobStore.Bury` | backend/src/infrastructure/database/jobQueue.ts:234-269 | dead letter at most once, then status failed |
| `JobQueue.JobStore.Pending` | backend/src/infrastructure/database/jobQueue.ts:151-169 | hands out pending jobs only, each once, in order of schedule and creation, at most the limit clamped to [1, 100]; what is left behind is not sooner, and nothing is left behind while there is room |
| `JobQueueGuarantees.StepKeepsConsistent` | backend/src/infrastructure/database/jobQueue.ts:26-376 | every step keeps: one job for each queue and key, one audit row for each job, at most one dead letter for a job and one for each failed job, attempts within their limit |
| `JobQueueGuarantees.RunIsConsistent` | backend/src/infrastructure/database/jobQueue.ts:26-376 | every run from the empty queue is in such a state |
| `JobQueueGuarantees.FailedHasOneDeadLetter` | backend/src/infrastructure/database/jobQueue.ts:234-269 | over every run a failed job has exactly one dead letter and no job has two |
| `JobQueueGuarantees.EnqueueIsIdempotent` | backend/src/infrastructure/database/jobQueue.ts:317-349 | asking again for the same work after any steps finds the first job and changes nothing |
| `JobQueueGuarantees.CancelIsFinal` | backend/src/infrastructure/database/jobQueue.ts:157-198 | after a successful cancel request no step sequence lets the job start or be handed out |
| `JobQueueGuarantees.DispatchedOnce` | backend/src/infrastructure/database/jobQueue.ts:171-177 | a dispatched job is never handed out again, not even after a retry |
| `JobQueueGuarantees.StepTouchesOneJob` | backend/src/infrastructure/database/jobQueue.ts:367-375 | a step changes no job, and no dead letter, but the one it is about |
| `JobQueueGuarantees.StatusChanges` | backend/src/infrastructure/database/jobQueue.ts:112-269 | each status is reached only by its own step; a job starts only without a cancel request, and a request cancels only from the queue |
| `JobQueueGuarantees.UntouchedStaysPending` | backend/src/infrastructure/database/jobQueue.ts:157-165 | a pending job no step is about stays pending |
| `JobLifecycle.HandedOutExactly` | backend/src/infrastructure/database/jobQueue.ts:151-169 | a job is handed out exactly when it is queued, unsent, not cancelled and due, and fewer such jobs than the limit, clamped to [1, 100], precede it |
| `JobLifecycle.InsertMeans` | backend/src/infrastructure/database/jobQueue.ts:296-365 | a request is refused exactly when its scope does not fit or its policy allows no attempt; a new job starts out queued, untried and due at once |
| `JobLifecycle.KeyMeans` | backend/src/infrastructure/database/jobQueue.ts:314-316 | the key digests the given scope, or the system or organization asked for, with job type and key |
| `JobLifecycle.CancelMeans` | backend/src/infrastructure/database/jobQueue.ts:112-132 | a user cancels exactly its own system jobs that are queued or running, the queued ones at once |
| `JobLifecycle.StartMeans` | backend/src/infrastructure/database/jobQueue.ts:187-202 | in a consistent queue a job starts exactly when it exists, was not cancelled and the attempt is within the policy |
| `JobLifecycle.DispatchesCounted` | backend/src/infrastructure/database/jobQueue.ts:171-185 | over every run the dispatch counter of a job counts its dispatches, successful or not |
| `JobLifecycle.DueAfterFailure` | backend/src/infrastructure/database/jobQueue.ts:179-185 | after a failed dispatch a job is due again exactly from the given time on |
| `JobLifecycle.LetterMeans` | backend/src/infrastructure/database/jobQueue.ts:234-263 | the first dead letter of a job tells queue, type, failure and at least one attempt, and every later run keeps it |
| `JobLifecycle.RunIsDated` | backend/src/infrastructure/database/jobQueue.ts:187-269 | over every run what runs was started, and what is over was completed or its cancellation requested |
| `JobQueue.OldestFirst` | backend/src/infrastructure/database/jobQueue.ts:157-166 | the sorted and cut query result has these properties |

## Left out

- Floating point: all probabilities, ratings and sums are exact reals. `NaN`, infinities and rounding error of the arithmetic are not modelled; `Math.round` and `Math.floor` are.
- Transcendental functions: `Math.exp`, powers of ten, the sigmoid and the logarithm are parameters of which only the sign (or nothing) is known. The gradient-descent fits of Platt, temperature, logistic and softmax models are not modelled.
- `predictMarkets` (backend/src/prediction.ts): a parameter of the backtest, a function of snapshot and request.
- RunBacktest: leaves out the tallies: eligible rows, categorical hits, drift, trace and the split it is reported with (backend/src/backtesting.ts:28 and 59-110). That split also rejects lists in which an index repeats across its parts.
- BuildSegmentModel: leaves out the period of a segment and the text of its reason. Key order of the resulting objects is not modelled either.
- TrainModel: leaves out creation time, provenance and fingerprint, which differ by design between the batch and the incremental model.
- IncrementalModel.IncrementalFrequencyModel.Snapshot: leaves out the same, and the period of a segment.
- Goals, corners and cards are integers, so a comparison with 2.5 is a comparison with 2.
- Strings: characters are code points, and `<` on strings is their order; locale collation, Unicode normalisation, trimming and hashing are parameters. The team key is a parameter whose values hold no bar, as the normalisation guarantees.
- GenerateSequentialFeatures: takes the records in the order of `compareCanonical`, which reads no results, and requires that no team plays itself, because both sides would then be one state object (backend/src/preMatchFeatures.ts:192-193).
- Round and month of the pre-match features, and the flat copies of nested features.
- CalibratorMonotoneAndBounded: `clamp` of a value that is not finite is not modelled.
- NeverWorseThanComponent: requires the component to price every base market priced by some component. Without it the claim is false (CoverageIsExact).
- OrdinaryCalibratorIsBest: says nothing of data in which some run of equal probabilities mixes labels and yet averages at most a millionth; there CalibratorIsBest gives the exact condition.
- RaisedByOthers: requires team identifiers to be present. RaisedIsTheRest says what holds for any identifiers.
- OrderDoesNotMatter: requires that reordering moves no absent identifier across the first identifier of its alias. Without it the claim is false (EmptyIdentifierHidesConflict).
- CappedStateSuffices: the numbers of recent games are compared over the last forty dates; RecentGamesSaturate says how that differs from all dates.
- NeverDeletedAgain: requires that deletion steps name the deleted row with the subject it had, as actors that were resolved do (ResolvedSubject).
- PrepareBatch: rejected rows do not include those that fail normalisation.
- Import keys are pairs of provider and identifier; the source joins them with a NUL character, which could only matter if a provider name held one. A record is its key, its teams and one string for all other serialised fields.
- Normalisation of imported rows before deduplication, and the texts of issues.
- ComputeTemporalSplit: leaves out the rewriting of dates to ISO form and the date range of each part in the report.
- Identity: leaves out row-level security settings, request metadata, user agents and time stamps. Identifiers are row positions, and the order of creation is the order of rows. The index on active owners comes from backend/migrations/0005_organization_tenancy_rls.sql:27-29, the other constraints from backend/src/infrastructure/database/schema.ts:67-130. An index refusal inside a departure would be reported as a missing transfer; it cannot occur in a sound database.
- Identity: `listSessions`, and operations on memberships in other repositories.
- Job queue: trace context, result metadata, queue summaries and the lookup of one job. Terminal states are not absorbing, because the worker's update is unconditional (backend/src/infrastructure/database/jobQueue.ts:367-375), so no lemma says so.
- Concurrency inside a transaction: every repository method is one step; runs interleave steps.
- Providers, HTTP, billing, Redis, telemetry, configuration, the command line and the frontend.
