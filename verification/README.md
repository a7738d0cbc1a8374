# Betmaxxing, modelled and proved

A Dafny model of the parts of Betmaxxing in which a small mistake costs money or
an identity, with proofs over every input, every run or every reachable state.

* **Job scheduler** (`JobTable`, `JobRuns`, `BudgetDeferral`, `JobLedger`,
  `JobRunner`). A table of occurrences and the transactions workers commit on it:
  claim, renew, succeed, fail, defer, skip. A run is any interleaving of them.
  `JobLedger.Ledger` is the ledger itself, and each of its methods is proved to be
  one of those transactions. `JobRunner` is one worker's pass over the jobs it
  claims, with other workers committing between any two of its steps.
* **Credit budget** (`Budget`, `BudgetLedger`, `OddsClient`). The detail rows, the
  daily counters that summarise them, and the client's retry loop while other
  workers commit transactions of their own.
* **Probability engine** (`Race`, `Masses`, `Tennis*`, `Products`, `Shin`,
  `ShinBook`, `Devig`, `Rounding`, `Grids`, `Football*`). Tennis from the point to
  the match, its calibration, the removal of a bookmaker's margin, and the
  Dixon-Coles matrix. Tennis scoring and serve order follow rules 5 and 6 of the ITF
  Rules of Tennis.
* **Event identity** (`Identity`, `IdentityService`, `SourceMapMigration`,
  `Acquisition`, `OddsStore`). The source map, its review queue, the migration that
  folds it into a column and rebuilds it, and what a replayed batch stores.
* **Challenge** (`Montante*`, `Challenge*`). A ladder of bets in integer cents, the
  object that walks it, and the versioned store many clients write to.
* **Book assembly** (`Books`). Repeats, quarantine and newest prices.

Tables are maps and sequences; one `session_scope` block is one step. Numbers the
program holds as floats are exact reals. `sqrt`, `exp` and real powers are
parameters known only by their laws (a square root squares back, an exponential is
positive, a power of a number below one falls with the exponent). What the network
answers, the clock and other workers are inputs every theorem ranges over.

## What the proofs show that the documentation does not say

* **A third attempt can be stranded** (`JobRuns.CrashRunStrands`): a job whose third
  worker dies is never claimed again. An expired lease is claimable if and only if
  attempts are left (`JobRuns.ExpiredLease`), although the ledger's text promises
  that an expired lease is reclaimed.
* **An invalid URL is charged but not counted** (`OddsClient.InvalidUrlIsStillCharged`):
  it is listed among the failures that prove nothing was sent, but it is not a
  transport error, so it leaves the loop unsettled.
* **A free call can move the spend counter** (`OddsClient.FreeCallsCost`): each of its
  requests left in doubt adds its cost, although a free call is documented not to.
  Only a caller that passes a cost, such as the default of 1, is affected: a free
  call moves nothing if and only if its cost is 0 or nothing was left in doubt, and
  the free calls this program makes all pass 0.
* **An operator's decision can put two ids of one provider on one event**
  (`Identity.DecisionsCanCollide`). Downgrading and upgrading is lossless if and only
  if that has not happened (`SourceMapMigration.DowngradeIsLossless`); after that very
  run neither direction refuses, and one of the two ids is gone
  (`SourceMapMigration.CollisionIsLost`).
* **A kick-off can move without a trace** (`Identity.MovedSilently`), although an
  event's history is documented to keep every reschedule visible: an event linked to a
  second provider keeps its kick-off, and the batch then written overwrites it and
  records nothing. The history is right at every moment of a run if and only if no
  overwrite moves the event it finds (`Identity.HistoryTellsWhereEventsStand`); after a
  resolution that is, unless the request was linked to an event standing elsewhere
  (`Identity.ResolvedThenOverwritten`).
* **A neutral outcome uses a rung** (`MontanteRuns.VoidUsesARung`), although the
  comment beside the neutral outcomes says it does not; **a half win can cost a
  cent** (`Montante.HalfWinCostsACent`, on a stake of one cent
  `Montante.HalfWinOnOneCent`); **a finished run can be relabelled**
  (`MontanteRuns.ReachedThenCancelled`) and keeps its label if and only if the last
  `stop` or `cancel` tried on it, if any, sets the one it has
  (`MontanteRuns.KeepsItsLabel`); **a probability of zero is stored but reads
  back as absent** (`ChallengeStore.ZeroIsLost`; a run's Challenge loads as it was if
  and only if it quotes none, `ChallengeStore.RunRoundTrip`).
* **The score matrix can hold negative cells** (`FootballMarkets.NegativeDraw`, at
  rates 2 and 2 with a correction of 0.5): nothing bounds the correction, and there is
  none if and only if four bounds hold (`FootballMarkets.NonNegativeMatrix`).

## Model

| member | source | states |
|---|---|---|
| JobTable.ClaimEffect | src/betmaxxing/scheduler/ledger.py:335-384 | a claim changes exactly the rows it names: each is running under a fresh token of its own with one more attempt, and every other row is untouched |
| JobTable.NewIsDue | src/betmaxxing/scheduler/ledger.py:296-323 | a new row can be claimed from its minute on |
| JobTable.ClaimedWaits | src/betmaxxing/scheduler/ledger.py:335-384 | a claimed row is stamped, and due again exactly once its lease has run out with an attempt left |
| JobTable.RenewedWaits | src/betmaxxing/scheduler/ledger.py:303-323 | a renewed row is due again exactly once the renewed lease has run out with an attempt left |
| JobTable.FailedWaits | src/betmaxxing/scheduler/ledger.py:414-447 | a failure closes the row for good if and only if it is not to be retried or was the third attempt; otherwise the row is due again exactly from the delay on, asked for or backed off |
| JobTable.BackoffDoubles | src/betmaxxing/scheduler/ledger.py:524-525 | the base delay after the first attempt, twice the one before after every further one |
| JobTable.DeferredWaits | src/betmaxxing/scheduler/ledger.py:449-480 | a deferred row has its attempt back and is due exactly from the instant it was deferred to |
| JobTable.ClosedIsFree | src/betmaxxing/scheduler/ledger.py:387-506 | whatever closes a row leaves it without token, owner and lease, and stamps it |
| JobTable.OverIsNotDue | src/betmaxxing/scheduler/ledger.py:303-323 | a row at its end is never due |
| JobRuns.RunsAreSound | src/betmaxxing/scheduler/ledger.py:281-553 | in every interleaving: attempts stay within 0..3, a row is running exactly while it has a token, a lease and an owner, and no two rows share a token |
| JobRuns.OnlyTheLastTokenHolds | src/betmaxxing/scheduler/ledger.py:527-553 | whoever may still change a job holds the token its last claim issued |
| JobRuns.TwoStepFailureIsAtomic | src/betmaxxing/scheduler/ledger.py:414-447 | reading the attempts in one transaction and closing the row - as final or retryable, after the backoff those attempts call for - in a later one, with any transactions of others between, acts as one transaction at the closing, on the attempts of that moment |
| JobRuns.RowsStay | src/betmaxxing/scheduler/ledger.py:527-553 | rows are never deleted, and a row in a terminal state never changes again |
| JobRuns.EndsOnce | src/betmaxxing/scheduler/ledger.py:387-506 | a job is brought to an end at most once in any run, and exactly once if it stands ended |
| JobRuns.BooksBalance | src/betmaxxing/scheduler/ledger.py:335-384 | claims of a job = attempts on its row + deferrals + skips, in every run |
| JobRuns.ExpiredLease | src/betmaxxing/scheduler/ledger.py:303-323 | an expired lease is claimable if and only if fewer than three attempts were made |
| JobRuns.ThirdAttemptStranded | src/betmaxxing/scheduler/ledger.py:314-317 | a running third attempt whose holder stays silent keeps its row for ever, whatever the others do |
| JobRuns.CrashRunStrands | src/betmaxxing/scheduler/ledger.py:314-317 | such a job is reached by three claims, each after the previous lease ran out |
| JobRuns.ClaimShrinksDue | src/betmaxxing/scheduler/ledger.py:296-384 | a claim takes its rows, and only them, out of what is due at its own instant |
| JobRuns.SweepReachesAll | src/betmaxxing/scheduler/ledger.py:281-384 | claims repeated at one instant reach every due row after finitely many calls, however many rows are finished |
| BudgetDeferral.NoSecondDeferral | src/betmaxxing/scheduler/runner.py:420-492 | past the first midnight after its instant, a daily scan is skipped rather than deferred: the next reset lies beyond its deadline |
| BudgetDeferral.DeferredOnce | src/betmaxxing/scheduler/runner.py:420-492 | under a clock that never goes back a daily scan is deferred at most once in any run |
| BudgetDeferral.DeferredOnceClaimedFourTimes | src/betmaxxing/scheduler/runner.py:420-492 | and is therefore claimed at most four times |
| BudgetDeferral.BudgetDecides | src/betmaxxing/scheduler/runner.py:420-467 | a held job out of budget is back in the queue from the reset on if that comes before a milestone's known kick-off, or two hours past the instant of any other job; else it is skipped for good |
| BudgetDeferral.ResetFollowsMidnight | src/betmaxxing/scheduler/runner.py:470-492 | the reset falls within ten minutes of the next UTC midnight |
| JobLedger.SelectOldest | src/betmaxxing/scheduler/ledger.py:318-323 | filter, order and limit give the oldest due rows, oldest first, exactly min(limit, due) of them, and nothing older is left behind |
| JobLedger.Ledger.EnqueueJob | src/betmaxxing/scheduler/ledger.py:183-222 | a first enqueue of an occurrence adds one pending row at the minute its instant falls in; a repeated one changes nothing |
| JobLedger.Ledger.ClaimDue | src/betmaxxing/scheduler/ledger.py:281-384 | takes exactly the oldest due rows up to the limit, as one claim transaction, and reports each with the token, attempts and lease it stored |
| JobLedger.Ledger.ClaimRows | src/betmaxxing/scheduler/ledger.py:335-384 | within one transaction the row-by-row compare-and-swap never misses: every selected row is claimed |
| JobLedger.Ledger.MarkFailed | src/betmaxxing/scheduler/ledger.py:414-447 | with anything committed by others between its two transactions: closes the row if and only if the caller still holds it at the closing, for good exactly if not to be retried or at its third attempt and else until its delay has passed, and reports a stale lease otherwise |
| JobLedger.Ledger.MarkDeferred | src/betmaxxing/scheduler/ledger.py:449-480 | hands the row back with the attempt returned, if and only if the caller still holds it |
| JobLedger.Ledger.MarkSkipped | src/betmaxxing/scheduler/ledger.py:482-506 | ends the row with the attempt returned, if and only if the caller still holds it |
| JobRunner.Guard | src/betmaxxing/scheduler/runner.py:110-235 | whatever others commit between its renewals, the guard issues nothing but renewals of its own job; a lease it calls lost is not held when it ends, and with nobody else about nothing but the lease has moved |
| JobRunner.RunJob | src/betmaxxing/scheduler/runner.py:336-388 | renewals, work and verdict are a stretch of a run among others' transactions, in which this worker only renews and closes its own job; it reports success if and only if the work succeeded and the job was still held at its closing, and with nobody else about the row ends as its outcome deserves |
| JobRunner.VerdictDecides | src/betmaxxing/scheduler/runner.py:336-417 | what an outcome means for a job still held: an exception or a retryable failure puts it back after the backoff until its third attempt has failed, a final failure and a success end it, a spent budget defers or skips it |
| JobRunner.Tick | src/betmaxxing/scheduler/runner.py:322-388 | one pass over exactly the ten oldest due jobs, whatever others commit between its steps: a run of the table in which this worker renews and closes the jobs it claimed and nothing else, and it reports, in order, exactly the jobs whose work succeeded and that it still held at their closing; with nobody else about each job ends as its outcome deserves and no other row moves |
| JobRunner.ReportedIsRecorded | src/betmaxxing/scheduler/ledger.py:387-412 | a success reported is on the row for good, whatever is committed after it |
| Budget.ClampNeverBites | src/betmaxxing/providers/budget.py:178-241 | a reconciliation or release moves its counter by exactly what the row's cost moves, and never below zero: the clamp changes no result |
| Budget.EveryRunAgrees | src/betmaxxing/providers/budget.py:124-241 | after any run both counters of every bucket equal the sums over its detail rows, and with a ceiling the charge is at most the ceiling plus the reports' overruns |
| Budget.WithinTheCeiling | src/betmaxxing/providers/budget.py:369-424 | as long as no report exceeds its reservation, no run takes a day past its ceiling |
| Budget.CappedStep | src/betmaxxing/providers/budget.py:369-424 | every transaction keeps charge at most ceiling + total of max(0, effective - reserved) over the bucket's rows |
| Budget.GrantedUpToTheCeiling | src/betmaxxing/providers/budget.py:124-176 | a reservation adds its row if and only if the scan and the day, as its rows add up, stay within their ceilings, the ceiling itself included; at least one credit is asked for |
| Budget.RowsAreTheirOwners | src/betmaxxing/providers/budget.py:178-241 | a detail row changes only by a settlement that names it, in any interleaving |
| Budget.SettlingTwice | src/betmaxxing/providers/budget.py:178-241 | a settlement repeated, or a report after a release, changes nothing |
| Budget.SettlementOrder | src/betmaxxing/providers/budget.py:178-241 | two settlements commute unless they are different reports of the same attempt |
| Budget.BackfillDayBuckets | alembic/versions/c9a2f5b71d03_atomic_daily_budget_and_review_audit.py:46-83 | the migration seeds exactly one counter per bucket, equal to the sums over its rows |
| Budget.ReseedingRestores | alembic/versions/c9a2f5b71d03_atomic_daily_budget_and_review_audit.py:118-130 | dropping the counters at any moment of any run and seeding them again gives back the very counters dropped |
| BudgetLedger.ProviderBudgetLedger.ReserveAttempt | src/betmaxxing/providers/budget.py:124-176 | grants exactly when both the scan and the day allow it, then adds one detail row and its charge; a refusal leaves no trace |
| BudgetLedger.ProviderBudgetLedger.ReconcileAttempt | src/betmaxxing/providers/budget.py:178-214 | replaces an open estimate by the reported figure once, in the row and in both counters |
| BudgetLedger.ProviderBudgetLedger.ReleaseAttempt | src/betmaxxing/providers/budget.py:216-241 | takes back exactly what the attempt counted for, once |
| BudgetLedger.ProviderBudgetLedger.VerifyInvariant | src/betmaxxing/providers/budget.py:277-312 | compares the counter with the sum of unreleased effective costs, and answers ok on every book a run can reach |
| OddsClient.LedgerIsTheCautiousOne | src/betmaxxing/providers/the_odds_api/client.py:314-319 | over any sequence of outcomes the ledger counts at least what the client counts, and the same if and only if every attempt has a cost of at least 1 where unknown, a non-negative report, and no escaped exception |
| OddsClient.StatusDecides | src/betmaxxing/providers/the_odds_api/client.py:321-359 | an answer ends the call well if and only if it is below 400 and JSON; 401 and 403 end it as refused, 429 as exhausted; 429, 500, 502, 503 and 504, and no others, are tried again |
| OddsClient.TransportDecides | src/betmaxxing/providers/the_odds_api/client.py:288-312 | a transport error is tried again and says whether the request may have arrived; any other exception is neither |
| OddsClient.InvalidUrlIsStillCharged | src/betmaxxing/providers/the_odds_api/client.py:53-60 | an exception that is no transport error leaves its reservation charged and the client's counter unmoved |
| OddsClient.FreeCallsCountDoubts | src/betmaxxing/providers/the_odds_api/client.py:369-380 | what a free call adds to the client's counter is its cost, once for every request left in doubt |
| OddsClient.FreeCallsCost | src/betmaxxing/providers/the_odds_api/client.py:369-380 | for every cost: a free call leaves the client's counter alone if and only if its cost is 0 or none of its requests was left in doubt |
| OddsClient.TheOddsApiClient.Get | src/betmaxxing/providers/the_odds_api/client.py:257-359 | while others commit anything on rows of their own: at most max(0, max_retries) + 1 requests, retried only after retryable outcomes; each billable one has a reservation of its own, left in exactly the state its outcome calls for; both counters move by the sums; the scan passes its budget only by what the last report exceeded its reservation; a refusal has one of the two ceilings as its reason |
| TennisGame.GameIsTheOnlyScoring | src/betmaxxing/models_ml/tennis.py:61-71 | the closed form is the value of every bounded valuation of game scores that obeys win-by-two scoring, deuce included |
| TennisGame.GameValueScores | src/betmaxxing/models_ml/tennis.py:61-71 | such a valuation exists |
| TennisGame.GameIsRace | src/betmaxxing/models_ml/tennis.py:61-71 | the closed form equals the point-by-point race to four |
| TennisGame.GameMonotone | src/betmaxxing/models_ml/tennis.py:61-71 | a better server wins strictly more service games |
| TennisTiebreak.TiebreakSolver.Run | src/betmaxxing/models_ml/tennis.py:83-101 | filling the memo returns the value of the pure recursion, from any state of the memo the solver can be in |
| TennisTiebreak.SolveIsRace | src/betmaxxing/models_ml/tennis.py:75-101 | that recursion is the race to seven by two, cut at 100 points |
| TennisTiebreak.ServesInPairs | src/betmaxxing/models_ml/tennis.py:77-82 | the first server serves one point, then the sides take turns serving two |
| TennisTiebreak.TiebreakInterior | src/betmaxxing/models_ml/tennis.py:75-101 | a tiebreak is never certain |
| TennisTiebreak.TiebreakOrdered | src/betmaxxing/models_ml/tennis.py:83-99 | at any score still in play the next point is strictly worth winning |
| TennisTiebreak.TiebreakServeOrder | src/betmaxxing/models_ml/tennis.py:77-82 | who serves first makes no difference at any even score |
| TennisTiebreak.TiebreakMirror | src/betmaxxing/models_ml/tennis.py:75-101 | T(p_a, p_b, first) + T(p_b, p_a, not first) = 1 |
| TennisTiebreak.TiebreakMonotone | src/betmaxxing/models_ml/tennis.py:75-101 | strictly better with a better serve, strictly worse against one |
| TennisSet.PlayGame | src/betmaxxing/models_ml/tennis.py:133-150 | one game from one score in play moves its mass to legal results and loses none, for the mean of any payoff |
| TennisSet.SetDistribution | src/betmaxxing/models_ml/tennis.py:116-152 | the worklist terminates with a distribution on legal set scores only, giving every payoff the mean the scoring rules give it; probabilities outside (0, 1) are refused |
| TennisSet.FourteenScores | src/betmaxxing/models_ml/tennis.py:104-113 | a set ends at one of fourteen scores: six to at most four, seven to five or six |
| TennisSet.SetValueByWinner | src/betmaxxing/models_ml/tennis.py:116-152 | a payoff on who wins is a mixture of its two values: with both at 1, mass is conserved |
| TennisSet.SetIsRace | src/betmaxxing/models_ml/tennis.py:104-152 | the set is the race to six by two, with the tiebreak's value at six all |
| TennisSet.SetServeOrder | src/betmaxxing/models_ml/tennis.py:116-152 | who serves first does not change the chance of winning a set |
| TennisSet.SetChanceServeOrder | src/betmaxxing/models_ml/tennis.py:116-152 | nor does it with the tiebreak's serve included |
| TennisSet.SetChanceMonotone | src/betmaxxing/models_ml/tennis.py:116-152 | the chance of a set rises strictly with the player's serve and falls with the opponent's |
| TennisMatch.MatchDistribution | src/betmaxxing/models_ml/tennis.py:188-220 | the worklist over sets terminates with a distribution on outcomes where exactly one side has the sets to win, giving every payoff its exact mean; other formats and probabilities are refused |
| TennisMatch.ServiceCarriesOver | src/betmaxxing/models_ml/tennis.py:207-216 | the serve flag carried from set to set is the initial server flipped by the parity of all games played |
| TennisMarkets.MatchWinProbability | src/betmaxxing/models_ml/tennis.py:163-165 | summed off the distribution, the match-win probability is the race of sets, whoever serves first |
| TennisMarkets.MatchChanceInterior | src/betmaxxing/models_ml/tennis.py:188-220 | no match is certain: the match-win probability lies strictly between 0 and 1 |
| TennisMarkets.MatchChanceMonotone | src/betmaxxing/models_ml/tennis.py:229-237 | the match-win probability rises strictly with p_a and falls strictly with p_b |
| TennisMarkets.MatchChanceMirror | src/betmaxxing/models_ml/tennis.py:188-220 | swapping the players swaps the answer; equal players are level |
| TennisMarkets.MarketsAgree | src/betmaxxing/models_ml/tennis.py:163-182 | the outcome mass is one, winning a set is at least as likely as winning the match, and is one less the shutout |
| TennisMarkets.TotalGamesProbabilities | src/betmaxxing/models_ml/tennis.py:170-182 | over and under are the masses on either side of the line and add up to all of it, with all of it over when every outcome has more games and none when every outcome has fewer; lines within a billionth of a whole number, and only they, are refused |
| TennisMarkets.OverFallsByBetween | src/betmaxxing/models_ml/tennis.py:170-182 | raising the line takes from over exactly the mass of the outcomes with games between the two lines, so over never rises |
| TennisMarkets.LinesOutsideTheMatch | src/betmaxxing/models_ml/tennis.py:170-220 | a line below six games a set for the winner is always passed, one from thirteen games for every set possible never |
| Rounding.NearANumber | src/betmaxxing/models_ml/tennis.py:170-175 | a line is refused as whole exactly when it lies within a billionth of some whole number |
| TennisCalibration.CalibrateServeProbabilities | src/betmaxxing/models_ml/tennis.py:223-260 | a target outside (0, 1) is refused; for every other one the call succeeds if and only if the match can be played at the end of the range searched; on the documented baselines it always does, and the answer is the middle of a bracket narrower than a millionth around the target, or the end of the range that saturates; on any other baseline it is one of the two ends or the baseline itself, as the first two comparisons decide |
| TennisCalibration.WidestRange | src/betmaxxing/models_ml/tennis.py:238-239 | the search goes exactly as far as both serves stay within 0.30 and 0.95 and the distance within 0.30 |
| TennisCalibration.ExactIncreasing | src/betmaxxing/models_ml/tennis.py:231-233 | the chain is strictly increasing in delta, as documented |
| TennisCalibration.ObjectiveMonotone | src/betmaxxing/models_ml/tennis.py:241-244 | the rounded objective that is bisected never decreases |
| TennisCalibration.CalibrationFindsTheRoot | src/betmaxxing/models_ml/tennis.py:223-260 | there is at most one delta that meets the target, and the serves returned are within 1.5 millionths of those at that delta |
| Shin.ProbabilitySolves | src/betmaxxing/engine/margin.py:119-139 | the closed formula is non-negative and solves p * p + z * (p - p * p) = r * r / S |
| Shin.OnlySolution | src/betmaxxing/engine/margin.py:119-139 | nothing else non-negative does |
| Shin.StrictlyBetween | src/betmaxxing/engine/margin.py:119-139 | in a book worth more than one it lies strictly between 0 and 1 |
| Shin.FallsWithZ | src/betmaxxing/engine/margin.py:127-130 | each probability falls strictly as the informed fraction grows |
| Shin.RisesWithR | src/betmaxxing/engine/margin.py:119-139 | the order of the raw probabilities is kept |
| ShinBook.SumFalls | src/betmaxxing/engine/margin.py:127-130 | the sum over a book falls strictly in z |
| ShinBook.SumAtZero | src/betmaxxing/engine/margin.py:127-130 | at z = 0 the sum is above one for every book carrying margin |
| ShinBook.SumAtEnd | src/betmaxxing/engine/margin.py:141 | at z = 0.999999 it is below one for every accepted book, with no bound on the prices: the bracket the code assumes is always there |
| Devig.SearchZ | src/betmaxxing/engine/margin.py:141-151 | at every iteration the interval brackets the root; the result is within the tolerance in value, or the middle of a bracket as narrow as the last halving |
| Devig.MidBracketNearRoot | src/betmaxxing/engine/margin.py:141-151 | such a middle is closer to the root than the last width |
| Devig.OneRoot | src/betmaxxing/engine/margin.py:127-130 | there is at most one z at which the probabilities make one |
| Devig.RefusedExactly | src/betmaxxing/engine/margin.py:60-67 | a book is accepted exactly with two prices or more, each above one, whose reciprocals add up to between 0.95 and 1.60 |
| Devig.DevigShin | src/betmaxxing/engine/margin.py:119-154 | for every book not refused: a distribution with every entry in (0, 1), summing to one, in the order of the prices, and proportional to the solutions of the model's equation - written out on the prices - at one z the search may return; every price cut alike when there is no margin |
| Devig.ShinZ | src/betmaxxing/engine/margin.py:184-204 | the insider fraction reported is 0 for a book without margin and what the search finds for any other |
| Devig.DevigPower | src/betmaxxing/engine/margin.py:86-116 | fails to bracket exactly when the exponent lies outside the interval searched; otherwise a distribution in the order of the prices, proportional to one power of the reciprocals whose exponent is within the tolerance in value or in the middle of a bracket of the last width |
| Devig.PowerEnds | src/betmaxxing/engine/margin.py:100-103 | the exponent lies outside the interval exactly when the sum at 64, or at a millionth for a book below one, is on the wrong side of one |
| Devig.PowerFoundNearRoot | src/betmaxxing/engine/margin.py:104-113 | which is within the last width of the exponent that makes the powers one |
| Devig.DevigAdditive | src/betmaxxing/engine/margin.py:76-83 | refused exactly when some price is at most its share of the margin; otherwise a distribution in the order of the prices in which every reciprocal is lowered by the same amount |
| Devig.DevigMultiplicative | src/betmaxxing/engine/margin.py:70-73 | for every book not refused a distribution in the order of the prices in which every price is cut by the same factor |
| Devig.DevigBook | src/betmaxxing/engine/margin.py:165-181 | a refused book is refused whatever the method; otherwise the answer is what the method asked for keeps of the prices - cut alike, lowered alike, in the ratios of one power, or of the model's solutions at one z - or its own failure, exactly when it has one, and the last check never refuses |
| Football.NormaliserIgnoresRho | src/betmaxxing/models_ml/football.py:77-102 | the normaliser is that of independent scores whatever the correction, and positive: the degenerate case cannot happen |
| Football.PoissonWeights | src/betmaxxing/models_ml/football.py:57-61 | the weight of k + 1 goals is the rate over k + 1 times that of k, from exp(-rate) on |
| Football.RatesDecide | src/betmaxxing/models_ml/football.py:77-102 | a score matrix exists if and only if both rates are positive |
| Football.RowMarginal | src/betmaxxing/models_ml/football.py:64-98 | the correction leaves every row sum as it was |
| Football.ColumnMarginal | src/betmaxxing/models_ml/football.py:64-98 | and every column sum |
| Football.NonNegativeCells | src/betmaxxing/models_ml/football.py:64-74 | all cells are non-negative if and only if the four correction factors are |
| FootballMarkets.GoalsOfMatrix | src/betmaxxing/models_ml/football.py:77-102 | each side's goals are distributed as truncated independent Poisson counts |
| FootballMarkets.GoalsArePoisson | src/betmaxxing/models_ml/football.py:77-102 | on the matrix, one goal more is the rate over the number of goals times as likely, for either side and whatever the correction |
| FootballMarkets.GoalsIgnoreRho | src/betmaxxing/models_ml/football.py:77-102 | and so do not depend on the correction |
| FootballMarkets.MatrixIsOne | src/betmaxxing/models_ml/football.py:83-102 | the matrix is square and adds up to one |
| FootballMarkets.NonNegativeMatrix | src/betmaxxing/models_ml/football.py:64-102 | no cell of the normalised matrix is negative if and only if the four correction factors are not |
| FootballMarkets.NegativeDraw | src/betmaxxing/models_ml/football.py:64-102 | at rates 2 and 2 with a correction of 0.5 the goalless draw has a negative probability |
| FootballMarkets.OutcomeProbabilities | src/betmaxxing/models_ml/football.py:105-116 | the loops return the masses of home wins, draws and away wins |
| FootballMarkets.BetterSideWinsMore | src/betmaxxing/models_ml/football.py:64-116 | the home side is the likelier winner if and only if its rate is the higher one, whatever the correction |
| FootballMarkets.TotalGoalsProbabilities | src/betmaxxing/models_ml/football.py:119-135 | the loops return the masses over and under the line; lines within a billionth of a whole number are refused |
| FootballMarkets.MarketsAddUp | src/betmaxxing/models_ml/football.py:210-228 | home + draw + away = 1, over + under = 1, the three double chances make 2, and a draw-no-bet wins, pushes or loses |
| FootballMarkets.SwappedMatrix | src/betmaxxing/models_ml/football.py:77-135 | swapping the teams swaps home and away and leaves draws and totals |
| FootballMarkets.OverFallsWithTheLine | src/betmaxxing/models_ml/football.py:119-135 | without negative cells a higher line is never more likely to be passed |
| Identity.TheMapOnlyGrows | src/betmaxxing/ingestion/identity.py:253-620 | no resolution, decision or event overwrite ever removes or changes a mapping, forgets an event or rewrites history |
| Identity.OnceAttributedAlwaysAttributed | src/betmaxxing/ingestion/identity.py:276-284 | once mapped, a provider's id gets the same answer for every later usable request, whatever its kick-off and whatever happened in between |
| Identity.RequestsAloneStayInjective | src/betmaxxing/ingestion/identity.py:423-432 | resolutions alone never put two ids of one provider on one event |
| Identity.DecisionKeepsInjective | src/betmaxxing/ingestion/identity.py:597-614 | an operator's decision keeps that if and only if the chosen event carries no other id of the provider |
| Identity.DecidedOnce | src/betmaxxing/ingestion/identity.py:550-620 | a decision is taken if and only if the case is open, the event among its candidates and the id unmapped; it is recorded with its event, and a second one is refused |
| Identity.DecisionsCanCollide | src/betmaxxing/ingestion/identity.py:597-614 | a six-step run in which it is lost |
| Identity.ServiceRunsAreMirrored | src/betmaxxing/ingestion/identity.py:338-366 | over the service's own steps every id listed on an event is mapped to it, and every mapped event lists one |
| Identity.OrderlyRunsListTheirOwn | src/betmaxxing/ingestion/identity.py:338-366 | every id listed on an event is mapped to it, over any run of resolutions, decisions and overwrites of events under ids mapped to them |
| Identity.NoGuess | src/betmaxxing/ingestion/identity.py:22-31 | an answer carries an id exactly when it was mapped; an ambiguity leaves only its queue entry, a rejection nothing |
| Identity.AmbiguityIsQueued | src/betmaxxing/ingestion/identity.py:442-494 | an ambiguity opens a case with its candidates, or updates the candidates of an old one without reopening it |
| Identity.LinkedAsItStood | src/betmaxxing/ingestion/identity.py:338-366 | a matched event stays as it was but that it lists the provider's id, and the map gains that id |
| Identity.MoveIsRecorded | src/betmaxxing/ingestion/identity.py:368-394 | a mapped event takes the kick-off and status sent and keeps everything else, and the history gains where it stood and where it stands if and only if it moved |
| Identity.CreatedAsSent | src/betmaxxing/ingestion/identity.py:495-547 | a new event is what was sent, under an id never used, with one history entry |
| Identity.OnlyOnEverySignal | src/betmaxxing/ingestion/identity.py:396-440 | an id not seen before goes to, or is queued for, an event if and only if sport, participants, kick-off within six hours and every attribute both name agree and the provider has given it no other id; to it alone if no other event fits |
| Identity.HistoryTellsWhereEventsStand | src/betmaxxing/ingestion/identity.py:33-34 | over resolutions, decisions and overwrites in any order, the last history entry of every event is its current kick-off and status at every moment of the run, if and only if no overwrite changes the kick-off or status of the event it finds |
| Identity.OverwriteTold | src/betmaxxing/storage/repositories.py:40-61 | the batch writer's overwrite leaves the last history entries true if and only if it changes neither the kick-off nor the status of its event |
| Identity.ResolvedThenOverwritten | src/betmaxxing/ingestion/identity.py:276-317 | an event resolved and then overwritten with what was asked about stands where its history says, if and only if the request was not linked to an event standing at another kick-off or status |
| Identity.MovedSilently | src/betmaxxing/ingestion/identity.py:303-317 | a three-step run: an event is created, linked to a second provider an hour later, and overwritten with that hour; its whole history says otherwise |
| IdentityService.EventIdentityService.ResolveEvent | src/betmaxxing/ingestion/identity.py:253-335 | one resolution over the four tables, answer and new state |
| IdentityService.EventIdentityService.MatchCandidates | src/betmaxxing/ingestion/identity.py:396-440 | exactly the events every signal agrees on that this provider has not named yet |
| IdentityService.EventIdentityService.ResolveReview | src/betmaxxing/ingestion/identity.py:550-620 | each refusal with its reason and nothing written; otherwise the mapping and the closed review |
| SourceMapMigration.BackfillEventSourceMap | alembic/versions/b7c1e9d24a10_corrective_backfills_fencing_budget.py:169-217 | refuses exactly a contested column, whatever the order of rows; otherwise whatever the column lists under a non-empty provider and id is mapped, and nothing else is gained |
| SourceMapMigration.BackfillingTwice | alembic/versions/b7c1e9d24a10_corrective_backfills_fencing_budget.py:169-175 | a second backfill refuses nothing and adds nothing |
| SourceMapMigration.FoldMappingsBack | alembic/versions/b7c1e9d24a10_corrective_backfills_fencing_budget.py:241-288 | refuses exactly a contradicted column; otherwise every event's column gains what was mapped to it |
| SourceMapMigration.RoundTripKeepsTheMap | alembic/versions/b7c1e9d24a10_corrective_backfills_fencing_budget.py:241-252 | down and up again keeps every mapping if and only if no event carries two ids of one provider |
| SourceMapMigration.RoundTripIsExact | alembic/versions/b7c1e9d24a10_corrective_backfills_fencing_budget.py:241-252 | and gives back exactly the map if and only if, besides, the column claimed nothing unmapped |
| SourceMapMigration.DowngradeIsLossless | alembic/versions/b7c1e9d24a10_corrective_backfills_fencing_budget.py:241-252 | at any moment of any run of resolutions for named providers, decisions, and overwrites of events under ids mapped to them: neither direction refuses and exactly the map comes back, if and only if no event carries two ids of one provider |
| SourceMapMigration.DowngradeWithoutDecisions | alembic/versions/b7c1e9d24a10_corrective_backfills_fencing_budget.py:241-288 | and therefore always as long as no operator has decided a review |
| SourceMapMigration.CollisionIsLost | alembic/versions/b7c1e9d24a10_corrective_backfills_fencing_budget.py:241-288 | after the six-step run that puts two ids of one provider on one event, neither the fold nor the backfill refuses, and whatever is backfilled lacks one of the two ids |
| Acquisition.ResolveIdentity | src/betmaxxing/engine/acquisition.py:269-321 | the attributed events are, in order, exactly those whose resolution answered with an id, under that id; the others, in order, are exactly the ones reported; every price is kept or counted as dropped, and a kept price belongs to an attributed event of the batch |
| Acquisition.BatchWritesAreListed | src/betmaxxing/storage/repositories.py:40-61 | what a batch writes over an attributed event lists only ids mapped to it, for a provider that lists its own id only |
| Acquisition.JoinsOnlyItsLike | src/betmaxxing/engine/acquisition.py:248-267 | an event of a batch not seen before joins a known one only if what the provider sent agrees with it |
| Acquisition.StoredAsSent | src/betmaxxing/engine/acquisition.py:248-267 | a new event is stored as the batch will overwrite it, but for its ids; without an id or both names it is refused |
| Acquisition.OneFact | src/betmaxxing/domain/models.py:192-202 | two prices are one fact exactly when they agree on everything but the details |
| OddsStore.OddsRepository.Store | src/betmaxxing/storage/repositories.py:76-122 | adds exactly the fingerprints not yet stored, replaces nothing, and counts what it wrote |
| OddsStore.IncomingIsLast | src/betmaxxing/storage/repositories.py:76-122 | of the prices of one fingerprint in a batch the last one counts |
| OddsStore.AttributionIsStable | src/betmaxxing/engine/acquisition.py:248-297 | an event of a batch once attributed gets the same id in every later run of that batch, whatever happens in between |
| OddsStore.NameLeadsWhereItLed | src/betmaxxing/engine/acquisition.py:248-297 | what a name led to once it leads to in every later run of the batch, unless an event of that name was newly attributed - also when events share a name |
| OddsStore.ReplayAddsOnlyNewlyAttributed | src/betmaxxing/storage/repositories.py:76-122 | a price a replayed batch adds goes by the name of an event of the batch that was not attributed the first time and is the second |
| OddsStore.ReplayWritesNothing | src/betmaxxing/storage/repositories.py:76-122 | with every event attributed the first time it adds none |
| Montante.StakeWithinBank | src/betmaxxing/challenge/montante.py:200-207 | the stake is the nearest cent to the configured fraction of the bank, the upper one half way, and lies between nothing and the bank |
| Montante.SettlementPays | src/betmaxxing/challenge/montante.py:325-335 | a win pays the stake at the price to the nearest cent, a half win half the stake back and the other half at the price, a loss takes the stake and a half loss half of it, and a neutral outcome nothing |
| Montante.SettlementRange | src/betmaxxing/challenge/montante.py:325-335 | no outcome makes the bank negative; a win never lowers it, a half win by at most the odd cent, a loss never raises it, a neutral outcome leaves it |
| Montante.HalfWinCostsACent | src/betmaxxing/challenge/montante.py:327-329 | a half win lowers the bank if and only if the stake is odd and half of it earns less than half a cent, and then by one cent |
| Montante.HalfWinOnOneCent | src/betmaxxing/challenge/montante.py:327-329 | a half win on a stake of one cent loses it, at any price |
| Montante.LossNeverRaisesStake | src/betmaxxing/challenge/montante.py:12-14 | a losing settlement is never followed by a higher stake |
| Montante.RunsAreSound | src/betmaxxing/challenge/montante.py:246-379 | in every run: rungs numbered without gap and never more than allowed, each bank handed on to the next rung, settled rungs with the bank their outcome gives, the current bank what the rungs add up to, the state in line with them |
| Montante.StakesWithinBanks | src/betmaxxing/challenge/montante.py:200-207 | on every rung of every run the stake is the configured fraction of that rung's bank, within it |
| MontanteRuns.NoChasing | src/betmaxxing/challenge/montante.py:10-14 | a rung after a lost one exists only when the policy goes on, and stakes no more |
| MontanteRuns.OverIsOver | src/betmaxxing/challenge/montante.py:192-198 | once over, whatever is tried leaves bank, rungs and everything else as they are, except the label, which becomes that of the last `stop` or `cancel` tried |
| MontanteRuns.KeepsItsLabel | src/betmaxxing/challenge/montante.py:351-357 | a finished run stays exactly as it is if and only if the last `stop` or `cancel` tried on it, if there is one, sets the label it has |
| MontanteRuns.ReachedThenCancelled | src/betmaxxing/challenge/montante.py:355-357 | a run from its creation in four moves that reaches its target of 15 and, cancelled afterwards, ends as cancelled with the same bank |
| MontanteRuns.VoidUsesARung | src/betmaxxing/challenge/montante.py:43-44 | a neutral outcome leaves the bank but uses its rung, and ends the run on the last one |
| MontanteRuns.SettledOnce | src/betmaxxing/challenge/montante.py:313-349 | a run settles each rung at most once, and exactly the settled ones once |
| MontanteRuns.BankCentsFrom | alembic/versions/3ce123580afa_scheduler_ledger_event_identity_.py:102-130 | the reverse scan returns the last readable bank, else the configured one, else refuses |
| MontanteRuns.BankReconstructed | alembic/versions/3ce123580afa_scheduler_ledger_event_identity_.py:102-130 | for every Challenge a run can reach that is the current bank |
| ChallengeObject.Challenge.ProposeCandidate | src/betmaxxing/challenge/montante.py:252-282 | accepted exactly when waiting, below the last rung and within the rules, as a rung at the candidate's price; past the last rung the run is stopped and the call refused; each refusal with its reason |
| ChallengeObject.Challenge.SettleBet | src/betmaxxing/challenge/montante.py:313-349 | settles the last rung for all seven outcomes, paid at the price accepted to the nearest cent, and moves to the state the stop rules give, in their order; refuses outside its state |
| ChallengeObject.ProposeStep | src/betmaxxing/challenge/montante.py:422-443 | proposes the admitted candidate of the highest conservative value, the first of equals and one without a value last, and none exactly when not waiting or none is admitted |
| ChallengeStore.RungsRoundTrip | src/betmaxxing/challenge/repository.py:150-215 | saved over a row with no further rung, every rung loads as it was but for numbers that are zero |
| ChallengeStore.RoundTrip | src/betmaxxing/challenge/repository.py:95-123 | a challenge loads exactly as saved if and only if no rung has a probability or accepted price of zero |
| ChallengeStore.RunRoundTrip | src/betmaxxing/challenge/repository.py:95-123 | what a run leaves, saved and loaded, is as it was if and only if no rung quotes a probability of zero |
| ChallengeStore.ZeroIsLost | src/betmaxxing/challenge/repository.py:95-123 | a client proposes a candidate of probability zero and saves: its rung quotes the zero, the stored one loads without a probability |
| ChallengeStore.StoredIsSequential | src/betmaxxing/challenge/repository.py:150-215 | with any number of clients loading, moving and saving, what is stored is the outcome of one sequential list of moves, which only ever grows - up to the probabilities quoted on the rungs, of which a zero reads back as absent |
| ChallengeStore.NoRungSettledTwice | src/betmaxxing/challenge/repository.py:7-10 | in what is stored no rung was settled twice |
| ChallengeStore.OneSavePerVersion | src/betmaxxing/challenge/repository.py:173-193 | exactly one save succeeds for each version the row has left behind |
| ChallengeTable.ChallengeRepository.Load | src/betmaxxing/challenge/repository.py:150-171 | the stored rungs in index order with the version they were read at, or not found |
| ChallengeTable.ChallengeRepository.Save | src/betmaxxing/challenge/repository.py:173-215 | succeeds exactly when the version is the one read, and otherwise writes nothing |
| Books.Deduplicate | src/betmaxxing/ingestion/normalize.py:47-59 | keeps the first of each fingerprint, in order, and counts the rest |
| Books.FirstsAreFacts | src/betmaxxing/ingestion/normalize.py:47-59 | every fingerprint seen is kept, and none twice |
| Books.UsableExactly | src/betmaxxing/ingestion/normalize.py:77-91 | usable exactly when priced above one, seen by now and received after it was seen, with a line that is no whole number where totals are quoted; every reason is one that applies |
| Books.OneFact | src/betmaxxing/domain/models.py:192-202 | two snapshots are one fact only if they agree on everything but when they were received, on the price to a millionth |
| Books.LatestPerSelection | src/betmaxxing/ingestion/normalize.py:62-74 | holds exactly the newest snapshot of each selection, the first of equally new ones |
| Books.OnePriceEach | src/betmaxxing/ingestion/normalize.py:62-74 | every selection with a snapshot has one newest, and only one |
| Books.OneFate | src/betmaxxing/ingestion/normalize.py:94-133 | of the four fates every snapshot has the one its position, validity and age give it |
| Books.AssembleBooks | src/betmaxxing/ingestion/normalize.py:94-133 | the quarantine is, in order, exactly the first occurrences that fail validation, each with its reason; every snapshot is accounted for as exactly one of a repeat, quarantined for its reason, superseded by another of its selection, at least as new, in its book, or itself in a book; and a newest one is in exactly the book of its event, bookmaker, market, period and line |

## Left out

- `RoundTripKeepsTheMap`: for maps whose keys are not empty; an empty provider or id is skipped by the backfill, and the service never maps an empty id.
- `NormaliserIgnoresRho`: for matrices of at least two by two scores; the program always uses sixteen by sixteen.
- Floating-point rounding, display rounding and logarithms: the numbers are exact reals, and only the six-decimal rounding inside the calibration and the rounding to cents are kept.
- SQL, sessions, schema changes and the difference between database engines: a transaction is one step, so a compare-and-swap inside `ClaimRows` cannot lose.
- Threads, sleeping and backoff times: the lease guard's renewals are transactions like any other, and waiting between retries has no effect on the model.
- Time zones and daylight saving: instants are integer seconds and a day has 86400 of them.
- Hashes and random identifiers (`occurrence_id`, claim tokens, internal ids, fingerprints): they are their own contents or counters.
- Name normalisation, aliases and attribute folding: a request carries the keys they would give.
- `materialise`, event discovery, execution of a scan, notification and the outbox.
- `Tick`: other workers commit before every renewal and every verdict and inside a failure's two transactions; renewals come before the verdict, as the guard is left before it, and none is made after a refused one.
- `DowngradeIsLossless`: events are overwritten only under ids mapped to them, as a provider that lists its own id does (`BatchWritesAreListed`); the providers that exist do.
- `DeferredOnce`: for occurrences without a kick-off; an event milestone's deadline depends on a stored kick-off that can move.
- `Get`: the other workers' transactions are those that do not settle this client's reservations, which no worker but the client learns of.
- `BackfillEventSourceMap`: a column whose text is not a JSON object counts as an empty one.
- `FoldMappingsBack`: likewise; rows are folded in the order they are listed.
- `BankCentsFrom`: text is already parsed; the loop that fills the columns, and its quarantine policy, is left out.
- `AssembleBooks`: a book is a set of snapshots, so the order inside a book and among books is not modelled.
- `ProposeCandidate`: event and selection labels, risks and time stamps are not modelled.
- `Save`: time stamps and the stop reason are not modelled; deletion is left out, a deleted identifier is never reused.
- `TotalGamesProbabilities`: `lru_cache` and the sorted tuple the distribution is stored in are left out; a distribution is a map.
- Elo ratings, serve baselines by surface, expected goals from strengths, synthetic sample sizes and completeness factors.
- `estimate_remaining_steps` and `trajectory`: estimates shown to the user, which no transition reads.
- `effective_region_units` and `estimate_cost`: short arithmetic; a call's cost is an input.
- Explanations, quality scores, eligibility, staking, payoffs, configuration, the demo world and the web interface.
