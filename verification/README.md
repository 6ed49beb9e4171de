# Verified model of the research benchmark harness

A Dafny model of the evaluation and publication logic around the research agent, with proofs of what it promises.
Verify everything with `dafny verify dfyconfig.toml`.

Four parts are modelled.

- **Evaluation statistics.** Average ranks and Spearman correlation (`Ranks`, `Spearman`), ordinal Krippendorff alpha
  (`OrdinalAlpha`, `OrdinalRanks`), nDCG (`Ndcg`), interpolated percentiles (`Quantiles`), seed aggregation
  (`Aggregation`), task alignment (`Alignment`), the paired stratified bootstrap (`Bootstrap`) and joint Pareto draws (`Pareto`). Numbers are
  `real`. The log discount is any positive strictly increasing function of the rank; the random generator is any
  deterministic function of seed and shape whose draws stay in range.
- **Durable event stream.** The Last-Event-ID cursor (`Cursor`), the client's frame reader (`Frames`, after sections
  9.2.5 and 9.2.6 of the WHATWG HTML Living Standard), the append-only log (`EventLog`), and the interleaved steps of
  log, server loop, connection, reconnecting client, reader queue and session (`EventDelivery`,
  `DeliveryProgress`, `Wire`, `Showcase`). Sequence numbers are appended in increasing order within the stored range.
- **Immutable experiment records.** One unseeded group directory with raw records, requests, checkpoints, artifacts and
  receipt-binding sidecars (`ExperimentStore`), the summary's separate check of the sidecars (`ReplicationBindings`), the
  ranker runs over a shared candidate pool (`RankerPools`, `RankerOutcomes`) and the summary's coverage check
  (`Coverage`). What launcher and evaluator answer is arbitrary; a hash is represented by what was hashed.
- **Publication.** The multi-file promotion with rollback under an arbitrary fault schedule (`Publication`) and the
  no-replace publication of a dataset version sealed by a commit marker, with crashes at any point (`Finalization`).

Where the source changes things step by step, a method does the same steps and is proved against a specification
function or an order-free condition; the laws are lemmas about that function. `RealArithmetic`, `Sums`, `Sorting`,
`Sequences` and `Options` hold what several parts use.

## What the proofs found

- The consistency of the record store is not unconditional. A receipt that does not report completion, or whose manifest
  lies outside `artifacts/`, is bound before it is recorded, and its sidecar stays although the validator refuses it; and
  a launcher may change or remove the manifest of an earlier completed record. `RunOneConsistency` shows that these are
  exactly the calls that break consistency, and `OrphanPoisonsGroup` that right after one no completed record of the group
  is accepted for reuse; `IncompleteBreaks` and `OverwritingRefusesEarlier` give concrete calls. Later calls can make other
  records acceptable again (`ResumeRestoresOthers`), but a key with a second sidecar, or one without a completed record, is lost for good
  (`SpoiledForever`).
- In unseeded mode binding refuses every sidecar of another arm, not only a repeated receipt as the comment above the
  method says. The model follows the code: `SecondArmNeverCompletes` and `CompletedShareOneArm` state the consequence.
- A ranker call that is cut off before writing its first record lets a later call pay for the pool again
  (`CutOffCallPaysAgain`); `LaunchesExactly` counts the launches of every run by the guard of the launching branch.
- A reader can finish with an event undelivered when an interrupted run is resumed between the server's end of stream and
  the client's status request (`ResumedRunCanMissTheEnd`); `FinishedDelivered` says exactly when nothing is missing.
- nDCG can exceed 1 when a ranking repeats an id of positive grade among the first k (`RepetitionExceedsOne`); without
  such a repetition it never does (`UnitInterval`), and `UnitIntervalExactly` says which rankings never do under any discount.
- The coverage check does not require a protocol's budgets to be listed once, so the run count uses the number of
  different budgets (`AcceptedCount`).
- Rerunning a crashed `finalize` completes exactly when its inputs pass the checks and every file already published holds the new bytes
  (`CompletesExactlyWhenCompatible`); files of a different version block it for good (`ConflictIsPermanent`).

## Model

| member | source | states |
|---|---|---|
| `Ranks.AverageRanks` | benchmarks/evaluators/human.py:588-600 | The nested loops terminate and compute the counting ranks: each value ranks one half above the number of smaller values plus half the number of equal ones |
| `Ranks.WriteRank` | benchmarks/evaluators/human.py:597-598 | The inner loop gives one block of tied positions its rank and touches no other position, so the correctly ranked positions grow by the block |
| `Ranks.TieBlockRank` | benchmarks/evaluators/human.py:592-597 | A maximal block of ties at positions lo to hi of the sorted order has counting rank (lo + 1 + hi) / 2 |
| `Ranks.RankStrictlyMonotone` | benchmarks/evaluators/human.py:588-600 | A larger value has a strictly larger rank, for any mixture of ties |
| `Ranks.RanksTotal` | benchmarks/evaluators/human.py:588-600 | However many ties there are, the ranks of n values sum to n(n + 1)/2 |
| `Spearman.CauchySchwarz` | benchmarks/evaluators/human.py:610-612 | The Cauchy-Schwarz inequality for a list of pairs of reals, used with deviations from the mean rank |
| `Spearman.Bounded` | benchmarks/evaluators/human.py:603-615 | A reported coefficient has positive variances and numerator squared at most their product |
| `Spearman.QuotientInUnitInterval` | benchmarks/evaluators/human.py:615 | Whatever nonnegative square root the division uses, the coefficient lies in [-1, 1] |
| `Spearman.Symmetric` | benchmarks/evaluators/human.py:603-615 | Exchanging the inputs gives the same numerator, exchanges the variances and keeps definedness |
| `Spearman.Invariant` | benchmarks/evaluators/human.py:603-615 | Strictly increasing transforms of either input change nothing |
| `Spearman.RankVarianceZero` | benchmarks/evaluators/human.py:613 | Ranks have zero variance exactly when all values are tied |
| `Spearman.UndefinedExactlyOnTies` | benchmarks/evaluators/human.py:603-614 | For equal lengths of at least two the coefficient is missing exactly when one input is all ties |
| `Spearman.PerfectAgreement` | benchmarks/evaluators/human.py:603-615 | An input that is not all ties against a strictly increasing transform of itself has numerator equal to both variances, a coefficient of 1 |
| `Spearman.FromRankDifferences` | benchmarks/evaluators/human.py:603-615 | A reported coefficient in terms of the counting ranks: twice the numerator is the sum of the variances less the squared rank differences |
| `Spearman.ReversedInput` | benchmarks/evaluators/human.py:603-615 | A strictly decreasing transform of one input negates the numerator and keeps both variances and definedness |
| `Spearman.PerfectDisagreement` | benchmarks/evaluators/human.py:603-615 | An input that is not all ties against a strictly decreasing transform of itself has numerator minus both variances, a coefficient of -1 |
| `OrdinalAlpha.ExpectedOverPairs` | benchmarks/evaluators/human.py:567-572 | The sum over pairs of counter entries, with multiplicities, equals the sum over all pairs of pooled ratings |
| `OrdinalAlpha.CounterSum` | benchmarks/evaluators/human.py:546-572 | Summing a function over the counter with its counts is summing it over the values |
| `OrdinalAlpha.CumulativeIsCount` | benchmarks/evaluators/human.py:552 | The cumulative frequency between two categories counts the values between them |
| `OrdinalAlpha.DistanceSign` | benchmarks/evaluators/human.py:548-554 | The squared ordinal distance is nonnegative, and positive between different observed categories |
| `OrdinalAlpha.ObservedBound` | benchmarks/evaluators/human.py:559-567 | Observed disagreement never exceeds the disagreement over all pairs, and is zero exactly when every pairable unit is unanimous |
| `OrdinalAlpha.FallbackUnreached` | benchmarks/evaluators/human.py:574-576 | The 0.0 fallback is never taken: zero expected disagreement implies zero observed disagreement |
| `OrdinalAlpha.AlphaRange` | benchmarks/evaluators/human.py:533-577 | Over n pairable ratings 2 - n <= alpha <= 1, with alpha = 1 exactly when every pairable unit is unanimous |
| `OrdinalAlpha.AlphaMissing` | benchmarks/evaluators/human.py:543-546 | Alpha is missing exactly when no unit has two ratings |
| `OrdinalAlpha.RescalingInvariant` | benchmarks/evaluators/human.py:533-577 | Reordering ratings, renaming units and order-preserving or order-reversing relabelling of the categories, all together, leave alpha unchanged |
| `OrdinalAlpha.UnitOrderIrrelevant` | benchmarks/evaluators/human.py:533-577 | The order in which the units are listed does not matter |
| `OrdinalRanks.DistanceIsRankDistance` | benchmarks/evaluators/human.py:548-554 | The squared ordinal distance of any two categories is the squared difference of their average ranks among the pooled ratings |
| `OrdinalRanks.AlphaFromRanks` | benchmarks/evaluators/human.py:533-577 | Alpha from the average ranks and the unit sizes alone: one less n - 1 times the rank spread within units over the rank spread of all pairs |
| `Ndcg.DiscountedDominance` | benchmarks/evaluators/metrics.py:108-113 | Rearrangement: if every prefix of one gain list totals at least as much as that of another, a decreasing discount keeps it ahead |
| `Ndcg.PrefixDominated` | benchmarks/evaluators/metrics.py:116-121 | The first i grades of any ranking that repeats no id of positive grade, unknown ids counting zero, gain at most what the i best grades gain |
| `Ndcg.ObservedAtMostIdeal` | benchmarks/evaluators/metrics.py:116-121 | If every prefix of the observed gains is at most that prefix of the ideal gains, the observed DCG is at most the ideal DCG |
| `Ndcg.UnitInterval` | benchmarks/evaluators/metrics.py:116-121 | For grades 0 to 3 and k >= 0 the score exists, and it lies in [0, 1] whenever the first k ids repeat none of positive grade |
| `Ndcg.UnitIntervalExactly` | benchmarks/evaluators/metrics.py:108-121 | The score is at most 1 under every positive increasing discount exactly when every prefix of the observed gains is at most that prefix of the ideal gains |
| `Ndcg.IdealRankingScoresOne` | benchmarks/evaluators/metrics.py:116-121 | A grade-descending ranking of all graded ids scores 1 wherever the ideal DCG is positive, and 0 otherwise |
| `Ndcg.RepetitionExceedsOne` | benchmarks/evaluators/metrics.py:116-121 | A concrete ranking that repeats an id of positive grade scores above 1 |
| `Ndcg.ScoreFromGains` | benchmarks/evaluators/metrics.py:108-121 | For any descending arrangement of all grades, the score times the sum of (2^grade - 1) / log(rank + 1) over its first k is that sum over the first k ids; 0 without a positive ideal; refused exactly for k < 0 or a grade outside 0 to 3 |
| `Quantiles.QuantileMonotone` | benchmarks/evaluators/metrics.py:386-389 | A larger quantile gives a value at least as large |
| `Quantiles.QuantileBetween` | benchmarks/evaluators/statistics.py:241 | Bounds on every element bound every quantile |
| `Quantiles.QuantileExtremes` | benchmarks/evaluators/metrics.py:386-389 | Quantile 0 is the minimum and quantile 1 the maximum, both attained |
| `Quantiles.QuantilePermuted` | benchmarks/evaluators/metrics.py:386-389 | Quantiles do not depend on the order of the input |
| `Quantiles.QuantileNegated` | benchmarks/evaluators/statistics.py:241 | The q-quantile of the negated values is minus the (1 - q)-quantile of the values |
| `Quantiles.PercentileFacts` | benchmarks/evaluators/metrics.py:382-389 | The latency percentile is monotone in the quantile, between minimum and maximum, independent of order |
| `Quantiles.QuantileInterpolates` | benchmarks/evaluators/metrics.py:386-389 | At (n - 1)q = i + t the quantile is the mean of the i-th and next value in order, weighted 1 - t and t |
| `Quantiles.QuantileCoverage` | benchmarks/evaluators/statistics.py:241 | Fewer than (n - 1)q + 1 values lie below the q-quantile and more than (n - 1)q do not exceed it |
| `Aggregation.AggregateSeeds` | benchmarks/evaluators/statistics.py:98-150 | The table-filling loop and the sorted grouping compute the aggregation function, errors included |
| `Aggregation.Tabulate` | benchmarks/evaluators/statistics.py:103-128 | One pass reports the first failing check in order, or leaves the tables that grouping the records by key defines |
| `Aggregation.BuildRows` | benchmarks/evaluators/statistics.py:129-149 | The loop over the sorted groups yields the row of every key with its sorted values and mean |
| `Aggregation.AcceptedExactly` | benchmarks/evaluators/statistics.py:98-128 | Records are accepted exactly when an order-free condition holds: present metrics, distinct identities, one category per task, one version |
| `Aggregation.OrderIrrelevant` | benchmarks/evaluators/statistics.py:98-150 | Permuting the records changes neither acceptance nor the resulting rows |
| `Aggregation.RowsShape` | benchmarks/evaluators/statistics.py:129-149 | One row per occurring key, strictly increasing in (task, variant, budget), each holding one value per run |
| `Aggregation.RunsConserved` | benchmarks/evaluators/statistics.py:129-150 | The run counts add up to the number of records |
| `Aggregation.RowValues` | benchmarks/evaluators/statistics.py:129-149 | A row lists the values of exactly its key's runs, repeats first and by number; count times mean is their sum; its category is that of every record of the task |
| `Alignment.AlignTaskPairs` | benchmarks/evaluators/statistics.py:153-197 | Indexing, comparing and listing both sides computes the alignment function, errors in the order of the checks |
| `Alignment.IndexSide` | benchmarks/evaluators/statistics.py:165-181 | The indexing loop skips other budgets, refuses a repeated task key, and otherwise indexes exactly the selected rows |
| `Alignment.AlignedShape` | benchmarks/evaluators/statistics.py:182-197 | Accepted sides have equal length, the same task, category and order position by position, each a rearrangement of its selected rows |
| `Alignment.AlignedSwapped` | benchmarks/evaluators/statistics.py:153-197 | Exchanging the sides exchanges the result and keeps acceptance |
| `Alignment.AlignedPermuted` | benchmarks/evaluators/statistics.py:153-197 | The order in which the rows of either side arrive is irrelevant |
| `Alignment.AlignedExactly` | benchmarks/evaluators/statistics.py:153-197 | Sides are accepted exactly when, order aside, each has chosen rows of one variant with a task once, the tasks are the same, budget and metric are one, and every row has the category given for its task |
| `Bootstrap.StratifiedDraws` | benchmarks/evaluators/statistics.py:200-224 | Every resample has one entry per task row and, for each category, exactly the observed number of entries, all drawn from that category |
| `Bootstrap.SharedDraws` | benchmarks/evaluators/statistics.py:207 | The draws depend on the rows only through their categories, so paired sides share them |
| `Bootstrap.SwappedSides` | benchmarks/evaluators/statistics.py:227-245 | Exchanging the sides keeps acceptance, negates the estimate and maps (lower, upper) to (-upper, -lower) for the same seed |
| `Bootstrap.IntervalMirrored` | benchmarks/evaluators/statistics.py:237-245 | The interval of the negated differences is the mirrored interval, through index reuse, sorting and interpolation |
| `Bootstrap.IntervalWithinDifferences` | benchmarks/evaluators/statistics.py:227-245 | Every bound on the differences of selected rows about one task bounds lower <= upper and the estimate: smallest task difference <= lower <= upper <= largest |
| `Bootstrap.ReductionIsMirroredImprovement` | benchmarks/evaluators/statistics.py:261-289 | The reduction interval is exactly the mirrored improvement interval |
| `Bootstrap.ComparisonPermuted` | benchmarks/evaluators/statistics.py:261-289 | The order of the run records never reaches the interval |
| `Bootstrap.IntervalMeans` | benchmarks/evaluators/statistics.py:227-245 | The estimate is the difference of the sides' totals over the tasks; of n resample means, sums of drawn differences over the tasks, at most (n + 38)/40 lie below the lower bound and at least n/40 not above it, and likewise for the upper bound |
| `Bootstrap.DrawSelects` | benchmarks/evaluators/statistics.py:215-224 | Each entry of a resample is the row of its category that the generator's draw for that resample and column selects |
| `Pareto.DominanceStrict` | benchmarks/evaluators/pareto.py:37-42 | Dominance is irreflexive, asymmetric and transitive |
| `Pareto.SidesMatch` | benchmarks/evaluators/pareto.py:77-91 | The aligned tasks of the quality and the cost metric agree position by position, so one index draw serves both |
| `Pareto.OppositeProportions` | benchmarks/evaluators/pareto.py:105-120 | With shared draws the two opposite dominance proportions add up to at most 1, and not both sides dominate overall |
| `Pareto.UniformGainDominates` | benchmarks/evaluators/pareto.py:77-120 | For the plane computed from the records: strict quality gains on every task without any cost increase give dominance and proportion exactly 1 |
| `Pareto.PlaneFromSums` | benchmarks/evaluators/pareto.py:77-125 | The reported coordinates are the sides' totals over the tasks; the candidate dominates exactly when the points differ and it is no worse in either; the proportion counts the draws with no lower quality total, no higher cost total and not both equal |
| `Pareto.UniformMovementDecides` | benchmarks/evaluators/pareto.py:77-120 | No quality loss with every task saving cost gives dominance and proportion 1; every task losing quality or costing more gives no dominance and proportion 0 |
| `Pareto.AnalyzePareto` | benchmarks/evaluators/pareto.py:58-126 | The loop over the two planes returns both plane results in order, or rejects with the first rejected plane |
| `Cursor.ParseLastEventId` | apps/api/sse.py:47-58 | A missing header is 0, anything but a nonempty ASCII digit string is refused, and a digit string of any length gives its decimal value |
| `Cursor.ParseInChunks` | apps/api/sse.py:55-58 | The chunk loop with any positive chunk length refines the digit-by-digit decimal value |
| `Cursor.DecimalSplit` | apps/api/sse.py:57 | Splitting a numeral anywhere: the first part shifted past the second plus the second |
| `Cursor.PrintedParses` | apps/api/sse.py:28 | Parsing a printed sequence number returns it |
| `Cursor.LeadingZeros` | apps/api/sse.py:50-58 | Leading zeros do not change the cursor |
| `Frames.SseData` | apps/ui/api_client.py:106-117 | The reset-and-append loop yields exactly the payloads of the frames ended by a blank line |
| `Frames.DataFields` | apps/ui/api_client.py:113-116 | A line contributes v exactly if it is the bare field name with v empty, or the field name, a colon, at most one dropped space, and v |
| `Frames.RoundTrip` | apps/ui/api_client.py:106-117 | Reading a complete written stream gives back exactly the payloads, comments ignored |
| `Frames.CutStream` | apps/ui/api_client.py:106-117 | A stream cut anywhere, even inside a line, delivers the payloads of the frames whose blank line arrived, a prefix of what was sent |
| `Wire.CutIsDrop` | apps/ui/api_client.py:197-198 | However the bytes of a connection are cut off, the payloads read are those of the first events on the wire: the delivery model's drop step |
| `EventLog.AfterIsBetween` | apps/api/sse.py:75-80 | What the store lists after the clamped cursor is the slice of the log after the cursor |
| `EventDelivery.ServeKeeps` | apps/api/sse.py:72-99 | One turn of the server loop keeps what was sent equal to the slice from start to cursor; any new frame is the very next event |
| `EventDelivery.StepKeeps` | apps/ui/api_client.py:184-220 | Every step of server, connection, client, reader queue and session keeps the delivery invariant |
| `EventDelivery.RunKeeps` | apps/ui/api_client.py:178-220 | The delivery invariant holds after every interleaving of steps |
| `EventDelivery.ShownIsPrefix` | apps/ui/replay.py:272-324 | In every run the shown events are a gap-free, duplicate-free, increasing prefix of the log up to the session cursor |
| `EventDelivery.ResumesWithoutGap` | apps/ui/api_client.py:98-104 | At any point of any run, draining and listing after the client cursor gives everything after the start: the exhausted cursor resumes without gap or overlap |
| `EventDelivery.ServerEofIsComplete` | apps/api/sse.py:85-94 | At end of stream the server has sent exactly the events after the header cursor that the log held at its final check |
| `EventDelivery.FinishedDelivered` | apps/ui/api_client.py:208-211 | A finished reader has delivered what the log held at the end of stream; nothing is missing exactly when no later event lies beyond the start |
| `EventDelivery.SettledServerSendsAll` | apps/api/sse.py:85-91 | If no event is committed after the terminal status, a server that ended the stream has sent every event after the header cursor |
| `EventDelivery.SettledRunDeliversAll` | apps/ui/api_client.py:208-211 | Under the same condition a finished reader has delivered every event after the starting cursor |
| `EventDelivery.ResumedRunCanMissTheEnd` | apps/ui/api_client.py:208-211 | Without that condition a concrete run finishes with an event undelivered |
| `DeliveryProgress.EveryScheduleDelivers` | apps/ui/api_client.py:184-220 | On a terminal run, after any past, every schedule of connecting, server turns, receiving and an answered status request is of bounded length and can only end with the reader finished and everything after the start shown |
| `DeliveryProgress.GivesUpAfterSix` | apps/ui/api_client.py:184-220 | In every run the reader has given up exactly when six attempts have failed since it was last started |
| `Showcase.ShowsOwnRunOnly` | apps/ui/replay.py:245-324 | Over any actions of the user, the reader threads and the status requests: all events shown or queued and all statuses are of the run last accepted, the shown events in increasing order up to the cursor |
| `Showcase.RetriesIdentical` | apps/ui/replay.py:250-260 | Over any actions, a request whose reply did not settle it is the very next request sent, payload and key unchanged |
| `Showcase.TakenIsDrained` | apps/ui/replay.py:315-324 | Taking the queue, errors aside, is the draining of the delivery model |
| `Showcase.ForcedUntilAnswered` | apps/ui/replay.py:207-212 | A forced refresh stays forced through any number of failures, until a status answers it |
| `Showcase.ShowcaseSession.Deliver` | apps/ui/replay.py:284-285 | The reader appends its event to the delivery queue and nothing else changes |
| `Showcase.ShowcaseSession.ReaderEnds` | apps/ui/replay.py:286-289 | The reader reports an error if it has one, sets its finished flag and is no longer watched |
| `Showcase.ShowcaseSession.Drain` | apps/ui/replay.py:294-340 | Draining empties both queues, shows exactly the newer events in order, and notes the end of the reader once no status request runs, then forcing a refresh unless an error is shown or the run is over |
| `Showcase.ShowcaseSession.Refresh` | apps/ui/replay.py:214-239 | A status request starts exactly when polling is allowed and due and none is running |
| `Showcase.ShowcaseSession.Watch` | apps/ui/replay.py:272-292 | Watching starts a reader from the drained cursor, or does nothing when closed, without a run or already watching |
| `Showcase.ShowcaseSession.Submit` | apps/ui/replay.py:245-270 | Refused while a reader or a status request runs; only an answer settles a pending request: acceptance resets the page, a refusal below 500 forgets it, anything else keeps the same request for retry |
| `ExperimentStore.Runner.Bind` | experiments/runner.py:660-767 | A sidecar is added exactly when no sidecar of another arm, none with the receipt and none under the request exists |
| `ExperimentStore.Runner.RemoveBinding` | experiments/runner.py:959-996 | A matching sidecar is removed, a missing one ignored, a different one refused |
| `ExperimentStore.Runner.Record` | experiments/runner.py:1324-1340 | It raises exactly for a completed record; otherwise the run is stored; no other record and no completed record changes |
| `ExperimentStore.Runner.ScanSidecars` | experiments/runner.py:818-941 | The pass over the sidecars, in any listing order, accepts exactly when each is consistent and no receipt repeats |
| `ExperimentStore.Runner.ValidateExisting` | experiments/runner.py:769-957 | The reuse validator decides the order-free acceptance condition |
| `ExperimentStore.Runner.Execute` | experiments/runner.py:1451-1677 | One call on the directory does exactly what the call function says, on every branch |
| `ExperimentStore.Runner.LaunchAndRecord` | experiments/runner.py:1575-1677 | From launch to record: failure codes, binding, retirement and recording on every branch |
| `ExperimentStore.CallAnswers` | experiments/runner.py:1451-1677 | For an unfinished key: exactly when a call raises, and which first failed guard gives which error code, NoError only when none fails |
| `ExperimentStore.CompletesExactly` | experiments/runner.py:1019-1096 | A call on an unfinished key returns and stores a completed record if and only if every guard holds, each written out on the call and the group; the record carries the manifest's numbers |
| `ExperimentStore.CompletedAnswers` | experiments/runner.py:1485-1526 | A call on a completed key changes nothing, and returns the record exactly if it may be reused |
| `ExperimentStore.NewSidecar` | experiments/runner.py:818-941 | A freshly bound sidecar passes its own validator exactly for a completed receipt whose manifest lies directly under artifacts/ |
| `ExperimentStore.PromotionKeeps` | experiments/runner.py:1098-1112 | Binding and recording such a receipt keeps the group consistent; any other leaves a sidecar the validator refuses |
| `ExperimentStore.RejectionLeavesNoOrphan` | experiments/runner.py:1313-1323 | A call whose evaluator rejects leaves the sidecars of any group, consistent or not, exactly as they were |
| `ExperimentStore.RunOneConsistency` | experiments/runner.py:1451-1677 | One call keeps a consistent group consistent if and only if its launcher leaves the manifests of completed records as they were and it promotes no receipt that is incomplete or keeps its manifest elsewhere |
| `ExperimentStore.BindingBijection` | experiments/runner.py:769-957 | Over any calls that leave completed manifests alone and promote only completed receipts with manifests under artifacts/: one sidecar per completed record and none besides, as many sidecars as completed records, no receipt bound twice, every completed record accepted for reuse |
| `ExperimentStore.OrphanPoisonsGroup` | experiments/runner.py:769-957 | Right after any other call the validator refuses every record of the group |
| `ExperimentStore.SpoiledForever` | experiments/runner.py:944-955 | A key with a sidecar but no completed record, or with two sidecars, stays so and is never accepted for reuse, whatever calls follow in whatever group |
| `ExperimentStore.IncompleteBreaks` | experiments/runner.py:1098-1112 | An incomplete receipt in an empty group is bound and recorded as a failure: its key is spoiled |
| `ExperimentStore.ResumeRestoresOthers` | experiments/runner.py:769-957 | Resuming that attempt to completion makes another record accepted again, while the spoiled key stays refused |
| `ExperimentStore.OverwritingRefusesEarlier` | experiments/runner.py:864-896 | A second repeat whose launcher overwrites the first repeat's manifest, with a benign receipt, makes the first record refused |
| `ExperimentStore.CompletedShareOneArm` | experiments/runner.py:756-763 | After any calls, all completed records of an unseeded group are repeats of a single arm |
| `ExperimentStore.SecondArmNeverCompletes` | experiments/runner.py:756-763 | After any calls, once one arm has a completed record, a call for another arm never completes, whatever its launcher and evaluator do |
| `ExperimentStore.CompletedImmutable` | experiments/runner.py:1336-1339 | No call changes a completed record, in any group |
| `ExperimentStore.CompletedForever` | experiments/runner.py:1336-1339 | No sequence of calls changes a completed record |
| `ReplicationBindings.LoadReplicationBindings` | experiments/summarize.py:156-323 | The summary accepts exactly under an order-free condition; the rows, in listing order, are then in bijection with the completed runs, with distinct receipts and exactly one request file each |
| `ReplicationBindings.MatchSidecars` | experiments/summarize.py:200-312 | The pass over the sidecars decides consistency, distinct matches and distinct receipts, and collects the matched indices |
| `ReplicationBindings.AcceptedCount` | experiments/summarize.py:316-322 | An accepted summary has exactly as many sidecars as completed runs |
| `ReplicationBindings.AcceptedRunsDistinct` | experiments/summarize.py:313-322 | Although only the first matching run is compared, no two completed runs of an accepted summary share a key |
| `ReplicationBindings.SidecarChecksAgree` | experiments/summarize.py:200-312 | Over the raw records, the summary and the runner accept the same individual sidecars |
| `ReplicationBindings.CheckersAgree` | experiments/summarize.py:156-323 | With a completed record present, the summary accepts exactly when the runner would accept every completed record for reuse |
| `ReplicationBindings.BenignGroupSummarizes` | experiments/summarize.py:156-323 | Every group built by benign calls is accepted by the summary |
| `RankerPools.RankerRunner.SetUpPool` | experiments/runner.py:1684-1902 | It launches exactly when neither file exists and the request is staged, and then once; a pool is reported only if both files hold it; existing files and other tasks are untouched |
| `RankerPools.RankerRunner.RecordPoolFailure` | experiments/runner.py:1904-1956 | No existing record or audit changes; a missing record is added as a failure, a completed one gains its audit, and nothing completed is returned |
| `RankerPools.RankerRunner.RunAllArms` | experiments/runner.py:2033-2048 | The loop over the arms runs each with the pool hash and stops at the first that raises |
| `RankerPools.RankerRunner.RunTask` | experiments/runner.py:1969-2048 | One task: the guard on earlier attempts, then pool setup, then the arms or their failures |
| `RankerPools.RankerRunner.RunVariants` | experiments/runner.py:1958-2053 | A ranker call does its tasks in order up to the first that raises |
| `RankerPools.RankerCallIsRun` | experiments/runner.py:1969-2048 | A ranker call is a run of task steps: all of them, or those up to the one that raised |
| `RankerPools.RecordsGrow` | experiments/runner.py:1937-1956 | No run of ranker calls ever changes an existing record, completed or failed |
| `RankerPools.LaunchesExactly` | experiments/runner.py:1982-2015 | In any run, cut off or not, setup launches for a task exactly as often as a step finds it without a record and without either file and stages its request |
| `RankerPools.PaidOnceExactlyWhen` | experiments/runner.py:2006-2015 | Setup is paid at most once exactly when at most one step meets that guard |
| `RankerPools.SetupPaidOnce` | experiments/runner.py:2010-2015 | If calls end through the program's own paths, setup launches at most once per task, whichever pool files vanish in between |
| `RankerPools.CutOffCallPaysAgain` | experiments/runner.py:2010-2015 | A call cut off before its first record followed by loss of the files pays twice |
| `RankerPools.CompletedShareOnePool` | experiments/runner.py:1698-1787 | In every run all completed ranker records of a task carry one pool hash |
| `RankerPools.LostPoolNeverCompletes` | experiments/runner.py:2006-2015 | Once an attempted task lost a pool file, setup never launches again and none of its arms is ever completed |
| `RankerPools.LostPoolReports` | experiments/runner.py:1904-1956 | In every reachable store: without a pool a task never raises, every arm reports a failure, and every completed record stays with an audit beside it |
| `RankerPools.PoolReports` | experiments/runner.py:2033-2048 | In every reachable store: with a pool, a task that does not raise reports the records of all arms in order |
| `RankerPools.StepRaisesWhen` | experiments/runner.py:2033-2048 | In every reachable store: with a pool, a task raises exactly when one of its arms failed earlier, is not reusable, or is cut off |
| `RankerPools.ArmIsOneCall` | experiments/runner.py:1485-1526 | An arm of a ranker call changes the records exactly as one call of the record store without resume does |
| `RankerOutcomes.ArmsListed` | experiments/runner.py:2033-2048 | The arms are the three ranker variants at every replication, each once, variant by variant |
| `RankerOutcomes.PoolExactly` | experiments/runner.py:1982-2015 | A task gets a pool exactly if both files are there, agree and pass the checks, or it is untouched and a launch answers an accepted pool that both files take; what is written in each case |
| `RankerOutcomes.StepExactly` | experiments/runner.py:1969-2048 | In every reachable store: without a pool every arm's record and audit; with one the arm it stops at, every record written and every run returned |
| `RankerOutcomes.CallsContinue` | experiments/runner.py:2033-2053 | A ranker call over more tasks is the call over the first ones continued by the call over the others, runs in the order of the tasks; a call that raises returns none |
| `RankerOutcomes.OneTaskCall` | experiments/runner.py:2033-2053 | A ranker call over one task is the step of that task |
| `Coverage.ValidateCoverage` | experiments/summarize.py:901-1037 | Accepts exactly when the metadata is well formed and the runs have distinct identities that together are the sealed product |
| `Coverage.CollectIdentities` | experiments/summarize.py:986-1021 | The pass over the runs accepts exactly when each passes its checks and no identity repeats |
| `Coverage.CheckTask` | experiments/summarize.py:1023-1029 | The inner loops decide that all variants, budgets and replications of a task are present |
| `Coverage.CheckProtocol` | experiments/summarize.py:1022-1029 | The loops of one protocol decide that its whole product is present |
| `Coverage.CheckSensitivity` | experiments/summarize.py:1030-1037 | The loops over the cost subset decide that all further budgets of variant D are present |
| `Coverage.RunCoveredIsSealed` | experiments/summarize.py:987-1008 | A run passes the chain of checks exactly when its identity is in the sealed product |
| `Coverage.ProductsDisjoint` | experiments/summarize.py:1022-1037 | The four protocol products and the sensitivity product share no identity |
| `Coverage.AcceptedCount` | experiments/summarize.py:901-1037 | The accepted run count is the closed-form sum of products, budgets counted without repetition |
| `Coverage.SealedAcceptable` | experiments/summarize.py:901-1037 | For all well-formed metadata some list of runs is accepted |
| `Coverage.EveryRunNeeded` | experiments/summarize.py:1022-1037 | Leaving out any run of an accepted list is refused |
| `Coverage.OrderIrrelevant` | experiments/summarize.py:986-1021 | The order of the runs does not matter |
| `Publication.Documents.Promote` | scripts/release_c_gate.py:449-497 | Under any fault schedule: normal return has every target staged; a reported failure leaves every target as it was; an incomplete rollback keeps the original bytes of each stuck target in the rollback area; which of these it is, and which targets are stuck, follows from the operations that fail |
| `Publication.Documents.Prepare` | scripts/release_c_gate.py:459-473 | It fails exactly if one of its operations fails and changes no target; success copies every source and backs up exactly the existing targets |
| `Publication.Documents.ReplaceAll` | scripts/release_c_gate.py:475-479 | Replacing in order reports the prefix of targets replaced, up to the first replacement that fails |
| `Publication.Documents.Undo` | scripts/release_c_gate.py:481-490 | Undoing from the last to the first restores every promoted target but those whose turn fails |
| `Publication.CleanTree` | scripts/release_c_gate.py:495-496 | A tree with no dirty target is the original tree |
| `Finalization.Dataset.PublishFile` | benchmarks/datasets/builder.py:65-76 | Equal bytes are accepted, different bytes refused, a free place filled; nothing is replaced |
| `Finalization.Dataset.Finalize` | benchmarks/datasets/builder.py:427-525 | The checks, publication loop and commit do what the attempt function says, dying at any publication |
| `Finalization.NeverReplaced` | benchmarks/datasets/builder.py:65-76 | Over any attempts, inputs and crashes, a published file keeps its bytes |
| `Finalization.SealedForever` | benchmarks/datasets/builder.py:431-446 | Once the commit marker exists the whole tree is fixed forever |
| `Finalization.CommitSealsVersion` | benchmarks/datasets/builder.py:512-525 | A marker means every runtime file and manifest holds the bytes of the marker's version, now and after any further attempts |
| `Finalization.CommittedMeans` | benchmarks/datasets/builder.py:512-525 | A committed attempt had inputs that pass the checks, met nothing different and leaves its version complete |
| `Finalization.CompletesExactlyWhenCompatible` | benchmarks/datasets/builder.py:427-525 | In any reachable uncommitted tree an attempt that does not die commits exactly when its inputs pass the checks and every published file already holds its version's bytes |
| `Finalization.ConflictIsPermanent` | benchmarks/datasets/builder.py:427-430 | A file of another version at one target locks a version out for good |
| `Finalization.CrashesAreRecoverable` | benchmarks/datasets/builder.py:512-525 | However often the same inputs crashed uncommitted, one more attempt with them commits |
| `Finalization.OutcomeExactly` | benchmarks/datasets/builder.py:427-525 | In every reachable tree which answer an attempt that does not die gives, by the inputs and the published files |
| `Finalization.RefusalChangesNothing` | benchmarks/datasets/builder.py:427-525 | A refused attempt leaves a reachable tree as it was |
| `Finalization.DyingLeavesPrefix` | benchmarks/datasets/builder.py:512-525 | A compatible attempt that dies after k publications has added exactly the missing ones of the first k targets, with its version's bytes |

## Left out

- Floating-point rounding, `fsum`, overflow and non-finite inputs: all formulas are over reals.
- Square roots: a Spearman result carries numerator and both variances, and the quotient bound is proved for any root.
- Numpy and its generator: draws are an arbitrary deterministic function of seed, shape and bounds.
- The majority preference and the other tables of `summarize_human_ratings`: sums and counts over one pass.
- `recall_at_k`, reciprocal rank, the non-inferiority margin and preset comparisons: true on reading.
- Pydantic and JSON parsing, canonical bytes and SHA-256: records are well typed, encodings and hashes injective.
- Malformed sidecar, setup and metadata files: a sidecar has its schema; coverage metadata is typed, with unknown names kept as such.
- Symbolic links, path containment, `fsync`, temporary files of an immutable write and operating-system locks.
- `RankerPools.RankerRunner.SetUpPool`: the checks of an existing pair beyond the hash comparison, and those of a launcher's answer, are each one arbitrary verdict; the launcher does not write into the pool directories.
- `RankerPools.RankerRunner.RunTask`: the nested loops over variants and replications run over the list of arms in that order.
- `RankerPools.SetupPaidOnce`: speaks of runs of ranker calls and vanishing files; a separate call with `resume` chooses its own pool hash and is not one of the steps.
- `ExperimentStore.Runner.Execute`: the budget is the group's preset, and a seeded group, which keeps no sidecars, is not modelled there; input and output errors of the directory itself are not modelled. A launcher leaves arbitrary artifacts, but does not write raw records, requests or sidecars.
- `ExperimentStore.Runner.LaunchAndRecord`: the component, configuration, code and result checks are one arbitrary verdict; the evaluator does not change artifacts, so the recheck before recording repeats the first one.
- `Alignment.AlignTaskPairs`: categories are the known task categories; a mapping to any other string is not modelled.
- `EventDelivery.RunKeeps`: timing, backoff and heartbeat frames are left out; the store's per-owner check and redaction do not appear.
- `Showcase.ShowcaseSession.Refresh`: whether a status request is due is a parameter, deadlines and backoff times are not modelled; a view is only its run and whether that is active; stopping ends the stream as a step of the delivery model; downloads and capabilities are left out.
- `Publication.Documents.Promote`: the fixed tuple of files is any list without repetition; the checks before the plan is made are reduced to the missing source; a copy and the directory made for it are one operation.
- `Finalization.Dataset.Finalize`: staging directories and their cleanup are not modelled; the validator is a function of the inputs and the published contents.
- Blind packets, redaction, routes, command-line commands, the user interface and the agent itself are not part of this model.
