# Covid-19 simulation scripts, modelled in Dafny

This project models the computational core of the Covid-19 simulation
scripts in `scripts/`. It covers:

- **The delay kernel** (`coronalib.py`, `infection_profile`). A gamma
  distribution is fitted to the mean and standard deviation of the
  generation time by moment matching (shape `gmean²/gsd²`, scale
  `gsd²/gmean`). It is sampled at whole days, and its first differences
  give the daily probability of a secondary infection. `sim` uses the same
  differences, reversed, over a 28-day window.
- **The day-stepped epidemic engine** (`coronalib.py`, `sim`). Each
  individual is in state 0 (not infected), 1 (immune), 2 (infected) or
  4 (dead); state 3 (identified) is counted but never assigned. Every day
  the engine:
  1. copies the previous row;
  2. applies background death (`ran < dr`);
  3. makes everyone alive whose first infection lies more than 27 days back
     immune;
  4. infects the not-infected with probability `r * newinf / n`, where
     `newinf` convolves the last 28 days of infections with the kernel;
  5. counts the states;
  6. rescales `r` to mean `cutr` once the infected count exceeds `cutdown`.

  The model is an imperative method over a two-dimensional state array. It
  is proved against a day-by-day specification, `IsRun`, whose invariants
  are proved as lemmas.
- **Age-band expansion** (`replicate_rows`, identical in
  `transform_stats.py` and `risk_factors.py`). Every row with an age band
  `[age_from, age_to]` becomes one row per age, in order. Each copy carries
  `age` and `nrep` (the band width).
- **Survival factors** (`transform_stats.py`, lines 42-52 and 60). This is
  per (gender, family status) group. Along the rows of the group, each row
  with `nrep > 1` gets the previous row's factor times `1 - deathrate` of
  the previous row. The chain does not restart at a new band: the first row
  of a band continues from the last row before it. Rows with `nrep <= 1`
  keep factor 1. The factors of all banded rows of the group together are
  then normalised to sum to 1, once per (gender, family status) group and
  not per band. The population portion is `cnt / sum(cnt)`.
- **Risk indices** (`risk_factors.py`, lines 76-85 and 98-101). Two
  indices, `deathrate * count` and `death_per_mio * count`, are each scaled
  to total 100000, with pandas' NaN-skipping sums. Rows without a count are
  dropped. The cumulative inhabitants and deaths along the rows sorted by
  the first index are computed.
- **The graph Monte Carlo** (`untitled1.py`, `sim`). In each of `nstep`
  steps, every edge whose endpoints differ infects both of them with
  probability `pedge`, judged against the state before the step. Then every
  node is infected from outside with probability `pout`. The per-node
  infection frequency is averaged over `ntrial` trials.

Random draws, the seeding indices of `np.random.choice` and scipy's gamma
CDF are inputs to the model. Reals stand for floating-point numbers.
pandas' NaN is `None` in an `Option`.

Files:

| file | module |
|---|---|
| `sums.dfy` | `Sums`: finite sums of reals |
| `results.dfy` | `Results`: `Result` and `Option` |
| `delay_kernel.dfy` | `DelayKernel` |
| `engine.dfy` | `Engine` |
| `replicate.dfy` | `Replicate` |
| `transform_stats.dfy` | `TransformStats` |
| `risk_factors.dfy` | `RiskFactors` |
| `graph_infection.dfy` | `GraphInfection` |

## Model

| member | source | states |
|---|---|---|
| DelayKernel.MomentMatch | scripts/coronalib.py:14-15 | The fit succeeds exactly when the mean and the deviation are both non-zero; a zero deviation is the error Python raises first. On success, shape·scale equals the mean and shape·scale² equals the variance. |
| DelayKernel.MomentIdentities | scripts/coronalib.py:99-100 | The shape and scale that `sim` computes have mean `gmean` and variance `gsd²`. |
| DelayKernel.Samples | scripts/coronalib.py:16-17 | One CDF value per day 0..nday, each the CDF at that day with the fitted shape and scale. |
| DelayKernel.InfectionProfile | scripts/coronalib.py:12-20 | Fails exactly when a moment is zero. Otherwise x, y and delay have nday+1 entries, x[k] = k, y is the sampled CDF and delay is its first differences. |
| DelayKernel.DifferencesTelescope | scripts/coronalib.py:18-19 | The daily probabilities add up to y[last] − y[0]. |
| DelayKernel.DifferencesNonNegative | scripts/coronalib.py:18-19 | A non-decreasing CDF gives non-negative daily probabilities. |
| DelayKernel.Differences | scripts/coronalib.py:18-19 | One entry per CDF sample; the entries are characterised by DifferencesTelescope and DifferencesNonNegative. |
| DelayKernel.ProfileMass | scripts/coronalib.py:12-20 | The profile's delays sum to F(nday) − F(0). For a monotone CDF they are non-negative, and for a monotone CDF with values in [0, 1] the sum lies in [0, 1]. |
| DelayKernel.SimKernelIsReversedProfile | scripts/coronalib.py:101-104 | Entry m of `sim`'s 28-entry kernel is the daily probability of lag 28 − m, so the kernel is the profile reversed. |
| DelayKernel.DotIsLagSum | scripts/coronalib.py:116-118 | The dot product of the last `lags` infection counts with the kernel tail is the sum over d = 1..lags of infections[i−d]·(F(d) − F(d−1)). |
| DelayKernel.ConvolutionIdentity | scripts/coronalib.py:116-118 | `newinf` on day i is the lag-weighted sum over the last min(i, 28) days. |
| DelayKernel.LagSumNonNegative | scripts/coronalib.py:116-118 | With non-negative counts and a non-decreasing CDF, each lag-weighted sum is non-negative. |
| DelayKernel.NewInfectionsNonNegative | scripts/coronalib.py:116-118 | The expected number of new infections is never negative. |
| Engine.Advance | scripts/coronalib.py:113-136 | One individual on one day: the states stay within {0, 1, 2, 4}, and the dead stay dead. A draw below `dr` kills, and an individual ends the day dead only if it was dead already or its draw was below `dr`. Nobody returns to state 0. A new infection happens exactly when the individual was not infected, survived, has its draw below `pinf` and is within the recovery window; it sets the first day to today. Someone alive who is past day 27 becomes immune, and immunity comes only from that rule. |
| Engine.Updates | scripts/coronalib.py:113-136 | Entry j is the day's update of individual j, computed from its own previous state, first day, draws and probability. |
| Engine.Count | scripts/coronalib.py:140 | A bin of `np.bincount` never exceeds the row length; CountsPartition relates the bins. |
| Engine.CountInfected | scripts/coronalib.py:138 | The day's infection count never exceeds the population; InfectionsAreTransitions states what it counts. |
| Engine.CountsPartition | scripts/coronalib.py:94-96 | With states from {0, 1, 2, 4}, the five per-state counts of a row add up to n, and state 3 is never counted. |
| Engine.InfectionsAreTransitions | scripts/coronalib.py:134-138 | The day's infection count equals the number of individuals going from state 0 to state 2. |
| Engine.Seeded | scripts/coronalib.py:90-92 | Day 0 has state 2 at exactly the seeded indices and 0 elsewhere; repeated indices are allowed, as `np.random.choice` draws with replacement. |
| Engine.SeedFirst | scripts/coronalib.py:108-109 | First-infection day is 0 for the seeded individuals and the sentinel 1000 for everyone else. |
| Engine.SeededCount | scripts/coronalib.py:107 | At most `ni` individuals are infected on day 0, fewer when seed indices repeat. |
| Engine.Rescale | scripts/coronalib.py:143 | The rescaled contact vector has one entry per individual; RescaleMean gives its mean. |
| Engine.RescaleMean | scripts/coronalib.py:143 | The rescaled contact vector has sum n·cutr and mean `cutr`. |
| Engine.RescaleSumNonZero | scripts/coronalib.py:143 | A non-zero `cutr` keeps the rescaled vector's sum non-zero, so the policy can apply again. |
| Engine.RescaleIdempotent | scripts/coronalib.py:142-145 | Rescaling an already rescaled vector leaves it unchanged. |
| Engine.InfectionProbabilities | scripts/coronalib.py:132 | One probability per individual; ExpectedInfections and ProbabilitiesNonNegative state what they add up to and their sign. |
| Engine.ProbabilitiesNonNegative | scripts/coronalib.py:132 | Non-negative contacts and a non-negative `newinf` give non-negative infection probabilities. |
| Engine.ExpectedInfections | scripts/coronalib.py:132 | Over the population, the infection probabilities add up to mean(r)·newinf. |
| Engine.NextR | scripts/coronalib.py:141-145 | After a day with more than `cutdown` infected, the next day's contact vector has mean `cutr`; otherwise it is unchanged. |
| Engine.RunInvariant | scripts/coronalib.py:111-136 | On every day of a run, every state is in {0, 1, 2, 4}. An infected individual is within 27 days of its first day, and an immune one is past them. |
| Engine.RunProperties | scripts/coronalib.py:89-140 | The run-level invariants. Each day's counts partition n and count no state 3. Dead is absorbing. Every state-0 individual was in state 0 the day before. Every 0 → 2 transition is stamped with that day. The day's infections are the 0 → 2 transitions, and there are at most as many as the previous day's uninfected. infections[0] ≤ ni. The sentinel never makes anyone immune on days up to 1027. An individual is dead on day k exactly when it was dead on day k − 1 or its draw of day k is below its `dr`. |
| Engine.RunDeaths | scripts/coronalib.py:113-124 | On every day of a run, the dead are exactly those dead the day before plus those whose draw falls below their mortality rate. |
| Engine.PolicySticks | scripts/coronalib.py:142-145 | Once a day exceeds `cutdown`, every later day uses the same rescaled vector, whatever later counts are. |
| Engine.IsRunExtend | scripts/coronalib.py:111-145 | Adding a day computed by the day rule to a run yields a longer run. |
| Engine.StepDay | scripts/coronalib.py:113-138 | The day's loop over individuals writes row i as the per-individual updates of row i − 1, updates `firstdayinfected` and returns the number of new infections. All other rows are unchanged. |
| Engine.WriteStates | scripts/coronalib.py:113-138 | Row i becomes the per-individual updates of the previous row, and the returned count is the number of new infections. All other rows are unchanged. |
| Engine.WriteFirsts | scripts/coronalib.py:136 | `firstdayinfected` becomes the per-individual first days: today for the newly infected, unchanged for everyone else. |
| Engine.Tally | scripts/coronalib.py:140 | Column i of `statesum` holds the count of each state in row i; the other columns are unchanged. |
| Engine.SeedInfected | scripts/coronalib.py:90-92 | Starting from zeros, row 0 becomes the seeded row. |
| Engine.InitialFirstDays | scripts/coronalib.py:106-109 | `firstdayinfected` is 0 where row 0 is infected and 1000 elsewhere. |
| Engine.StartRun | scripts/coronalib.py:89-109 | The allocated arrays mirror a one-day run: state row 0, its counts, infections[0] and the first days. |
| Engine.RunDay | scripts/coronalib.py:111-145 | One loop iteration extends the mirrored run by one day, including the policy update of `r`. |
| Engine.Transmit | scripts/coronalib.py:113-138 | The infection step of day i leaves the arrays mirroring a run one day longer, with the day's counts still to be filled in. |
| Engine.AdvanceDay | scripts/coronalib.py:116-138 | Computing `newinf` from the earlier daily counts and `pinf` from `r`, then running the day's transitions, makes row i and `firstdayinfected` exactly the day the day rule (`DayFollows`) derives from row i − 1. It also returns that day's new-infection count. No other row of the state matrix changes. |
| Engine.HoldsExtend | scripts/coronalib.py:111-138 | When the arrays hold the earlier rows and the counted columns, and the new row i extends the run, the arrays mirror a run of i + 1 days. |
| Engine.CountDay | scripts/coronalib.py:140 | Filling column i of `statesum` completes the mirrored run of i + 1 days. |
| Engine.Sim | scripts/coronalib.py:61-147 | The returned `state`, `statesum` and `infections` are those of a run satisfying the day-by-day specification. The kernel comes from the moment-matched CDF samples. `statesum[v, i]` counts state v on day i. |
| Replicate.BandOf | scripts/transform_stats.py:15 | A row yields a band exactly when both band columns are present and integral, with bounds taken from them. A missing `from` column is reported first. |
| Replicate.Replica | scripts/transform_stats.py:16-18 | A copy keeps every other column, sets `age` to the given age and sets `nrep` to to − from + 1. |
| Replicate.Replicas | scripts/transform_stats.py:15-19 | A row yields max(0, to − from + 1) copies, in ascending age. An empty band yields none. |
| Replicate.ExpandOk | scripts/transform_stats.py:10-21 | Expansion succeeds exactly when every row has a band. |
| Replicate.ExpandFirstError | scripts/transform_stats.py:10-21 | A failed expansion reports the error of the first row without a band; all earlier rows have one. |
| Replicate.ExpandLength | scripts/transform_stats.py:10-21 | The output has as many rows as the sum of the band widths. |
| Replicate.ExpandLayout | scripts/transform_stats.py:14-19 | Output row (sum of the earlier widths) + k is input row i's copy for age lo + k; the input order is kept. |
| Replicate.ExpandProvenance | scripts/risk_factors.py:10-21 | Every output row is a copy of some input row for an age inside that row's band. |
| Replicate.ExpandPropagates | scripts/risk_factors.py:14-19 | Rows after the first failing one do not change the outcome. |
| Replicate.ReplicateRows | scripts/transform_stats.py:10-21 | The nested loop produces exactly the expansion, or the first error. `new_col` is accepted and ignored, since the source always writes `age`. |
| TransformStats.Chain | scripts/transform_stats.py:47-50 | One factor per row of the group; ChainRule states the recurrence. |
| TransformStats.ChainRule | scripts/transform_stats.py:47-50 | The first factor is 1. A row with `nrep` ≤ 1 has factor 1. Otherwise factor[i] = factor[i−1]·(1 − deathrate[i−1]). |
| TransformStats.ChainBounds | scripts/transform_stats.py:47-50 | For death rates in [0, 1], every factor lies in [0, 1], and a banded row's factor is at most the factor of the row before it, also across band boundaries. |
| TransformStats.FactorsUnbanded | scripts/transform_stats.py:51 | Normalisation leaves rows with `nrep` ≤ 1 at factor 1. |
| TransformStats.FactorsNormalized | scripts/transform_stats.py:51 | When a group has a banded row, its banded factors sum to 1 after normalisation. |
| TransformStats.FillChain | scripts/transform_stats.py:47-50 | The loop fills a new array with the unnormalised factors. |
| TransformStats.BandedTotal | scripts/transform_stats.py:51 | The loop returns the sum of the entries whose `nrep` > 1. |
| TransformStats.DivideBanded | scripts/transform_stats.py:51 | Entries with `nrep` > 1 are divided by the total; the others are unchanged. |
| TransformStats.SurvivalFactors | scripts/transform_stats.py:45-51 | The group's factor array equals the normalised factors. |
| TransformStats.Members | scripts/transform_stats.py:44 | The selected row indices are exactly the rows of the given gender and family, in ascending order. |
| TransformStats.Unique | scripts/transform_stats.py:43 | The family values without repetitions: the same elements, each once. |
| TransformStats.SelectRows | scripts/transform_stats.py:44 | The loop returns exactly the group's row indices. |
| TransformStats.Scatter | scripts/transform_stats.py:52 | The k-th selected row receives the k-th value; unselected rows keep theirs. |
| TransformStats.WriteGroup | scripts/transform_stats.py:44-52 | The group's rows receive the group's normalised factors; every other row keeps its factor. |
| TransformStats.WrittenKept | scripts/transform_stats.py:42-52 | A group's written factors survive the writing of any other group. |
| TransformStats.FamilyFactors | scripts/transform_stats.py:40-52 | After the double loop, each (gender in m/f, family) group holds its own normalised factors, and rows of any other gender keep factor 1. |
| TransformStats.SumOf | scripts/transform_stats.py:60 | The loop returns `np.sum(cnt)`. |
| TransformStats.Portion | scripts/transform_stats.py:60 | Each portion is cnt[j] / sum(cnt), and the portions sum to 1. |
| RiskFactors.Put | scripts/risk_factors.py:76-84 | Writing a column changes that column only. |
| RiskFactors.Product | scripts/risk_factors.py:76-77 | The product is NaN exactly when a factor is NaN. |
| RiskFactors.DeathIndex | scripts/risk_factors.py:76-84 | An index is present exactly when the rate and the count are both present; it is their product scaled by 100000 over the NaN-skipping total. |
| RiskFactors.WriteProducts | scripts/risk_factors.py:76-77 | Every row's target column becomes `rate * count` (NaN when either is NaN); nothing else changes. |
| RiskFactors.NormalizeColumn | scripts/risk_factors.py:78-79 | Every row's target cell becomes the cell times 100000 over the column's NaN-skipping total; nothing else changes. |
| RiskFactors.DeathIndexTotal | scripts/risk_factors.py:78-79 | The NaN-skipping sum of the index column is exactly 100000. |
| RiskFactors.ColumnSum | scripts/risk_factors.py:79 | The loop returns the NaN-skipping sum of a column. |
| RiskFactors.ScaleIndex | scripts/risk_factors.py:76-79 | Every row's target column becomes its death index and nothing else changes; the column sums to 100000. |
| RiskFactors.DeathIndices | scripts/risk_factors.py:76-84 | `deaths_100k_index1` (from the long-term death rate) and `deaths_100k_index2` (from `death_per_mio`) are each the scaled index, and each sums to 100000. |
| RiskFactors.KeepCounted | scripts/risk_factors.py:85 | The kept rows are the rows with a count: each counted row occurs as often as in the input, rows without a count not at all. |
| RiskFactors.CountedAt | scripts/risk_factors.py:85 | The positions the mask selects: ascending, each holding a row with a count, and every such position listed. |
| RiskFactors.KeepCountedOrder | scripts/risk_factors.py:85 | The k-th kept row is the input row at the k-th selected position, so the filter keeps table order. |
| RiskFactors.KeepCountedSum | scripts/risk_factors.py:85 | Dropping the rows without a count leaves the NaN-skipping total of any column that is NaN wherever the count is. |
| RiskFactors.CountedIndexTotal | scripts/risk_factors.py:76-85 | After the index is computed, the kept rows still have an index-1 total of exactly 100000. |
| RiskFactors.ColumnPermutation | scripts/risk_factors.py:99 | Reordering the rows leaves every column's NaN-skipping total unchanged. |
| RiskFactors.RunningTotals | scripts/risk_factors.py:100-101 | One running total per entry, NaN exactly where the entry is NaN. |
| RiskFactors.RunningTotalsRise | scripts/risk_factors.py:100-101 | For non-negative entries the cumulative sums never decrease. |
| RiskFactors.RunningTotalsEnd | scripts/risk_factors.py:100-101 | The last present cumulative sum equals the NaN-skipping column total. |
| RiskFactors.CumSum | scripts/risk_factors.py:100-101 | The loop yields, at each present entry, the NaN-skipping sum up to and including it, and NaN at NaN entries. |
| RiskFactors.Curve | scripts/risk_factors.py:98-101 | Over the rows sorted by index 1, `inhab` and `deaths` are the cumulative sums. The last `inhab` is the total number of inhabitants. The last present `deaths` is the index-1 total of the kept rows, which CountedIndexTotal shows to be 100000. With non-negative indices, `deaths` is non-decreasing. |
| GraphInfection.SpreadChanges | scripts/untitled1.py:11-16 | After the edge pass, a node is 1 exactly when some edge with differing endpoints (in the snapshot) drew below `pedge` and touches it; every other node keeps its state. |
| GraphInfection.Spread | scripts/untitled1.py:11-16 | The edge pass gives one state per node; SpreadChanges characterises it. |
| GraphInfection.TouchedLast | scripts/untitled1.py:12-16 | A node is touched by the first m + 1 edges exactly when the first m touch it or the last edge is hit and ends at it. |
| GraphInfection.SelfLoop | scripts/untitled1.py:13 | A self-loop never infects. |
| GraphInfection.StepChanges | scripts/untitled1.py:11-18 | A step keeps states 0/1. A node is 1 afterwards exactly when it was 1, its outside draw is below `pout`, or an edge touches it. Both endpoints of a hit edge become 1. |
| GraphInfection.Step | scripts/untitled1.py:11-18 | A step gives one state per node; StepChanges characterises it. |
| GraphInfection.Run | scripts/untitled1.py:8-18 | A trial's state after k steps has one entry per node; RunMonotone states how it evolves. |
| GraphInfection.RunMonotone | scripts/untitled1.py:8-18 | A trial's states stay 0/1, and an infected node stays infected at every later step. |
| GraphInfection.NoInfection | scripts/untitled1.py:12-18 | With `pedge` = `pout` = 0 and non-negative draws, nobody is ever infected. |
| GraphInfection.NoOutbreak | scripts/untitled1.py:5-20 | With `pedge` = `pout` = 0 and non-negative draws, every frequency `sim` returns is 0. |
| GraphInfection.TotalsBounded | scripts/untitled1.py:6-19 | After t trials, each node's accumulated count lies in [0, t]. |
| GraphInfection.Copy | scripts/untitled1.py:11 | `statenew` is a new array equal to `state`. |
| GraphInfection.SpreadEdges | scripts/untitled1.py:11-16 | The loop over edges writes into `statenew` exactly the edge pass, reading the unchanged `state`. |
| GraphInfection.StepOnce | scripts/untitled1.py:11-18 | One step of a trial computes the specified step. |
| GraphInfection.Trial | scripts/untitled1.py:8-18 | A trial's final state is `nstep` steps from all zeros. |
| GraphInfection.AddInto | scripts/untitled1.py:19 | Each entry of `statesum` grows by the trial's final state of that node. |
| GraphInfection.Accumulate | scripts/untitled1.py:6-19 | After the loop over trials, `statesum` holds, per node, the sum of every trial's final states. |
| GraphInfection.Sim | scripts/untitled1.py:5-20 | Each returned frequency is the node's accumulated infections divided by `ntrial`, and lies in [0, 1]. |

DelayKernel.NewInfections, the expression for `newinf`, has no contract of its own: DelayKernel.ConvolutionIdentity and DelayKernel.NewInfectionsNonNegative state its properties.

## Left out

- `makeprofile_plot` (scripts/coronalib.py:23-58), the `statdef` labels, all plotting and image export, and the Excel and CSV input and output of the scripts.
- scipy's `gamma.cdf` is a parameter. Its monotonicity and range appear only as hypotheses of the lemmas that need them.
- Random numbers are inputs:
  - the per-day uniform vectors of `sim`;
  - the seed indices of `np.random.choice`;
  - the edge and outside draws of the graph simulation.
- GraphInfection.Sim takes one edge draw per edge and step. The source draws only for edges whose endpoints differ. The distribution of outcomes is the same, but the pairing of a given random stream with edges is not.
- Floating-point rounding, overflow and infinities: the model computes with exact reals.
- Engine.Sim: the `age` and `gender` arrays only give the population size n. The model takes n = |dr|, since the vectorised masks act per individual.
- Engine.Sim: `statesum` and `infections` are float arrays in the source and integers in the model.
- Engine.Sim requires `mean(r) != 0` and `cutr != 0`. This excludes runs that the source completes. With a zero-mean `r` the rescale at scripts/coronalib.py:143 divides by zero, but only if the infected count ever exceeds `cutdown`; otherwise the run ends normally. With `cutr = 0` the first rescale yields the zero vector, and only a second trigger divides 0 by 0.
- Engine.Sim requires `nday >= 1`, through Config.Valid. With `nday = 0` the source allocates a state matrix with no rows, and `state[0, …] = 2` (scripts/coronalib.py:92) raises IndexError. The model does not represent that error.
- Engine.Sim requires a non-empty population (`|dr| > 0`, through Config.Valid). With `n = 0` and `ni > 0`, `np.random.choice(0, ni)` (scripts/coronalib.py:92) raises ValueError; the model does not represent that error. With `n = 0` and `ni = 0` the source runs over empty arrays, and the model excludes that run.
- Engine.Sim takes the seed indices as an input. Their bound `0 <= seed < n` is what `np.random.choice(n, ni)` guarantees.
- DelayKernel.InfectionProfile takes `nday` as a natural number. In the source, `nday = -1` returns empty `x`, `y` and `delay` arrays, and `nday < -1` makes `np.linspace` raise ValueError (scripts/coronalib.py:16). Neither case is modelled.
- Engine.Sim requires `gmean != 0` and `gsd != 0`, where Python raises ZeroDivisionError; DelayKernel.MomentMatch models that error.
- The sentinel 1000 of `firstdayinfected` is modelled as written. Engine.RunProperties states its effect only for days up to 1027; after that, never-infected individuals would become immune, as in the source.
- TransformStats.SurvivalFactors requires a non-zero banded sum whenever a group has banded rows; numpy would divide by zero there.
- TransformStats.FamilyFactors works on the merged table as aligned columns. The pandas melt, groupby, merge with the life table and `cnt / nrep` (scripts/transform_stats.py:24-41) are not modelled.
- TransformStats: the `cnt * faktor` update, the printed summaries and the columns added after line 60 (scripts/transform_stats.py:55-68) are not modelled.
- TransformStats.Portion requires `sum(cnt) != 0`; numpy would produce NaN or infinity otherwise.
- RiskFactors.DeathIndex requires a non-zero NaN-skipping total, for the same reason.
- RiskFactors: reading the region table, deriving `age_to`, the merges and the groupby means (scripts/risk_factors.py:24-75) are not modelled.
- RiskFactors: the per-region aggregation `byregion` (scripts/risk_factors.py:87-96) is not modelled.
- RiskFactors.Curve takes the sorted table as an input that is a permutation of the kept rows, descending by index 1 with NaN last. pandas' `sort_values` algorithm and its tie order are not modelled.
- Replicate: in the source, `to_dict(orient="index")` raises ValueError when the index has duplicate labels. The model treats the rows as a list and does not raise. Building a DataFrame from the list of dicts is not modelled; rows are maps from column names to values.
- GraphInfection.Sim requires `ntrial > 0`; numpy would return NaN for zero trials.
- The module-level run of scripts/untitled1.py (lines 22-27), which builds a tree with igraph, and the other scripts (`italy.py`, `grafiken*.py`, `corona_sim.py`, `package/setup.py` and the rest) are not part of this model.
