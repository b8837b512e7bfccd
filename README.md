# Network-defence simulation: a Dafny model

The system simulates synthetic attacks against a three-stage defence:

- A firewall that only acts on DDoS attacks.
- An intrusion detection system (IDS) that adds a normally distributed latency and then detects the attack or misses it.
- An intrusion prevention system (IPS) that adds a latency floored at zero and then blocks the attack or lets it through.

Every random decision comes from one linear congruential generator (LCG). A run builds that generator from the fixed seed 12345 and draws from it in a fixed order. The run counts the attacks blocked by the firewall, detected by the IDS, blocked by the IPS and successful, and it lists the latency of each successful attack.

On top of single runs, an experiment harness:

- summarises samples with the population mean, standard deviation and variance, and a normal-approximation 95% confidence interval;
- sweeps one parameter over candidate values;
- runs a grid search whose evaluations complete in any order and which keeps the first strictly lowest mean number of successful attacks.

The project has five modules:

- `Random` (`lcg.dfy`) holds the recurrence, its closed form and the generator class `Lcg`.
- `Stats` (`stats.dfy`) holds `calculate_stats` and `confidence_interval`.
- `Model` (`model.dfy`) holds the per-stage decisions read off the generator's stream, the stage classes, one event as a method, and `simulate` as a loop.
- `Analysis` (`analysis.dfy`) holds `run_simulation_multiple_times` and `run_experiments`.
- `GridSearch` (`grid.dfy`) holds the combinations, the completion order and `run_grid_search`.

Each loop-based operation is a method proved equal to a recursive specification function. The properties are proved about those functions.

A stage that reads the generator is specified at a stream position `at`, which counts the values drawn before the stage starts. `DrawAt(seed, i)` is the value the (i+1)-th call of `next` returns. Each method ensures that its result is the specification at the generator's old call count.

`math.log(u1)` is taken unguarded, so a first uniform value of 0 raises `ValueError`. The model carries a `Result` whose only error is `MathDomainError`, and a failing stage fails the whole run, sweep or search, as the exception does.

The operations are defined by these specification functions:

- Generator stages, in `lab3-4/model.py`:
  - `Model.GenerateSpec`: `generate`, lines 26-31.
  - `Model.FirewallSpec`: `Firewall.process`, lines 38-41.
  - `Model.IdsSpec`: `IDS.process`, lines 49-55.
- One event and a whole run, in `lab3-4/model.py`:
  - `Model.PastFirewall` and `Model.PastIds`: the rest of an event after each stage, lines 99-112.
  - `Model.SimulateSpec`: `simulate`, lines 79-115.
  - `Stats.Sum`: the total latency, line 115.
- Experiments, in `lab3-4/analysis.py`:
  - `Analysis.ScoreSpec`: `run_simulation_multiple_times`, lines 55-57.
  - `Analysis.PointOf`: one row of `run_experiments`, lines 41-49.
- Grid search, in `lab3-4/analysis.py`:
  - `Stats.Float.Less`: the IEEE `<` at line 82.
  - `GridSearch.Consider`: the strict-`<` best update, lines 82-84.
  - `GridSearch.Track`: the best after a history, starting from `({}, +∞)`, lines 60-84.
  - `GridSearch.SearchSpec`: `run_grid_search`, lines 59-86.

## Model

| member | source | states |
|---|---|---|
| Random.Step | lab3-4/model.py:15 | the new state lies in [0, 2^31): the remainder modulo 2^31 is never negative |
| Random.Uniform | lab3-4/model.py:16 | a state in [0, 2^31) divided by 2^31 lies in [0, 1) |
| Random.StateAfter | lab3-4/model.py:14-15 | after at least one call, the state lies in [0, 2^31) |
| Random.DrawAt | lab3-4/model.py:14-16 | every value `next` returns lies in [0, 1) |
| Random.Stream | lab3-4/model.py:14-16 | k calls return k values |
| Random.StateAfterStep | lab3-4/model.py:15 | one more call applies the recurrence to the state reached so far |
| Random.StreamAt | lab3-4/model.py:14-16 | the values drawn one call at a time agree, position by position, with the closed form |
| Random.StateAfterAdd | lab3-4/model.py:15 | j calls followed by k calls leave the state that j + k calls leave |
| Random.ReplayIsPrefix | lab3-4/model.py:8-16 | replaying a seed reproduces its values: the shorter replay is a prefix of the longer one |
| Random.StreamSnoc | lab3-4/model.py:14-16 | one more call appends the next closed-form value to the values returned so far |
| Random.Lcg.constructor | lab3-4/model.py:8-12 | the state starts at the seed (12345 by default) and nothing has been drawn |
| Random.Lcg.Next | lab3-4/model.py:14-16 | the state becomes (1103515245·state + 12345) mod 2^31; the value returned is state / 2^31, lies in [0, 1), equals the closed form at the call's position and is appended to the outputs |
| Random.SameSeedSameStream | lab3-4/model.py:8-16 | two generators with the same seed, called equally often, have equal states and have returned equal values |
| Stats.SquaredDeviation | lab3-4/analysis.py:11-12 | the sum of squared distances is never negative |
| Stats.Variance | lab3-4/analysis.py:12 | the population variance is never negative |
| Stats.CalculateStats | lab3-4/analysis.py:6-13 | an empty sample gives mean, std and variance 0; otherwise mean·n is the sum, variance·n is the sum of squared deviations from the mean, and std is the non-negative root of the variance |
| Stats.NpMean | lab3-4/analysis.py:57 | the mean is NaN exactly when the list is empty; otherwise it is finite and mean·n is the sum |
| Stats.ConfidenceInterval | lab3-4/analysis.py:15-21 | fewer than two samples give (0, 0); otherwise the interval contains the mean, is symmetric about it, and its width times √n is 2·1.96·std |
| Stats.ConstantSample | lab3-4/analysis.py:6-21 | n ≥ 1 equal values x have mean x, variance 0, statistics (x, 0, 0), numpy mean x, and from two values on the interval (x, x) |
| Model.IpsSpec | lab3-4/model.py:64-76 | the IPS time is never negative, the attack is blocked exactly when the third value is below the block rate, and the logarithm fails exactly when the first value is 0 |
| Model.EventSpec | lab3-4/model.py:91-112 | an event uses the number of draws in the table (4 firewall-blocked; 7/6 detected; 10/9 IPS-blocked or successful, for DDoS/Phishing), so between 4 and 10; only DDoS attacks are stopped by the firewall; the attack is DDoS exactly when the second value is below 0.5 |
| Model.Record | lab3-4/model.py:94-112 | each event raises exactly the counter of its outcome by one and leaves the other three unchanged, and only a successful event appends its latency |
| Model.Run | lab3-4/model.py:91-112 | after n events the four counters add up to n, there is one latency per successful attack, and between 4n and 10n values have been drawn |
| Model.RunErrorPersists | lab3-4/model.py:100-106 | once an event's logarithm fails, the run fails with that error however many events were to follow |
| Model.SimulateAccounts | lab3-4/model.py:91-115 | a run that completes accounts for every event exactly once, has one latency per successful attack, and reports their sum as the fifth component |
| Model.AttackGenerator.Generate | lab3-4/model.py:26-31 | exactly three values are drawn, and the attack is DDoS exactly when the second is below 0.5 |
| Model.Firewall.constructor | lab3-4/model.py:35-36 | the firewall shares the generator it is given |
| Model.Firewall.Process | lab3-4/model.py:38-41 | one value is drawn for a DDoS attack and none otherwise; the firewall blocks only DDoS attacks, and only when that value is below 0.8 |
| Model.Ids.constructor | lab3-4/model.py:45-47 | mu and sigma are kept |
| Model.Ids.Process | lab3-4/model.py:49-55 | exactly two values are drawn; the latency is the normal sample at them; the call fails exactly when the first value is 0 |
| Model.Ips.constructor | lab3-4/model.py:59-62 | mu, sigma and the block rate are kept |
| Model.Ips.Process | lab3-4/model.py:64-76 | three values are drawn (two when the logarithm fails); the time is never negative; the attack is blocked exactly when the third value is below the block rate |
| Model.ProcessAttack | lab3-4/model.py:92-112 | one pass of the loop body ends in the outcome that `EventSpec` gives at the generator's position and advances the generator by that event's draws, or fails with its error |
| Model.Simulate | lab3-4/model.py:79-115 | the loop computes `SimulateSpec`: the counters add up to the number of events, there is one latency per successful attack, and the fifth component is their sum |
| Analysis.Override | lab3-4/analysis.py:26-27 | the copy has the base's keys plus the overridden name; the name maps to the new value, every other key keeps its value, and the required keys stay present |
| Analysis.SuccessCounts | lab3-4/analysis.py:56 | the list has one entry per run, each the successful count of `simulate` on the configuration |
| Analysis.RunSimulationMultipleTimes | lab3-4/analysis.py:55-57 | the loop computes `ScoreSpec`; a score that is computed is finite exactly when there is at least one run |
| Analysis.RepeatedCounts | lab3-4/analysis.py:56 | every run starts from the same seed, so the list is one run's count repeated |
| Analysis.RepeatedRunsAgree | lab3-4/analysis.py:55-57 | 0 runs give (NaN, (0, 0)), 1 run gives (x, (0, 0)), and 2 or more give (x, (x, x)), x being one run's count |
| Analysis.Collect | lab3-4/analysis.py:35-39 | a run appends its successful count, the mean latency of its successful attacks (0 when there are none, otherwise mean·n = sum), and its firewall-blocked plus IPS-blocked count |
| Analysis.RunsSpec | lab3-4/analysis.py:34-39 | the three samples each have one entry per run |
| Analysis.Row | lab3-4/analysis.py:41-49 | a row that is built carries the candidate value as `param_value` |
| Analysis.Table | lab3-4/analysis.py:24-50 | a table that is built has one row per input |
| Analysis.TableAt | lab3-4/analysis.py:24-50 | a table that is built holds, at each position, the row computed there |
| Analysis.TableFailsIff | lab3-4/analysis.py:24-50 | a table fails exactly when one of its rows fails |
| Analysis.TableErrorPersists | lab3-4/analysis.py:24-50 | once a prefix of the rows fails, the whole table fails the same way |
| Analysis.ExperimentsSpec | lab3-4/analysis.py:23-50 | a sweep that completes has one point per candidate value |
| Analysis.ExperimentsRows | lab3-4/analysis.py:25-49 | point i of a completed sweep is the row of the i-th candidate value, in input order |
| Analysis.CollectRuns | lab3-4/analysis.py:28-39 | the inner loop computes `RunsSpec` |
| Analysis.RunExperiments | lab3-4/analysis.py:23-50 | the nested loop computes `ExperimentsSpec` |
| Analysis.RunsAreConstant | lab3-4/analysis.py:34-39 | each of the three samples repeats one run's value |
| Analysis.PointOfRepeats | lab3-4/analysis.py:41-49 | samples that repeat a, b and c give means a, b and c, with intervals (0, 0) for one run and (a, a), (b, b), (c, c) from two runs on |
| Analysis.ConstantRows | lab3-4/analysis.py:23-50 | with at least one run, every row of a completed sweep is built from a single run of its configuration, repeated |
| GridSearch.MulIsProduct | lab3-4/analysis.py:66 | the repeated sum used to count combinations is the product |
| GridSearch.Prepend | lab3-4/analysis.py:66 | every head in front of every tail gives (number of heads) × (number of tails) sequences |
| GridSearch.PrependMembers | lab3-4/analysis.py:66 | each of them starts with a head and continues with a tail |
| GridSearch.Product | lab3-4/analysis.py:66 | the product has as many combinations as the product of the list lengths |
| GridSearch.ProductMembers | lab3-4/analysis.py:66 | every combination picks exactly one value from each list |
| GridSearch.PrependAt | lab3-4/analysis.py:66 | head i in front of tail j sits at position i·(number of tails) + j |
| GridSearch.ProductAt | lab3-4/analysis.py:66 | every choice of one index per list appears, at its mixed-radix rank with the last list varying fastest |
| GridSearch.ZipMaps | lab3-4/analysis.py:66 | the keys of `dict(zip(names, combo))` are the names, and when names repeat the last pair wins |
| GridSearch.Combinations | lab3-4/analysis.py:64-66 | there is one mapping per combination of the product |
| GridSearch.CombinationAt | lab3-4/analysis.py:64-66 | for distinct names, the mapping at the rank of a choice has exactly the grid's names as keys, each mapped to its chosen value |
| GridSearch.Merge | lab3-4/analysis.py:69 | the merged configuration has the keys of both; grid values override the base, base values survive elsewhere, and the required keys stay present |
| GridSearch.PermuteMultiset | lab3-4/analysis.py:68-80 | two orders that list the same positions the same number of times select the same multiset of elements |
| GridSearch.Occurs | lab3-4/analysis.py:68-72 | every submitted evaluation completes at some position of the completion order |
| GridSearch.Evaluate | lab3-4/analysis.py:69-80 | an evaluation succeeds exactly when its scoring does; the entry holds the combination and the mean and interval of the merged configuration |
| GridSearch.HistorySpec | lab3-4/analysis.py:72-80 | a completed history has one entry per completed evaluation |
| GridSearch.HistoryAt | lab3-4/analysis.py:72-80 | entry k is the evaluation of the k-th combination to complete |
| GridSearch.HistoryFailsIff | lab3-4/analysis.py:68-80 | the search fails exactly when the evaluation of some combination fails |
| GridSearch.TrackIsFirstMinimum | lab3-4/analysis.py:60-84 | when no score is +∞, the best is the first history entry with the lowest finite score (strict `<`); NaN scores never win; if every score is NaN, the best stays ({}, +∞) |
| GridSearch.HistoryScores | lab3-4/analysis.py:73-80 | the scores are finite exactly when there is at least one run, and NaN exactly when there are none (never +∞) |
| GridSearch.HistoryCoversCombinations | lab3-4/analysis.py:68-80 | the parameters in the history are a permutation of all the combinations |
| GridSearch.SameScoresSameBest | lab3-4/analysis.py:82-84 | two histories with the same set of scores report the same best score |
| GridSearch.SameHistoryScores | lab3-4/analysis.py:68-80 | for two completion orders that both complete, every score in the first history also appears in the second |
| GridSearch.SameFailure | lab3-4/analysis.py:68-73 | if the search fails in one completion order, it fails in every other |
| GridSearch.BestScoreIndependentOfOrder | lab3-4/analysis.py:59-86 | whether the search fails, and the best score it reports, do not depend on the completion order |
| GridSearch.RunGridSearch | lab3-4/analysis.py:59-86 | the loop computes `SearchSpec`: the history in completion order, with the best tracked by strict `<` from ({}, +∞) |
| GridSearch.SearchBestIsFirstMinimum | lab3-4/analysis.py:59-86 | with at least one run, a completed search that evaluated something reports as best the parameters and score of the first history entry with the lowest score |
| GridSearch.EmptyListGivesNoSearch | lab3-4/analysis.py:60-66 | a grid with an empty candidate list has no combinations, and the result is ({}, +∞, []) |
| GridSearch.OrderOfOne | lab3-4/analysis.py:68-72 | a single evaluation can complete in one order only |
| GridSearch.NoParameterCombinations | lab3-4/analysis.py:64-66 | an empty grid has exactly one combination, the empty mapping |
| GridSearch.NoParametersEvaluatesBase | lab3-4/analysis.py:64-80 | with an empty grid only the base configuration is evaluated, and the search succeeds exactly when its scoring does |
| GridSearch.OneCombination | lab3-4/analysis.py:64-66 | one parameter with one candidate value gives the single mapping from that name to that value |
| GridSearch.SingleCombinationIsBest | lab3-4/analysis.py:59-86 | with one combination and at least one run, the history has that one entry and it is the best, with a finite score |

## Left out

- Box–Muller arithmetic is not modelled, because its logarithm, square root and cosine are floating-point transcendentals. The normal sample is a parameter `Gaussian(u1, u2, mu, sigma)`. The model keeps the draws it consumes, the failure at `u1 = 0`, and the IPS floor `max(t, 0)`.
- Floating point is not modelled: values are reals. NaN and +∞ appear only where the code can produce them, namely `np.mean` of an empty list and the initial best score. Comparisons on those follow IEEE `<`.
- numpy's square root is a parameter. It is required to give the non-negative root.
- The `confidence` argument of `confidence_interval` is left out because the code never reads it; 1.96 is used for every level.
- The number of events per run is a parameter `events`, because the code fixes it at 1,000,000 and the proofs hold for any count.
- `lambda_attacks`, the first value drawn by `generate` and the attack's `complexity` have no effect on any stage. Their draws are kept.
- The thread pool and `max_workers` are not modelled. The order in which evaluations complete is a parameter `order`, a permutation of the combination indices.
- The tqdm progress bars, all plotting, and `lab3-4/main.py` (configuration loading, printing, timing) are not modelled. The required configuration keys become the precondition `IsComplete`.
- Model.Simulate keeps the four counters and the latency list in one `Tally` value rather than five variables. The updates per outcome are the same.
- GridSearch.Zip requires the names and the combination to have the same length. Python's `zip` would silently truncate, but every combination of the product has one value per name.
- Random.Lcg keeps ghost fields `seed`, `calls` and `outputs` next to the real `state`, to state results against the closed form.
- Model.Ips.Process: the IPS draws three values only when the logarithm succeeds. When `u1 = 0` the code raises after two draws, and the model stops there too.
