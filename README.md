# Synthetic time series with injected anomalies and drift — a Dafny model

This project models the data-generation core of a synthetic time-series toolkit in Dafny.

- **`SyntheticTS` (utils/timeseries.py).** This object works like a small state machine.
  - It draws a Gaussian "normal process" over a fixed time axis.
  - It injects anomalies into copies of that series in two ways: pointwise (`anomalize`) or in centred runs inside equal-width blocks (`_chunk` / `chunk_anomalize`).
  - It applies a mean drift to the anomalized series from a split time on (`drift`).
  - Three flags record which stages have run. The plot methods only look at those flags.
- **The notebook generators (Notebooks/uitls/time_series_generators.py).**
  - Three pattern shapes: bell, funnel and cylinder.
  - A composer that splices randomly drawn patterns into a noise series at increasing offsets (`generate_pattern_data`).
  - A pointwise anomaly series (`gen_series_anomaly`).
  - A labelled data set of such series (`gen_ts_dataframe`).

Conventions used throughout:

- **Draws are arguments.** Every random draw is an explicit argument of the operation that uses it. This covers Gaussian samples, offsets, lengths, shape choices, amplitudes, sign draws, index choices and uniform samples. Each routine is therefore a deterministic transformation of sequences.
- **Numbers.** Values are `real`. Times are whole minutes since a common epoch.
- **Python and numpy semantics made explicit:**
  - Python's `int()` truncates toward zero (`Sampling.Trunc`).
  - `np.random.uniform(low, high)` is `low + (high - low) * w` for a unit sample `w` in [0, 1) (`Sampling.Uniform`).
  - `np.random.choice(n, k, replace=False)` is the first `k` entries of a permutation of `0 .. n-1` (`Sampling.IsPermutation`).
- **Errors are outcomes.** The failures listed here are modelled as outcomes (`Outcomes.Error`) rather than preconditions. The few preconditions that remain, and the refusals that are not modelled, are listed under "Left out":
  - a stage requested before `normal_process` (the source prints and returns None);
  - a failed parameter assertion;
  - min/max of an empty array;
  - a zero `range` step;
  - an index past the end of a block;
  - a missing attribute;
  - a sample size numpy refuses;
  - a data frame with no rows;
  - a negative array size;
  - a negative standard deviation in `normal_process`.

Modules:

| file | module | contents |
|---|---|---|
| Outcomes.dfy | `Outcomes` | `Option`, `Result`, the error kinds |
| Stats.dfy | `Stats` | sum, mean, min, max, shifting by a constant |
| Sampling.dfy | `Sampling` | `int()`, `math.ceil`, uniform samples, choices without replacement |
| Injection.dfy | `Injection` | overwriting chosen positions, shared by `anomalize` and `gen_series_anomaly` |
| TimeSeries.dfy | `TimeSeries` | the `SyntheticTS` class and the functions that specify its stages |
| Generators.dfy | `Generators` | the notebook generators |

Behaviour of the code worth knowing:

- **Run length.** A chunk run writes `2 * (chunk_size // 2) + 1` values: the offsets `mid - h .. mid + h`, with `h = int(chunk_size / 2)`. It does not write `chunk_size` values.
- **Which blocks are kept.** `_chunk` keeps every block of `range(0, len, div)` except the last one. That is `ceil(len / div) - 1` blocks, which can be more than `num_chunks - 1` when `num_chunks` does not divide `len`.
- **Run overrunning its block.** A run longer than its block raises IndexError in the source. The model returns the `IndexOutOfRange` outcome.
- **`chunk_anomalize` and `plot_anomaly`.** `chunk_anomalize` stores `chunk_anomaly_data` and sets the anomaly flag, but it does not set `anomalized_data`. After `chunk_anomalize` alone, `plot_anomaly` therefore reads a missing attribute.
- **`drift` without `anomalize`.** `drift` checks no flag. It records the drift index, then fails when `anomalized_data` was never set.

## Model

| member | source | states |
|---|---|---|
| `TimeSeries.SyntheticTS.constructor` | utils/timeseries.py:29-44 | the size is `int(minutes / process_time)`, the duration is end minus start, all three flags are false and no stage's series exists; the stage invariant `Valid()` holds |
| `TimeSeries.SizeOfSpan` | utils/timeseries.py:32-34 | over a forward span the size is the floor quotient of span and step, so the size in steps never exceeds the span |
| `TimeSeries.SyntheticTS.NormalProcess` | utils/timeseries.py:76-85 | always records loc and scale; succeeds exactly when the scale and the size are non-negative, and then stores exactly the drawn series as the normal data and sets the normal flag; a negative scale fails with NegativeScale, otherwise a negative size with NegativeDimension, and on failure the normal data and its flag are unchanged; no other flag or series changes |
| `TimeSeries.SyntheticTS.Anomalize` | utils/timeseries.py:106-139 | the outcome is `AnomalizeOutcome` of the normal data before the call; on success it stores that copy and sets the anomaly flag; on any error nothing changes; the normal data and the other stages are never modified |
| `TimeSeries.AnomalizeOutcomeCases` | utils/timeseries.py:106-119 | NotInitialized exactly when there is no normal process; InvalidParameter exactly when the flag passes but `0 < frac < 1` and `scale > 0` do not both hold; success exactly when the parameters are valid and the series is non-empty, and then the length is preserved |
| `TimeSeries.AnomalizedSpec` | utils/timeseries.py:115-129 | the copy has the input's length; exactly `int(size * frac)` distinct in-range positions are chosen, fewer than the size; every other position equals the normal data; each chosen value minus loc lies between the bounds (`[min, scale * range]` one-sided, `[-scale * range, scale * range]` two-sided), and the two-sided interval is ordered |
| `TimeSeries.TwoSidedOrdered` | utils/timeseries.py:126-129 | the two-sided interval `[-scale * range, scale * range]` contains 0 |
| `Injection.DrawsInjected` | utils/timeseries.py:120-129 | writing uniform draws at distinct in-range indices touches exactly that many positions, puts loc plus a value between the bounds at each, and leaves every other position unchanged |
| `Injection.InjectInPlace` | utils/timeseries.py:120-129 | the in-place loop over the chosen indices leaves the array equal to the specification `Injected` of its old contents |
| `Sampling.CountBounds` | utils/timeseries.py:118-119 | for `0 < frac < 1`, `int(size * frac)` lies in `[0, size]`, and below size for a non-empty series, so numpy's choice without replacement accepts it |
| `Sampling.CountIsFloor` | utils/timeseries.py:118 | for a non-negative fraction, `int(size * frac)` is `floor(size * frac)` |
| `Sampling.UniformBetween` | utils/timeseries.py:122-129 | a uniform sample lies between its two bounds whichever is larger, and in `[low, high)` when `low < high` |
| `Sampling.Trunc` | utils/timeseries.py:34 | `int()` of a non-negative value is the largest integer not above it, and of a negative value the least integer not below it |
| `Sampling.CeilQuotient` | utils/timeseries.py:149 | the number of starts of `range(0, n, d)`, the least `c` with `n <= c * d`, is `(n + d - 1) / d` |
| `TimeSeries.SyntheticTS.Chunk` | utils/timeseries.py:141-168 | returns exactly `ChunkOutcome`: EmptySeries for an empty series, ZeroBlockWidth when `int(len / num_chunk)` is 0, IndexOutOfRange when a kept block's run passes its end, otherwise the kept blocks with their runs overwritten, concatenated |
| `TimeSeries.IndexBlocks` | utils/timeseries.py:147-150 | the index slices number `ceil(n / div)`, and every slice but the last is the `div` consecutive positions of its block |
| `TimeSeries.FillBlock` | utils/timeseries.py:151-164 | a block succeeds exactly when `div // 2 + h < div`; it is then the specification `Block`, and the draw counter has advanced by `2h + 1` |
| `TimeSeries.Join` | utils/timeseries.py:165-167 | appending the chunks one by one gives their concatenation `Concat` |
| `TimeSeries.ChunkLength` | utils/timeseries.py:148-168 | a successful `_chunk` has `(ceil(len / div) - 1) * div` values, which is `len - div` when `num_chunk` divides `len`; each kept block's run has `2 * (chunk_size // 2) + 1` offsets |
| `TimeSeries.EvenBlocks` | utils/timeseries.py:148-151 | when `num_chunk` divides `len` there are exactly `num_chunk` blocks, and the kept ones end `div` before the end |
| `TimeSeries.RunSize` | utils/timeseries.py:153-154 | the run `mid - h .. mid + h` inside a block it fits in has exactly `2h + 1` offsets |
| `TimeSeries.ChunkValues` | utils/timeseries.py:142-164 | in every kept block, each offset outside the run equals the input at the same position, and each run offset minus the whole-series mean lies between the whole-series bounds |
| `TimeSeries.SyntheticTS.ChunkAnomalize` | utils/timeseries.py:195-227 | the outcome is `ChunkAnomalizeOutcome` of the normal data: NotInitialized, InvalidParameter for a non-positive chunk count or bad fraction/scale, otherwise `_chunk` with chunk size `int(int(size * frac) / num_chunks)`; on success it stores the chunked series and sets the anomaly flag, leaving `anomalized_data` as it was; on any error nothing changes |
| `TimeSeries.ChunkSize` | utils/timeseries.py:207-209 | the per-chunk size `cs` satisfies `cs * num_chunks <= int(size * frac) < (cs + 1) * num_chunks`: the remainder is less than one chunk per block and is discarded |
| `TimeSeries.SyntheticTS.Drift` | utils/timeseries.py:247-276 | always records the drift index `DriftIndex`; without `anomalized_data` it fails with MissingAttribute and stores nothing else; otherwise it stores and returns `Drifted` of the anomalized series and sets the drifted flag; the normal and anomalized series and the other flags are unchanged |
| `TimeSeries.DefaultDriftIndex` | utils/timeseries.py:249-261 | with the default drift time `end - duration / 2`, the index is the floor of `span / (2 * process_time)`, and it lies inside any non-empty series |
| `TimeSeries.DriftedSpec` | utils/timeseries.py:262-267 | the drifted series has the input's length; positions before the index are unchanged; from the index on, every position is shifted by one constant `mean(tail) * pct_mean / 100 * (1 + pct_spread / 100)`, so the tail's mean is multiplied by `1 + pct_mean / 100 * (1 + pct_spread / 100)` |
| `Stats.MeanShifted` | utils/timeseries.py:264-266 | adding a constant to every element adds that constant to the mean |
| `TimeSeries.SyntheticTS.PlotNormal` | utils/timeseries.py:278-291 | nothing is shown exactly when the normal flag is false; otherwise the normal series is shown |
| `TimeSeries.SyntheticTS.PlotAnomaly` | utils/timeseries.py:293-306 | nothing is shown exactly when the anomaly flag is false; the missing-attribute failure happens exactly when the flag is set but `anomalized_data` is not; otherwise the anomalized series is shown |
| `TimeSeries.SyntheticTS.PlotDrifted` | utils/timeseries.py:308-321 | nothing is shown exactly when the drifted flag is false; otherwise the drifted series is shown |
| `Generators.GenerateBell` | Notebooks/uitls/time_series_generators.py:7-9 | the bell has exactly `length` values |
| `Generators.BellRises` | Notebooks/uitls/time_series_generators.py:7-9 | over the noise, the bell starts at 0 and rises by `amplitude / length` at every step |
| `Generators.GenerateFunnel` | Notebooks/uitls/time_series_generators.py:11-13 | the funnel has exactly `length` values |
| `Generators.FunnelFalls` | Notebooks/uitls/time_series_generators.py:11-13 | over the noise, the funnel falls by `amplitude / length` at every step and ends at 0 |
| `Generators.FunnelMirrorsBell` | Notebooks/uitls/time_series_generators.py:8-12 | the funnel's ramp is the bell's ramp read backwards |
| `Generators.GenerateCylinder` | Notebooks/uitls/time_series_generators.py:15-17 | the cylinder has exactly `length` values, each the noise lifted by the amplitude |
| `Generators.SegmentLength` | Notebooks/uitls/time_series_generators.py:61 | `max(1, ceil(g))` is at least 1 and not below `g`, and less than `g + 1` for positive `g` |
| `Generators.GeneratePatternData` | Notebooks/uitls/time_series_generators.py:43-63 | the result has exactly `length` values and is the noise with the segments `Composed` from the draws spliced in, in order |
| `Generators.WriteSegment` | Notebooks/uitls/time_series_generators.py:48-58 | one iteration's write of its drawn pattern over its slot turns the splice of the filled slots into the splice of the filled slots plus that one |
| `Generators.PatternDataSpec` | Notebooks/uitls/time_series_generators.py:43-63 | each placed segment holds the pattern drawn in its iteration; every position no segment covers keeps its noise; when the first candidate does not fit, the result is the noise itself |
| `Generators.ComposedInBounds` | Notebooks/uitls/time_series_generators.py:47-58 | every segment is non-empty and ends strictly before the series does; no segment starts before an earlier one ends; there are at most `length` segments |
| `Generators.ComposedChained` | Notebooks/uitls/time_series_generators.py:44-61 | the first segment is at the first offset with the first length; each later one starts the drawn gap after the previous end and has the length drawn in the previous iteration |
| `Generators.ComposedGaps` | Notebooks/uitls/time_series_generators.py:44-60 | with offsets and gaps from `randint(0, avg_pattern_length)`, the first start and every gap are at most `avg_pattern_length` |
| `Generators.ComposedStop` | Notebooks/uitls/time_series_generators.py:47 | no segment is placed exactly when the first candidate does not fit; the loop stops at the first candidate that reaches the end |
| `Generators.ComposedDrawn` | Notebooks/uitls/time_series_generators.py:48-58 | segment `j` holds the shape drawn in iteration `j` over its noise, negated exactly when negatives are enabled and the sign draw exceeds 0.5 |
| `Generators.SpliceAt` | Notebooks/uitls/time_series_generators.py:58 | splicing ordered in-bounds segments leaves each segment's values over its range and the noise everywhere else |
| `Generators.GenSeriesAnomaly` | Notebooks/uitls/time_series_generators.py:79-86 | fails with EmptySeries for size 0 and with BadSampleSize when `int(size * frac)` is outside `[0, size]`; succeeds exactly otherwise, returning the specification `AnomalySeries` |
| `Generators.AnomalySeriesSpec` | Notebooks/uitls/time_series_generators.py:79-86 | the series has the noise's length; exactly `int(size * frac)` distinct positions are overwritten; every other position keeps its noise; each overwritten value minus loc lies in `[min - s * r, max + s * r]` |
| `Generators.AnomalySeriesZeroFrac` | Notebooks/uitls/time_series_generators.py:82-86 | with `anomaly_frac = 0` the series is the noise unchanged |
| `Generators.GenRow` | Notebooks/uitls/time_series_generators.py:111-119 | the row succeeds exactly when its series is accepted; it is labelled 1 exactly when its draw is below `prob_anomolous`; its series uses the configured fraction on label 1 and is the plain noise on label 0 |
| `Generators.GenRows` | Notebooks/uitls/time_series_generators.py:109-119 | all rows succeed exactly when every row's series is accepted; otherwise the failure is EmptySeries for size 0 and BadSampleSize for any other size, as the first failing row reports; on success row `i` is built from draw `i` |
| `Generators.GenTsDataframe` | Notebooks/uitls/time_series_generators.py:107-122 | rejects exactly `prob_anomolous >= 1`; fails with EmptyFrame for `n = 0`, with EmptySeries for an empty series and otherwise only with BadSampleSize; succeeds exactly when `n >= 1` and every row is accepted, and then it holds `n` rows, each labelled 1 iff its draw is below `prob_anomolous`, with label-0 rows equal to their noise |

## Left out

- **Random number generation.** Distributions, seeding and the order of numpy's internal draws are not modelled. Every draw is an argument. The requires clauses say only what makes a draw well formed: a unit sample lies in [0, 1), and an index choice comes from a permutation of the right size.
- **Floating point.** Values are exact reals. NaN, infinities and rounding are not modelled. `drift` with an empty tail returns the series unchanged, as numpy does after adding NaN to an empty array.
- **Dates.** Datetime parsing, `np.datetime64` and seconds are not modelled. Times are whole minutes, and `process_time_mins` is a positive whole number of minutes.
- **`time_arr`.** The length of `time_arr` (`np.arange` over the span) is not modelled.
- **pandas.** `return_df` and every DataFrame built for it are not modelled, including the one in `chunk_anomalize`. That one always fails after the state is stored whenever `time_arr` is as long as the normal series (the case in which `normal_process` could build its own frame): `_chunk` always drops the last, non-empty block (`TimeSeries.ChunkLength`), so the chunked series is shorter than `time_arr`, and pandas refuses columns of different lengths. `gen_ts_dataframe`'s frame is a sequence of rows; only its empty case is kept, as the EmptyFrame outcome.
- **Plotting.** matplotlib plotting and the printed messages are not modelled. The plot methods model only the flag guard and which series would be shown.
- **String methods.** `__repr__` and `__str__` are not modelled.
- **`anomalies_last_chunk`.** This value in `chunk_anomalize` is computed and never used, so it is not modelled.
- **Intermediate attributes of `drift`.** `_pct_drift_mean_`, `_pct_drift_spread_`, `_drift_time_`, `_duration_before_drift_`, `before_drift_data` and `after_drift_data` are not modelled. The drift index and the drifted series are.
- **`SyntheticTS.time_arr`, `start_time`, `end_time` as strings.** These are not modelled. The constructor takes minutes.
- **Distribution parameters in the notebook generators.** A negative `scale` in `gen_series_anomaly` and `gen_ts_dataframe`, or a negative `default_variance` in the shape generators and `generate_pattern_data`, makes numpy refuse the Gaussian draw. The noise is an argument of the model, so these refusals are not modelled: the model succeeds there.
- **Negative sizes in the notebook generators.** `length`, `size`, `n` and `avg_pattern_length` are `nat`, so the refusals numpy and Python raise for negative values are not modelled.
- **Custom generator lists.** `generate_pattern_data` is modelled with the three standard shapes of `std_generators`. A caller-supplied list, including an empty one (where `random.choice` raises IndexError), is not modelled.
- TimeSeries.SyntheticTS.Drift: it requires a non-negative drift index. Numpy's wrap-around slicing with a negative index, used when the drift time is before the start time, is not modelled.
- TimeSeries.SyntheticTS.constructor: it requires `process_time > 0`. With a zero step, the size computation `int(minutes / 0)` fails.
- TimeSeries.SyntheticTS.Anomalize: it requires the index choice to be a permutation of the series' positions. That is the draw numpy makes, not a check the source performs.
