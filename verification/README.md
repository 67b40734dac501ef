# Pairs-trading alpha model in Dafny

This project models `PairsTradingAlphaModel`, the alpha model of a two-stock
pairs-trading strategy (`midterm.py`). On every update the model:

1. computes a damped price spread `(price of pair[1] − price of pair[0]) × 0.9` and a volume sum `volume[1] + volume[0]`;
2. pushes the price spread into a short rolling window (capacity 500) and the volume sum into a long rolling window (capacity 2500);
3. reads, from the windows as they stand after the push, the thresholds
   `upper = meanShort + stdShort`, `lowerShort = meanShort − 2·stdShort` and `lowerLong = meanLong − stdLong`;
4. returns `[pair[0] Up, pair[1] Down]` when `priceSpread > upper` and `volumeSum > lowerLong`.
   Otherwise it returns `[pair[0] Down, pair[1] Up]` when `priceSpread < lowerShort` and `volumeSum > lowerLong`.
   Otherwise it returns nothing. Every insight lives 2 hours.

When the tracked securities change, the model replaces its pair with the added
securities. It then replays historical close prices into the short window only.
Each row contributes the undamped difference `second close − first close`, in row order.
A row with fewer than two close columns raises an index error before it feeds anything.
By then the pair has already been replaced and the earlier rows have already been fed.

Files:

- `rolling_window.dfy` (module `RollingWindow`): a bounded FIFO window of reals.
  It provides insertion with eviction of the oldest sample, a fold over many insertions, and the arithmetic mean.
- `insights.dfy` (module `Insights`): directions, insights, the three thresholds and the decision rule.
- `pairs_trading_alpha.dfy` (module `PairsTradingAlpha`): the model state, construction, `Update` and `OnSecuritiesChanged`.

Modelling choices:

- The mean indicator and the standard-deviation indicator of one window always receive the same value at the same moment.
  So one `Window` holds the samples for both.
- The mean is the arithmetic mean of the retained samples.
- The standard deviation is abstract.
  It is a function `sd` from a window's samples to a real, applied to the window after the current sample entered it.
  No formula is claimed for it.
  Where a property needs `sd ≥ 0`, the lemma states that as a hypothesis.
- A security's live price and volume come from a function `market: Symbol -> Observation`.
- An insight is `Signal(symbol, direction, lifespanHours)`.
- Arithmetic is over `real`.
- An update on a pair of fewer than two securities fails with `Err(PairTooShort)` and leaves the model as it was.
  In the source, indexing `pair[1]` raises before any indicator is updated.
- A history row is the sequence of its close columns. The unstacked frame has one column per security with data.
  The replay reads the first two columns. A row with fewer than two ends the replay with `Raised(RowTooShort)`.
  This is what happens when a change adds fewer than two securities.

The model follows the code as written, which has none of the following:

- A warming-up/active state machine.
- A reset of the statistics when the pair changes. The indicators built in `__init__` persist.
  The volume window carries over unchanged: `OnSecuritiesChanged` ensures `m'.long == m.long`.
  The short window keeps all of its earlier samples when the replay fits in its free room (`RollingWindow.ShortRunKeepsEverything`).
  After a replay of n < 500 rows it keeps the newest 500 − n of them (`RollingWindow.FeedKeepsMostRecent`).
  A replay of 500 rows or more evicts them all (`RollingWindow.LongRunForgetsOldSamples`).
- An "insufficient data" gate. The indicators are read unconditionally.
- Skipping ticks with a missing leg, or filtering ticks by instrument.

Warm-up samples are undamped, and warm-up never feeds the volume window. Both asymmetries are kept as written.

## Model

| member | source | states |
|---|---|---|
| `RollingWindow.Push` | midterm.py:57-58 | Updating an indicator appends the sample and evicts the oldest once full. The window stays within capacity, ends with the new sample, and equals the last `capacity` elements of old samples plus the new one. |
| `RollingWindow.FeedKeepsMostRecent` | midterm.py:101-103 | After any run of updates, the window holds exactly the most recent `min(count, capacity)` inputs, in insertion order. |
| `RollingWindow.LongRunForgetsOldSamples` | midterm.py:97-103 | A replay of at least `capacity` samples leaves only its own last `capacity` samples. Nothing from before the replay survives. |
| `RollingWindow.ShortRunKeepsEverything` | midterm.py:93-103 | While the window has room for the whole replay, the replay only appends. In that case the earlier samples survive a pair change, because nothing resets them. |
| `Insights.ComputeThresholds` | midterm.py:60-69 | With a non-negative short deviation, `lowerShort ≤ meanShort ≤ upper`, strictly when it is positive. The lower side of the band is always twice as wide as the upper side. With a non-negative long deviation, `lowerLong ≤ meanLong`. |
| `Insights.Decide` | midterm.py:72-90 | The result is empty or a correlated pair for `pair[0]` then `pair[1]` with opposite directions and the given lifespan, never a single insight. Up-first exactly when the rise condition holds. Down-first exactly when the rise condition fails and the fall condition holds. Empty exactly when neither holds. |
| `Insights.DecideMatchesDeviationRule` | midterm.py:72-87 | The rule agrees with a set-valued reading in standard deviations. A rise is called for when price is more than one deviation above the mean. A fall is called for when it is more than two below. Both need volume less than one deviation below its mean. A fall is emitted only when it is the sole call. |
| `Insights.BranchesExclusive` | midterm.py:72-87 | With a non-negative short deviation, the two branch conditions never hold together. |
| `Insights.DownIndependentOfPriority` | midterm.py:82-87 | With a non-negative short deviation, the second branch fires exactly when its own condition holds. The priority of the first branch never hides it. |
| `Insights.NegativeDeviationRiseWins` | midterm.py:72-87 | With a negative deviation both conditions can hold at once, and the first branch (`pair[0]` Up) is the one returned. |
| `Insights.TieAtThresholdNeverFires` | midterm.py:72-82 | Comparisons are strict. A price spread equal to `upper` never yields the rise. One equal to `lowerShort` never yields the fall. A volume sum equal to `lowerLong` yields nothing at all. |
| `Insights.SilentAtMean` | midterm.py:60-90 | A price spread equal to the short mean emits nothing while the short deviation is non-negative. |
| `PairsTradingAlpha.Init` | midterm.py:38-50 | A fresh model has an empty pair, an empty window of capacity 500, an empty window of capacity 2500, and a 2-hour insight lifespan. |
| `PairsTradingAlpha.Update` | midterm.py:53-90 | Fails exactly when the pair has fewer than two securities. On success: the pair and well-formedness are preserved; the short window gains `(p1 − p0) × 0.9` and the long window gains `v1 + v0`, with FIFO eviction; the insights are empty or a correlated pair for `pair[0]`, `pair[1]` with opposite directions and a 2-hour lifespan. |
| `PairsTradingAlpha.UpdateDecidesOnUpdatedWindows` | midterm.py:53-90 | The insights returned are exactly `[pair[0] Up, pair[1] Down]`, `[pair[0] Down, pair[1] Up]` or `[]`. Each is decided by `upper = mean + sd`, `lowerShort = mean − 2·sd` of the short window and `lowerLong = mean − sd` of the long window. Both windows already contain the current price spread and volume sum. |
| `PairsTradingAlpha.SignalNeedsEarlierSampleOnOtherSide` | midterm.py:57-87 | The current spread is inside the window its mean comes from. So with a non-negative deviation, a rise needs an earlier retained sample strictly below the current spread, and a fall needs one strictly above it. |
| `PairsTradingAlpha.FirstUpdateIsSilent` | midterm.py:53-90 | With an empty short window, for example straight after construction and no history, an update emits nothing while the deviation is non-negative. |
| `PairsTradingAlpha.ConstantSpreadIsSilent` | midterm.py:53-90 | A short window holding one value `c` throughout, followed by a live price spread equal to `c`, emits nothing while the deviation is non-negative. |
| `PairsTradingAlpha.ReadablePrefix` | midterm.py:101-102 | The number of leading rows with at least two close columns. Every row before it is readable, and the row at it, if any, is not. |
| `PairsTradingAlpha.WarmupSamples` | midterm.py:101-103 | One sample per readable row, in row order. Sample `i` is row `i`'s second close minus its first, with no damping. |
| `PairsTradingAlpha.WarmupIsUndamped` | midterm.py:101-103 | When the live prices equal a row's two closes, the sample an update pushes is 0.9 times that row's warm-up sample. |
| `PairsTradingAlpha.ReplayHistory` | midterm.py:101-103 | The replay loop feeds exactly the readable prefix of the rows, in order. The window ends as the fold of those samples through `Push`, and is untouched when no row is readable. |
| `PairsTradingAlpha.OnSecuritiesChanged` | midterm.py:93-103 | The pair becomes the added securities in every case. The short window receives the readable rows' `second close − first close` in row order. The change completes exactly when every row is readable, and otherwise raises `RowTooShort`. With fewer than two added securities and a non-empty history whose rows have at most that many columns, it raises with the short window untouched. The volume window and the lifespan are unchanged. |

## Left out

- `SMAPairsTrading.Initialize` and `OnEndOfDay` (midterm.py:3-34): platform configuration and logging, with no decision logic.
- The history request and the dataframe reshaping (midterm.py:97-99): these are an external data fetch. The model takes the rows as a sequence of close-column sequences. The column order is whatever the dataframe gives, which is not necessarily the pair's order. How many columns the frame has is an input: when the changed pair has fewer than two securities, the caller supplies rows with at most that many columns. Missing values in a row are not modelled.
- The internals of the platform's `SimpleMovingAverage` and `StandardDeviation` indicators are not part of this model. The mean is the arithmetic mean of the retained samples. The deviation is an abstract function of the window contents. No readiness flag is modelled, because the code reads the values unconditionally.
- The timestamps passed to the indicators' `Update` and the absolute expiry times of the insights: only the 2-hour lifespan is modelled.
- `Insight.Group` / `Insight.Price` object construction: an insight is modelled as symbol, direction and lifespan.
- Floating-point rounding, including the rounding of `× 0.9`: arithmetic is over `real`.
- Securities removed in a change event are ignored by the source, as they are here. Only the added securities form the new pair.
