# Korean stock screeners and the TQQQ trend rule, modelled in Dafny

This project models the decision logic of three daily market screeners:

- The **wave screener** (`scripts/wave_analysis.py`). It builds weekly bars for every eligible code in the day's ticker listing. It evaluates nine signals: Fibonacci zone plus rebound, Bollinger %B, RSI oversold and rising, the MACD golden cross, the MACD histogram rise, OBV, the volume pattern, the MA240 band and the market-cap floor. It scores them, in that order, with weights 3, 2, 3, 2, 1, 1, 1, 1, 1 and keeps the codes that score 7 or more.
- The **breakout screener** (`scripts/potential_stock_finder.py`). It runs five hard checks on daily bars and joins them with AND: volume spike, market cap of at least 500 billion won, close within 10% of MA240, MA20 above MA60, and positive pension-fund net buying. It returns the passing codes with their names lined up. It also has the first-workday-of-month helper.
- The **TQQQ trend rule** (`scripts/tqqq_analysis.py`). It compares the latest close with the 200-day moving average and with an envelope 10% above it, then recommends SGOV, TQQQ or SPLG.

Modules:

- `Series` (`series.dfy`) holds the shared vocabulary:
  - bars and optional values (a pandas NaN is `None`);
  - trailing means, `tail`, and the first-argmax that `idxmax` computes;
  - the weekly aggregation of one calendar bucket.
- `Universe` (`universe.dfy`) is the universe filter both screeners share, the market-cap table and the result collection.
- `WaveIndicators` (`wave_indicators.dfy`) holds the weekly indicators.
- `WaveScreen` (`wave_screen.dfy`) holds the score, the per-code decision and the run.
- `Breakout` (`breakout.dfy`) holds the calendar helper, the five checks, the per-code decision and the run.
- `Tqqq` (`tqqq.dfy`) holds the trend rule and its message.

pandas semantics are modelled explicitly:

- A rolling mean over fewer values than its window is NaN.
- Every comparison with NaN is false.
- Reading `iloc[-k]` past the start raises, and each function's `except` branch then returns its fallback value.
- Prices, volumes and caps are whole numbers. Averages and ratios are exact reals in place of floats.

Where the code and the design description differ, the model follows the code:

- **Score maximum.** The wave score's maximum is 15 (the weights add to 15), although the report prints it out of 14.
- **RSI.** It uses simple 14-bar rolling means of gains and losses, not Wilder smoothing.
- **TQQQ with short history.** With fewer than 200 closes the analysis does not return "insufficient data". It recommends SPLG (see Findings).

## Model

| member | source | states |
|---|---|---|
| Series.FirstArgMax | scripts/wave_analysis.py:225-227 | `idxmax` position: within the window, holding the maximum, and strictly greater than every earlier value (the first maximum) |
| Series.AggregateWeekWellFormed | scripts/wave_analysis.py:36-42 | a weekly bar aggregated as first/max/min/last/sum from well-formed days is well formed, with open and close between low and high |
| Series.WeeklyBarsFromBuckets | scripts/wave_analysis.py:36-45 | every weekly bar is the aggregate of one non-empty bucket; with no empty bucket (nothing for `dropna` to remove) there is one bar per bucket and week i aggregates bucket i, in calendar order |
| Universe.FilterUniverse | scripts/wave_analysis.py:494-498 | the filter loop appends exactly the survivors of the eligibility test, in order |
| Universe.SurvivorMembership | scripts/wave_analysis.py:494-498 | a code survives iff it is listed, does not end in 5/7/9, its name contains neither 우 nor 스팩, and it does not start with 43 |
| Universe.IsInfixIff | scripts/wave_analysis.py:497 | `sub in s` on strings: true iff `sub` occurs at some position of `s` |
| Universe.EligibleIff | scripts/wave_analysis.py:497 | IsEligible: true iff the code's last character is not 5, 7 or 9, it does not start with 43, and the name contains neither 우 nor 스팩 at any position |
| Universe.SurvivorsInOrder | scripts/wave_analysis.py:494-498 | the survivors are an order-preserving subsequence of the listing |
| Universe.BuildCapTable | scripts/wave_analysis.py:500-506 | the cap loop builds the table of latest caps |
| Universe.CapTableEntries | scripts/wave_analysis.py:500-506 | a code is in the table iff it was filtered and has a non-empty cap history, mapped to its last cap |
| Universe.AnalysisPairs | scripts/wave_analysis.py:508 | one (code, cap) pair per filtered code, in filter order |
| Universe.ScreenedCap | scripts/wave_analysis.py:508 | `marcap_dict.get(code, 0)`: the latest cap, or 0 when the code has no cap history |
| Universe.SomesMembership | scripts/wave_analysis.py:515 | a record is kept iff some worker returned it |
| Universe.SelectedCodesMembership | scripts/potential_stock_finder.py:286 | a code is kept iff some worker returned it and it is a non-empty string |
| WaveIndicators.BollingerLowBand | scripts/wave_analysis.py:52-67 | with 20 bars and a positive deviation, %B < 0.2 iff the close is more than 1.2 deviations below the 20-bar mean |
| WaveIndicators.CalculateObv | scripts/wave_analysis.py:72-86 | the OBV array written bar by bar equals the OBV recurrence at every bar |
| WaveIndicators.ObvOnRisingCloses | scripts/wave_analysis.py:80-82 | on strictly rising closes OBV is the running volume total |
| WaveIndicators.ObvOnFlatCloses | scripts/wave_analysis.py:85-86 | on flat closes OBV stays at the first bar's volume |
| WaveIndicators.ObvBoundedByVolume | scripts/wave_analysis.py:76-86 | with non-negative volumes, OBV never leaves plus or minus the running volume total |
| WaveIndicators.ObvRisingIff | scripts/wave_analysis.py:88-90 | ObvRising: with 10 or more bars, true iff the last OBV is above the mean of the last 10 OBVs; NaN average (fewer bars) is false |
| WaveIndicators.Ewm | scripts/wave_analysis.py:104-107 | the exponential mean (adjust=False) has one value per input |
| WaveIndicators.EwmWithinBounds | scripts/wave_analysis.py:104-107 | an exponential mean stays within any bounds of the values it averages |
| WaveIndicators.GoldenCrossIsHistogramSignChange | scripts/wave_analysis.py:108-116 | the golden cross is exactly the histogram turning from negative to positive |
| WaveIndicators.FlatClosesGiveNoMacdSignal | scripts/wave_analysis.py:100-123 | a flat price path gives neither MACD flag |
| WaveIndicators.MacdFlagsIff | scripts/wave_analysis.py:100-123 | CalculateMacd: fewer than 3 closes give both flags false (the exception branch); otherwise the histogram flag holds iff MACD is above its signal and the histogram rose over the last three bars |
| WaveIndicators.GainLossSplit | scripts/wave_analysis.py:129-133 | gain and loss are non-negative, at most one is non-zero, and gain minus loss is the price change |
| WaveIndicators.RsAlgebra | scripts/wave_analysis.py:140-143 | `100 - 100/(1 + RS)` equals the gains' share `100 g / (g + l)` and lies in [0, 100] |
| WaveIndicators.RsiIsGainShare | scripts/wave_analysis.py:125-143 | RsiAt: NaN before 14 bars or with no movement, otherwise the gains' share of the 14-bar movement, always in [0, 100] |
| WaveIndicators.RsiShortHistory | scripts/wave_analysis.py:125-157 | CalculateRsi: fewer than 14 closes give a NaN RSI and both flags false |
| WaveIndicators.RsiOversoldIff | scripts/wave_analysis.py:145-148 | CalculateRsi: with 14 closes the reported RSI is the last bar's, and oversold holds iff there was movement and 7·gains < 3·losses (share below 30) |
| WaveIndicators.RsiRisingNeedsSixteenBars | scripts/wave_analysis.py:150-151 | CalculateRsi: a rising RSI needs three defined RSI values, hence at least 16 closes |
| WaveIndicators.OversoldShare | scripts/wave_analysis.py:143-148 | the gains' share 100·g/(g + l) is below 30 iff 7·g < 3·l |
| WaveIndicators.NoLossesNeverOversold | scripts/wave_analysis.py:145-148 | a series that never falls is never oversold |
| WaveIndicators.DecreasePatternIgnoresLatest | scripts/wave_analysis.py:169 | the volume decrease pattern v[-4] > v[-3] > v[-2] does not depend on the latest volume |
| WaveIndicators.VolumeTrendIff | scripts/wave_analysis.py:159-180 | CheckVolumeTrend: fewer than 4 volumes give both flags false; otherwise the decrease pattern iff v[-4] > v[-3] > v[-2], and increasing iff 10 volumes exist and the latest is above their mean |
| WaveIndicators.MarketCapFloor | scripts/wave_analysis.py:182-187 | PassesMarketCap: 300 billion won passes, one won less fails, and a larger cap never fails where a smaller passes |
| WaveIndicators.Ma240BandIff | scripts/wave_analysis.py:192-211 | InMa240Band: fewer than 240 bars fail; with a positive MA240 the close passes iff it is within 50% of MA240 (inclusive); a negative MA240 leaves the band empty and a zero one admits only a zero close |
| WaveIndicators.HighPos | scripts/wave_analysis.py:225-231 | the high's position lies in the last 20 bars |
| WaveIndicators.PostHigh | scripts/wave_analysis.py:233 | the post-high slice holds 1 to 10 bars |
| WaveIndicators.WavePatternMissing | scripts/wave_analysis.py:221-232 | no pattern iff fewer than 30 bars, or the last bar's high is strictly above every other high in the 20-bar window |
| WaveIndicators.WaveHigh | scripts/wave_analysis.py:225-232 | wave3_high is the 20-bar high and lies on a bar before the last |
| WaveIndicators.WaveLow | scripts/wave_analysis.py:233-234 | wave4_low is the lowest low from the high bar through at most nine bars after it |
| WaveIndicators.FibLevelsOrdered | scripts/wave_analysis.py:238-246 | fib_382 ≤ fib_236 ≤ wave3_high, and a close in the zone lies inside the swing |
| WaveIndicators.WaveZoneAndRebound | scripts/wave_analysis.py:238-249 | IdentifyWavePattern: over a swing with wave4_low below wave3_high, in the zone iff the close has retraced between 23.6% and 38.2% of the swing, both inclusive; with no swing, iff the close equals the high; rebound iff the last close is above the one before |
| WaveScreen.WeightedSumBounds | scripts/wave_analysis.py:309-318 | a weighted flag sum is at most the total weight and equals it iff every positively weighted flag holds |
| WaveScreen.AccumulateScore | scripts/wave_analysis.py:309-318 | the nine `if ...: score += w` steps compute the weighted score |
| WaveScreen.ScoreRange | scripts/wave_analysis.py:309-320 | the score is at most 15, reached iff all nine signals hold |
| WaveScreen.SelectionNeedsHeavySignal | scripts/wave_analysis.py:309-325 | a score of 7 or more needs the Fibonacci, Bollinger, RSI or golden-cross signal |
| WaveScreen.ProcessStockSelects | scripts/wave_analysis.py:270-342 | ProcessStock: a record iff 52 weekly bars and score ≥ 7, carrying that score (7..15), the RSI and wave data, and fib-zone and rebound flags whose conjunction is the Fibonacci signal |
| WaveScreen.RunWaveAnalysis | scripts/wave_analysis.py:494-515 | the run keeps exactly the records of the workers over the filtered (code, cap) pairs, in order |
| WaveScreen.SelectedRecordsQualify | scripts/wave_analysis.py:494-515 | every selected record is for a listed eligible code, scored 7..15, screened with that code's cap |
| WaveScreen.MissingCapNeverPassesFloor | scripts/wave_analysis.py:182-187 | a code without cap history is screened with 0 and fails the 300-billion floor |
| Breakout.FirstWorkdayOfMonth | scripts/potential_stock_finder.py:20-23 | the first Monday–Friday of the month: day 1, 2 or 3, with any earlier day on a weekend |
| Breakout.NextWeekday | scripts/potential_stock_finder.py:22 | consecutive days have consecutive weekdays in the calendar the business-day range uses |
| Breakout.VolumeSpikeIff | scripts/potential_stock_finder.py:25-35 | VolumeSpike: with 11 bars, the baseline is the 10 bars before the latest, and a spike iff 10·latest > 2·their total |
| Breakout.MarketCapFloor | scripts/potential_stock_finder.py:37-45 | PassesMarketCap: 500 billion won passes, one won less fails, and a larger cap never fails where a smaller passes |
| Breakout.ChecksNeedHistory | scripts/potential_stock_finder.py:25-79 | VolumeSpike fails with at most one bar; CloseToMa240 fails with fewer than 240 bars or a zero MA240; MaTransition fails with fewer than 60 bars |
| Breakout.CloseToMa240Band | scripts/potential_stock_finder.py:47-61 | CloseToMa240: with a positive MA240, the check holds iff 0.9·MA240 < close < 1.1·MA240 |
| Breakout.MaTransitionIsMa20AboveMa60 | scripts/potential_stock_finder.py:63-79 | MaTransition: with 60 bars the transition holds iff the latest MA20 is above the latest MA60 (the crossover adds nothing) |
| Breakout.InstitutionalBuyingIff | scripts/potential_stock_finder.py:81-97 | InstitutionalBuying: true iff the table is non-empty, has both columns, and the last 20 net buys total above 0 |
| Breakout.ProcessStockIsAndGate | scripts/potential_stock_finder.py:99-127 | ProcessStock: the code comes back iff 60 bars and all five checks pass |
| Breakout.RunBreakoutAnalysis | scripts/potential_stock_finder.py:263-287 | the run keeps the returned codes in order and lines each up with its own name |
| Breakout.SelectedAreFiltered | scripts/potential_stock_finder.py:277-286 | every selected code is a filtered code whose own worker returned it |
| Breakout.SelectedCodesQualify | scripts/potential_stock_finder.py:263-287 | every selected code is listed, eligible, has a cap history with latest cap ≥ 500 billion, and passes every check |
| Tqqq.AnalyzeTqqq | scripts/tqqq_analysis.py:41-75 | no result iff the history is missing or empty; otherwise it reports the latest close |
| Tqqq.SplgIffAboveEnvelope | scripts/tqqq_analysis.py:63-64 | with 200 positive closes, SPLG iff close ≥ envelope |
| Tqqq.NegativeDiffIffSgov | scripts/tqqq_analysis.py:59-60 | diff < 0 iff the recommendation is SGOV |
| Tqqq.RecommendCases | scripts/tqqq_analysis.py:59-64 | Recommend: with an average m, SGOV iff close < m, TQQQ iff m ≤ close < 1.10·m, SPLG iff close is at or above both; a NaN average gives SPLG |
| Tqqq.RecommendationMonotone | scripts/tqqq_analysis.py:59-64 | for a fixed positive MA200, a higher close never moves the recommendation back along SGOV, TQQQ, SPLG |
| Tqqq.ShortHistoryRecommendsSplg | scripts/tqqq_analysis.py:47-64 | as written, 1 to 199 closes give SPLG with no MA200 and no envelope |
| Tqqq.AnalyzeTqqqGuarded | scripts/tqqq_analysis.py:41-75 | the guarded analysis returns the as-written result whenever it returns one |
| Tqqq.GuardedSplgMeansAboveEnvelope | scripts/tqqq_analysis.py:59-64 | with the guard, no result iff the history is missing or shorter than 200; SPLG iff close is at or above both the envelope and MA200 |
| Tqqq.FormatTqqqMessage | scripts/tqqq_analysis.py:120-121 | a missing result gives the fixed failure text, any other the report of that result |
| Tqqq.ShortHistoryReportsFailure | scripts/tqqq_analysis.py:120-121 | with the guard, a short history is reported with the failure text |

## Left out

- Market-data calls become parameters:
  - the pykrx ticker list is the `codes` input; names, OHLCV, market cap and trading by investor are `nameOf`, `weeklyOf`/`dailyOf`, `capOf` and `dailyOf`;
  - the yfinance history is the `history` argument.
- The weekly `resample('W')` calendar bucketing is an input. `WeeklyBars` takes the buckets.
- The Bollinger %B needs a 20-week standard deviation, which requires a square root. It is the `bandSd` input of `WeeklyInput`. A zero deviation gives a NaN %B, which compares false.
- `Pool`/`tqdm` fan-out is modelled as a sequential map in input order.
- The ticker listing is called with a date only and no market argument, so which market pykrx lists by default is outside the model; the listing is the `codes` input.
- These are not modelled:
  - `save_to_database`;
  - `format_wave_message` and `format_stock_message`;
  - the report branch of `format_tqqq_message`, which is float formatting;
  - utils/database.py and utils/telegram_service.py;
  - the schedulers, `should_run`/`main` loops and main.py;
  - config/config.py;
  - `generate_tqqq_chart` (matplotlib).
- `print` logging and the outer `try/except` of each run are not modelled. Each check is a total function returning its fallback value.
- Floats are exact reals. Rounding and infinities are not modelled. An RSI with no losses and some gains is 100, as pandas' infinite RS gives; a window with no movement is 0/0, NaN in pandas and `None` in the model.
- Python's None RSI and a NaN RSI are both `None`.
- The DataFrame columns that the indicator functions append are not modelled. Only the values the screeners read are.
- WaveIndicators.CalculateObv: the pandas chained assignment `df['obv'].iloc[i] = ...` is modelled as an in-place write to a fresh array. Whether pandas' copy-on-write mode writes through to the frame is not modelled.
- WaveIndicators.CheckVolumeTrend: the `vol_increasing` flag is computed and characterised by VolumeTrendIff, but no screener reads it.
- WaveIndicators.Ewm: requires a span of at least 1. The source always passes 12, 26 or 9.
- Breakout.FirstWorkdayOfMonth: months outside 1..12 and years outside pandas' timestamp range raise in the source. The model requires a valid month and uses an unbounded proleptic Gregorian calendar.
- The retry/backoff data adapter and the alternate rule sets (market-cap ceiling, stacked MAs, pattern-gated Fibonacci) do not appear in the modelled scripts.

## Findings

| source | as written | input that shows it | evidently intended | confidence | as-written member | corrected member |
|---|---|---|---|---|---|---|
| scripts/tqqq_analysis.py:47-64 | with fewer than 200 closes MA200 and the envelope are NaN; both comparisons are false and the `else` branch recommends SPLG, the branch commented "above the envelope" | any history of 1 to 199 closes, e.g. a single close of 50.0 | report insufficient data (as a missing history is reported) rather than recommend SPLG without an envelope | medium, not executed | Tqqq.ShortHistoryRecommendsSplg | Tqqq.GuardedSplgMeansAboveEnvelope |
