# Fund_Auto_Bot signal core in Dafny

This project models the computational core of Fund_Auto_Bot, a set of Python
scripts that watch Chinese open-end funds. Fetching data, storing it,
plotting, and pushing messages are left out. What remains is the small
quantitative pipeline that the scripts share:

- **Indicators** (`indicators.dfy`). These are the columns that
  `calculate_indicators` adds to a price history:
  - the daily change, split into gain and loss;
  - the gain and loss averages, `ewm(alpha=1/14, adjust=False)`;
  - RSI = `100 - 100/(1 + rs)`;
  - Bollinger bands: the 20-row mean ± 2 sample standard deviations.

  The daily report, the dashboard and the backtest all use this one
  definition.
- **Daily report** (`analysis.dfy`). For each fund with data, the last of its
  120 most recent rows is classified by a first-match rule: oversold, broke
  lower band, overheated, or watch.
- **Dashboard** (`dashboard.dfy`). The KPI strip and the advice box. The
  indicators are computed over the whole history before the display window
  is cut.
- **Backtest** (`backtest.dfy`). Rows keep their RSI, and rows with a missing
  value are dropped. The kept rows are replayed with an all-in / all-out
  position: buy below RSI 30, sell above 70. One portfolio value is recorded
  per row. At the end the strategy's return is compared with buy-and-hold.
- **Intraday job** (`realtime.dfy`):
  - `re.search(r'jsonpgz\((.*?)\);', text)` on the estimate service's JSONP
    reply;
  - the tactic board, which maps a fund name and estimated growth to an
    action and a colour;
  - the per-fund message lines.
- **Practice scripts**:
  - `market_radar.dfy`: a 5-day plus 20-day momentum score, the ranking, and
    the champion and loser.
  - `global_radar.dfy`: a 60-day window rebased to 1.0, total return, the
    ranking, and keyword commentary on the champion.
  - `compare_new.dfy`: a 30-day window rebased to 1.0, with each challenger
    judged against the coal fund.

  These build on `performance.dfy` (rebasing and momentum), `ranking.dfy`
  (descending sort, champion and loser) and `table.dfy` (DataFrame column
  assignment).

Number handling:
- Prices are exact reals.
- A NaN in an indicator column is `None`.
- Where the code divides and only compares the quotient, the quotient is a
  `Float`, which keeps the IEEE outcomes `inf`, `-inf` and `nan`. Comparisons
  with NaN are false, as in Python.
- Dafny has no real square root. The standard deviation therefore takes a
  `root` function as a parameter, and the properties that need it to be a
  square root say so.

Failure handling follows the code:
- **Daily report**: a fund without data is skipped.
- **Market radar**: a fund whose history is too short raises inside the
  `try` and is left out.
- **Dashboard**: an empty window fails at `data.iloc[-1]`, and a one-row
  window at `data.iloc[-2]`; either shows the error box, modelled as `None`.
- **Backtest**: a backtest that keeps no row fails at `iloc[-1]`, modelled
  as `None`. The code fails only on zero rows and runs normally on one, and
  the model follows the code.
- **Compare script**: a missing coal fund or an empty history makes the
  script fail, modelled as `None`.

The global radar and the compare script collect one DataFrame column per
fund with `df[name] = ...` (`table.dfy`). Assigning to a name that is
already a column replaces that column in place, so when two funds share a
name the later one wins. The model does the same.

## Model

| member | source | states |
|---|---|---|
| Indicators.Change | analysis.py:45 | the change is missing on the first row; on every other row it carries the previous price to the current one |
| Indicators.Gain | analysis.py:46 | the gain is the larger of the change and zero: non-negative, at least the change, and equal to one of them |
| Indicators.Loss | analysis.py:47 | the loss is the larger of the negated change and zero: non-negative, at least minus the change, and equal to one of them |
| Indicators.GainLossSplit | analysis.py:46-47 | gain and loss are non-negative, at most one of them is non-zero, gain minus loss is the change, and both are zero only for a zero change |
| Indicators.Gains | analysis.py:46 | one gain per defined change, each non-negative |
| Indicators.Losses | analysis.py:47 | one loss per defined change, each non-negative |
| Indicators.GainsLossesSplitChanges | analysis.py:45-47 | in every row of the gain and loss columns, gain minus loss is the price move into the row, and at most one of them is non-zero |
| Indicators.Ewm | analysis.py:48-49 | the average is seeded with the first input, and every later output moves the previous output a fourteenth of the way towards the new input |
| Indicators.SmoothIsAlphaStep | analysis.py:48-49 | that step is the convex update `(1 - 1/14) * prev + 1/14 * x` |
| Indicators.EwmWithinSeen | analysis.py:48-49 | the average at a position stays within any lower and upper bound of the inputs seen up to it |
| Indicators.EwmNonNegative | analysis.py:48-49 | on non-negative inputs the average is non-negative |
| Indicators.EwmZeroIff | analysis.py:48-49 | on non-negative inputs the average is zero exactly when every input seen so far is zero |
| Indicators.AvgGain | analysis.py:48 | the average gain of a row is non-negative |
| Indicators.AvgGainZeroIffNeverRose | analysis.py:46-48 | the average gain of a row is zero exactly when the price never rose up to that row |
| Indicators.AvgLoss | analysis.py:49 | the average loss of a row is non-negative |
| Indicators.AvgLossZeroIffNeverFell | analysis.py:47-49 | the average loss of a row is zero exactly when the price never fell up to that row |
| Indicators.GainsZeroIffNoRise | analysis.py:46 | the gains up to a row are all zero exactly when no price up to it is above the one before |
| Indicators.LossesZeroIffNoFall | analysis.py:47 | the losses up to a row are all zero exactly when no price up to it is below the one before |
| Indicators.RsiOf | analysis.py:50-51 | the float formula is defined exactly when the two averages are not both zero, and then lies in [0, 100] |
| Indicators.RsiAlgebra | analysis.py:50-51 | for a positive loss average, `100 - 100 / (1 + g / l)` equals `100 g / (g + l)` |
| Indicators.RsiIsGainShare | analysis.py:50-51 | where defined, RSI is the gains' percentage share `100 g / (g + l)` of all movement, so 100 when the loss average is zero |
| Indicators.Rsi | analysis.py:45-51 | row 0 has no RSI (its change is missing); every defined RSI lies in [0, 100] |
| Indicators.RsiMissingIffFlat | analysis.py:45-51 | a row's RSI is missing exactly when no price up to that row differs from the first price |
| Indicators.RsiFullWhenNoDecline | analysis.py:46-51 | the RSI is exactly 100 on a row when the price never fell up to it and rose at least once |
| Indicators.Mid | analysis.py:54 | the mean is missing on the first 19 rows; from the 20th row on, 20 times the mean is the sum of the 20 prices ending at the row |
| Indicators.Variance | analysis.py:55 | the sample variance is missing on the first 19 rows; from the 20th on it is non-negative and 19 times it is the sum of the squared deviations of the 20 prices from their mean (pandas' divisor n - 1) |
| Indicators.Std | analysis.py:55 | the standard deviation is missing exactly on the first 19 rows, and from the 20th on is the `root` function applied to the sample variance |
| Indicators.StdIsRoot | analysis.py:55 | from the 20th row on, given a square root, the standard deviation is non-negative and 19 times its square is the sum of the squared deviations of the 20 prices from their mean |
| Indicators.Upper | analysis.py:56 | the upper band is defined exactly when mean and deviation are, and lies two deviations above the mean |
| Indicators.Lower | analysis.py:57 | the lower band is defined exactly when mean and deviation are, and lies two deviations below the mean |
| Indicators.Frame | analysis.py:42-59 | the indicator frame has one row per price |
| Indicators.BandsDefinedFromTwentiethRow | analysis.py:54-57 | mid, std, upper and lower are all missing on the first 19 rows and all present from the 20th |
| Indicators.BandsSymmetricAndOrdered | analysis.py:56-57 | where the bands exist, upper lies exactly two standard deviations above the mean and lower exactly two below, and lower <= mid <= upper when the standard deviation is a square root of the variance |
| Indicators.FrameRsiBounded | analysis.py:50-51 | every RSI in the frame that is defined lies in [0, 100] |
| Indicators.FrameExtends | analysis.py:42-59 | a row depends only on the prices up to it: appending prices leaves the frame of the earlier rows unchanged |
| Analysis.DistToLower | analysis.py:128-131 | the distance is 0 when the lower band is missing, and otherwise the percent distance of the price above the band |
| Analysis.ReportSignal | analysis.py:133-137 | exactly one signal is chosen, and each signal holds exactly when its own test passes and all earlier tests fail |
| Analysis.OversoldIgnoresBands | analysis.py:135 | whether the signal is "oversold" does not depend on the band distance |
| Analysis.MissingBandNeverBreaks | analysis.py:128-136 | with the lower band missing, "broke lower band" cannot be signalled |
| Analysis.BreakMeansBelowBand | analysis.py:131-136 | with a positive lower band the distance is negative exactly when the price is below the band |
| Analysis.NegativeBandReadsAsBreak | analysis.py:131-136 | a negative lower band gives a negative distance for every positive price, which the rule reads as a broken band |
| Analysis.ShortSeriesNeverBreaks | analysis.py:54-136 | a fund with fewer than 20 prices never signals "broke lower band" |
| Analysis.FundLine | analysis.py:106-139 | a fund gets a line exactly when it has data; the line carries its name and the date of its last row |
| Analysis.FundLineReadsLatestRow | analysis.py:113-137 | the line's RSI is the RSI of the last of the fund's latest 120 prices, and its signal is the report rule applied to that RSI and to the distance of the last price above that row's lower band |
| Analysis.WithData | analysis.py:106-111 | the funds kept are exactly the configured funds that have data |
| Analysis.WithDataAppend | analysis.py:106-111 | the funds kept from a concatenation are those kept from each part, one after the other, so configuration order is kept |
| Analysis.Report | analysis.py:101-144 | the report has one line per fund with data, and each is that fund's line |
| Analysis.ReportInOrder | analysis.py:106-144 | the report of a concatenation of fund lists is the two reports one after the other |
| Analysis.ReportOfOneFund | analysis.py:106-144 | a single fund contributes its own line when it has data, and nothing otherwise |
| Analysis.NoDataNoReport | analysis.py:109-111 | when no fund has data the report is empty |
| Dashboard.Hint | dashboard.py:57-61 | the hint is "opportunity" exactly when the RSI is below 30; a missing RSI reads as normal |
| Dashboard.Dist | dashboard.py:64 | with no NaN guard, a missing band gives a NaN distance; otherwise the distance is the percent distance above the band |
| Dashboard.Advise | dashboard.py:80-87 | exactly one piece of advice is given, and each holds exactly when its own test passes and all earlier tests fail |
| Dashboard.BandBreakMeansBelowBand | dashboard.py:64 | with a positive lower band the distance is negative exactly when the price is below the band |
| Dashboard.AdviceAgreesWithReport | dashboard.py:80-87 | on the same indicator row the dashboard's advice is the daily report's signal under another name; the report's 0 and the dashboard's NaN for a missing band agree |
| Dashboard.View | dashboard.py:47-64 | the page shows KPIs exactly when both the history and the window have at least two rows; the hint and the advice follow the shown RSI and distance |
| Dashboard.ViewShowsLastPrice | dashboard.py:47-64 | cutting the window changes nothing shown: the net value, its change from the previous row, the RSI and the band distance are those of the last price of the whole history |
| Dashboard.ShownRowsIgnoreLaterPrices | dashboard.py:47-50 | the indicators shown for a date do not depend on how many later prices exist |
| Backtest.RsiColumn | backtest.py:38-44 | the RSI column has one entry per row, each defined value in [0, 100] |
| Backtest.Keep | backtest.py:46 | `dropna` from a row on keeps at most the remaining rows; every kept RSI lies in [0, 100] and every kept price is positive when all prices are |
| Backtest.Prepare | backtest.py:31-46 | `dropna` keeps fewer rows than the history has; every kept RSI lies in [0, 100]; kept prices are positive |
| Backtest.KeepIsSomes | backtest.py:46 | the rows kept from a position on are exactly the rows from there with a defined RSI, in order, each with its date, price and RSI |
| Backtest.PrepareIsDropna | backtest.py:31-46 | `prepare_data` keeps, in history order, exactly the rows after the first whose RSI is defined |
| Backtest.PrepareKeepsDefinedRows | backtest.py:31-46 | a bar is kept exactly when some row after the first has a defined RSI and the bar carries that row's date, price and RSI |
| Backtest.KeepAfterFirstMove | backtest.py:38-46 | when the second price differs from the first, every row but the first is kept, with its date and price |
| Backtest.Step | backtest.py:66-85 | a buy happens exactly when RSI < 30 and cash > 0; otherwise a sell happens exactly when RSI > 70 and shares > 0; on a quiet day the position is unchanged |
| Backtest.StepKeepsValue | backtest.py:69-88 | a trade at the day's price leaves the day's total value `cash + share * price` unchanged |
| Backtest.Value | backtest.py:88 | the day's value of an all-cash position is its cash, and of an all-shares position the shares times the price |
| Backtest.StepSwitchesState | backtest.py:69-84 | a buy moves all cash to all fund and a sell moves all fund to all cash; the position stays all cash or all fund |
| Backtest.Replay | backtest.py:60-89 | the replay records one value per row and at most one trade per row |
| Backtest.ReplayKeepsState | backtest.py:69-84 | over a whole replay the position stays all cash or all fund |
| Backtest.ReplayAlternates | backtest.py:69-84 | trades alternate, starting with the side the starting state allows |
| Backtest.ReplayBalance | backtest.py:69-84 | buys minus sells equals the change in "invested" from start to end |
| Backtest.Count | backtest.py:60-84 | no trade is counted on a side exactly when no trade has that side, and all are counted exactly when all have it |
| Backtest.CountSides | backtest.py:60-84 | every trade is counted as a buy or as a sell, never both |
| Backtest.ValuesArePositionValues | backtest.py:88-89 | each recorded value is the value, at that row's price, of the position held after that row's action |
| Backtest.EveryPositionFlatOrInvested | backtest.py:21-84 | from the starting position, after every row cash >= 0 and shares >= 0, and at least one of them is 0 |
| Backtest.NoDipNoTrade | backtest.py:69-89 | starting all cash with no row below RSI 30, nothing is traded and every recorded value is the starting cash |
| Backtest.Run | backtest.py:48-108 | a run gives a result exactly when some row is kept; its values and trades are those of the replay of the kept rows from all cash; the final value is the last value; the strategy's return is the growth from the initial cash to the final value, buy-and-hold's the growth from the first kept price to the last; the strategy is declared better exactly when its return is strictly greater |
| Backtest.Growth | backtest.py:94-99 | the percent change times the start is a hundred times the move from start to end |
| Backtest.GrowthBeats | backtest.py:93-108 | one percent change is greater than another exactly when the cross products of the end-over-start ratios say so |
| Backtest.OutcomeBeatsHold | backtest.py:93-108 | an outcome whose two returns are computed from the cash, the final value and the first and last prices is better than holding exactly when the final value times the first price exceeds the last price times the cash |
| Backtest.RunBeatsHoldIff | backtest.py:93-108 | the strategy is declared better exactly when its final value times the first kept price exceeds the last kept price times the initial cash |
| Backtest.RunAlternates | backtest.py:60-84 | a run's trades alternate buy, sell, buy, and so on, so buys minus sells is 0 or 1 |
| Backtest.RunWithoutDipBreaksEven | backtest.py:69-94 | with no kept row below RSI 30 there are no trades, the final value is the initial cash, and the return is exactly 0% |
| Backtest.Act | backtest.py:68-84 | the loop body on mutable cash and shares performs exactly one step of the strategy and logs its trade |
| Backtest.RunLoop | backtest.py:53-89 | the imperative loop produces the replay's values, trade log and final position |
| Realtime.CloseFrom | realtime.py:26 | the lazy group scan from a position finds where the group ends, or reports that it cannot end |
| Realtime.LocateFrom | realtime.py:26 | the search finds the leftmost start at or after a position where the pattern matches, or reports that there is none |
| Realtime.Extract | realtime.py:26-39 | the result is missing exactly when the pattern matches nowhere; otherwise it is the group of the leftmost match, which holds neither a newline nor `);` |
| Realtime.GroupHasNoClose | realtime.py:26 | a matched group contains neither a newline nor `);` |
| Realtime.ExtractWrapped | realtime.py:21-29 | wrapping a text free of newlines and of `);` in `jsonpgz(` and `);`, then extracting, gives the text back |
| Realtime.TacticFor | realtime.py:77-103 | green marks exactly the buy-side actions and red exactly the sell-side ones |
| Realtime.NoKeywordWatches | realtime.py:77-78 | a name with none of the keywords gets the default "watch" in black |
| Realtime.BrokerageRule | realtime.py:81-87 | for a name containing 证券: a golden pit exactly below -1.2, take-profit exactly above 2.0, the default exactly in between, whatever else the name contains |
| Realtime.CoalRule | realtime.py:91-98 | for a coal name without 证券: don't cut loss exactly below -3.0, trim exactly above 0.1, the default exactly in between |
| Realtime.NasdaqIgnoresGrowth | realtime.py:102-103 | a Nasdaq name without the other keywords is held long whatever the growth, and keeps the default colour |
| Realtime.Estimated | realtime.py:69-74 | every kept quote is an input quote with an estimate |
| Realtime.EstimatedKeepsEveryEstimate | realtime.py:69-74 | a quote is kept exactly when it is an input quote with an estimate |
| Realtime.EstimatedAppend | realtime.py:69-74 | the quotes kept from a concatenation are those kept from each part, one after the other, so configuration order is kept |
| Realtime.Lines | realtime.py:69-111 | one line per fund with an estimate, in order, carrying its name, growth and tactic |
| Realtime.Message | realtime.py:114-118 | a message is sent exactly when at least one fund got an estimate, and it holds all the lines |
| Numeric.Tail | practice_lab/global_radar.py:45 | `tail(n)` keeps the last n elements, or all of them when there are fewer |
| Performance.Rebase | practice_lab/global_radar.py:50-51 | a window can be rebased exactly when it is non-empty; the rebased series has the same length and starts at exactly 1.0 |
| Performance.RebaseScales | practice_lab/global_radar.py:50-51 | every rebased value times the first price gives back the price |
| Performance.RebaseKeepsOrder | practice_lab/global_radar.py:51 | rebasing keeps the order of any two prices |
| Performance.RebaseIgnoresScale | practice_lab/global_radar.py:50-51 | rebasing does not depend on the unit of the prices |
| Performance.TotalReturnOfWindow | practice_lab/global_radar.py:84 | the total return of a rebased window is `(last / first - 1) * 100`; it is positive exactly when the last price is above the first, and zero exactly when they are equal |
| Performance.Momentum | practice_lab/market_radar.py:41-49 | the n-day momentum exists exactly when the series has more than n prices |
| Performance.MomentumSign | practice_lab/market_radar.py:45-49 | momentum is zero exactly when the price is unchanged over the period, and positive exactly when it rose |
| Ranking.Insert | practice_lab/market_radar.py:64 | inserting into a non-increasing ranking keeps it non-increasing and adds exactly the new entry |
| Ranking.SortDescending | practice_lab/market_radar.py:64 | the ranking is a permutation of the entries, in non-increasing order of the key |
| Ranking.ChampionMaxLoserMin | practice_lab/market_radar.py:83-84 | a champion exists exactly when there are entries; champion and loser are entries, with the greatest and the least key respectively |
| MarketRadar.Measure | practice_lab/market_radar.py:41-56 | a fund gets an entry exactly when it has at least 21 prices; the entry carries its 5-day and 20-day momenta and their sum as its score |
| MarketRadar.Collect | practice_lab/market_radar.py:27-59 | at most one entry per fund, and one for every fund when all have enough history |
| MarketRadar.CollectComplete | practice_lab/market_radar.py:27-59 | every fund with at least 21 prices has its entry among those collected, and every collected entry is some fund's entry |
| MarketRadar.Rank | practice_lab/market_radar.py:62-64 | the ranking is a permutation of the collected entries, by non-increasing score |
| MarketRadar.ChampionAndLoser | practice_lab/market_radar.py:83-84 | the champion has the highest score of all collected entries and the loser the lowest; with no entry there is neither |
| Table.FindKey | practice_lab/global_radar.py:53 | the position found holds a column of the name, and none is found only when no column has it |
| Table.Assign | practice_lab/global_radar.py:53 | the assigned value becomes a column; a new name appends it as the last column |
| Table.AssignReplaces | practice_lab/global_radar.py:53 | on columns with distinct names, assigning keeps every column of another name, drops only the old column of the same name, and keeps the names distinct |
| Table.Columns | practice_lab/global_radar.py:36-56 | assigning a run of values leaves at most one column per value, and the last value assigned is always a column |
| Table.ColumnsDistinct | practice_lab/global_radar.py:36-56 | after a sequence of assignments no two columns share a name |
| Table.ColumnsCoverNames | practice_lab/global_radar.py:36-56 | every assigned name has a column |
| Table.NameHasColumn | practice_lab/global_radar.py:36-56 | the name of every assigned value is carried by some column |
| Table.ColumnsHoldLast | practice_lab/global_radar.py:36-56 | every column holds the last value assigned under its name |
| Table.ColumnHoldsLast | practice_lab/global_radar.py:36-56 | the value a column holds is at a position after which no present value carries the same name |
| Table.DistinctColumnsKeepAll | practice_lab/global_radar.py:36-56 | when no name is assigned twice, the columns are the assigned values in order |
| Numeric.SomesAppend | practice_lab/global_radar.py:36-56 | skipping the failed items keeps order: the kept values of a concatenation are those of each part, one after the other |
| GlobalRadar.Judge | practice_lab/global_radar.py:45-53 | a fund gets a standing exactly when it has prices, under its own name |
| GlobalRadar.StandingIsPercentChange | practice_lab/global_radar.py:45-84 | a fund's total return is the percent change over its last 60 prices, positive exactly when the last price is above the first |
| GlobalRadar.Standings | practice_lab/global_radar.py:36-56 | at most one standing per fund, and no two standings under the same name |
| GlobalRadar.StandingsComplete | practice_lab/global_radar.py:36-56 | every fund with prices has a standing under its name, and every standing is that of the last fund with prices carrying its name |
| GlobalRadar.DistinctNamesKeepEveryStanding | practice_lab/global_radar.py:36-56 | when fund names are distinct no column is replaced: the standings are the judged funds in configuration order |
| GlobalRadar.Rank | practice_lab/global_radar.py:84-85 | the ranking is a permutation of the standings, by non-increasing total return |
| GlobalRadar.ChampionHasBestReturn | practice_lab/global_radar.py:85-91 | a champion exists exactly when some fund was judged; it is one of the standings, and no standing has a greater total return |
| GlobalRadar.Commentary | practice_lab/global_radar.py:94-101 | the commentary is first-match: `AI` or `通信`, then `白银`, then `电池`; with no keyword there is none |
| CompareNew.Performance30 | practice_lab/compare_new.py:27-28 | a fund has a 30-day performance exactly when it has prices |
| CompareNew.PerformanceIsRatio | practice_lab/compare_new.py:27-28 | that performance is the last price of the 30-day window over its first |
| CompareNew.Judge | practice_lab/compare_new.py:50-54 | a challenger beats coal exactly when its performance is strictly greater, which is exactly when the difference is positive; a tie loses |
| CompareNew.DataColumns | practice_lab/compare_new.py:20-28 | the columns of `data` have distinct names and are at most one per fund |
| CompareNew.LastNamedHasColumn | practice_lab/compare_new.py:20-28 | a fund that no later fund renames over keeps its column |
| CompareNew.ColumnIsLastNamed | practice_lab/compare_new.py:20-28 | every column is a fund that no later fund renames over |
| CompareNew.NamedFundHasColumn | practice_lab/compare_new.py:20-28 | every fund name has a column |
| CompareNew.Lookup | practice_lab/compare_new.py:45 | the coal column is found when one carries its name, and reported missing only when none does |
| CompareNew.Verdicts | practice_lab/compare_new.py:48-54 | the coal column is never compared with itself, and there are no more verdicts than columns |
| CompareNew.VerdictsComplete | practice_lab/compare_new.py:48-54 | every column other than the coal column gets its verdict, and every verdict is such a column's |
| CompareNew.VerdictsAppend | practice_lab/compare_new.py:48-54 | the verdicts of two runs of columns are those of the first run followed by those of the second, so they follow column order |
| CompareNew.VerdictsOfOne | practice_lab/compare_new.py:48-54 | a single column gives exactly one verdict, its own, unless it is the coal column, which gives none |
| CompareNew.Compare | practice_lab/compare_new.py:20-54 | the comparison succeeds exactly when every fund has prices and the coal fund is present; no verdict is about the coal fund |
| CompareNew.CompareUsesLastCoal | practice_lab/compare_new.py:20-54 | the coal performance used is that of the last fund named like the coal fund |
| CompareNew.CompareLastWins | practice_lab/compare_new.py:20-54 | every challenger name is judged once, on its last fund, against the last coal fund, and nothing else is judged |
| CompareNew.SecondCoalFundReplacesFirst | practice_lab/compare_new.py:20-54 | with two funds named like the coal fund, the second replaces the first: a challenger ending at 1.5 beats a coal column ending at 1.0 by 50 points |
| CompareNew.BeatsIffBetterRatio | practice_lab/compare_new.py:27-51 | a challenger beats coal exactly when its last-over-first price ratio over 30 days is greater than coal's |

## Left out

- Data access is left out: the MySQL reads, the akshare fetches, HTTP requests, and pushing to WeChat. Histories, estimates and fund lists are parameters instead.
- Decoding the JSON body and the `float()` of `gszzl` are left out (`realtime.py:30-35`). An estimate is a parameter, and a fetch that fails is a missing estimate.
- Plotting, Streamlit widgets and caching, printing, and string formatting are left out. Report and message lines are records, and the joins with newline or `<br>` belong to the text layer.
- IEEE floating point is not modelled. Prices and averages are exact reals, so rounding, and the `inf` of `rs` when the loss average is zero, appear only through their comparisons.
- The square root is a parameter `root`, because Dafny reals have none.
- Prices are assumed positive: `AllPositive` in the `requires` of the price-dividing members. Net asset values are positive, and the code divides by them without a guard.
- Backtest.Run: requires a positive initial cash. The code's default is 1000, and 0 would divide by zero in the return.
- Backtest.Run: a single `Backtest` object reused for several runs keeps its cash and shares. That reuse is not modelled; each run starts all cash.
- Dashboard.View: the display window comes from a slider bounded to 30..365. The model accepts any window length, and the page's failure below two rows never arises through the slider.
- The report works on the latest 120 rows, while the dashboard and the backtest use the whole history. Each model reproduces its own script. The RSI of the same date can therefore differ between the report and the dashboard.
- Ranking.SortDescending: states only the order of the keys and the permutation, not where equal keys land, because pandas' default sort is not stable.
- GlobalRadar.Standings: assumes all funds share the same trading dates. pandas aligns columns on the date index when the funds are combined (`practice_lab/global_radar.py:53`), and that alignment is not modelled.
- CompareNew.Compare: assumes the same shared trading dates as the global radar (`practice_lab/compare_new.py:28`).
- Ranking.ChampionMaxLoserMin: with no entry the model has no champion. The scripts fail before that point: the market radar at `sort_values('综合得分')`, because a frame built from an empty list has no such column (`practice_lab/market_radar.py:64`), and the global radar at `combined_df.iloc[-1]` on a frame with no row (`practice_lab/global_radar.py:84`).
- `make_report.py`, `data_engine.py` and `main.py` are not part of this model. They generate a document, load data and orchestrate the jobs.
