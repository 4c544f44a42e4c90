# Toram-Stock price analytics, modelled in Dafny

Toram-Stock tracks player-market prices of Toram Online items. Trades are rows of
time, item, attribute and unit price, kept in a spreadsheet. This project models the
analytics core:

- **Loading.** The loader cleans the raw rows. It parses the Chinese twelve-hour
  timestamps, drops incomplete rows, assigns one of eight categories, sorts by time
  and sets a unit volume. It also selects one item's rows, optionally within a date
  range.
- **Patterns and events.** `detect_patterns` finds head-and-shoulders, double
  top/bottom, triangles and channels from the local extrema. When none of them
  matches, a whole-series safety-net entry is added. `detect_events` reports a
  new high or low and a surge on the last row.
- **Trend.** `analyze_trend` derives a direction, strength, confidence, forecast
  and reversal risk from a least-squares fit over the last 30 prices.
- **Regression.** `calculate_r_squared` computes the R² and fitted values of the
  least-squares line over positions 0..n-1.
- **Support and resistance.** `find_support_resistance` clusters peak and trough
  prices and rounds them to thousands.
- **Daily report.** For every item traded in the last day, it computes the change
  since a day ago, updates the up/down counters and collects pattern and event
  tags. It then selects, sorts and formats the highlights.
- **Price page.** The price-tracking page has its own category rule and orders the
  category choices. It shows a latest-price delta and an above/below-average status
  column.

Prices are exact `real`s. Series are `seq<real>`.

The modules follow the source files:

| module | file | what it holds |
|---|---|---|
| `Preprocess` | `preprocess.dfy` | `utils/preprocess.py` |
| `Patterns` | `patterns.dfy` | `analysis/patterns.py` |
| `Trend` | `trend.dfy` | `analysis/trend.py` |
| `Regression` | `regression.dfy` | `utils/regression.py`, and the least-squares algebra behind `linregress` and `np.polyfit` |
| `SupportResistance` | `support_resistance.dfy` | `analysis/support_resistance.py` |
| `DailyReport` | `daily_report.dfy` | the analysis loop and the embed fields of `daily_report.py` |
| `App` | `app.dfy` | the page rules of `work/app.py` |
| `Wrappers`, `Stats`, `Text`, `Lists`, `Sorting` | | shared vocabulary |

The shared vocabulary is `Option`, sums and means, substring search, filters and a
stable insertion sort.

How the code is written in Dafny:

- **Patterns and support/resistance.** The parts that accumulate step by step are
  methods proved equal to a specification function. `detect_patterns` is split
  into one method per section. `detect_events` and the `cluster_levels` loop are
  methods as well.
- **Loader.** `load_data` is a method that produces the cleaned, sorted frame.
- **Daily report.**
  - Each step of the per-item loop is its own method: the counters, the two tag
    loops (the pattern loop keeps the inner `break`), the highlight decision and
    the field loop.
  - Their invariants tie each step to the functions `StatsOver`, `HighlightsOver`,
    `PatternTags` and `EventTags`.
  - Lemmas then give the meaning of those functions, e.g. `StatsCounts`,
    `ItemTagsIff` and `ReportOrder`.
- **Trend and regression.** These are pure functions with lemmas.

## Model

| member | source | states |
|---|---|---|
| Preprocess.Hour | utils/preprocess.py:23-24 | the hour of the day read from a timestamp is below 24 |
| Preprocess.HourAcrossHalfDay | utils/preprocess.py:23-24 | adding or subtracting twelve hours moves the hour of the day by twelve, modulo 24 |
| Preprocess.TwelveHourClock | utils/preprocess.py:19-25 | with a 上午/下午 marker, the markers are removed and the rest is parsed. A parse failure gives no time. A PM hour other than 12 gains 12 hours. An AM hour of 12 becomes 0. Every other hour is kept. The result is the parsed time or the parsed time ±12 h |
| Preprocess.AfternoonIsLate | utils/preprocess.py:19-23 | a 下午 time parsed as 1 to 11 o'clock lands on 13 to 23 o'clock |
| Preprocess.UnmarkedUsesDashes | utils/preprocess.py:26-28 | without a marker, the parser sees the stripped text with every "/" replaced by "-" |
| Preprocess.GetCategory | utils/preprocess.py:38-49 | the category is always one of the eight labels |
| Preprocess.CategorizeIsFirstMatch | utils/preprocess.py:42-49 | the if-chain equals a first-match classifier over the rule table 武器, 防具, 追加, 特殊, 通用, 外觀, holes; the default is 其他雜項 |
| Preprocess.FirstMatchIsEarliest | utils/preprocess.py:42-49 | the first-match classifier returns the label of the earliest applicable rule, or the default when no rule applies |
| Preprocess.LoadData | utils/preprocess.py:11-59 | fewer than 4 columns give the empty frame and "欄位不足". Otherwise there is no error and the frame is the cleaned rows sorted by time |
| Preprocess.CleanRowIff | utils/preprocess.py:14-51 | a row survives exactly when item and price are present and the time and the price both convert. A survivor keeps its item and attribute, takes the converted time and price, gets GetCategory's label and has volume 1 |
| Preprocess.Clean | utils/preprocess.py:14-35 | cleaning never adds rows |
| Preprocess.CleanMembers | utils/preprocess.py:14-35 | the cleaned rows are exactly the cleaned forms of the surviving input rows |
| Preprocess.CleanConcat | utils/preprocess.py:14-35 | cleaning keeps file order: cleaning a concatenation is concatenating the cleaned pieces |
| Preprocess.LoadedShape | utils/preprocess.py:51-55 | the loaded frame is sorted by time and is a permutation of the cleaned rows; rows with equal times keep their file order. Every row has volume 1 and its own category |
| Preprocess.FilterAndPrepareIsOneFilter | utils/preprocess.py:63-68 | selecting the item and then the date range equals one filter on both conditions |
| Preprocess.FilterAndPrepareRows | utils/preprocess.py:63-68 | every kept row has the item. When both bounds are given, every kept row lies inside the closed range. Every such input row is kept |
| Preprocess.FilterAndPrepareConcat | utils/preprocess.py:63-68 | relative order is preserved: filtering a concatenation is concatenating the filtered pieces |
| Patterns.ExtremumIff | analysis/patterns.py:21-22 | position i is a peak (trough) exactly when 0 < i < n-1 and it is strictly above (below) every other price within `window` positions |
| Patterns.Extrema | analysis/patterns.py:21-22 | every extremum position lies inside the series |
| Patterns.ExtremaMembership | analysis/patterns.py:21-26 | the extremum list holds exactly the extremum positions, strictly increasing |
| Patterns.ExtremaApart | analysis/patterns.py:21-22 | two extrema of the same kind are more than `window` positions apart |
| Patterns.ShoulderSection | analysis/patterns.py:29-51 | section A equals the head-and-shoulders rule on the extrema of one kind |
| Patterns.DoubleSection | analysis/patterns.py:61-77 | section B equals the double rule on the extrema of one kind |
| Patterns.TrendLineSection | analysis/patterns.py:80-118 | section C equals the trend-line rule with the least-squares slopes through the last five peaks and troughs |
| Patterns.SafetyNet | analysis/patterns.py:121-137 | section D produces one entry spanning 0..n-1 whose kind is the safety-net classification |
| Patterns.DetectPatterns | analysis/patterns.py:7-139 | the pattern list equals the specification `PatternsSpec` |
| Patterns.HeadShouldersIff | analysis/patterns.py:29-51 | on 15 or more points, a head-and-shoulders entry is present exactly when there are at least three extrema, the middle of the last three beats the other two and the shoulders differ by less than 15% of their average. It spans the first to the third and carries the shoulder line |
| Patterns.DoubleIff | analysis/patterns.py:54-77 | on 15 or more points, a double entry is present exactly when there are two extrema and `is_double_pattern` holds on the last two. It spans them |
| Patterns.DoubleSymmetric | analysis/patterns.py:54-59 | the double test does not depend on which extremum is last |
| Patterns.DoubleOfEqualPrices | analysis/patterns.py:56-59 | two equal prices form a double exactly when they are positive |
| Patterns.LineKindIff | analysis/patterns.py:94-118 | triangle, ascending channel and descending channel are chosen exactly under their slope thresholds; the result is always a trend-line kind |
| Patterns.AtMostOneTrendLine | analysis/patterns.py:80-118 | at most one trend-line entry. It needs three peaks and three troughs, and spans from the smaller first index to the larger last index of the last five of each |
| Patterns.FallbackKind | analysis/patterns.py:121-137 | the safety net always yields a safety-net kind |
| Patterns.RallyExcludesSellOff | analysis/patterns.py:130-133 | a series cannot both rally and sell off |
| Patterns.SharpRiseIsRally | analysis/patterns.py:122-131 | a positive series ending more than 30% above its start is a rally |
| Patterns.SteadySeriesConsolidates | analysis/patterns.py:122-135 | a constant positive series is a consolidation |
| Patterns.FallbackIffNothingMatched | analysis/patterns.py:121-137 | on 15 or more points the safety net fires exactly when no specific rule matched. It then returns one entry spanning 0..n-1, and the list is never empty |
| Patterns.PatternSpans | analysis/patterns.py:9-16 | fewer than 15 points give the empty list; every entry satisfies 0 <= start <= end <= n-1 |
| Patterns.MatchedShape | analysis/patterns.py:28-118 | the specific rules give entries inside the series and never a safety-net kind |
| Patterns.PatternsFromParts | analysis/patterns.py:28-137 | every returned entry comes from one of the specific rules or is the safety-net entry |
| Patterns.MatchedReturned | analysis/patterns.py:15-118 | on 15 or more points every entry of the specific rules is returned |
| Patterns.Changes | analysis/patterns.py:153 | the differences have one element fewer than the series and are the step-to-step changes |
| Patterns.ChangeVariance | analysis/patterns.py:166-171 | the sample variance of the changes (0 when undefined) is not negative |
| Patterns.RecordEvent | analysis/patterns.py:156-163 | at most one new-high or new-low event, at the last row |
| Patterns.SurgeEvent | analysis/patterns.py:166-177 | at most one surge event, at the last row |
| Patterns.DetectEvents | analysis/patterns.py:142-183 | the event list equals the specification `EventsSpec` |
| Patterns.EventsShape | analysis/patterns.py:146-177 | an empty series gives no events. Otherwise at most two events, all at the last row's label, never both a new high and a new low |
| Patterns.NewHighLowIff | analysis/patterns.py:156-163 | a new high exactly when the last price is the maximum. A new low exactly when it is the minimum and not also the maximum |
| Patterns.SurgeDirection | analysis/patterns.py:175-176 | an upward surge follows a rise and a downward surge follows a fall |
| Patterns.SurgeIffVariance | analysis/patterns.py:166-175 | given the standard deviation of the changes, a surge happens exactly when the last change squared exceeds nine variances and its size exceeds 1% of the mean price |
| Patterns.FlatSeriesEvents | analysis/patterns.py:156-177 | a flat series reports exactly one new high and never surges |
| Trend.WindowSize | analysis/trend.py:12 | N is the series length capped at 30 |
| Trend.StrengthOf | analysis/trend.py:33-35 | strength lies in [0, 100] and is 50 when the standard deviation is not positive |
| Trend.ConfidenceOf | analysis/trend.py:38 | confidence lies in [0, 100] and is r² in percent, truncated |
| Trend.MovingAverageBounds | analysis/trend.py:45 | the moving average of the last 20 prices (or of the whole shorter window) lies between the window's minimum and maximum |
| Trend.AnalyzeTrend | analysis/trend.py:7-62 | fewer than 5 points give the insufficient-data record. Otherwise: a direction, a risk and a forecast; strength and confidence in [0, 100]; distance "待計算"; `R_squared` None |
| Trend.LinearFit | analysis/trend.py:19-21 | linregress over x = 0..N-1 on a window lying on a non-flat line m·x + c reports r² = 1 and intercept c |
| Trend.FlatFit | analysis/trend.py:19-21 | linregress on a window of equal prices reports slope 0 and r² = 0 |
| Trend.DirectionThresholds | analysis/trend.py:24-29 | rising exactly when the slope exceeds 0.05·mean/N. Falling exactly when it is below the negative threshold. Sideways otherwise |
| Trend.DirectionFollowsSlope | analysis/trend.py:24-27 | for non-negative prices, rising needs a positive slope and falling a negative one |
| Trend.StrengthRule | analysis/trend.py:33-35 | strength is 50 when the standard deviation is 0. Otherwise it is 100 or the truncation of 200·\|slope\|·r²/sd |
| Trend.StdZeroIffFlat | analysis/trend.py:34-35 | the window's standard deviation is 0 exactly when its prices are all equal |
| Trend.DeviationZeroIffFlat | analysis/trend.py:34-35 | a non-negative square root of a series' sample variance is 0 exactly when the series is constant |
| Trend.ConfidenceAndForecast | analysis/trend.py:38-42 | confidence is truncated r²·100. The forecast is p_value·(N+7) + intercept when confidence exceeds 50, else the last price |
| Trend.RiskRule | analysis/trend.py:45-51 | overbought exactly when rising and last > 1.05·MA. Oversold exactly when falling and last < 0.95·MA. Low otherwise |
| Trend.OverboughtAboveAverage | analysis/trend.py:48-49 | for non-negative prices, an overbought warning puts the last price above the moving average |
| Trend.OnlyRecentPricesMatter | analysis/trend.py:12-16 | prepending older prices to 30 or more prices changes nothing |
| Trend.LinearWindowFullConfidence | analysis/trend.py:21-42 | a window on a non-flat line m·x + c gives confidence 100, linregress's intercept is c, and the forecast is p_value·(N+7) + c |
| Trend.FlatSummaries | analysis/trend.py:34-45 | a window of equal prices v has standard deviation 0, and its mean, moving average and last price are all v |
| Trend.FlatWindow | analysis/trend.py:21-51 | a flat window gives strength 50, confidence 0 and the last price as forecast. It is sideways with low risk for non-negative prices, and rising and overbought for a negative constant |
| Regression.Fitted | utils/regression.py:14-15 | the fitted values have the series' length and lie on the least-squares line |
| Regression.Residuals | utils/regression.py:20 | the residuals are y minus the line's value, pointwise |
| Regression.LeastSquares | utils/regression.py:14-15 | no line has a smaller sum of squared errors than the least-squares line |
| Regression.CauchySchwarz | utils/regression.py:18-21 | Sxy² <= Sxx·Syy |
| Regression.RSquaredBounds | utils/regression.py:18-21 | linregress's r² lies in [0, 1] |
| Regression.UtilityAgreesWithLinregress | utils/regression.py:18-21 | when the x values spread, 1 - SSres/SStot (0 for a flat series) equals Sxy²/(Sxx·Syy) |
| Regression.ExactLine | utils/regression.py:14-20 | a noiseless line is recovered exactly and leaves no residual |
| Regression.ExactLineFullFit | utils/regression.py:14-21 | a noiseless non-flat line has r² = 1 under both formulas |
| Regression.FlatSeries | utils/regression.py:21 | a flat series gets slope 0, intercept equal to its value and r² = 0 under both formulas |
| Regression.CalculateRSquaredBounds | utils/regression.py:6-23 | fewer than 2 points give (None, None). Otherwise R² lies in [0, 1] and is 0 for a flat series, and the fitted values lie on the least-squares line over 0..n-1 |
| SupportResistance.PeakProminence | analysis/support_resistance.py:18 | records the prominence argument only (no member uses it, since peak positions are inputs): 0.3 standard deviations, between 0 and the standard deviation |
| SupportResistance.PeakDistance | analysis/support_resistance.py:18 | records the distance argument only (no member uses it, since peak positions are inputs): ⌊n/20⌋ when that is positive, else 5 |
| SupportResistance.RoundHalfEven | analysis/support_resistance.py:39 | the nearest integer: within one half, ⌊x + 0.5⌋ off a tie, and the even neighbour at a tie |
| SupportResistance.RoundThousands | analysis/support_resistance.py:39 | the nearest multiple of 1000: within 500, the nearer one off a tie, and an even number of thousands at a tie (2500 gives 2000) |
| SupportResistance.RoundThousandsMonotone | analysis/support_resistance.py:39 | rounding to thousands never reverses the order of two levels |
| SupportResistance.Clusters | analysis/support_resistance.py:27-38 | every cluster is non-empty |
| SupportResistance.WalkPrefix | analysis/support_resistance.py:29-37 | the loop state has a non-empty open cluster and non-empty closed clusters |
| SupportResistance.ClusterLevels | analysis/support_resistance.py:26-39 | the loop returns `ClusterLevelsSpec`, with None for the division by a zero cluster head |
| SupportResistance.ClustersShape | analysis/support_resistance.py:28-38 | the clusters, concatenated, are the sorted input. Each is a run whose members are within tolerance·first of its first member; the next level starts a new cluster |
| SupportResistance.ClusterCount | analysis/support_resistance.py:27-38 | empty maps to empty. Otherwise the result has between one and \|levels\| entries |
| SupportResistance.ClusterLevelsOrdered | analysis/support_resistance.py:28-39 | the cluster means strictly increase and the rounded levels never decrease |
| SupportResistance.ClusterFailsOnZero | analysis/support_resistance.py:33 | for non-negative levels, the division by zero happens exactly when there are two or more levels and one is 0 |
| SupportResistance.ClusterNotIdempotent | analysis/support_resistance.py:26-39 | [34000, 35100] clusters to [34000, 35000], which clusters again to [34000] |
| SupportResistance.Keep | analysis/support_resistance.py:46-47 | exactly the plausible levels are kept: supports below 1.05·mean, resistances above 0.95·mean |
| SupportResistance.KeepOrdered | analysis/support_resistance.py:46-47 | keeping levels preserves their order |
| SupportResistance.FindSupportResistance | analysis/support_resistance.py:7-52 | the result equals `SupportResistanceSpec` over the given peak and trough positions |
| SupportResistance.ShortSeriesExtremes | analysis/support_resistance.py:11-12 | fewer than 50 points report the series minimum and maximum, unrounded |
| SupportResistance.LongSeries | analysis/support_resistance.py:42-51 | otherwise the result is the last two kept supports and the first two kept resistances |
| SupportResistance.SideBounds | analysis/support_resistance.py:39-47 | the kept levels of one side are plausible, multiples of 1000 and ordered |
| SupportResistance.LevelsBounds | analysis/support_resistance.py:42-51 | at most two levels per side. Each is a multiple of 1000 and on the plausible side of the mean. Each side is ordered |
| DailyReport.ActiveItemsIff | daily_report.py:116-119 | an item is active exactly when one of its rows is at most a day old; each active item is listed once |
| DailyReport.PrevPriceIsLastBefore | daily_report.py:133-138 | the previous price is that of the last row at or before the cutoff, or of the first row when no row is |
| DailyReport.PrevRow | daily_report.py:133-136 | when some row is at or before the cutoff, there is a last such row and the previous price is its price |
| DailyReport.ChangePctSign | daily_report.py:140 | for a positive previous price the change is positive (negative) exactly when the price rose (fell). It is 0 when the previous price is 0 |
| DailyReport.Count | daily_report.py:143-145 | the counters after one assessed item are the tally of that item's change |
| DailyReport.StatsCounts | daily_report.py:129-145 | total counts the items with at least 5 rows. Up and down count those with positive and negative change. up + down <= total <= number of items |
| DailyReport.PatternTags | daily_report.py:161-166 | each pattern adds at most one tag |
| DailyReport.EventTags | daily_report.py:169-171 | each event adds at most one tag |
| DailyReport.PatternTagLoop | daily_report.py:161-166 | the keyword loop with its `break` yields `PatternTags` |
| DailyReport.EventTagLoop | daily_report.py:169-171 | the event loop yields `EventTags` |
| DailyReport.TaggedIff | daily_report.py:161-166 | a pattern text contains 頭肩, 雙重, 三角 or 通道 exactly when it is not a safety-net kind |
| DailyReport.MatchTagged | daily_report.py:161-166 | the text of every specific-rule kind holds one of the four keywords |
| DailyReport.FallbackUntagged | daily_report.py:161-166 | no safety-net text holds any of the four keywords |
| DailyReport.MilestoneIff | daily_report.py:170 | an event text contains 新高 or 新低 exactly for the new-high and new-low kinds |
| DailyReport.MatchesAllTagged | daily_report.py:161-166 | every specific-rule match is tagged, in order |
| DailyReport.PatternTagsAreMatches | daily_report.py:149-166 | the pattern tags are the labels of the specific-rule matches; a safety-net entry is never tagged |
| DailyReport.EventTagsAreRecords | daily_report.py:150-171 | the event tags are the new-high or new-low text, if any; surges never tag |
| DailyReport.RecordTagsIff | daily_report.py:169-171 | the events tag an item exactly when its last price is a record high or low |
| DailyReport.TagsFromIff | daily_report.py:149-171 | for any trend-line slopes, an item has tags exactly when it has 15 points and a specific pattern, or a record last price |
| DailyReport.ItemTagsIff | daily_report.py:149-171 | with the least-squares slopes, an item has tags exactly when it has 15 points and a specific pattern, or a record last price |
| DailyReport.Earned | daily_report.py:157-158 | a highlight exists exactly when the change is at least 10% in size or there is a tag; it records the item, price, change and tags |
| DailyReport.TagItem | daily_report.py:149-171 | running both detectors and both tag loops yields `ItemTags` |
| DailyReport.AnalyseItem | daily_report.py:130-180 | the loop body selects the item's rows, then yields the item's change and its highlight as `ItemChange` and `ItemHighlight` |
| DailyReport.AnalyseRows | daily_report.py:131-180 | on the item's rows: fewer than 5 give neither change nor highlight; otherwise the change and the highlight are `RowsChange` and `RowsHighlight` |
| DailyReport.CollectMembers | daily_report.py:174-180 | the collected values are exactly the present results of the items, at most one per item |
| DailyReport.HighlightsMembers | daily_report.py:129-180 | each highlight belongs to one visited item and every visited item's highlight is kept |
| DailyReport.Survey | daily_report.py:116-180 | the loop over the active items ends with `StatsOver` counters and `HighlightsOver` highlights |
| DailyReport.ReportOrder | daily_report.py:187-188 | the sorted highlights run by decreasing \|change\|, are a permutation of the highlights and keep the order of ties |
| DailyReport.BuildFields | daily_report.py:204-218 | one field per highlight, for the first eight only |
| DailyReport.TagDisplayShowsTags | daily_report.py:210-212 | the tag text is empty exactly when there are no tags, and shows every tag otherwise |
| DailyReport.BuildReport | daily_report.py:106-218 | an empty frame gives no report. Otherwise: counters `StatsOver`, highlights sorted by magnitude, fields for the first eight |
| App.CategoryVersionsDiffer | work/app.py:48-59 | the page and the loader disagree exactly when the page says 其他雜項 and the text contains 空洞; then the loader says 裝備 |
| App.HolesSplit | work/app.py:58 | the loader's hole keywords are the page's plus 空洞 |
| App.CustomOrderDistinct | work/app.py:77 | the fixed order lists eight distinct categories |
| App.SortedCategoriesPermutation | work/app.py:77-81 | the sorted categories are a permutation of the existing ones with every known one before every unknown one. The options add 全部顯示 in front |
| App.DeltaIff | work/app.py:100-104 | a delta is shown exactly when there are two prices and the last two differ; the raw difference it carries is non-zero and leads from the previous price to the latest (the shown text, rounded to a whole number, may read "0" or "-0") |
| App.StatusColumn | work/app.py:241-245 | one status per row, newest row first: row i is above average exactly when the i-th price from the end exceeds the mean |
| App.SomeRowNotAbove | work/app.py:242-245 | some row is always marked below average |
| App.AllBelowMeansFlat | work/app.py:242-245 | every row is marked below average only when all prices equal the mean |

## Left out

- **Reading the sheet.** `pd.read_csv`, `st.cache_data` and the `try/except` around `load_data` are left out.
  - The exception-text error path is left out.
  - The model takes the column count and the first four cells of each row as given.
- **Parsers as parameters.** `pd.to_datetime` and `pd.to_numeric` are parameters that may fail.
  - Timestamps are seconds.
  - The `except` in `parse_google_time` becomes a parse failure.
- **The page's loader.** `work/app.py:16-67` repeats the loader. It has the same time parser and the same cleaning, but its hole list differs and it has no Volume column. `ParseGoogleTime` serves both. Only the category difference is modelled (`App.AppCategory`).
- **Peak finding.** `scipy.signal.find_peaks` is not modelled.
  - Its peak and trough positions are inputs to `FindSupportResistance`.
  - Its prominence and distance arguments are modelled only as values (`PeakProminence`, `PeakDistance`). They only record the arguments; no other member uses them.
- **linregress.** `AnalyzeTrend` takes linregress's result as a parameter `fit`.
  - `LinregressOf` ties its slope, intercept and r² to the least-squares line over x = 0..N-1.
  - Its p_value is left free, because the t-distribution is not modelled.
- **Standard deviations.** They need a square root, so they are parameters:
  - `AnalyzeTrend` takes one that `StdOfWindow` ties to the window's sample variance.
  - `DetectEvents`, `TagItem`, `AnalyseItem`, `Survey` and `BuildReport` require only that the standard deviation of the changes is not negative. `stdOf` is a function of the item's prices.
  - `SurgeIffVariance` states the surge rule for the true standard deviation.
- **Sorting.** `sort_values` and `list.sort` are modelled by a stable insertion sort.
  - `sort_values` uses pandas' default quicksort, which is not stable. With equal timestamps the loaded order may differ from the model's.
  - `list.sort` in the report is stable, as modelled.
  - The page's table sorts by time descending (work/app.py:242). `StatusColumn` models it as the reversal of the loaded order; with equal timestamps pandas' order may differ.
- **Fused row steps.** `LoadData` applies the per-row steps (drop, parse, drop, convert, drop, categorise) row by row instead of column by column. The result is the same.
- **Unused trend result.** In the report loop, `analyze_trend`'s result is never read, so `AnalyseItem` does not compute it.
- **Network and display.**
  - `generate_ai_script`, the Discord webhook, the embed title, colour and thumbnail are left out.
  - The number formatting of field values is left out: fields carry the raw change and price.
- Trend.AnalyzeTrend: the forecast is the raw real, not the text `f"${forecast_price:,.0f}"` (analysis/trend.py:60), which rounds ties to even and adds thousands separators; string formatting is not modelled.
- App.DeltaIff: the delta is the raw difference, not the text `f"{diff:,.0f}"` (work/app.py:104); a difference of 0.3 is shown as "0" and -0.3 as "-0", which the model does not capture.
  - The Streamlit widgets, the Plotly charts, the item list sorting and the category filter of the page are left out.
- **Floating point.** IEEE rounding, NaN and infinities are not modelled; prices are exact reals.
  - An empty series in `find_support_resistance` (NaN extremes) is reported as no extremes.
  - A `window` below 1, which scipy rejects, is excluded by `requires w >= 1`.
- **Dead guard.** The trend-line guard `len(...) < 2` (analysis/patterns.py:85) cannot fire after the `>= 3` checks, so it is not modelled as a branch.
- Patterns.HeadShouldersIff, Patterns.DoubleIff, Patterns.AtMostOneTrendLine, Patterns.FallbackIffNothingMatched and DailyReport.TagsFromIff are stated for arbitrary trend-line slopes. `PatternsSpec` instantiates those slopes with the least-squares slopes; `DetectPatterns` and `ItemTagsIff` close that gap.
- **Quirks modelled as written.**
  - Confidence truncates with `int()` (analysis/trend.py:38).
  - The forecast multiplies `p_value`, not the slope, although the comment calls it a linear extrapolation (analysis/trend.py:40-42).
  - `R_squared` is always None (analysis/trend.py:62).
  - The peak prominence is 0.3 standard deviations (analysis/support_resistance.py:18).
  - `cluster_levels` defaults to a 1.5% tolerance (analysis/support_resistance.py:26), but both calls pass 3% (analysis/support_resistance.py:42-43).
  - Cluster means are rounded to thousands, ties to even (analysis/support_resistance.py:39).
- **Bad prices.** The source does not guard against a zero or negative price.
  - A zero cluster head makes `cluster_levels` raise. The model returns None for it (`ClusterFailsOnZero`).
  - A zero first price in the safety net gives numpy's signed infinity, or NaN when the last price is also 0. The model keeps that sign: the series is a rally when the last price is positive and a sell-off when it is negative.
