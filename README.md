# Feature-panel construction, modelled in Dafny

This project models the feature-construction pipeline of a stock-movement predictor
(`src/feature_engineering/combine_data.py`). The pipeline turns cached daily prices and
cached, already-labelled news headlines into one machine-learning panel, in four stages:

1. **File selection.** `load_prices` and `load_news_with_sentiment` pick a ticker's file
   out of a cache directory listing: the first listed name that contains the ticker
   (module `CacheFiles`).
2. **Daily sentiment.** Each headline's timestamp is floored to its calendar day, and its
   label is mapped to +1, 0 or -1. The result is one row per day holding the mean score
   and the headline count (module `Sentiment`).
3. **Per-row features.** `create_features` computes `lag_1`, `lag_3`, `rolling_mean_3`,
   `rolling_std_5` and the forward return `target_return` by row position. It then
   left-joins the daily sentiment on the day, fills unmatched rows with 0, and drops rows
   whose `lag_1` or `target_return` is undefined (module `Features`).
4. **Panel assembly.** `build_full_panel` loops over the tickers, skips any ticker whose
   step raises, and concatenates the rest in ticker order. Concatenating nothing raises
   (module `Panel`).

The modelling choices:

- A cache directory is the sequence of its entries in listing order. Each entry holds a
  file name and the rows that file parses to.
- Days are integers counted from the epoch. Timestamps are integer UTC seconds.
- Prices and returns are exact `real`s.
- Undefined cells (pandas NaN) are `Option` values.
- A step that raises is a `Result` failure.
- The loaders, and with them the panel, take the file-name test as a parameter of type
  `CacheFiles.FileMatch`. `Substring` is the test the source applies (`ticker in name`),
  and every `...AsWritten` lemma states the source's behaviour under it. `TickerPrefix` is
  the corrected test described under Findings. Every other loader and panel contract
  holds for both.
- Stages 1 to 3 are whole-column expressions in the source, so they are functions with
  lemmas. Stage 4 is a loop that appends to a list, so it is a method whose loop
  invariant ties the list to a specification function. Lemmas about that function give
  the panel's properties.

The window of `rolling(3)` ends at the row itself and includes it
(combine_data.py:42). With closes 10, 11, 12, 11, 13, 14 on days 1 to 6, day 3 has
`rolling_mean_3` = (10 + 11 + 12) / 3 = 11 and day 4 has (11 + 12 + 11) / 3 = 34/3
(`Features.SixDayExample`).

## Model

| member | source | states |
|---|---|---|
| `CacheFiles.ContainsMeansOccurs` | src/feature_engineering/combine_data.py:11 | Python's `ticker in name` holds exactly when the ticker occurs at some position of the name |
| `CacheFiles.PickIsFirstMatch` | src/feature_engineering/combine_data.py:11 | the comprehension followed by `[0]` fails, with the missing-file error, exactly when no listed name matches; otherwise it yields the first matching entry of the listing |
| `CacheFiles.SelectAsWritten` | src/feature_engineering/combine_data.py:11 | the selection as the loaders write it; `CacheFiles.SelectAsWrittenIsFirstSubstringMatch` states its contract |
| `CacheFiles.SelectAsWrittenIsFirstSubstringMatch` | src/feature_engineering/combine_data.py:11 | selection as written fails iff no listed name contains the ticker as a substring, and otherwise returns the first listed entry that does |
| `CacheFiles.PrefixMeansCacheTicker` | src/data_loader/prices.py:32 | for a ticker without `_`, a name starts with `{ticker}_` exactly when the text before its first `_` is that ticker |
| `CacheFiles.SelectFile` | src/feature_engineering/combine_data.py:17 | the corrected selection; `CacheFiles.SelectFileFindsOwnFile` states its contract |
| `CacheFiles.Select` | src/feature_engineering/combine_data.py:11 | the selection under the chosen file-name test: `Substring` is `CacheFiles.SelectAsWritten`, `TickerPrefix` is `CacheFiles.SelectFile`; `CacheFiles.PickIsFirstMatch` states its contract |
| `CacheFiles.CacheTickerOfCacheName` | src/data_loader/news.py:46 | a cache name written as `{ticker}_{rest}` is read back as that ticker's file |
| `CacheFiles.SelectFileFindsOwnFile` | src/feature_engineering/combine_data.py:17 | corrected selection fails iff no listed file is named for exactly this ticker, and otherwise returns the first listed file that is |
| `CacheFiles.SelectFileFindsOnlyWhereAsWrittenFinds` | src/feature_engineering/combine_data.py:11 | the corrected selection never finds a file where the selection as written raises |
| `CacheFiles.SubstringMatchPicksAnotherTickersFile` | src/feature_engineering/combine_data.py:11 | with `AVGO_1.csv` listed before `V_1.csv`, ticker `V` gets AVGO's file as written and its own file when corrected |
| `Sentiment.Score` | src/feature_engineering/combine_data.py:26-27 | the label map sends every label into [-1, 1] |
| `Sentiment.FloorDay` | src/feature_engineering/combine_data.py:23 | the floored day `d` is the one whose 86400-second span `[d*86400, (d+1)*86400)` holds the timestamp, including timestamps before the epoch |
| `Sentiment.ScoresOn` | src/feature_engineering/combine_data.py:29-31 | a day's group is non-empty exactly when some headline falls on that day |
| `Sentiment.Insert` | src/feature_engineering/combine_data.py:29 | adding a day to an ascending list of distinct days keeps it ascending and distinct, and adds exactly that day |
| `Sentiment.GroupDays` | src/feature_engineering/combine_data.py:29 | the group keys are ascending and distinct, and are exactly the days some headline falls on |
| `Sentiment.Aggregate` | src/feature_engineering/combine_data.py:29-32 | the aggregated table lists exactly the days some headline falls on, each once, in strictly ascending order |
| `Sentiment.DayRowMeanAndCount` | src/feature_engineering/combine_data.py:29-32 | a day's row has a positive count equal to the size of that day's group, and a score equal to the group's sum divided by its count, which lies in [-1, 1] |
| `Sentiment.AggregateRows` | src/feature_engineering/combine_data.py:29-32 | each row of the aggregated table counts that day's headlines, a positive number, and its score is their mean, which lies in [-1, 1] |
| `Sentiment.AggregateCountsEveryHeadlineOnce` | src/feature_engineering/combine_data.py:29-32 | the headline counts of all rows add up to the number of input headlines, so each headline is counted in exactly one day |
| `Sentiment.ThreeHeadlinesOneDay` | src/feature_engineering/combine_data.py:26-32 | labels positive, positive and negative on one day give the single row (day, 1/3, 3) |
| `Sentiment.LoadNewsWithSentiment` | src/feature_engineering/combine_data.py:16-34 | loading succeeds exactly when the selection finds a news file, fails with the missing-file error otherwise, and yields the aggregate of that file's headlines: ascending days, exactly the days with headlines, counts adding up to the file's headline count |
| `Sentiment.LoadNewsAsWritten` | src/feature_engineering/combine_data.py:17-34 | as written, news loads exactly when some listed name contains the ticker, and the table is the aggregate of the first such file |
| `Features.LoadPrices` | src/feature_engineering/combine_data.py:10-14 | loading succeeds exactly when the selection finds a price file; it keeps that file's row count, days and closes, and stamps every row with the requested ticker |
| `Features.LoadPricesAsWritten` | src/feature_engineering/combine_data.py:10-14 | as written, prices load exactly when some listed name contains the ticker; they are the rows of the first such file, stamped with the requested ticker |
| `Features.LoadPricesReadsAnotherTickersFile` | src/feature_engineering/combine_data.py:11-13 | as written, ticker `V` with `AVGO_1.csv` listed before `V_1.csv` loads AVGO's rows stamped `V`; the corrected test loads V's own rows |
| `Features.SquaredDeviations` | src/feature_engineering/combine_data.py:43 | the sum of squared deviations behind `std` is never negative |
| `Features.RollingMean3Value` | src/feature_engineering/combine_data.py:42 | `rolling(3).mean()` at row t is (c[t-2] + c[t-1] + c[t]) / 3 for t >= 2 and undefined before |
| `Features.RollingVariance5Defined` | src/feature_engineering/combine_data.py:43 | the 5-row rolling deviation is defined exactly from row 4 on, and its variance is never negative |
| `Features.TargetReturnIsForwardReturn` | src/feature_engineering/combine_data.py:44 | `pct_change(1).shift(-1)` at row t equals (c[t+1] - c[t]) / c[t] for t < n-1 and is undefined on the last row |
| `Features.Featurize` | src/feature_engineering/combine_data.py:40-44 | the derived columns of every price row; `Features.RollingMean3Value`, `Features.RollingVariance5Defined`, `Features.TargetReturnIsForwardReturn` and `Features.KeptExactlyInner` state its contract |
| `Features.Lookup` | src/feature_engineering/combine_data.py:47 | the lookup finds a sentiment row of the requested day when one exists, and reports none only when no row has that day |
| `Features.MatchesIsLookup` | src/feature_engineering/combine_data.py:47 | with unique sentiment days, a price row matches at most one sentiment row, the one the lookup finds |
| `Features.IncreasingDaysAreUnique` | src/feature_engineering/combine_data.py:29-32 | an aggregated table in ascending day order never repeats a day, so it is a valid right side for the join |
| `Features.LeftJoin` | src/feature_engineering/combine_data.py:47 | the left merge; `Features.LeftJoinKeepsPriceRows` and `Features.LeftJoinUniqueDays` state its contract |
| `Features.LeftJoinKeepsPriceRows` | src/feature_engineering/combine_data.py:47 | whatever the sentiment table, the merge has at least as many rows as the prices, every price row appears in it, and every merged row is one of the price rows |
| `Features.LeftJoinUniqueDays` | src/feature_engineering/combine_data.py:47 | with unique sentiment days, the left merge keeps every price row exactly once and in order, each paired with the sentiment of its own day when there is one |
| `Features.FillMissing` | src/feature_engineering/combine_data.py:50-51 | `fillna(0)` on the sentiment columns; `Features.FilledRows` states its contract |
| `Features.FilledRows` | src/feature_engineering/combine_data.py:47-51 | after merge and `fillna(0)` there is one row per price row; a row whose day has sentiment carries its score and count, and any other row carries 0 and 0 |
| `Features.DropUndefined` | src/feature_engineering/combine_data.py:53 | `dropna` on `lag_1` and `target_return`; `Features.DropUndefinedKeepsExactly` and `Features.DropUndefinedInner` state its contract |
| `Features.DropUndefinedKeepsExactly` | src/feature_engineering/combine_data.py:53 | a row survives `dropna` exactly when both `lag_1` and `target_return` are defined; an undefined `lag_3` is not a criterion |
| `Features.DropUndefinedInner` | src/feature_engineering/combine_data.py:53 | when only the first and last rows lack `lag_1` or `target_return`, `dropna` returns the inner rows in order |
| `Features.KeptExactlyInner` | src/feature_engineering/combine_data.py:40-44 | before the drop, row t has both `lag_1` and `target_return` exactly when 0 < t < n-1 |
| `Features.CreateFeatures` | src/feature_engineering/combine_data.py:36-53 | `create_features`; `Features.CreateFeaturesRowsAreKept`, `Features.CreateFeaturesKeepsInnerRows` and `Features.CreateFeaturesRow` state its contract |
| `Features.CreateFeaturesRowsAreKept` | src/feature_engineering/combine_data.py:36-53 | whatever the sentiment table, every returned row has `lag_1` and `target_return` defined and is built on one of the price rows |
| `Features.CreateFeaturesKeepsInnerRows` | src/feature_engineering/combine_data.py:36-53 | `create_features` returns max(0, n-2) rows, and its row i is price row i+1 with its derived columns and filled sentiment |
| `Features.CreateFeaturesRow` | src/feature_engineering/combine_data.py:36-53 | output row i is price row i+1, with `lag_1` = c[i], `lag_3` = c[i-2] (undefined for i < 2), `rolling_mean_3` the mean of c[i-1..i+1] (undefined for i = 0), the 5-row deviation defined iff i >= 3, `target_return` = (c[i+2] - c[i+1]) / c[i+1], and that day's sentiment or 0 and 0 |
| `Features.ShortSeriesLeaveNoRows` | src/feature_engineering/combine_data.py:53 | a price series of at most two rows leaves no row |
| `Features.SixDayExample` | src/feature_engineering/combine_data.py:40-53 | closes 10, 11, 12, 11, 13, 14 without sentiment keep days 2 to 5, with the lags, rolling means, day-3 forward return -1/12 and zero sentiment stated |
| `Panel.LoadedPricesDivisible` | src/feature_engineering/combine_data.py:59 | prices loaded from a directory without zero closes can be divided by in `pct_change` |
| `Panel.TickerFeatures` | src/feature_engineering/combine_data.py:58-62 | a ticker's step succeeds exactly when the selection finds both a price file and a news file for it |
| `Panel.TickerBlockRows` | src/feature_engineering/combine_data.py:59-61 | a ticker's table has two rows fewer than the price file selected for it (none below two rows), and every row carries the requested ticker |
| `Panel.FullPanel` | src/feature_engineering/combine_data.py:55-65 | the panel the loop builds; `Panel.BuildFullPanel`, `Panel.PanelFailsIffNoTickerSucceeds`, `Panel.PanelKeepsTickerOrder` and `Panel.PanelRowsComeFromSucceededTickers` state its contract |
| `Panel.BuildFullPanel` | src/feature_engineering/combine_data.py:55-65 | the loop collects the tables of the tickers that did not fail, in list order, and returns their concatenation, or the concatenation error when there are none |
| `Panel.NoSuccessesIffAllFail` | src/feature_engineering/combine_data.py:56-64 | the list of collected tables is empty exactly when every ticker's step failed |
| `Panel.PanelFailsIffNoTickerSucceeds` | src/feature_engineering/combine_data.py:55-65 | the panel fails, with the concatenation error, exactly when the selection finds no ticker both files; this includes an empty ticker list |
| `Panel.PanelFailsAsWritten` | src/feature_engineering/combine_data.py:55-65 | as written, the panel fails exactly when, for every ticker, no price file name or no news file name contains it |
| `Panel.PanelKeepsTickerOrder` | src/feature_engineering/combine_data.py:57-65 | the panel rows for tickers `a + b` are the rows for `a` followed by the rows for `b` |
| `Panel.PanelRowsComeFromSucceededTickers` | src/feature_engineering/combine_data.py:57-65 | every panel row carries a ticker from the list for which the selection found both files, so a failing ticker contributes no row |

## Left out

- Listing a directory and reading a CSV file are not modelled. The directory listing, with each file's parsed rows, is an input. Parse errors are not modelled, and neither are date/timestamp dtypes or the mix of timezone-aware news timestamps with naive price dates.
- The `path.exists()` fallback at combine_data.py:19-20 is not modelled. It cannot be reached, because the file name comes from the listing itself.
- Of the exceptions the per-ticker `except` catches, the model has only the `[0]` on an empty match list. Missing columns, a failing merge and unreadable files are not modelled.
- Price columns other than the day and `adj_close` (open, high, low, close, volume) are not modelled. They pass through the pipeline untouched.
- Features.RollingVariance: the model keeps the sample variance of the 5-row window, not its square root. `rolling_std_5` is therefore modelled only as to when it is defined and as the variance it is the root of.
- Features.CreateFeatures: requires that no close it divides by is zero. With a zero close, pandas would give an infinite return, or NaN for 0/0, and the model does not follow that case.
- Panel.BuildFullPanel: requires that no price file holds a zero close where `pct_change` divides, for the same reason.
- Missing closes (NaN) and the forward-fill of `pct_change` are not modelled. Every close is present.
- Labels are the three-valued enumeration the classifier produces. Other label strings and missing labels would become NaN under `map` and are not modelled. The news cache written by `src/data_loader/news.py` holds no label column; the model takes labelled headlines as given, and whatever writes that column is not part of this model.
- `headline_count` is a natural number. The float dtype that `fillna` gives it is not modelled.
- Floating-point arithmetic is not modelled: means and returns are exact reals.
- The progress bar, the printed error message and `ignore_index` (renumbering the row index) are not modelled.
- Fetching prices and news, the sentiment classifier and the top-level training script are not part of this model.

## Findings

| source | as written | input that shows it | evidently intended | confidence | as-written member | corrected member |
|---|---|---|---|---|---|---|
| src/feature_engineering/combine_data.py:11 | both loaders (lines 11 and 17) take the first listed cache file whose name contains the ticker anywhere | ticker `V` with `AVGO_1.csv` listed before `V_1.csv`: AVGO's file is loaded and every row is stamped `V`. Both tickers are in the default ticker list of `src/data_loader/prices.py`. | the file named `{ticker}_...`, as the fetchers write them (prices.py:32, news.py:46) | medium; not executed; it depends on the directory listing order | `CacheFiles.SelectAsWritten` | `CacheFiles.SelectFile` |

`CacheFiles.SubstringMatchPicksAnotherTickersFile` and
`Features.LoadPricesReadsAnotherTickersFile` exhibit the discrepancy.
`CacheFiles.SelectFileFindsOwnFile` proves that the corrected selection returns the
first file named for exactly that ticker. The loaders and the panel run with either
test: `Substring` is the code as written, and `TickerPrefix` is the corrected pipeline.
