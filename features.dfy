/**
  * Price loading and per-row feature construction, `load_prices` and `create_features`:
  * lags, trailing windows and the forward return by row position, a left join of the
  * daily sentiment on the day, zero fill of unmatched rows, and the drop of rows whose
  * `lag_1` or `target_return` is undefined.
  */
module Features {
  import opened Wrappers
  import opened CacheFiles
  import opened Sentiment
  import opened Stats

  /** One row of a price cache file: trading day (days since the epoch) and adjusted close. */
  datatype RawBar = RawBar(day: int, adjClose: real)

  /** A price row stamped with the ticker it was loaded for. */
  datatype PriceBar = PriceBar(day: int, adjClose: real, ticker: string)

  /** `df["ticker"] = ticker` over the rows of a file. */
  function Stamp(rows: seq<RawBar>, ticker: string): seq<PriceBar> {
    seq(|rows|, i requires 0 <= i < |rows| => PriceBar(rows[i].day, rows[i].adjClose, ticker))
  }

  /**
    * `load_prices`: the rows of the file selected for the ticker, each stamped with the
    * ticker, or the error of finding no file for it. `how` is `Substring` as written.
    */
  function LoadPrices(dir: seq<CacheFile<seq<RawBar>>>, ticker: string, how: FileMatch)
    : (r: Result<seq<PriceBar>, LoadError>)
    ensures r.Success? <==> Select(how, dir, ticker).Success?
    ensures r.Failure? ==> r.error == NoFileFor(ticker)
    ensures r.Success? ==>
      var rows := Select(how, dir, ticker).value.rows;
      |r.value| == |rows| &&
      forall i :: 0 <= i < |rows| ==>
        r.value[i].ticker == ticker && r.value[i].day == rows[i].day &&
        r.value[i].adjClose == rows[i].adjClose
  {
    PickIsFirstMatch(dir, NameFilter(how, ticker), ticker);
    match Select(how, dir, ticker)
    case Success(file) => Success(Stamp(file.rows, ticker))
    case Failure(e) => Failure(e)
  }

  /**
    * As written, prices load exactly when some listed file name contains the ticker, and
    * they are the rows of the first such file, stamped with the ticker.
    */
  lemma LoadPricesAsWritten(dir: seq<CacheFile<seq<RawBar>>>, ticker: string)
    ensures LoadPrices(dir, ticker, Substring).Failure? <==>
      forall k :: 0 <= k < |dir| ==> !OccursIn(ticker, dir[k].name)
    ensures LoadPrices(dir, ticker, Substring).Success? ==>
      exists k :: 0 <= k < |dir| && OccursIn(ticker, dir[k].name) &&
        (forall j :: 0 <= j < k ==> !OccursIn(ticker, dir[j].name)) &&
        LoadPrices(dir, ticker, Substring).value == Stamp(dir[k].rows, ticker)
  {
    SelectAsWrittenIsFirstSubstringMatch(dir, ticker);
  }

  /**
    * As written, ticker "V" loads AVGO's prices when AVGO's file is listed first, stamped
    * "V"; the corrected test loads V's own.
    */
  lemma LoadPricesReadsAnotherTickersFile(avgo: seq<RawBar>, v: seq<RawBar>)
    ensures var dir := [CacheFile("AVGO_1.csv", avgo), CacheFile("V_1.csv", v)];
      LoadPrices(dir, "V", Substring) == Success(Stamp(avgo, "V")) &&
      LoadPrices(dir, "V", TickerPrefix) == Success(Stamp(v, "V"))
  {
    var dir := [CacheFile("AVGO_1.csv", avgo), CacheFile("V_1.csv", v)];
    SubstringMatchPicksAnotherTickersFile(avgo, v);
  }

  /** The `adj_close` column. */
  function Closes(bars: seq<PriceBar>): (c: seq<real>)
    ensures |c| == |bars| && forall i :: 0 <= i < |bars| ==> c[i] == bars[i].adjClose
  {
    seq(|bars|, i requires 0 <= i < |bars| => bars[i].adjClose)
  }

  /** `pct_change` divides by every close but the last: none of those may be zero. */
  predicate NoZeroDivisor(xs: seq<real>) {
    forall i :: 0 <= i < |xs| - 1 ==> xs[i] != 0.0
  }

  /** `shift(k)` read at row `t`: the value `k` rows earlier, undefined in the first `k` rows. */
  function Shift(xs: seq<real>, t: int, k: nat): Option<real>
    requires 0 <= t < |xs|
  {
    if t >= k then Some(xs[t - k]) else None
  }

  /** The trailing window of `rolling(w)` ending at row `t`, undefined until `w` rows exist. */
  function Window(xs: seq<real>, t: int, w: nat): Option<seq<real>>
    requires 0 <= t < |xs|
  {
    if t + 1 >= w then Some(xs[t + 1 - w..t + 1]) else None
  }

  /** The sum of squared deviations of `xs` from `m`. */
  function SquaredDeviations(xs: seq<real>, m: real): (r: real)
    ensures r >= 0.0
  {
    if xs == [] then 0.0
    else
      var d := xs[0] - m;
      assert d * d >= 0.0;
      d * d + SquaredDeviations(xs[1..], m)
  }

  /** The sample variance (divisor n - 1) that pandas' `std` takes the square root of. */
  function SampleVariance(xs: seq<real>): real
    requires |xs| >= 2
  {
    SquaredDeviations(xs, Mean(xs)) / (|xs| - 1) as real
  }

  /** `rolling(w).mean()` read at row `t`. */
  function RollingMean(xs: seq<real>, t: int, w: nat): Option<real>
    requires 0 <= t < |xs| && w >= 1
  {
    match Window(xs, t, w)
    case Some(win) => Some(Mean(win))
    case None => None
  }

  /** `rolling(w).std()` read at row `t`, squared: the window's sample variance. */
  function RollingVariance(xs: seq<real>, t: int, w: nat): Option<real>
    requires 0 <= t < |xs| && w >= 2
  {
    match Window(xs, t, w)
    case Some(win) => Some(SampleVariance(win))
    case None => None
  }

  /** `pct_change(1)` read at row `t`: the change from the previous close, relative to it. */
  function PctChange(xs: seq<real>, t: int): Option<real>
    requires 0 <= t < |xs| && NoZeroDivisor(xs)
  {
    if t >= 1 then Some((xs[t] - xs[t - 1]) / xs[t - 1]) else None
  }

  /** `pct_change(1).shift(-1)` read at row `t`: the next row's percentage change. */
  function TargetReturn(xs: seq<real>, t: int): Option<real>
    requires 0 <= t < |xs| && NoZeroDivisor(xs)
  {
    if t + 1 < |xs| then PctChange(xs, t + 1) else None
  }

  /** A price row with the columns `create_features` derives from the closes. */
  datatype Featured = Featured(
    bar: PriceBar,
    lag1: Option<real>,
    lag3: Option<real>,
    rollingMean3: Option<real>,
    rollingVariance5: Option<real>,
    targetReturn: Option<real>)

  /** The five derived columns, computed over the whole close column. */
  function Featurize(bars: seq<PriceBar>): seq<Featured>
    requires NoZeroDivisor(Closes(bars))
  {
    var c := Closes(bars);
    seq(|bars|, t requires 0 <= t < |bars| =>
      Featured(bars[t], Shift(c, t, 1), Shift(c, t, 3), RollingMean(c, t, 3),
               RollingVariance(c, t, 5), TargetReturn(c, t)))
  }

  /** The rolling mean over 3 rows is the mean of the row and the two before it. */
  lemma RollingMean3Value(xs: seq<real>, t: int)
    requires 0 <= t < |xs|
    ensures RollingMean(xs, t, 3) == if t >= 2 then Some((xs[t - 2] + xs[t - 1] + xs[t]) / 3.0) else None
  {
    if t >= 2 {
      var win := xs[t - 2..t + 1];
      assert win == [xs[t - 2], xs[t - 1], xs[t]];
      assert Sum(win[2..]) == xs[t];
      assert Sum(win[1..]) == xs[t - 1] + xs[t];
    }
  }

  /** The 5-row rolling deviation is defined exactly from the fifth row on, and never negative. */
  lemma RollingVariance5Defined(xs: seq<real>, t: int)
    requires 0 <= t < |xs|
    ensures RollingVariance(xs, t, 5).Some? <==> t >= 4
    ensures RollingVariance(xs, t, 5).Some? ==> RollingVariance(xs, t, 5).value >= 0.0
  {
  }

  /** The shifted percentage change is the forward return, undefined only on the last row. */
  lemma TargetReturnIsForwardReturn(xs: seq<real>, t: int)
    requires 0 <= t < |xs| && NoZeroDivisor(xs)
    ensures TargetReturn(xs, t) == if t < |xs| - 1 then Some((xs[t + 1] - xs[t]) / xs[t]) else None
  {
  }

  /** One row of `prices.merge(sentiment, on="date", how="left")`. */
  datatype Joined = Joined(row: Featured, sentimentScore: Option<real>, headlineCount: Option<nat>)

  /** The sentiment rows whose day is `day`, in their order. */
  function Matches(right: seq<DailySentiment>, day: int): seq<DailySentiment> {
    if right == [] then []
    else (if right[0].day == day then [right[0]] else []) + Matches(right[1..], day)
  }

  /**
    * The merge rows of one price row: one per matching sentiment row, or the row
    * alone with undefined sentiment columns when nothing matches.
    */
  function JoinRow(l: Featured, right: seq<DailySentiment>): seq<Joined> {
    var m := Matches(right, l.bar.day);
    if m == [] then [Joined(l, None, None)]
    else seq(|m|, k requires 0 <= k < |m| => Joined(l, Some(m[k].sentimentScore), Some(m[k].headlineCount)))
  }

  /** The left merge on the day: the price rows in order, each with its matches. */
  function LeftJoin(left: seq<Featured>, right: seq<DailySentiment>): seq<Joined> {
    if left == [] then [] else JoinRow(left[0], right) + LeftJoin(left[1..], right)
  }

  /** The merge rows of one price row are at least one, and all carry that price row. */
  lemma JoinRowCarriesRow(l: Featured, right: seq<DailySentiment>)
    ensures |JoinRow(l, right)| >= 1
    ensures forall j :: 0 <= j < |JoinRow(l, right)| ==> JoinRow(l, right)[j].row == l
  {
  }

  /**
    * Whatever the sentiment table, the left merge loses no price row: every price row
    * reaches the merge, and every merged row is one of the price rows.
    */
  lemma {:induction false} LeftJoinKeepsPriceRows(left: seq<Featured>, right: seq<DailySentiment>)
    ensures |LeftJoin(left, right)| >= |left|
    ensures forall i :: 0 <= i < |left| ==>
      exists j :: 0 <= j < |LeftJoin(left, right)| && LeftJoin(left, right)[j].row == left[i]
    ensures forall j :: 0 <= j < |LeftJoin(left, right)| ==> LeftJoin(left, right)[j].row in left
  {
    if left != [] {
      LeftJoinKeepsPriceRows(left[1..], right);
      JoinRowCarriesRow(left[0], right);
      var head: seq<Joined> := JoinRow(left[0], right);
      var tail: seq<Joined> := LeftJoin(left[1..], right);
      assert LeftJoin(left, right) == head + tail;
      forall j | 0 <= j < |head + tail| ensures (head + tail)[j].row in left {
        if j < |head| {
          assert (head + tail)[j] == head[j];
        } else {
          assert (head + tail)[j] == tail[j - |head|];
          assert tail[j - |head|].row in left[1..];
        }
      }
      forall i | 0 <= i < |left|
        ensures exists j :: 0 <= j < |head + tail| && (head + tail)[j].row == left[i]
      {
        if i == 0 {
          assert (head + tail)[0] == head[0];
        } else {
          assert left[1..][i - 1] == left[i];
          var k :| 0 <= k < |tail| && tail[k].row == left[1..][i - 1];
          assert (head + tail)[|head| + k] == tail[k];
        }
      }
    }
  }


  /** No two sentiment rows share a day. */
  predicate UniqueDays(right: seq<DailySentiment>) {
    forall i, j :: 0 <= i < j < |right| ==> right[i].day != right[j].day
  }

  /** An aggregated table, ascending in its days, never repeats a day. */
  lemma IncreasingDaysAreUnique(right: seq<DailySentiment>)
    requires StrictlyIncreasing(Days(right))
    ensures UniqueDays(right)
  {
  }

  /** The sentiment row of `day`, when there is one. */
  function Lookup(right: seq<DailySentiment>, day: int): (r: Option<DailySentiment>)
    ensures r.Some? ==> r.value in right && r.value.day == day
    ensures r.None? ==> forall k :: 0 <= k < |right| ==> right[k].day != day
  {
    if right == [] then None
    else if right[0].day == day then Some(right[0])
    else
      assert forall k :: 1 <= k < |right| ==> right[1..][k - 1] == right[k];
      Lookup(right[1..], day)
  }

  lemma {:induction false} NoMatches(right: seq<DailySentiment>, day: int)
    requires forall k :: 0 <= k < |right| ==> right[k].day != day
    ensures Matches(right, day) == []
  {
    if right != [] {
      NoMatches(right[1..], day);
    }
  }

  /** With unique days, a price row's matches are at most the one row `Lookup` finds. */
  lemma {:induction false} MatchesIsLookup(right: seq<DailySentiment>, day: int)
    requires UniqueDays(right)
    ensures Matches(right, day) == match Lookup(right, day) case Some(s) => [s] case None => []
  {
    if right != [] {
      if right[0].day == day {
        NoMatches(right[1..], day);
      } else {
        MatchesIsLookup(right[1..], day);
      }
    }
  }

  /** What the merge gives one price row when the sentiment days are unique. */
  function JoinedWith(l: Featured, s: Option<DailySentiment>): Joined {
    match s
    case Some(d) => Joined(l, Some(d.sentimentScore), Some(d.headlineCount))
    case None => Joined(l, None, None)
  }

  /**
    * With unique sentiment days the left merge keeps every price row exactly once and
    * in order, each with the sentiment of its own day when there is one.
    */
  lemma {:induction false} LeftJoinUniqueDays(left: seq<Featured>, right: seq<DailySentiment>)
    requires UniqueDays(right)
    ensures |LeftJoin(left, right)| == |left|
    ensures forall i :: 0 <= i < |left| ==>
      LeftJoin(left, right)[i] == JoinedWith(left[i], Lookup(right, left[i].bar.day))
  {
    if left != [] {
      LeftJoinUniqueDays(left[1..], right);
      assert LeftJoin(left, right) == JoinRow(left[0], right) + LeftJoin(left[1..], right);
      MatchesIsLookup(right, left[0].bar.day);
      assert JoinRow(left[0], right) == [JoinedWith(left[0], Lookup(right, left[0].bar.day))];
      forall i | 1 <= i < |left|
        ensures LeftJoin(left, right)[i] == JoinedWith(left[i], Lookup(right, left[i].bar.day))
      {
        assert left[1..][i - 1] == left[i];
      }
    }
  }

  /** A row of the finished table: sentiment columns filled with 0 where the merge left them undefined. */
  datatype FeatureRow = FeatureRow(row: Featured, sentimentScore: real, headlineCount: nat)

  /** `fillna(0)` on `sentiment_score` and `headline_count`. */
  function FillMissing(js: seq<Joined>): seq<FeatureRow> {
    seq(|js|, i requires 0 <= i < |js| =>
      FeatureRow(js[i].row, js[i].sentimentScore.GetOr(0.0), js[i].headlineCount.GetOr(0)))
  }

  /** The `dropna(subset=["lag_1", "target_return"])` criterion: both are defined. */
  predicate Kept(r: FeatureRow) {
    r.row.lag1.Some? && r.row.targetReturn.Some?
  }

  /** `dropna(subset=["lag_1", "target_return"])`: the rows where both are defined, in order. */
  function DropUndefined(rows: seq<FeatureRow>): seq<FeatureRow> {
    if rows == [] then []
    else (if Kept(rows[0]) then [rows[0]] else []) + DropUndefined(rows[1..])
  }

  /** A row survives the drop exactly when its `lag_1` and `target_return` are defined. */
  lemma {:induction false} DropUndefinedKeepsExactly(rows: seq<FeatureRow>)
    ensures forall r :: r in DropUndefined(rows) <==> r in rows && Kept(r)
  {
    if rows != [] {
      DropUndefinedKeepsExactly(rows[1..]);
      assert rows == [rows[0]] + rows[1..];
    }
  }

  lemma {:induction false} DropUndefinedAppend(a: seq<FeatureRow>, b: seq<FeatureRow>)
    ensures DropUndefined(a + b) == DropUndefined(a) + DropUndefined(b)
  {
    if a != [] {
      assert (a + b)[0] == a[0];
      assert (a + b)[1..] == a[1..] + b;
      DropUndefinedAppend(a[1..], b);
      var head := if Kept(a[0]) then [a[0]] else [];
      assert head + (DropUndefined(a[1..]) + DropUndefined(b)) == (head + DropUndefined(a[1..])) + DropUndefined(b);
    } else {
      assert a + b == b;
    }
  }

  lemma {:induction false} DropUndefinedAllKept(rows: seq<FeatureRow>)
    requires forall i :: 0 <= i < |rows| ==> Kept(rows[i])
    ensures DropUndefined(rows) == rows
  {
    if rows != [] {
      DropUndefinedAllKept(rows[1..]);
    }
  }

  /**
    * `create_features`: derived columns, left merge of the daily sentiment, zero fill,
    * then the drop. The prices are a value here, so the caller's table is left as it was.
    */
  function CreateFeatures(bars: seq<PriceBar>, sentiment: seq<DailySentiment>): seq<FeatureRow>
    requires NoZeroDivisor(Closes(bars))
  {
    DropUndefined(FillMissing(LeftJoin(Featurize(bars), sentiment)))
  }

  /**
    * Whatever the sentiment table, every row `create_features` returns has `lag_1` and
    * `target_return` defined and is built on one of the price rows.
    */
  lemma CreateFeaturesRowsAreKept(bars: seq<PriceBar>, sentiment: seq<DailySentiment>)
    requires NoZeroDivisor(Closes(bars))
    ensures forall x :: x in CreateFeatures(bars, sentiment) ==> Kept(x) && x.row.bar in bars
  {
    var featured := Featurize(bars);
    var joined := LeftJoin(featured, sentiment);
    var filled := FillMissing(joined);
    LeftJoinKeepsPriceRows(featured, sentiment);
    DropUndefinedKeepsExactly(filled);
    forall x | x in filled ensures x.row.bar in bars {
      var i :| 0 <= i < |filled| && filled[i] == x;
      assert x.row == joined[i].row;
      var t :| 0 <= t < |featured| && featured[t] == x.row;
      assert featured[t].bar == bars[t];
    }
  }

  /** What `create_features` gives price row `t` before the drop, when sentiment days are unique. */
  function ExpectedRow(bars: seq<PriceBar>, sentiment: seq<DailySentiment>, t: int): FeatureRow
    requires NoZeroDivisor(Closes(bars)) && 0 <= t < |bars|
  {
    var s := Lookup(sentiment, bars[t].day);
    FeatureRow(Featurize(bars)[t],
               if s.Some? then s.value.sentimentScore else 0.0,
               if s.Some? then s.value.headlineCount else 0)
  }

  lemma FilledRows(bars: seq<PriceBar>, sentiment: seq<DailySentiment>)
    requires NoZeroDivisor(Closes(bars)) && UniqueDays(sentiment)
    ensures |FillMissing(LeftJoin(Featurize(bars), sentiment))| == |bars|
    ensures forall t :: 0 <= t < |bars| ==>
      FillMissing(LeftJoin(Featurize(bars), sentiment))[t] == ExpectedRow(bars, sentiment, t)
  {
    LeftJoinUniqueDays(Featurize(bars), sentiment);
  }

  /** Dropping from rows whose first and last fail the criterion and the rest pass it keeps the inner rows. */
  lemma {:induction false} DropUndefinedInner(rows: seq<FeatureRow>)
    requires |rows| >= 2 && !Kept(rows[0]) && !Kept(rows[|rows| - 1])
    requires forall t :: 0 < t < |rows| - 1 ==> Kept(rows[t])
    ensures DropUndefined(rows) == rows[1..|rows| - 1]
  {
    var n := |rows|;
    var mid := rows[1..n - 1];
    assert rows == [rows[0]] + mid + [rows[n - 1]];
    forall j | 0 <= j < |mid| ensures Kept(mid[j]) {
      assert mid[j] == rows[j + 1];
    }
    DropUndefinedAppend([rows[0]] + mid, [rows[n - 1]]);
    DropUndefinedAppend([rows[0]], mid);
    DropUndefinedAllKept(mid);
    assert DropUndefined([rows[n - 1]]) == [];
    assert DropUndefined([rows[0]]) == [];
  }

  /** Before the drop, exactly the inner rows have both `lag_1` and `target_return`. */
  lemma KeptExactlyInner(bars: seq<PriceBar>, sentiment: seq<DailySentiment>, t: int)
    requires NoZeroDivisor(Closes(bars)) && 0 <= t < |bars|
    ensures Kept(ExpectedRow(bars, sentiment, t)) <==> 0 < t < |bars| - 1
  {
  }

  /**
    * Only the first row (no `lag_1`) and the last (no `target_return`) are dropped:
    * `create_features` keeps exactly rows 1 .. n-2, in order.
    */
  lemma CreateFeaturesKeepsInnerRows(bars: seq<PriceBar>, sentiment: seq<DailySentiment>)
    requires NoZeroDivisor(Closes(bars)) && UniqueDays(sentiment)
    ensures |CreateFeatures(bars, sentiment)| == if |bars| >= 2 then |bars| - 2 else 0
    ensures forall i :: 0 <= i < |CreateFeatures(bars, sentiment)| ==>
      CreateFeatures(bars, sentiment)[i] == ExpectedRow(bars, sentiment, i + 1)
  {
    var rows := FillMissing(LeftJoin(Featurize(bars), sentiment));
    FilledRows(bars, sentiment);
    forall t | 0 <= t < |bars| ensures Kept(rows[t]) <==> 0 < t < |bars| - 1 {
      KeptExactlyInner(bars, sentiment, t);
    }
    if |bars| == 1 {
      assert DropUndefined(rows) == DropUndefined(rows[1..]);
    } else if |bars| >= 2 {
      DropUndefinedInner(rows);
    }
  }

  /**
    * Row `i` of `create_features` is price row `i + 1` with `lag_1`, `lag_3`,
    * `rolling_mean_3` and `target_return` read off the closes around it, and the
    * sentiment of its day, or 0 and 0 when that day has none.
    */
  lemma CreateFeaturesRow(bars: seq<PriceBar>, sentiment: seq<DailySentiment>, i: int)
    requires NoZeroDivisor(Closes(bars)) && UniqueDays(sentiment)
    requires 0 <= i < |bars| - 2
    ensures |CreateFeatures(bars, sentiment)| == |bars| - 2
    ensures var r := CreateFeatures(bars, sentiment)[i];
      var c := Closes(bars);
      var s := Lookup(sentiment, bars[i + 1].day);
      r.row.bar == bars[i + 1] &&
      r.row.lag1 == Some(c[i]) &&
      r.row.lag3 == (if i >= 2 then Some(c[i - 2]) else None) &&
      r.row.rollingMean3 == (if i >= 1 then Some((c[i - 1] + c[i] + c[i + 1]) / 3.0) else None) &&
      (r.row.rollingVariance5.Some? <==> i >= 3) &&
      r.row.targetReturn == Some((c[i + 2] - c[i + 1]) / c[i + 1]) &&
      r.sentimentScore == (if s.Some? then s.value.sentimentScore else 0.0) &&
      r.headlineCount == (if s.Some? then s.value.headlineCount else 0)
  {
    CreateFeaturesKeepsInnerRows(bars, sentiment);
    RollingMean3Value(Closes(bars), i + 1);
    RollingVariance5Defined(Closes(bars), i + 1);
    TargetReturnIsForwardReturn(Closes(bars), i + 1);
  }

  /** Series shorter than three rows leave nothing after the drop. */
  lemma ShortSeriesLeaveNoRows(bars: seq<PriceBar>, sentiment: seq<DailySentiment>)
    requires NoZeroDivisor(Closes(bars)) && UniqueDays(sentiment)
    requires |bars| <= 2
    ensures CreateFeatures(bars, sentiment) == []
  {
    CreateFeaturesKeepsInnerRows(bars, sentiment);
  }

  /**
    * Closes 10, 11, 12, 11, 13, 14 on days 1 to 6 with no sentiment: days 2 to 5
    * survive; day 3 has `rolling_mean_3` 11 (days 1 to 3) and a forward return of -1/12;
    * day 4 has `lag_1` 12, `lag_3` 10 and `rolling_mean_3` 34/3 (days 2 to 4, the window
    * includes the row itself); every row has sentiment 0 over 0 headlines.
    */
  lemma SixDayExample(bars: seq<PriceBar>)
    requires |bars| == 6 && Closes(bars) == [10.0, 11.0, 12.0, 11.0, 13.0, 14.0]
    requires forall k :: 0 <= k < 6 ==> bars[k].day == k + 1
    ensures NoZeroDivisor(Closes(bars))
    ensures var r := CreateFeatures(bars, []);
      |r| == 4 &&
      r[0].row.bar.day == 2 && r[1].row.bar.day == 3 && r[2].row.bar.day == 4 && r[3].row.bar.day == 5 &&
      r[0].row.lag3 == None && r[1].row.lag3 == None &&
      r[1].row.rollingMean3 == Some(11.0) && r[1].row.targetReturn == Some(-1.0 / 12.0) &&
      r[2].row.lag1 == Some(12.0) && r[2].row.lag3 == Some(10.0) && r[2].row.rollingMean3 == Some(34.0 / 3.0) &&
      forall k :: 0 <= k < 4 ==> r[k].sentimentScore == 0.0 && r[k].headlineCount == 0
  {
    var c := Closes(bars);
    assert c[0] == 10.0 && c[1] == 11.0 && c[2] == 12.0 && c[3] == 11.0 && c[4] == 13.0;
    CreateFeaturesRow(bars, [], 0);
    CreateFeaturesRow(bars, [], 1);
    CreateFeaturesRow(bars, [], 2);
    CreateFeaturesRow(bars, [], 3);
  }
}
