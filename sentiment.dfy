/**
  * Daily sentiment aggregation, `load_news_with_sentiment`: headlines carrying an
  * already computed label are floored to their calendar day, their labels mapped to
  * +1, 0 or -1, and one row per day gives the mean score and the number of headlines.
  */
module Sentiment {
  import opened Wrappers
  import opened CacheFiles
  import opened Stats

  /** The classifier's label of a headline. */
  datatype Label = Negative | Neutral | Positive

  /** The sentiment map: positive is 1, neutral 0, negative -1. */
  function Score(l: Label): (s: int)
    ensures -1 <= s <= 1
  {
    match l
    case Positive => 1
    case Neutral => 0
    case Negative => -1
  }

  /** One row of a news cache file: UTC publication time in seconds since the epoch, and label. */
  datatype Headline = Headline(publishedAt: int, sentiment: Label)

  /** One row of the aggregated table: a calendar day, its mean score and its headline count. */
  datatype DailySentiment = DailySentiment(day: int, sentimentScore: real, headlineCount: nat)

  const SecondsPerDay: int := 86400

  /** `dt.floor("D")`: the calendar day a timestamp falls on, counted in days since the epoch. */
  function FloorDay(ts: int): (d: int)
    ensures d * SecondsPerDay <= ts < (d + 1) * SecondsPerDay
  {
    ts / SecondsPerDay
  }

  function DayOf(h: Headline): int {
    FloorDay(h.publishedAt)
  }

  /** Some headline of `hs` was published on day `d`. */
  ghost predicate HasHeadlineOn(hs: seq<Headline>, d: int) {
    exists i :: 0 <= i < |hs| && DayOf(hs[i]) == d
  }

  /** The scores of the headlines published on day `d`, in input order: one group of `groupby`. */
  function ScoresOn(hs: seq<Headline>, d: int): (r: seq<real>)
    ensures |r| <= |hs|
    ensures r != [] <==> HasHeadlineOn(hs, d)
  {
    if hs == [] then []
    else
      assert forall i :: 1 <= i < |hs| ==> hs[1..][i - 1] == hs[i];
      (if DayOf(hs[0]) == d then [Score(hs[0].sentiment) as real] else []) + ScoresOn(hs[1..], d)
  }

  predicate StrictlyIncreasing(xs: seq<int>) {
    forall i, j :: 0 <= i < j < |xs| ==> xs[i] < xs[j]
  }

  /** Adds `d` to an ascending list of distinct days, unless it is there already. */
  function Insert(xs: seq<int>, d: int): (r: seq<int>)
    requires StrictlyIncreasing(xs)
    ensures StrictlyIncreasing(r)
    ensures forall x :: x in r <==> x in xs || x == d
  {
    if xs == [] then [d]
    else if d < xs[0] then [d] + xs
    else if d == xs[0] then xs
    else
      var rest := Insert(xs[1..], d);
      assert forall k :: 0 <= k < |rest| ==> rest[k] in xs[1..] || rest[k] == d;
      assert forall k :: 0 <= k < |rest| ==> xs[0] < rest[k];
      [xs[0]] + rest
  }

  /** The keys of `groupby("date")`: every day some headline falls on, once, ascending. */
  function GroupDays(hs: seq<Headline>): (r: seq<int>)
    ensures StrictlyIncreasing(r)
    ensures forall d :: d in r <==> HasHeadlineOn(hs, d)
  {
    if hs == [] then []
    else
      assert forall i :: 1 <= i < |hs| ==> hs[1..][i - 1] == hs[i];
      Insert(GroupDays(hs[1..]), DayOf(hs[0]))
  }

  /** The aggregated row of day `d`: mean of the group's scores and the group's size. */
  function DayRow(hs: seq<Headline>, d: int): DailySentiment
    requires HasHeadlineOn(hs, d)
  {
    var scores := ScoresOn(hs, d);
    DailySentiment(d, Mean(scores), |scores|)
  }

  /** One row per listed day, in the order of `days`. */
  function DayRows(hs: seq<Headline>, days: seq<int>): (r: seq<DailySentiment>)
    requires forall k :: 0 <= k < |days| ==> HasHeadlineOn(hs, days[k])
    ensures |r| == |days| && forall k :: 0 <= k < |days| ==> r[k] == DayRow(hs, days[k])
  {
    if days == [] then [] else [DayRow(hs, days[0])] + DayRows(hs, days[1..])
  }

  /**
    * `groupby("date").agg(mean, count).reset_index()` over the floored days: one row per
    * day some headline falls on and no other, in ascending day order.
    */
  function Aggregate(hs: seq<Headline>): (r: seq<DailySentiment>)
    ensures StrictlyIncreasing(Days(r))
    ensures forall d :: d in Days(r) <==> HasHeadlineOn(hs, d)
  {
    var days := GroupDays(hs);
    var r := DayRows(hs, days);
    assert Days(r) == days;
    r
  }

  lemma {:induction false} ScoreSumBounds(hs: seq<Headline>, d: int)
    ensures -(|ScoresOn(hs, d)| as real) <= Sum(ScoresOn(hs, d)) <= |ScoresOn(hs, d)| as real
  {
    if hs != [] {
      var rest := ScoresOn(hs[1..], d);
      ScoreSumBounds(hs[1..], d);
      if DayOf(hs[0]) == d {
        var x := Score(hs[0].sentiment) as real;
        assert ScoresOn(hs, d) == [x] + rest;
        assert ([x] + rest)[1..] == rest;
      } else {
        assert ScoresOn(hs, d) == rest;
      }
    }
  }

  /** The mean `q` of `n` values in [-1, 1] whose sum is `s` lies in [-1, 1]. */
  lemma MeanBounds(s: real, n: real, q: real)
    requires 0.0 < n && -n <= s <= n && q == s / n
    ensures -1.0 <= q <= 1.0 && q * n == s
  {
  }

  /** A day's row counts that day's headlines and holds their mean score, within [-1, 1]. */
  lemma DayRowMeanAndCount(hs: seq<Headline>, d: int)
    requires HasHeadlineOn(hs, d)
    ensures DayRow(hs, d).day == d
    ensures DayRow(hs, d).headlineCount == |ScoresOn(hs, d)| > 0
    ensures DayRow(hs, d).sentimentScore == Sum(ScoresOn(hs, d)) / |ScoresOn(hs, d)| as real
    ensures -1.0 <= DayRow(hs, d).sentimentScore <= 1.0
  {
    var scores := ScoresOn(hs, d);
    var row := DayRow(hs, d);
    assert row == DailySentiment(d, Sum(scores) / |scores| as real, |scores|);
    ScoreSumBounds(hs, d);
    MeanBounds(Sum(scores), |scores| as real, row.sentimentScore);
  }

  /**
    * The aggregated table has exactly one row per day that some headline falls on, in
    * ascending day order; each row's count is the number of that day's headlines and
    * its score is their mean, which lies in [-1, 1].
    */
  lemma AggregateRows(hs: seq<Headline>)
    ensures forall k :: 0 <= k < |Aggregate(hs)| ==>
      var row := Aggregate(hs)[k];
      row.headlineCount == |ScoresOn(hs, row.day)| > 0 &&
      row.sentimentScore == Sum(ScoresOn(hs, row.day)) / row.headlineCount as real &&
      -1.0 <= row.sentimentScore <= 1.0
  {
    var days := GroupDays(hs);
    forall k | 0 <= k < |days|
      ensures var row := Aggregate(hs)[k];
        row.headlineCount == |ScoresOn(hs, row.day)| > 0 &&
        row.sentimentScore == Sum(ScoresOn(hs, row.day)) / row.headlineCount as real &&
        -1.0 <= row.sentimentScore <= 1.0
    {
      DayRowMeanAndCount(hs, days[k]);
    }
  }


  /** The day column of an aggregated table. */
  function Days(rows: seq<DailySentiment>): (r: seq<int>)
    ensures |r| == |rows| && forall k :: 0 <= k < |rows| ==> r[k] == rows[k].day
  {
    seq(|rows|, k requires 0 <= k < |rows| => rows[k].day)
  }

  function TotalCount(rows: seq<DailySentiment>): nat {
    if rows == [] then 0 else rows[0].headlineCount + TotalCount(rows[1..])
  }

  /** How many times `x` occurs in `xs`. */
  function Occurrences(xs: seq<int>, x: int): nat {
    if xs == [] then 0 else (if xs[0] == x then 1 else 0) + Occurrences(xs[1..], x)
  }

  /** Sum over `days` of the size of each day's group. */
  function GroupSizes(hs: seq<Headline>, days: seq<int>): nat {
    if days == [] then 0 else |ScoresOn(hs, days[0])| + GroupSizes(hs, days[1..])
  }

  lemma {:induction false} TotalCountIsGroupSizes(hs: seq<Headline>, days: seq<int>)
    requires forall k :: 0 <= k < |days| ==> HasHeadlineOn(hs, days[k])
    ensures TotalCount(DayRows(hs, days)) == GroupSizes(hs, days)
  {
    if days != [] {
      TotalCountIsGroupSizes(hs, days[1..]);
      assert (DayRows(hs, days))[1..] == DayRows(hs, days[1..]);
    }
  }

  lemma {:induction false} GroupSizesSplit(hs: seq<Headline>, days: seq<int>)
    requires hs != []
    ensures GroupSizes(hs, days) == Occurrences(days, DayOf(hs[0])) + GroupSizes(hs[1..], days)
  {
    if days != [] {
      GroupSizesSplit(hs, days[1..]);
    }
  }

  lemma {:induction false} OccursOnce(xs: seq<int>, x: int)
    requires StrictlyIncreasing(xs) && x in xs
    ensures Occurrences(xs, x) == 1
  {
    if xs[0] == x {
      OccursNot(xs[1..], x);
    } else {
      OccursOnce(xs[1..], x);
    }
  }

  lemma {:induction false} OccursNot(xs: seq<int>, x: int)
    requires StrictlyIncreasing(xs) && (xs == [] || x < xs[0])
    ensures Occurrences(xs, x) == 0
  {
    if xs != [] {
      OccursNot(xs[1..], x);
    }
  }

  lemma {:induction false} GroupSizesCoverAll(hs: seq<Headline>, days: seq<int>)
    requires StrictlyIncreasing(days)
    requires forall i :: 0 <= i < |hs| ==> DayOf(hs[i]) in days
    ensures GroupSizes(hs, days) == |hs|
  {
    if hs == [] {
      GroupSizesEmpty(days);
    } else {
      GroupSizesSplit(hs, days);
      OccursOnce(days, DayOf(hs[0]));
      GroupSizesCoverAll(hs[1..], days);
    }
  }

  lemma {:induction false} GroupSizesEmpty(days: seq<int>)
    ensures GroupSizes([], days) == 0
  {
    if days != [] {
      GroupSizesEmpty(days[1..]);
    }
  }

  /** Every headline is counted in exactly one day's row: the counts add up to the input size. */
  lemma AggregateCountsEveryHeadlineOnce(hs: seq<Headline>)
    ensures TotalCount(Aggregate(hs)) == |hs|
  {
    var days := GroupDays(hs);
    TotalCountIsGroupSizes(hs, days);
    forall i | 0 <= i < |hs| ensures DayOf(hs[i]) in days {
      assert HasHeadlineOn(hs, DayOf(hs[i]));
    }
    GroupSizesCoverAll(hs, days);
  }

  /** Two positive headlines and one negative on the same day give 1/3 over 3 headlines. */
  lemma ThreeHeadlinesOneDay()
    ensures Aggregate([Headline(100, Positive), Headline(200, Positive), Headline(300, Negative)])
      == [DailySentiment(0, 1.0 / 3.0, 3)]
  {
  }

  /**
    * `load_news_with_sentiment`: the aggregated table of the news file selected for the
    * ticker, or the error of finding none. `how` is `Substring` as written.
    */
  function LoadNewsWithSentiment(dir: seq<CacheFile<seq<Headline>>>, ticker: string, how: FileMatch)
    : (r: Result<seq<DailySentiment>, LoadError>)
    ensures r.Success? <==> Select(how, dir, ticker).Success?
    ensures r.Failure? ==> r.error == NoFileFor(ticker)
    ensures r.Success? ==>
      var hs := Select(how, dir, ticker).value.rows;
      r.value == Aggregate(hs) &&
      StrictlyIncreasing(Days(r.value)) &&
      (forall d :: d in Days(r.value) <==> HasHeadlineOn(hs, d)) &&
      TotalCount(r.value) == |hs|
  {
    PickIsFirstMatch(dir, NameFilter(how, ticker), ticker);
    match Select(how, dir, ticker)
    case Success(file) =>
      AggregateCountsEveryHeadlineOnce(file.rows);
      Success(Aggregate(file.rows))
    case Failure(e) => Failure(e)
  }

  /**
    * As written, news loads exactly when some listed file name contains the ticker, and
    * the table is the aggregate of the first such file's headlines.
    */
  lemma LoadNewsAsWritten(dir: seq<CacheFile<seq<Headline>>>, ticker: string)
    ensures LoadNewsWithSentiment(dir, ticker, Substring).Failure? <==>
      forall k :: 0 <= k < |dir| ==> !OccursIn(ticker, dir[k].name)
    ensures LoadNewsWithSentiment(dir, ticker, Substring).Success? ==>
      exists k :: 0 <= k < |dir| && OccursIn(ticker, dir[k].name) &&
        (forall j :: 0 <= j < k ==> !OccursIn(ticker, dir[j].name)) &&
        LoadNewsWithSentiment(dir, ticker, Substring).value == Aggregate(dir[k].rows)
  {
    SelectAsWrittenIsFirstSubstringMatch(dir, ticker);
  }
}
