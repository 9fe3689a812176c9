/**
  * Panel assembly, `build_full_panel`: every ticker in turn is loaded and featurised;
  * a ticker whose step raises is skipped, the others' tables are collected in ticker
  * order and concatenated, and concatenating nothing raises.
  */
module Panel {
  import opened Wrappers
  import opened CacheFiles
  import opened Sentiment
  import opened Features

  /** `pd.concat` of an empty list raises: no ticker produced a table. */
  datatype PanelError = NoObjectsToConcatenate

  /** No price file has a zero close where `pct_change` divides by it. */
  predicate PricesDivisible(priceDir: seq<CacheFile<seq<RawBar>>>) {
    forall k, i :: 0 <= k < |priceDir| && 0 <= i < |priceDir[k].rows| - 1 ==>
      priceDir[k].rows[i].adjClose != 0.0
  }

  /** Prices loaded from such a directory can go through `pct_change`. */
  lemma LoadedPricesDivisible(priceDir: seq<CacheFile<seq<RawBar>>>, ticker: string, how: FileMatch)
    requires PricesDivisible(priceDir)
    ensures LoadPrices(priceDir, ticker, how).Success? ==> NoZeroDivisor(Closes(LoadPrices(priceDir, ticker, how).value))
  {
    PickIsFirstMatch(priceDir, NameFilter(how, ticker), ticker);
  }

  /**
    * The body of the `try`: load the ticker's prices, then its daily sentiment, then
    * build its features; a load that raises makes the whole step fail.
    */
  function TickerFeatures(ticker: string, priceDir: seq<CacheFile<seq<RawBar>>>,
                          newsDir: seq<CacheFile<seq<Headline>>>, how: FileMatch): (r: Result<seq<FeatureRow>, LoadError>)
    requires PricesDivisible(priceDir)
    ensures r.Success? <==> Select(how, priceDir, ticker).Success? && Select(how, newsDir, ticker).Success?
  {
    match LoadPrices(priceDir, ticker, how)
    case Failure(e) => Failure(e)
    case Success(prices) =>
      match LoadNewsWithSentiment(newsDir, ticker, how)
      case Failure(e) => Failure(e)
      case Success(sentiment) =>
        LoadedPricesDivisible(priceDir, ticker, how);
        Success(CreateFeatures(prices, sentiment))
  }

  /**
    * A ticker's table has two rows fewer than its price file (none for fewer than two
    * rows), and every row is stamped with that ticker.
    */
  lemma TickerBlockRows(ticker: string, priceDir: seq<CacheFile<seq<RawBar>>>,
                        newsDir: seq<CacheFile<seq<Headline>>>, how: FileMatch)
    requires PricesDivisible(priceDir)
    ensures var r := TickerFeatures(ticker, priceDir, newsDir, how);
      r.Success? ==>
        var n := |Select(how, priceDir, ticker).value.rows|;
        |r.value| == (if n >= 2 then n - 2 else 0) &&
        forall k :: 0 <= k < |r.value| ==> r.value[k].row.bar.ticker == ticker
  {
    var prices := LoadPrices(priceDir, ticker, how);
    var sentiment := LoadNewsWithSentiment(newsDir, ticker, how);
    if prices.Success? && sentiment.Success? {
      LoadedPricesDivisible(priceDir, ticker, how);
      IncreasingDaysAreUnique(sentiment.value);
      CreateFeaturesKeepsInnerRows(prices.value, sentiment.value);
    }
  }

  /** The outcome of the `try` for each ticker, in list order. */
  function Outcomes(tickers: seq<string>, priceDir: seq<CacheFile<seq<RawBar>>>,
                    newsDir: seq<CacheFile<seq<Headline>>>, how: FileMatch): (r: seq<Result<seq<FeatureRow>, LoadError>>)
    requires PricesDivisible(priceDir)
    ensures |r| == |tickers|
    ensures forall k :: 0 <= k < |tickers| ==> r[k] == TickerFeatures(tickers[k], priceDir, newsDir, how)
  {
    seq(|tickers|, k requires 0 <= k < |tickers| => TickerFeatures(tickers[k], priceDir, newsDir, how))
  }

  /** What `all_dfs` holds after the loop: the tables of the steps that did not raise, in order. */
  function Successes(outcomes: seq<Result<seq<FeatureRow>, LoadError>>): seq<seq<FeatureRow>> {
    if outcomes == [] then []
    else
      Successes(outcomes[..|outcomes| - 1]) +
        match outcomes[|outcomes| - 1]
        case Success(block) => [block]
        case Failure(_) => []
  }

  /** The rows of the blocks, block after block. */
  function Concat(blocks: seq<seq<FeatureRow>>): seq<FeatureRow> {
    if blocks == [] then [] else Concat(blocks[..|blocks| - 1]) + blocks[|blocks| - 1]
  }

  /** `pd.concat(all_dfs, ignore_index=True)`, which raises on an empty list. */
  function ConcatPanel(blocks: seq<seq<FeatureRow>>): Result<seq<FeatureRow>, PanelError> {
    if blocks == [] then Failure(NoObjectsToConcatenate) else Success(Concat(blocks))
  }

  /** The panel built from `tickers`. */
  function FullPanel(tickers: seq<string>, priceDir: seq<CacheFile<seq<RawBar>>>,
                     newsDir: seq<CacheFile<seq<Headline>>>, how: FileMatch): Result<seq<FeatureRow>, PanelError>
    requires PricesDivisible(priceDir)
  {
    ConcatPanel(Successes(Outcomes(tickers, priceDir, newsDir, how)))
  }

  /** `build_full_panel`: the loop over the tickers with skip on error, then the concatenation. */
  method BuildFullPanel(tickers: seq<string>, priceDir: seq<CacheFile<seq<RawBar>>>,
                        newsDir: seq<CacheFile<seq<Headline>>>, how: FileMatch) returns (panel: Result<seq<FeatureRow>, PanelError>)
    requires PricesDivisible(priceDir)
    ensures panel == FullPanel(tickers, priceDir, newsDir, how)
  {
    ghost var outcomes := Outcomes(tickers, priceDir, newsDir, how);
    var allDfs: seq<seq<FeatureRow>> := [];
    for i := 0 to |tickers|
      invariant allDfs == Successes(outcomes[..i])
    {
      var ticker := tickers[i];
      assert outcomes[..i + 1][..i] == outcomes[..i];
      ghost var step := TickerFeatures(ticker, priceDir, newsDir, how);
      assert outcomes[..i + 1][i] == step;
      var prices := LoadPrices(priceDir, ticker, how);
      LoadedPricesDivisible(priceDir, ticker, how);
      if prices.Success? {
        var sentiment := LoadNewsWithSentiment(newsDir, ticker, how);
        if sentiment.Success? {
          var features := CreateFeatures(prices.value, sentiment.value);
          assert step == Success(features);
          allDfs := allDfs + [features];
        } else {
          assert step.Failure?;
        }
      } else {
        assert step.Failure?;
      }
    }
    assert outcomes[..|tickers|] == outcomes;
    if allDfs == [] {
      panel := Failure(NoObjectsToConcatenate);
    } else {
      panel := Success(Concat(allDfs));
    }
  }

  lemma {:induction false} NoSuccessesIffAllFail(outcomes: seq<Result<seq<FeatureRow>, LoadError>>)
    ensures Successes(outcomes) == [] <==> forall k :: 0 <= k < |outcomes| ==> outcomes[k].Failure?
  {
    if outcomes != [] {
      var init := outcomes[..|outcomes| - 1];
      NoSuccessesIffAllFail(init);
      assert forall k :: 0 <= k < |init| ==> init[k] == outcomes[k];
    }
  }

  /** The concatenation fails exactly when every ticker failed, the empty ticker list included. */
  lemma PanelFailsIffNoTickerSucceeds(tickers: seq<string>,
      priceDir: seq<CacheFile<seq<RawBar>>>, newsDir: seq<CacheFile<seq<Headline>>>, how: FileMatch)
    requires PricesDivisible(priceDir)
    ensures FullPanel(tickers, priceDir, newsDir, how).Failure? <==>
      forall k :: 0 <= k < |tickers| ==>
        Select(how, priceDir, tickers[k]).Failure? || Select(how, newsDir, tickers[k]).Failure?
    ensures FullPanel(tickers, priceDir, newsDir, how).Failure? ==>
      FullPanel(tickers, priceDir, newsDir, how).error == NoObjectsToConcatenate
  {
    NoSuccessesIffAllFail(Outcomes(tickers, priceDir, newsDir, how));
  }

  /**
    * As written, the concatenation fails exactly when, for every ticker, no price file
    * name or no news file name contains it.
    */
  lemma PanelFailsAsWritten(tickers: seq<string>,
      priceDir: seq<CacheFile<seq<RawBar>>>, newsDir: seq<CacheFile<seq<Headline>>>)
    requires PricesDivisible(priceDir)
    ensures FullPanel(tickers, priceDir, newsDir, Substring).Failure? <==>
      forall k :: 0 <= k < |tickers| ==>
        (forall j :: 0 <= j < |priceDir| ==> !OccursIn(tickers[k], priceDir[j].name)) ||
        (forall j :: 0 <= j < |newsDir| ==> !OccursIn(tickers[k], newsDir[j].name))
  {
    PanelFailsIffNoTickerSucceeds(tickers, priceDir, newsDir, Substring);
    forall k | 0 <= k < |tickers|
      ensures Select(Substring, priceDir, tickers[k]).Failure? <==>
        forall j :: 0 <= j < |priceDir| ==> !OccursIn(tickers[k], priceDir[j].name)
      ensures Select(Substring, newsDir, tickers[k]).Failure? <==>
        forall j :: 0 <= j < |newsDir| ==> !OccursIn(tickers[k], newsDir[j].name)
    {
      SelectAsWrittenIsFirstSubstringMatch(priceDir, tickers[k]);
      SelectAsWrittenIsFirstSubstringMatch(newsDir, tickers[k]);
    }
  }

  lemma {:induction false} SuccessesAppend(x: seq<Result<seq<FeatureRow>, LoadError>>,
                                           y: seq<Result<seq<FeatureRow>, LoadError>>)
    ensures Successes(x + y) == Successes(x) + Successes(y)
    decreases |y|
  {
    if y == [] {
      assert x + y == x;
    } else {
      var yInit := y[..|y| - 1];
      assert (x + y)[..|x + y| - 1] == x + yInit;
      SuccessesAppend(x, yInit);
    }
  }

  lemma {:induction false} ConcatAppend(x: seq<seq<FeatureRow>>, y: seq<seq<FeatureRow>>)
    ensures Concat(x + y) == Concat(x) + Concat(y)
    decreases |y|
  {
    if y == [] {
      assert x + y == x;
    } else {
      var yInit := y[..|y| - 1];
      assert (x + y)[..|x + y| - 1] == x + yInit;
      ConcatAppend(x, yInit);
    }
  }

  /** The rows of the panel, none when the concatenation fails. */
  function PanelRows(tickers: seq<string>, priceDir: seq<CacheFile<seq<RawBar>>>,
                     newsDir: seq<CacheFile<seq<Headline>>>, how: FileMatch): seq<FeatureRow>
    requires PricesDivisible(priceDir)
  {
    match FullPanel(tickers, priceDir, newsDir, how)
    case Success(rows) => rows
    case Failure(_) => []
  }

  /**
    * The panel keeps the order of the ticker list: the rows built for `a + b` are the
    * rows built for `a` followed by those built for `b`.
    */
  lemma PanelKeepsTickerOrder(a: seq<string>, b: seq<string>,
      priceDir: seq<CacheFile<seq<RawBar>>>, newsDir: seq<CacheFile<seq<Headline>>>, how: FileMatch)
    requires PricesDivisible(priceDir)
    ensures PanelRows(a + b, priceDir, newsDir, how) ==
      PanelRows(a, priceDir, newsDir, how) + PanelRows(b, priceDir, newsDir, how)
  {
    var oa, ob := Outcomes(a, priceDir, newsDir, how), Outcomes(b, priceDir, newsDir, how);
    assert Outcomes(a + b, priceDir, newsDir, how) == oa + ob;
    SuccessesAppend(oa, ob);
    ConcatAppend(Successes(oa), Successes(ob));
  }

  /** Every row of the blocks belongs to one of the blocks. */
  lemma {:induction false} ConcatMember(blocks: seq<seq<FeatureRow>>, r: FeatureRow)
    requires r in Concat(blocks)
    ensures exists k :: 0 <= k < |blocks| && r in blocks[k]
  {
    var init := blocks[..|blocks| - 1];
    if r in Concat(init) {
      ConcatMember(init, r);
      var k :| 0 <= k < |init| && r in init[k];
      assert blocks[k] == init[k];
    } else {
      assert r in blocks[|blocks| - 1];
    }
  }

  /** Every table in `all_dfs` is the table of some ticker whose step succeeded. */
  lemma {:induction false} SuccessMember(outcomes: seq<Result<seq<FeatureRow>, LoadError>>, k: int)
    requires 0 <= k < |Successes(outcomes)|
    ensures exists j :: 0 <= j < |outcomes| && outcomes[j] == Success(Successes(outcomes)[k])
  {
    var init := outcomes[..|outcomes| - 1];
    if k < |Successes(init)| {
      SuccessMember(init, k);
      var j :| 0 <= j < |init| && init[j] == Success(Successes(init)[k]);
      assert outcomes[j] == init[j];
    } else {
      assert outcomes[|outcomes| - 1] == Success(Successes(outcomes)[k]);
    }
  }

  /**
    * Every panel row was built for a ticker of the list that has both a price file and
    * a news file: a ticker whose step raised contributes no row.
    */
  lemma PanelRowsComeFromSucceededTickers(tickers: seq<string>,
      priceDir: seq<CacheFile<seq<RawBar>>>, newsDir: seq<CacheFile<seq<Headline>>>, how: FileMatch, r: FeatureRow)
    requires PricesDivisible(priceDir)
    requires r in PanelRows(tickers, priceDir, newsDir, how)
    ensures r.row.bar.ticker in tickers
    ensures Select(how, priceDir, r.row.bar.ticker).Success? && Select(how, newsDir, r.row.bar.ticker).Success?
  {
    var outcomes := Outcomes(tickers, priceDir, newsDir, how);
    var blocks := Successes(outcomes);
    ConcatMember(blocks, r);
    var k :| 0 <= k < |blocks| && r in blocks[k];
    SuccessMember(outcomes, k);
    var j :| 0 <= j < |outcomes| && outcomes[j] == Success(blocks[k]);
    TickerBlockRows(tickers[j], priceDir, newsDir, how);
    var i :| 0 <= i < |blocks[k]| && blocks[k][i] == r;
  }
}
