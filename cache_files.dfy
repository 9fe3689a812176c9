/**
  * Picking a ticker's cached file out of a directory listing, the first line of
  * `load_prices` and of `load_news_with_sentiment`.
  *
  * A cache directory is the sequence of its entries in listing order; each entry
  * carries its file name and the rows the file parses to, so listing the directory
  * and reading the file are both inputs here.
  */
module CacheFiles {
  import opened Wrappers

  /** One entry of a cache directory: the file name and the rows it holds. */
  datatype CacheFile<T> = CacheFile(name: string, rows: T)

  /** Indexing an empty list of matches with `[0]` raises: no file for this ticker. */
  datatype LoadError = NoFileFor(ticker: string)

  predicate IsPrefix(p: string, s: string) {
    |p| <= |s| && s[..|p|] == p
  }

  /** What Python's `needle in hay` means on strings: needle occurs at some position. */
  ghost predicate OccursIn(needle: string, hay: string) {
    exists i :: 0 <= i <= |hay| - |needle| && IsPrefix(needle, hay[i..])
  }

  /** Python's `needle in hay` on strings, tried position by position. */
  function Contains(hay: string, needle: string): bool {
    IsPrefix(needle, hay) || (|hay| > 0 && Contains(hay[1..], needle))
  }

  lemma {:induction false} ContainsMeansOccurs(hay: string, needle: string)
    ensures Contains(hay, needle) <==> OccursIn(needle, hay)
  {
    if IsPrefix(needle, hay) {
      assert hay[0..] == hay;
    } else if |hay| > 0 {
      ContainsMeansOccurs(hay[1..], needle);
      if OccursIn(needle, hay) {
        var i :| 0 <= i <= |hay| - |needle| && IsPrefix(needle, hay[i..]);
        assert hay[0..] == hay;
        assert i != 0;
        assert hay[1..][i - 1..] == hay[i..];
      }
      if OccursIn(needle, hay[1..]) {
        var i :| 0 <= i <= |hay[1..]| - |needle| && IsPrefix(needle, hay[1..][i..]);
        assert hay[1..][i..] == hay[i + 1..];
      }
    }
  }

  /** The list comprehension `[x for x in listing if matches(x)]`, keeping whole entries. */
  function Matching<T>(dir: seq<CacheFile<T>>, matches: string -> bool): seq<CacheFile<T>> {
    if dir == [] then []
    else (if matches(dir[0].name) then [dir[0]] else []) + Matching(dir[1..], matches)
  }

  /** The comprehension followed by `[0]`: its first entry, or the error of an empty list. */
  function Pick<T>(dir: seq<CacheFile<T>>, matches: string -> bool, ticker: string)
    : Result<CacheFile<T>, LoadError>
  {
    var m := Matching(dir, matches);
    if m == [] then Failure(NoFileFor(ticker)) else Success(m[0])
  }

  /** Entry `k` is the first entry of the listing whose name `matches` accepts. */
  predicate IsFirstMatch<T>(dir: seq<CacheFile<T>>, matches: string -> bool, k: int) {
    0 <= k < |dir| && matches(dir[k].name) && forall j :: 0 <= j < k ==> !matches(dir[j].name)
  }

  /** The comprehension is empty exactly when no name matches. */
  lemma {:induction false} MatchingEmpty<T>(dir: seq<CacheFile<T>>, matches: string -> bool)
    ensures Matching(dir, matches) == [] <==> forall k :: 0 <= k < |dir| ==> !matches(dir[k].name)
  {
    if dir != [] {
      MatchingEmpty(dir[1..], matches);
      if !matches(dir[0].name) {
        assert forall k :: 1 <= k < |dir| ==> dir[1..][k - 1] == dir[k];
      }
    }
  }

  /** The head of a non-empty comprehension is the first matching entry. */
  lemma {:induction false} MatchingHead<T>(dir: seq<CacheFile<T>>, matches: string -> bool)
    requires Matching(dir, matches) != []
    ensures exists k :: IsFirstMatch(dir, matches, k) && dir[k] == Matching(dir, matches)[0]
  {
    if matches(dir[0].name) {
      assert IsFirstMatch(dir, matches, 0);
    } else {
      assert Matching(dir, matches) == Matching(dir[1..], matches);
      MatchingHead(dir[1..], matches);
      var k :| IsFirstMatch(dir[1..], matches, k) && dir[1..][k] == Matching(dir[1..], matches)[0];
      assert IsFirstMatch(dir, matches, k + 1);
    }
  }

  /** Picking fails exactly when no name matches, and otherwise yields the first match. */
  lemma PickIsFirstMatch<T>(dir: seq<CacheFile<T>>, matches: string -> bool, ticker: string)
    ensures Pick(dir, matches, ticker).Failure? <==> forall k :: 0 <= k < |dir| ==> !matches(dir[k].name)
    ensures Pick(dir, matches, ticker).Failure? ==> Pick(dir, matches, ticker).error == NoFileFor(ticker)
    ensures Pick(dir, matches, ticker).Success? ==>
      exists k :: IsFirstMatch(dir, matches, k) && dir[k] == Pick(dir, matches, ticker).value
  {
    MatchingEmpty(dir, matches);
    if Matching(dir, matches) != [] {
      MatchingHead(dir, matches);
    }
  }

  /** The filter as written: the name contains the ticker anywhere. */
  function NameContains(ticker: string): string -> bool {
    name => Contains(name, ticker)
  }

  /** File selection as written: the first listed name that contains the ticker. */
  function SelectAsWritten<T>(dir: seq<CacheFile<T>>, ticker: string): Result<CacheFile<T>, LoadError> {
    Select(Substring, dir, ticker)
  }

  lemma SelectAsWrittenIsFirstSubstringMatch<T>(dir: seq<CacheFile<T>>, ticker: string)
    ensures SelectAsWritten(dir, ticker).Failure? <==>
      forall k :: 0 <= k < |dir| ==> !OccursIn(ticker, dir[k].name)
    ensures SelectAsWritten(dir, ticker).Success? ==>
      exists k :: 0 <= k < |dir| && dir[k] == SelectAsWritten(dir, ticker).value &&
        OccursIn(ticker, dir[k].name) &&
        forall j :: 0 <= j < k ==> !OccursIn(ticker, dir[j].name)
  {
    forall name: string { ContainsMeansOccurs(name, ticker); }
    PickIsFirstMatch(dir, NameFilter(Substring, ticker), ticker);
  }

  /**
    * The ticker a cache file name is written for: cache files are named
    * `{ticker}_{from}_{to}.csv`, so it is the text before the first `_`.
    */
  function CacheTicker(name: string): Option<string> {
    if name == [] then None
    else if name[0] == '_' then Some([])
    else match CacheTicker(name[1..])
      case None => None
      case Some(t) => Some([name[0]] + t)
  }

  lemma {:induction false} PrefixMeansCacheTicker(ticker: string, name: string)
    requires '_' !in ticker
    ensures IsPrefix(ticker + "_", name) <==> CacheTicker(name) == Some(ticker)
  {
    if name == [] {
    } else if ticker == [] {
      assert ticker + "_" == "_";
    } else {
      PrefixMeansCacheTicker(ticker[1..], name[1..]);
      assert (ticker + "_")[1..] == ticker[1..] + "_";
      assert ticker == [ticker[0]] + ticker[1..];
      if IsPrefix(ticker + "_", name) {
        assert name[0] == ticker[0];
        assert name[1..][..|ticker[1..] + "_"|] == name[..|ticker + "_"|][1..];
      }
      if CacheTicker(name) == Some(ticker) {
        assert name[0] != '_';
        assert name[..|ticker + "_"|] == [name[0]] + name[1..][..|ticker[1..] + "_"|];
      }
    }
  }

  /** The filter the cache naming calls for: the name is `{ticker}_...`. */
  function NameIsFor(ticker: string): string -> bool {
    name => IsPrefix(ticker + "_", name)
  }

  /** Corrected file selection: the first listed file written for exactly this ticker. */
  function SelectFile<T>(dir: seq<CacheFile<T>>, ticker: string): Result<CacheFile<T>, LoadError> {
    Select(TickerPrefix, dir, ticker)
  }

  /**
    * Which file-name test the loaders apply: `Substring` is the test the loaders are
    * written with (`ticker in name`), `TickerPrefix` the corrected one (`{ticker}_...`).
    */
  datatype FileMatch = Substring | TickerPrefix

  function NameFilter(how: FileMatch, ticker: string): string -> bool {
    match how
    case Substring => NameContains(ticker)
    case TickerPrefix => NameIsFor(ticker)
  }

  /** The file the loaders read under the chosen test: the first listed name it accepts. */
  function Select<T>(how: FileMatch, dir: seq<CacheFile<T>>, ticker: string): Result<CacheFile<T>, LoadError> {
    Pick(dir, NameFilter(how, ticker), ticker)
  }

  lemma SelectFileFindsOwnFile<T>(dir: seq<CacheFile<T>>, ticker: string)
    requires '_' !in ticker
    ensures SelectFile(dir, ticker).Failure? <==>
      forall k :: 0 <= k < |dir| ==> CacheTicker(dir[k].name) != Some(ticker)
    ensures SelectFile(dir, ticker).Success? ==>
      exists k :: 0 <= k < |dir| && dir[k] == SelectFile(dir, ticker).value &&
        CacheTicker(dir[k].name) == Some(ticker) &&
        forall j :: 0 <= j < k ==> CacheTicker(dir[j].name) != Some(ticker)
  {
    forall name: string { PrefixMeansCacheTicker(ticker, name); }
    PickIsFirstMatch(dir, NameFilter(TickerPrefix, ticker), ticker);
  }

  /** Whenever the corrected selection finds a file, so does the selection as written. */
  lemma SelectFileFindsOnlyWhereAsWrittenFinds<T>(dir: seq<CacheFile<T>>, ticker: string)
    ensures SelectFile(dir, ticker).Success? ==> SelectAsWritten(dir, ticker).Success?
  {
    PickIsFirstMatch(dir, NameFilter(TickerPrefix, ticker), ticker);
    PickIsFirstMatch(dir, NameFilter(Substring, ticker), ticker);
    if SelectFile(dir, ticker).Success? {
      var k :| IsFirstMatch(dir, NameIsFor(ticker), k);
      var name := dir[k].name;
      assert IsPrefix(ticker + "_", name);
      assert name[..|ticker|] == name[..|ticker + "_"|][..|ticker|] == (ticker + "_")[..|ticker|] == ticker;
      assert name[0..] == name;
      ContainsMeansOccurs(name, ticker);
      assert NameContains(ticker)(name);
    }
  }

  /** A name built as `{ticker}_{rest}` is written for that ticker. */
  lemma CacheTickerOfCacheName(ticker: string, rest: string)
    requires '_' !in ticker
    ensures CacheTicker(ticker + "_" + rest) == Some(ticker)
  {
    assert (ticker + "_" + rest)[..|ticker + "_"|] == ticker + "_";
    PrefixMeansCacheTicker(ticker, ticker + "_" + rest);
  }

  /** "V" occurs in "AVGO_1.csv", so the substring test accepts AVGO's file first. */
  lemma SubstringAcceptsAvgoForV<T>(avgoRows: T, vRows: T)
    ensures var dir := [CacheFile("AVGO_1.csv", avgoRows), CacheFile("V_1.csv", vRows)];
      SelectAsWritten(dir, "V") == Success(dir[0])
  {
    var dir := [CacheFile("AVGO_1.csv", avgoRows), CacheFile("V_1.csv", vRows)];
    var avgo := dir[0].name;
    assert avgo[1..][..1] == "V";
    assert NameContains("V")(avgo);
    assert Matching(dir, NameFilter(Substring, "V")) == [dir[0]] + Matching(dir[1..], NameFilter(Substring, "V"));
  }

  /** Only "V_1.csv" starts with "V_", so the corrected test accepts V's own file. */
  lemma PrefixAcceptsOnlyVForV<T>(avgoRows: T, vRows: T)
    ensures var dir := [CacheFile("AVGO_1.csv", avgoRows), CacheFile("V_1.csv", vRows)];
      SelectFile(dir, "V") == Success(dir[1])
  {
    var dir := [CacheFile("AVGO_1.csv", avgoRows), CacheFile("V_1.csv", vRows)];
    assert "V" + "_" == "V_";
    assert dir[0].name[..2] == "AV" != "V_";
    assert !NameIsFor("V")(dir[0].name);
    assert dir[1].name[..2] == "V_";
    assert NameIsFor("V")(dir[1].name);
    var tail := dir[1..];
    assert tail == [dir[1]] && tail[1..] == [];
    assert Matching(tail, NameFilter(TickerPrefix, "V")) == [dir[1]] + Matching(tail[1..], NameFilter(TickerPrefix, "V"));
    assert Matching(dir, NameFilter(TickerPrefix, "V")) == Matching(tail, NameFilter(TickerPrefix, "V"));
  }

  /**
    * Substring matching can pick another ticker's file: with the cache files of AVGO
    * and V listed in that order, ticker "V" gets AVGO's file, while the corrected
    * selection gets V's own.
    */
  lemma SubstringMatchPicksAnotherTickersFile<T>(avgoRows: T, vRows: T)
    ensures var dir := [CacheFile("AVGO_1.csv", avgoRows), CacheFile("V_1.csv", vRows)];
      SelectAsWritten(dir, "V") == Success(dir[0]) &&
      CacheTicker(dir[0].name) == Some("AVGO") &&
      SelectFile(dir, "V") == Success(dir[1]) &&
      CacheTicker(dir[1].name) == Some("V")
  {
    assert "AVGO_1.csv" == "AVGO" + "_" + "1.csv";
    CacheTickerOfCacheName("AVGO", "1.csv");
    assert "V_1.csv" == "V" + "_" + "1.csv";
    CacheTickerOfCacheName("V", "1.csv");
    SubstringAcceptsAvgoForV(avgoRows, vRows);
    PrefixAcceptsOnlyVForV(avgoRows, vRows);
  }
}
