/** The batch refresh `scrapeStatusInvestDividendos` (index.js:14-90): one
    browser for the whole batch, one tab per ticker of the fixed list, each
    ticker's failure caught and logged, and the normalised first row of the
    ticker's dividend table written to the cache with a ten-day expiry. */
module Refresh {
  import opened Values
  import opened JsString
  import opened Extraction
  import opened Normalization

  /** The funds refreshed by every batch, in processing order. */
  const FiiList: seq<string> := ["HGRU11", "HSML11", "BRCO11", "LVBI11", "PVBI11", "HGLG11",
    "TRXF11", "BTLG11", "XPML11", "HGCR11", "KNCR11", "MXRF11", "VRTA11", "RECR11",
    "CPTS11", "VGHF11", "TGAR11"]

  /** Ten days, in seconds: the expiry of every entry the batch writes. */
  const TtlSeconds: nat := 864000

  const KeyPrefix := "si_dividendos:"
  const UrlPrefix := "https://statusinvest.com.br/fundos-imobiliarios/"

  /** The cache key of a ticker. */
  function CacheKey(fiiCode: string): (key: string)
    ensures |key| == |KeyPrefix| + |fiiCode|
    ensures key[..|KeyPrefix|] == KeyPrefix && key[|KeyPrefix|..] == fiiCode
  {
    KeyPrefix + fiiCode
  }

  /** The page a ticker's tab is sent to. */
  function PageUrl(fiiCode: string): (url: string)
    ensures |url| == |UrlPrefix| + |fiiCode|
    ensures url[..|UrlPrefix|] == UrlPrefix && url[|UrlPrefix|..] == fiiCode
  {
    UrlPrefix + fiiCode
  }

  /** Different tickers never share a cache key. */
  lemma CacheKeyInjective(a: string, b: string)
    requires CacheKey(a) == CacheKey(b)
    ensures a == b
  {
  }

  /** No ticker appears twice. */
  predicate Distinct(tickers: seq<string>) {
    forall i, j :: 0 <= i < j < |tickers| ==> tickers[i] != tickers[j]
  }

  lemma FiiListDistinct()
    ensures Distinct(FiiList)
  {
  }

  /** What a tab yields for a page: an exception from navigation, waiting or
      evaluation, or the table the page script sees (None when there is none). */
  datatype PageOutcome = Threw | Loaded(table: Option<RawTable>)

  /** A cache value: the parsed JSON (None for `null`) and its expiry in seconds. */
  datatype Entry = Entry(json: Option<Record>, ttl: nat)

  /** The key-value store with expiry. `writes` records the keys set, in order. */
  class Cache {
    var entries: map<string, Entry>
    ghost var writes: seq<string>

    constructor (initial: map<string, Entry>)
      ensures entries == initial && writes == []
    {
      entries := initial;
      writes := [];
    }

    /** Redis SET with an expiry in seconds: overwrites the entry, never merges. */
    method Set(key: string, json: Option<Record>, ttl: nat)
      modifies this
      ensures entries == old(entries)[key := Entry(json, ttl)]
      ensures writes == old(writes) + [key]
    {
      entries := entries[key := Entry(json, ttl)];
      writes := writes + [key];
    }
  }

  /** The headless browser, reduced to its lifecycle and its tabs. */
  class Browser {
    var running: bool
    var openPages: set<nat>
    var pagesOpened: nat
    var pagesClosed: nat

    ghost predicate Valid()
      reads this
    {
      forall page :: page in openPages ==> page < pagesOpened
    }

    /** puppeteer.launch */
    constructor Launch()
      ensures Valid() && running
      ensures openPages == {} && pagesOpened == 0 && pagesClosed == 0
    {
      running := true;
      openPages := {};
      pagesOpened := 0;
      pagesClosed := 0;
    }

    /** browser.newPage: a tab that was not open before. */
    method NewPage() returns (page: nat)
      requires Valid() && running
      modifies this
      ensures Valid() && running
      ensures page !in old(openPages) && openPages == old(openPages) + {page}
      ensures pagesOpened == old(pagesOpened) + 1 && pagesClosed == old(pagesClosed)
    {
      page := pagesOpened;
      openPages := openPages + {page};
      pagesOpened := pagesOpened + 1;
    }

    /** page.close */
    method ClosePage(page: nat)
      requires Valid()
      modifies this
      ensures Valid() && running == old(running)
      ensures openPages == old(openPages) - {page} && pagesOpened == old(pagesOpened)
      ensures pagesClosed == old(pagesClosed) + (if page in old(openPages) then 1 else 0)
    {
      if page in openPages {
        openPages := openPages - {page};
        pagesClosed := pagesClosed + 1;
      }
    }

    /** browser.close, followed by killing the process if it is still there. */
    method Close()
      modifies this
      ensures !running && openPages == {}
      ensures pagesOpened == old(pagesOpened) && pagesClosed == old(pagesClosed)
    {
      running := false;
      openPages := {};
    }
  }

  /** A page that loaded and held the dividend table: the pages the batch
      writes an entry for. */
  predicate HasTable(outcome: PageOutcome) {
    outcome.Loaded? && outcome.table.Some?
  }

  /** What one ticker's page makes the batch store under the ticker's key: None
      when nothing is written, otherwise the JSON value written. */
  function PageWrite(outcome: PageOutcome): (w: Option<Option<Record>>)
    ensures w.None? <==> outcome.Threw? || outcome.table.None?
    ensures w.Some? ==> (w.value.None? <==> outcome.table.value.bodyCells == [])
    ensures w.Some? && w.value.Some? ==>
              var table := outcome.table.value;
              w.value == NormalizeValor(Some(RowRecord(Headers(table.headerTexts), table.bodyCells[0])))
  {
    match outcome
    case Threw => None
    case Loaded(None) => None
    case Loaded(Some(table)) =>
      var first := if |table.bodyCells| > 0
                   then Some(RowRecord(Headers(table.headerTexts), table.bodyCells[0]))
                   else None;
      Some(NormalizeValor(first))
  }

  /** The cache after processing `tickers` in order, starting from `store`. */
  function Refreshed(store: map<string, Entry>, tickers: seq<string>, fetch: string -> PageOutcome): (after: map<string, Entry>)
    ensures store.Keys <= after.Keys
    decreases |tickers|
  {
    if tickers == [] then store
    else
      var fiiCode := tickers[|tickers| - 1];
      var before := Refreshed(store, tickers[..|tickers| - 1], fetch);
      match PageWrite(fetch(PageUrl(fiiCode)))
      case None => before
      case Some(json) => before[CacheKey(fiiCode) := Entry(json, TtlSeconds)]
  }

  /** The keys the batch sets while processing `tickers`, in the order it sets them. */
  function Written(tickers: seq<string>, fetch: string -> PageOutcome): (keys: seq<string>)
    ensures |keys| <= |tickers|
    decreases |tickers|
  {
    if tickers == [] then []
    else
      var fiiCode := tickers[|tickers| - 1];
      Written(tickers[..|tickers| - 1], fetch)
        + if HasTable(fetch(PageUrl(fiiCode))) then [CacheKey(fiiCode)] else []
  }

  /** `key` is present in both maps with the same entry, or in neither. */
  ghost predicate SameAt(m: map<string, Entry>, m': map<string, Entry>, key: string) {
    (key in m <==> key in m') && (key in m ==> m[key] == m'[key])
  }

  /** A key that belongs to no ticker of the batch is left as it was. */
  lemma {:induction false} RefreshedOtherKeys(store: map<string, Entry>, tickers: seq<string>,
                                              fetch: string -> PageOutcome, key: string)
    requires forall i :: 0 <= i < |tickers| ==> CacheKey(tickers[i]) != key
    ensures SameAt(store, Refreshed(store, tickers, fetch), key)
    decreases |tickers|
  {
    if tickers != [] {
      RefreshedOtherKeys(store, tickers[..|tickers| - 1], fetch, key);
    }
  }

  /** A ticker's entry after the batch is decided by its own page alone: after an
      exception or without a table the entry is what it was; otherwise it holds
      the normalised first row (null for an empty table) with the ten-day expiry. */
  lemma {:induction false} RefreshedTicker(store: map<string, Entry>, tickers: seq<string>,
                                           fetch: string -> PageOutcome, fiiCode: string)
    requires fiiCode in tickers && Distinct(tickers)
    ensures var after := Refreshed(store, tickers, fetch);
            var key := CacheKey(fiiCode);
            match PageWrite(fetch(PageUrl(fiiCode)))
            case None => SameAt(store, after, key)
            case Some(json) => key in after && after[key] == Entry(json, TtlSeconds)
    decreases |tickers|
  {
    var n := |tickers| - 1;
    var prefix := tickers[..n];
    if tickers[n] == fiiCode {
      forall i | 0 <= i < |prefix|
        ensures CacheKey(prefix[i]) != CacheKey(fiiCode)
      {
        if CacheKey(prefix[i]) == CacheKey(fiiCode) {
          CacheKeyInjective(prefix[i], fiiCode);
        }
      }
      RefreshedOtherKeys(store, prefix, fetch, CacheKey(fiiCode));
    } else {
      assert fiiCode in prefix by {
        var i :| 0 <= i < |tickers| && tickers[i] == fiiCode;
        assert prefix[i] == fiiCode;
      }
      if CacheKey(tickers[n]) == CacheKey(fiiCode) {
        CacheKeyInjective(tickers[n], fiiCode);
      }
      RefreshedTicker(store, prefix, fetch, fiiCode);
    }
  }

  /** Failure isolation: two runs whose browsers agree on one ticker's page leave
      that ticker's entry the same, whatever happened to every other ticker. */
  lemma {:induction false} RefreshedIsolated(store: map<string, Entry>, tickers: seq<string>,
                                             fetch: string -> PageOutcome, fetch': string -> PageOutcome,
                                             fiiCode: string)
    requires fetch(PageUrl(fiiCode)) == fetch'(PageUrl(fiiCode))
    ensures SameAt(Refreshed(store, tickers, fetch), Refreshed(store, tickers, fetch'), CacheKey(fiiCode))
    decreases |tickers|
  {
    if tickers != [] {
      var last := tickers[|tickers| - 1];
      RefreshedIsolated(store, tickers[..|tickers| - 1], fetch, fetch', fiiCode);
      if CacheKey(last) == CacheKey(fiiCode) {
        CacheKeyInjective(last, fiiCode);
      }
    }
  }

  /** Writes happen in list order: the writes for the first `k` tickers all come
      before those for the rest. */
  lemma {:induction false} WrittenInListOrder(tickers: seq<string>, fetch: string -> PageOutcome, k: nat)
    requires k <= |tickers|
    ensures Written(tickers, fetch) == Written(tickers[..k], fetch) + Written(tickers[k..], fetch)
    decreases |tickers|
  {
    if k < |tickers| {
      var n := |tickers| - 1;
      WrittenInListOrder(tickers[..n], fetch, k);
      assert tickers[..n][..k] == tickers[..k];
      var rest := tickers[k..];
      assert rest[..|rest| - 1] == tickers[..n][k..] && rest[|rest| - 1] == tickers[n];
      var last := if HasTable(fetch(PageUrl(tickers[n]))) then [CacheKey(tickers[n])] else [];
      var front, middle := Written(tickers[..k], fetch), Written(tickers[..n][k..], fetch);
      assert Written(rest, fetch) == middle + last;
      assert Written(tickers, fetch) == Written(tickers[..n], fetch) + last;
      assert (front + middle) + last == front + (middle + last);
    } else {
      assert tickers[..k] == tickers;
    }
  }

  /** Every key the batch sets is the key of a ticker of the batch whose page
      had a table, and there is at most one write per ticker. */
  lemma {:induction false} WrittenKeysBelongToTickers(tickers: seq<string>, fetch: string -> PageOutcome)
    ensures |Written(tickers, fetch)| <= |tickers|
    ensures forall w :: w in Written(tickers, fetch) ==>
              exists i :: 0 <= i < |tickers| && w == CacheKey(tickers[i]) &&
                          HasTable(fetch(PageUrl(tickers[i])))
    decreases |tickers|
  {
    if tickers != [] {
      var n := |tickers| - 1;
      var prefix := tickers[..n];
      WrittenKeysBelongToTickers(prefix, fetch);
      forall w | w in Written(tickers, fetch)
        ensures exists i :: 0 <= i < |tickers| && w == CacheKey(tickers[i]) &&
                            HasTable(fetch(PageUrl(tickers[i])))
      {
        if w in Written(prefix, fetch) {
          var i :| 0 <= i < |prefix| && w == CacheKey(prefix[i]) && HasTable(fetch(PageUrl(prefix[i])));
          assert tickers[i] == prefix[i];
        } else {
          assert w == CacheKey(tickers[n]);
        }
      }
    }
  }

  /** Every ticker whose page had a table gets its key written, and over a
      list without repeats no key is written twice. */
  lemma {:induction false} WrittenOncePerTicker(tickers: seq<string>, fetch: string -> PageOutcome)
    ensures forall i :: 0 <= i < |tickers| && HasTable(fetch(PageUrl(tickers[i]))) ==>
              CacheKey(tickers[i]) in Written(tickers, fetch)
    ensures Distinct(tickers) ==> Distinct(Written(tickers, fetch))
    decreases |tickers|
  {
    if tickers != [] {
      var n := |tickers| - 1;
      var prefix := tickers[..n];
      WrittenOncePerTicker(prefix, fetch);
      forall i | 0 <= i < n && HasTable(fetch(PageUrl(tickers[i])))
        ensures CacheKey(tickers[i]) in Written(tickers, fetch)
      {
        assert prefix[i] == tickers[i];
      }
      if Distinct(tickers) {
        assert Distinct(prefix) by {
          forall i, j | 0 <= i < j < |prefix| ensures prefix[i] != prefix[j] {
            assert prefix[i] == tickers[i] && prefix[j] == tickers[j];
          }
        }
        if HasTable(fetch(PageUrl(tickers[n]))) {
          var ws := Written(prefix, fetch);
          var key := CacheKey(tickers[n]);
          WrittenKeysBelongToTickers(prefix, fetch);
          forall w | w in ws
            ensures w != key
          {
            var i :| 0 <= i < |prefix| && w == CacheKey(prefix[i]) && HasTable(fetch(PageUrl(prefix[i])));
            assert prefix[i] == tickers[i] != tickers[n];
          }
          assert Written(tickers, fetch) == ws + [key];
          forall i, j | 0 <= i < j < |ws| + 1
            ensures (ws + [key])[i] != (ws + [key])[j]
          {
            if j == |ws| {
              assert ws[i] in ws;
            }
          }
        }
      }
    }
  }

  /** Processing one more ticker extends the fold by that ticker's write. */
  lemma RefreshedStep(store: map<string, Entry>, tickers: seq<string>, fetch: string -> PageOutcome, k: nat)
    requires k < |tickers|
    ensures var before := Refreshed(store, tickers[..k], fetch);
            Refreshed(store, tickers[..k + 1], fetch) ==
              match PageWrite(fetch(PageUrl(tickers[k])))
              case None => before
              case Some(json) => before[CacheKey(tickers[k]) := Entry(json, TtlSeconds)]
    ensures Written(tickers[..k + 1], fetch) ==
              Written(tickers[..k], fetch) + if HasTable(fetch(PageUrl(tickers[k]))) then [CacheKey(tickers[k])] else []
  {
    assert tickers[..k + 1][..k] == tickers[..k];
  }

  /** What a loaded table writes, given the records the page script returned for it. */
  lemma PageWriteOfRows(table: RawTable, rows: seq<Record>)
    requires |rows| == |table.bodyCells|
    requires forall i :: 0 <= i < |rows| ==> rows[i] == RowRecord(Headers(table.headerTexts), table.bodyCells[i])
    ensures HasTable(Loaded(Some(table)))
    ensures PageWrite(Loaded(Some(table))) == Some(NormalizeValor(if |rows| > 0 then Some(rows[0]) else None))
  {
  }

  /** The body of the batch loop for one ticker: open a tab, load the ticker's
      page, run the page script and, when a table came back, store its first
      row, with the first comma of its amount turned into a period (JSON null
      for an empty table); an exception is caught and writes nothing, and a
      missing table skips the ticker. The tab is closed on every path. */
  method ScrapeFund(cache: Cache, browser: Browser, fetch: string -> PageOutcome, fiiCode: string)
    requires browser.Valid() && browser.running && browser.openPages == {}
    modifies cache, browser
    ensures browser.Valid() && browser.running && browser.openPages == {}
    ensures browser.pagesOpened == old(browser.pagesOpened) + 1
    ensures browser.pagesClosed == old(browser.pagesClosed) + 1
    ensures cache.entries == match PageWrite(fetch(PageUrl(fiiCode)))
                             case None => old(cache.entries)
                             case Some(json) => old(cache.entries)[CacheKey(fiiCode) := Entry(json, TtlSeconds)]
    ensures cache.writes == old(cache.writes) + if HasTable(fetch(PageUrl(fiiCode))) then [CacheKey(fiiCode)] else []
  {
    var cacheKey := CacheKey(fiiCode);
    var page := browser.NewPage();
    match fetch(PageUrl(fiiCode)) {
      case Threw =>
        // caught and logged; nothing is written for this ticker
      case Loaded(table) =>
        var dividendosData := EvaluateTable(table);
        if dividendosData.Some? {
          PageWriteOfRows(table.value, dividendosData.value);
          var dividendoInfo := if |dividendosData.value| > 0 then Some(dividendosData.value[0]) else None;
          dividendoInfo := NormalizeValor(dividendoInfo);
          cache.Set(cacheKey, dividendoInfo, TtlSeconds);
        }
        // a missing table is logged and the ticker skipped
    }
    browser.ClosePage(page);
  }

  /** One batch over the fund list, ticker after ticker in list order; the
      browser is shut down at the end and returned so its state can be stated. */
  method ScrapeStatusInvestDividendos(cache: Cache, fetch: string -> PageOutcome) returns (browser: Browser)
    modifies cache
    ensures fresh(browser) && !browser.running && browser.openPages == {}
    ensures browser.pagesOpened == |FiiList| && browser.pagesClosed == |FiiList|
    ensures cache.entries == Refreshed(old(cache.entries), FiiList, fetch)
    ensures cache.writes == old(cache.writes) + Written(FiiList, fetch)
  {
    browser := new Browser.Launch();
    for index := 0 to |FiiList|
      invariant fresh(browser) && browser.Valid() && browser.running
      invariant browser.openPages == {} && browser.pagesOpened == index && browser.pagesClosed == index
      invariant cache.entries == Refreshed(old(cache.entries), FiiList[..index], fetch)
      invariant cache.writes == old(cache.writes) + Written(FiiList[..index], fetch)
    {
      RefreshedStep(old(cache.entries), FiiList, fetch, index);
      ghost var done := cache.writes;
      ScrapeFund(cache, browser, fetch, FiiList[index]);
      ghost var last := if HasTable(fetch(PageUrl(FiiList[index]))) then [CacheKey(FiiList[index])] else [];
      assert old(cache.writes) + (Written(FiiList[..index], fetch) + last) == done + last;
    }
    assert FiiList[..|FiiList|] == FiiList;
    browser.Close();
  }
}
