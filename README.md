# Status Invest dividend cache — a Dafny model

This project models the dividend scraper and read API of a small Node.js
service (`index.js`). A refresh batch walks a fixed list of seventeen
real-estate fund tickers (`fiiList`). For each ticker it opens a browser tab
on the fund's Status Invest page and runs a page script. The script reads the
first table of the earnings section into one record per body row, keyed by
the trimmed column headers. The batch keeps the first row, turns the first
comma of its `VALOR` amount into a period, and stores the JSON of that record
in Redis under `si_dividendos:<TICKER>` with a ten-day expiry (864000
seconds). Three GET handlers upper-case the ticker, read the key and answer
the `VALOR`, `DATA COM` or `PAGAMENTO` field. A missing key or a stored
`null` is answered with 404.

The files and what they hold:

- `values.dfy` — `Option` (JavaScript's null/undefined) and `Record`, the
  header-to-text map a row becomes and the JSON object the cache holds.
- `js_string.dfy` — the JavaScript built-ins the code calls: `trim`,
  `replace` with a one-character string pattern (first occurrence only), and
  `toUpperCase`.
- `extraction.dfy` — the page script (`page.evaluate` callback). `Headers`
  trims the header texts. `RowRecord` is the specification of one row's
  record: a left-to-right fold in which a later column with the same header
  overwrites an earlier one. `MapRow` is the `forEach` that fills `rowData`
  in place, proved equal to it. `EvaluateTable` maps every body row.
- `normalization.dfy` — the in-place rewrite of the amount (`NormalizeValor`).
- `refresh.dfy` — the batch. `Cache` is the Redis store: a map from key to
  (JSON value, TTL) with a ghost log of the keys set. `Browser` tracks the
  launch, the open tabs and how many tabs were opened and closed.
  `ScrapeStatusInvestDividendos` is the loop; its body, `ScrapeFund`, writes
  the `try`/`catch`/`finally` as a match on the page outcome followed by
  closing the tab. The loop's contract ties the new cache to `Refreshed`, a
  fold of `PageWrite` over the ticker list. The lemmas next to it state what that fold means for each key.
- `api.dfy` — the three handlers as functions over a snapshot of the store,
  and lemmas linking their answers to a preceding batch.

The browser is an oracle `fetch: string -> PageOutcome` from the page URL to
what the tab yields: `Threw` (navigation, waiting or evaluation failed) or
`Loaded(table)`, where `table` is the raw text of the dividend table, or
`None` when the page has none. The page script itself is modelled, not
abstracted.

Three behaviours of the code are easy to misread:

- An empty table writes JSON `null` under the ticker's key (index.js:68 and
  76), overwriting an earlier record. After such a batch the handlers answer
  not-found (`EmptyTableIsNotFound`).
- Only the FIRST comma of `VALOR` becomes a period: `replace` with a string
  pattern rewrites one occurrence (index.js:72), although the comment above it
  (index.js:70) speaks of converting commas. So the rewrite is idempotent only
  for amounts with at most one comma (`NormalizeIdempotent`).
- A header whose trimmed text is `__proto__` is never stored: assigning that
  property on a fresh object literal calls the inherited prototype setter,
  which ignores a string value (index.js:49, 53).

## Model

| member | source | states |
|---|---|---|
| `JsString.TrimStart` | index.js:53 | the result is a suffix of the input that does not start with a whitespace or line-terminator character, and everything dropped is such a character |
| `JsString.TrimEnd` | index.js:53 | the result is a prefix of the input that does not end with a whitespace or line-terminator character, and everything dropped is such a character |
| `JsString.Trim` | index.js:44 | `trim()` gives a contiguous slice of the input with no trimmable character at either end, and only trimmable characters lie before and after the slice |
| `JsString.ReplaceFirst` | index.js:72 | `replace(",", ".")` keeps the length, and a string without a comma is returned unchanged |
| `JsString.ReplaceFirstAt` | index.js:72 | if the first comma is at position i, the result is the input with a period at i and every other character kept |
| `JsString.ReplaceFirstRemovesSingle` | index.js:72 | an amount with at most one comma has no comma left after the replacement |
| `JsString.UpperChar` | index.js:93 | an ASCII lower-case letter maps to the upper-case letter at the same alphabet position; every other character is unchanged; no ASCII lower-case letter is left |
| `JsString.ToUpper` | index.js:93 | `toUpperCase()` keeps the length and upper-cases each character in place |
| `JsString.ToUpperIdempotent` | index.js:93 | upper-casing an upper-cased ticker changes nothing |
| `Extraction.HasHeader` | index.js:52-53 | (definition) a cell is kept when its column has a header that is non-empty and not `__proto__` |
| `Extraction.Headers` | index.js:44 | one header per header cell, in document order, each the trimmed cell text |
| `Extraction.RowRecord` | index.js:49-55 | the record of one row, a left-to-right fold over its cells; it never has the empty key or `__proto__` |
| `Extraction.RowRecordKeys` | index.js:49-55 | a row's record has key k exactly when k is non-empty, is not `__proto__`, and is the header of some column the row has a cell for; cells past the last header never appear |
| `Extraction.RowRecordValue` | index.js:51-55 | the value under a header is the trimmed cell of the last column with that header, so the later of two duplicate columns wins |
| `Extraction.RowRecordDropsExtraCells` | index.js:51-55 | a row with more cells than headers gives the same record as its cells up to the number of headers |
| `Extraction.MapRow` | index.js:48-57 | the forEach that fills `rowData` in place yields exactly the row's record `RowRecord(headers, cells)` |
| `Extraction.EvaluateTable` | index.js:38-61 | no table gives null; otherwise one record per body row, in order, row i being the record of row i's cells under the trimmed headers |
| `Normalization.HasValor` | index.js:71 | (definition) the record exists and its VALOR is present and non-empty, the truthiness test before the rewrite |
| `Normalization.NormalizeValor` | index.js:71-73 | a missing record stays missing; the keys are unchanged; every key but VALOR keeps its value; VALOR becomes its first-comma-to-period replacement (an empty VALOR stays empty) |
| `Normalization.NormalizeKeepsPeriodAmounts` | index.js:71-73 | a record whose VALOR has no comma, or that has no VALOR, is left unchanged |
| `Normalization.NormalizeIdempotent` | index.js:71-73 | normalising twice equals normalising once when VALOR has at most one comma |
| `Normalization.DecimalCommaExample` | index.js:72 | the amount "0,85" is normalised to "0.85" and a date beside it is kept |
| `Refresh.CacheKey` | index.js:28 | the key is `si_dividendos:` followed by the ticker, which can be read back from the key |
| `Refresh.PageUrl` | index.js:32 | the URL is the Status Invest fund-page prefix followed by the ticker, which can be read back from the URL |
| `Refresh.CacheKeyInjective` | index.js:28 | two tickers with the same cache key are the same ticker |
| `Refresh.FiiListDistinct` | index.js:10 | no fund appears twice in the ticker list |
| `Refresh.Cache.constructor` | index.js:5 | a store holding the given entries and no writes yet |
| `Refresh.Cache.Set` | index.js:76 | the entry under the key is replaced (not merged) by the JSON value and TTL; no other key changes; the key is appended to the write log |
| `Refresh.Browser.Launch` | index.js:15-24 | a running browser with no tab opened or closed |
| `Refresh.Browser.NewPage` | index.js:33 | a tab that was not open is opened and counted |
| `Refresh.Browser.ClosePage` | index.js:82-84 | the tab is closed and counted as closed; nothing else changes |
| `Refresh.Browser.Close` | index.js:87-89 | the browser no longer runs and has no open tab |
| `Refresh.PageWrite` | index.js:63-76 | nothing is written after an exception or when there is no table; an empty table writes null; otherwise the normalised record of the first body row is written |
| `Refresh.HasTable` | index.js:38-66 | (definition) the page loaded and the page script returned a table: the pages the batch writes for |
| `Refresh.Refreshed` | index.js:26-85 | the store after processing the tickers in order; it never loses a key |
| `Refresh.Written` | index.js:26-85 | the keys set while processing the tickers, in order; at most one per ticker processed |
| `Refresh.RefreshedOtherKeys` | index.js:26-28 | a key that is not `si_dividendos:` plus a ticker of the batch is untouched by the batch |
| `Refresh.RefreshedTicker` | index.js:26-85 | for each listed ticker, after an exception or without a table its entry is as before; otherwise it holds the normalised first row, or null, with TTL 864000 |
| `Refresh.RefreshedIsolated` | index.js:34-84 | a ticker's entry depends only on that ticker's own page: what happened on every other page, exceptions included, does not change it |
| `Refresh.WrittenInListOrder` | index.js:26-76 | the writes for the first k tickers all come before the writes for the rest: keys are set in list order |
| `Refresh.WrittenKeysBelongToTickers` | index.js:26-76 | no more writes than tickers, and every key set is the key of a listed ticker whose page had a table |
| `Refresh.WrittenOncePerTicker` | index.js:26-76 | every ticker whose page had a table has its key set, and over a list without repeats no key is set twice |
| `Refresh.ScrapeFund` | index.js:27-84 | one loop iteration: the ticker's entry becomes its page's write (or stays as it was), its key is logged exactly when the page had a table, and the one tab opened is closed |
| `Refresh.ScrapeStatusInvestDividendos` | index.js:14-90 | the cache ends as `Refreshed(old cache, fiiList, fetch)` with the writes logged in order; one tab was opened and closed per ticker on every path; the browser is shut down at the end |
| `Api.ParseStored` | index.js:97 | (definition) the parsed JSON under a key; a missing key reads as null, like a stored null |
| `Api.FieldReply` | index.js:96-103 | not-found exactly when the upper-cased ticker's key is missing or holds null; otherwise the record's field, undefined when absent |
| `Api.DividendValue` | index.js:92-107 | not-found exactly when the upper-cased ticker's key is missing or holds null; otherwise the record's VALOR (undefined when absent) |
| `Api.DataCom` | index.js:109-125 | the same as the amount handler, for DATA COM |
| `Api.DataPagamento` | index.js:127-143 | the same as the amount handler, for PAGAMENTO |
| `Api.LookupIgnoresCase` | index.js:93-94 | asking with a ticker or with its upper-cased form gives the same answer |
| `Api.ReplyAfterScrape` | index.js:97-103 | after a batch, a listed ticker whose page threw or had no table answers as before; an empty table answers not-found; otherwise the stored first row's field |
| `Api.FieldAfterScrape` | index.js:68-76 | end to end: asking for the header of a column of the first row gives that cell trimmed, and for VALOR with its first comma turned into a period |
| `Api.EmptyTableIsNotFound` | index.js:68-76 | after a batch in which a ticker's table had no body row, all three handlers answer not-found for it |

## Left out

- Puppeteer: the launch flags, the stealth plugin, `goto`, `page.content`, `waitForSelector` and their timeouts are the `fetch` oracle. A page outcome depends only on the URL, so the model cannot express a page that answers differently on a second visit within one batch; the batch visits each page once.
- The DOM and `innerText`: the header and cell texts are given as strings.
- A failure of `browser.newPage()` is not modelled. It sits outside the `try` (index.js:33), so such a failure would end the batch early without closing the browser (index.js:87-89 would not run). The model's tabs always open.
- A failure of `page.close()` in the `finally` is not modelled; it would also end the batch.
- `browser.process().kill('SIGKILL')` is folded into `Browser.Close`: the model only records that the browser no longer runs.
- Redis errors: a failing `redis.set` is folded into `Threw` (nothing written). A failing `redis.get`, and with it the handlers' 500 branch, is not modelled.
- Expiry: there is no clock. The TTL is stored as a number, and an expired key is a missing key, which reads as not-found.
- JSON text: the stored value is modelled as the parsed value (`Option<Record>`), so `JSON.stringify`/`JSON.parse` are identities and never fail.
- `JsString.ToUpper`: maps ASCII letters only. JavaScript's full Unicode case mapping is not modelled: it can change a string's length ("ß" becomes "SS"), and it maps some non-ASCII letters to ASCII ones ("ı" U+0131 and "ſ" U+017F become "I" and "S"). So a request such as `lvbı11` or `hſml11` reaches a listed fund's key in the service, while the model answers not-found; `Api.LookupIgnoresCase` and `Api.ReplyAfterScrape` say nothing about such requests.
- The record object that the code mutates in place is a map value that the loop reassigns. No other reference to it exists, so no aliasing is lost.
- Logging (`console.log`), the refresh route (index.js:145-148), Express routing, `app.listen`, `dotenv` and `PORT`.
- Concurrency between a running batch and the read handlers: the model reads a snapshot of the store.
