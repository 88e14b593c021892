/** The three read handlers (index.js:92-143): each upper-cases the ticker,
    reads the cached JSON under the ticker's key and answers with one field of
    the record, or not-found when the key is missing or holds null. */
module Api {
  import opened Values
  import opened JsString
  import opened Extraction
  import opened Normalization
  import opened Refresh

  /** A handler's answer: 404 with the not-found message, or the field's value sent
      back, where `body` is None when the record has no such field (undefined). */
  datatype Reply = NotFound | Found(body: Option<string>)

  const DataComKey := "DATA COM"
  const PagamentoKey := "PAGAMENTO"

  /** Reading a key and parsing its JSON: a missing key reads as null, like a stored null. */
  function ParseStored(store: map<string, Entry>, key: string): Option<Record> {
    if key in store then store[key].json else None
  }

  /** `r` is the answer for `field` of the ticker `fiiCode` against `store`:
      not-found exactly when the upper-cased ticker's key is missing or holds
      null, and otherwise the stored record's `field` (undefined when absent). */
  ghost predicate Answers(store: map<string, Entry>, fiiCode: string, field: string, r: Reply) {
    var key := CacheKey(ToUpper(fiiCode));
    && (r.NotFound? <==> key !in store || store[key].json.None?)
    && (r.Found? ==> r.body == if field in store[key].json.value then Some(store[key].json.value[field]) else None)
  }

  /** The shared body of the handlers, for the record field `field`. */
  function FieldReply(store: map<string, Entry>, fiiCode: string, field: string): (r: Reply)
    ensures Answers(store, fiiCode, field, r)
  {
    var detalhes := ParseStored(store, CacheKey(ToUpper(fiiCode)));
    if detalhes.None? then NotFound
    else Found(if field in detalhes.value then Some(detalhes.value[field]) else None)
  }

  /** GET /dividendos/:fiiCode — the amount. */
  function DividendValue(store: map<string, Entry>, fiiCode: string): (r: Reply)
    ensures Answers(store, fiiCode, ValorKey, r)
  {
    FieldReply(store, fiiCode, ValorKey)
  }

  /** GET /dividendos/data/com/:fiiCode — the ex-dividend date. */
  function DataCom(store: map<string, Entry>, fiiCode: string): (r: Reply)
    ensures Answers(store, fiiCode, DataComKey, r)
  {
    FieldReply(store, fiiCode, DataComKey)
  }

  /** GET /dividendos/data/pgto/:fiiCode — the payment date. */
  function DataPagamento(store: map<string, Entry>, fiiCode: string): (r: Reply)
    ensures Answers(store, fiiCode, PagamentoKey, r)
  {
    FieldReply(store, fiiCode, PagamentoKey)
  }

  /** The ticker's case does not matter: asking with the upper-cased ticker
      gives the same answer. */
  lemma LookupIgnoresCase(store: map<string, Entry>, fiiCode: string, field: string)
    ensures FieldReply(store, fiiCode, field) == FieldReply(store, ToUpper(fiiCode), field)
  {
    ToUpperIdempotent(fiiCode);
  }

  /** What a handler answers after a batch, for a ticker of the fund list: the
      old answer when the ticker's page threw or had no table, not-found when
      its table was empty, and otherwise the field of the stored first row. */
  lemma ReplyAfterScrape(store: map<string, Entry>, fetch: string -> PageOutcome, fiiCode: string, field: string)
    requires ToUpper(fiiCode) in FiiList
    ensures var after := FieldReply(Refreshed(store, FiiList, fetch), fiiCode, field);
            match PageWrite(fetch(PageUrl(ToUpper(fiiCode))))
            case None => after == FieldReply(store, fiiCode, field)
            case Some(None) => after == NotFound
            case Some(Some(record)) => after == Found(if field in record then Some(record[field]) else None)
  {
    FiiListDistinct();
    RefreshedTicker(store, FiiList, fetch, ToUpper(fiiCode));
  }

  /** End to end, for a ticker of the fund list whose page had a table with at
      least one body row: asking for the header of a column the first row has a
      cell for (and that no later column repeats) answers that cell, trimmed,
      and for the amount with its first comma turned into a period. */
  lemma FieldAfterScrape(store: map<string, Entry>, fetch: string -> PageOutcome, fiiCode: string,
                         table: RawTable, i: nat)
    requires ToUpper(fiiCode) in FiiList
    requires fetch(PageUrl(ToUpper(fiiCode))) == Loaded(Some(table))
    requires table.bodyCells != [] && i < |table.bodyCells[0]|
    requires HasHeader(Headers(table.headerTexts), i)
    requires forall j :: i < j < |table.bodyCells[0]| && j < |table.headerTexts| ==>
               Trim(table.headerTexts[j]) != Trim(table.headerTexts[i])
    ensures var field := Trim(table.headerTexts[i]);
            var cell := Trim(table.bodyCells[0][i]);
            FieldReply(Refreshed(store, FiiList, fetch), fiiCode, field)
              == Found(Some(if field == ValorKey then ReplaceFirst(cell, ',', '.') else cell))
  {
    var headers := Headers(table.headerTexts);
    RowRecordValue(headers, table.bodyCells[0], i);
    ReplyAfterScrape(store, fetch, fiiCode, headers[i]);
  }

  /** An empty dividend table stores null, so after the batch all three
      handlers answer not-found for that ticker, whatever was cached before. */
  lemma EmptyTableIsNotFound(store: map<string, Entry>, fetch: string -> PageOutcome, fiiCode: string,
                             headerTexts: seq<string>)
    requires ToUpper(fiiCode) in FiiList
    requires fetch(PageUrl(ToUpper(fiiCode))) == Loaded(Some(RawTable(headerTexts, [])))
    ensures var after := Refreshed(store, FiiList, fetch);
            DividendValue(after, fiiCode) == NotFound && DataCom(after, fiiCode) == NotFound
            && DataPagamento(after, fiiCode) == NotFound
  {
    ReplyAfterScrape(store, fetch, fiiCode, ValorKey);
    ReplyAfterScrape(store, fetch, fiiCode, DataComKey);
    ReplyAfterScrape(store, fetch, fiiCode, PagamentoKey);
  }
}
