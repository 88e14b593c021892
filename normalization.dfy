/** Choosing the record to cache from the extracted rows and rewriting its
    amount from the Brazilian decimal comma to a period (index.js:68-73). */
module Normalization {
  import opened Values
  import opened JsString

  /** The column holding the distributed amount. */
  const ValorKey := "VALOR"

  /** Whether the rewrite applies: there is a record, and its amount is
      present and not the empty string (JavaScript truthiness). */
  predicate HasValor(info: Option<Record>) {
    info.Some? && ValorKey in info.value && info.value[ValorKey] != ""
  }

  /** The in-place rewrite of the amount: the first comma of VALOR becomes a
      period; no other key and no other character is touched, and a missing
      record stays missing. */
  function NormalizeValor(info: Option<Record>): (r: Option<Record>)
    ensures r.Some? <==> info.Some?
    ensures r.Some? ==> r.value.Keys == info.value.Keys
    ensures r.Some? ==> forall k :: k in info.value && k != ValorKey ==> r.value[k] == info.value[k]
    ensures r.Some? && ValorKey in info.value ==>
              r.value[ValorKey] == ReplaceFirst(info.value[ValorKey], ',', '.')
  {
    if HasValor(info) then
      Some(info.value[ValorKey := ReplaceFirst(info.value[ValorKey], ',', '.')])
    else
      info
  }

  /** An amount already written with a period (no comma), or no amount at all,
      is left as it is. */
  lemma NormalizeKeepsPeriodAmounts(info: Option<Record>)
    requires info.Some? && ValorKey in info.value ==> ',' !in info.value[ValorKey]
    ensures NormalizeValor(info) == info
  {
    if info.Some? {
      assert NormalizeValor(info).value == info.value;
    }
  }

  /** The rewrite is idempotent whenever the amount carries at most one comma
      (the decimal separator): the second pass finds no comma left. */
  lemma NormalizeIdempotent(info: Option<Record>)
    requires info.Some? && ValorKey in info.value ==>
               forall i, j :: 0 <= i < j < |info.value[ValorKey]| && info.value[ValorKey][i] == ',' ==>
                 info.value[ValorKey][j] != ','
    ensures NormalizeValor(NormalizeValor(info)) == NormalizeValor(info)
  {
    if info.Some? && ValorKey in info.value {
      ReplaceFirstRemovesSingle(info.value[ValorKey], ',', '.');
    }
    NormalizeKeepsPeriodAmounts(NormalizeValor(info));
  }

  /** The amount "0,85" of a row is stored as "0.85"; the dates are kept. */
  lemma DecimalCommaExample()
    ensures NormalizeValor(Some(map["DATA COM" := "10/01/2024", ValorKey := "0,85"]))
         == Some(map["DATA COM" := "10/01/2024", ValorKey := "0.85"])
  {
    var valor := "0,85";
    assert valor[1..] == ",85";
    assert ReplaceFirst(valor, ',', '.') == "0.85";
    var row := map["DATA COM" := "10/01/2024", ValorKey := valor];
    assert row[ValorKey := "0.85"] == map["DATA COM" := "10/01/2024", ValorKey := "0.85"];
  }
}
