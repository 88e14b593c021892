/** The page script run inside the browser tab (index.js:38-61): it finds the
    dividend table, reads its header texts and turns every body row into a
    record keyed by header. The DOM is reduced to the innerText of the cells. */
module Extraction {
  import opened Values
  import opened JsString

  /** The first table inside the earnings section, as the innerText of its
      `thead th` cells and, row by row, of the `td` cells of its `tbody tr` rows. */
  datatype RawTable = RawTable(headerTexts: seq<string>, bodyCells: seq<seq<string>>)

  /** The header names: one per header cell, in document order, each trimmed. */
  function Headers(headerTexts: seq<string>): (headers: seq<string>)
    ensures |headers| == |headerTexts|
    ensures forall i :: 0 <= i < |headers| ==> headers[i] == Trim(headerTexts[i])
  {
    if headerTexts == [] then [] else [Trim(headerTexts[0])] + Headers(headerTexts[1..])
  }

  /** The one key an assignment on a fresh object literal does not store: it
      reaches the inherited prototype setter, which ignores a string value. */
  const ProtoKey := "__proto__"

  /** Whether the cell at `index` ends up in the record: the header lookup is
      falsy both past the last header (undefined) and for an empty header, and
      an assignment under `ProtoKey` creates no property. */
  predicate HasHeader(headers: seq<string>, index: nat) {
    index < |headers| && headers[index] != "" && headers[index] != ProtoKey
  }

  /** The record the forEach over a row's cells builds: cells are visited left
      to right and each kept cell assigns its header, so a later column with
      the same header overwrites an earlier one. */
  function RowRecord(headers: seq<string>, cells: seq<string>): (rowData: Record)
    ensures "" !in rowData && ProtoKey !in rowData
    decreases |cells|
  {
    if cells == [] then map[]
    else
      var index := |cells| - 1;
      var rowData := RowRecord(headers, cells[..index]);
      if HasHeader(headers, index) then rowData[headers[index] := Trim(cells[index])] else rowData
  }

  /** A row's keys are exactly the non-empty headers other than `ProtoKey` of
      the columns the row has cells for. */
  lemma {:induction false} RowRecordKeys(headers: seq<string>, cells: seq<string>, key: string)
    ensures key in RowRecord(headers, cells) <==>
              key != "" && key != ProtoKey && exists i :: 0 <= i < |cells| && i < |headers| && headers[i] == key
    decreases |cells|
  {
    if cells != [] {
      var index := |cells| - 1;
      var prefix := cells[..index];
      RowRecordKeys(headers, prefix, key);
      if key != "" && key != ProtoKey && (exists i :: 0 <= i < |cells| && i < |headers| && headers[i] == key) {
        var i :| 0 <= i < |cells| && i < |headers| && headers[i] == key;
        assert i < index || HasHeader(headers, index);
      }
    }
  }

  /** The value under a header is the trimmed cell of the LAST column carrying
      that header (among the columns the row has cells for). */
  lemma {:induction false} RowRecordValue(headers: seq<string>, cells: seq<string>, i: nat)
    requires i < |cells| && HasHeader(headers, i)
    requires forall j :: i < j < |cells| && j < |headers| ==> headers[j] != headers[i]
    ensures headers[i] in RowRecord(headers, cells)
    ensures RowRecord(headers, cells)[headers[i]] == Trim(cells[i])
    decreases |cells|
  {
    var index := |cells| - 1;
    if i < index {
      RowRecordValue(headers, cells[..index], i);
    }
  }

  /** Cells past the last header never reach the record. */
  lemma {:induction false} RowRecordDropsExtraCells(headers: seq<string>, cells: seq<string>)
    requires |cells| > |headers|
    ensures RowRecord(headers, cells) == RowRecord(headers, cells[..|headers|])
    decreases |cells|
  {
    var index := |cells| - 1;
    assert !HasHeader(headers, index);
    if index > |headers| {
      assert cells[..index][..|headers|] == cells[..|headers|];
      RowRecordDropsExtraCells(headers, cells[..index]);
    }
  }

  /** The forEach callback over one row's cells, filling `rowData` in place. */
  method MapRow(headers: seq<string>, cells: seq<string>) returns (rowData: Record)
    ensures rowData == RowRecord(headers, cells)
  {
    rowData := map[];
    for index := 0 to |cells|
      invariant rowData == RowRecord(headers, cells[..index])
    {
      assert cells[..index + 1][..index] == cells[..index];
      if HasHeader(headers, index) {
        rowData := rowData[headers[index] := Trim(cells[index])];
      }
    }
    assert cells[..|cells|] == cells;
  }

  /** The whole page script: null when there is no table, otherwise one record
      per body row, in document order, each keyed by the trimmed headers. */
  method EvaluateTable(table: Option<RawTable>) returns (rows: Option<seq<Record>>)
    ensures rows.None? <==> table.None?
    ensures table.Some? ==> |rows.value| == |table.value.bodyCells|
    ensures table.Some? ==> forall i :: 0 <= i < |rows.value| ==>
              rows.value[i] == RowRecord(Headers(table.value.headerTexts), table.value.bodyCells[i])
  {
    if table.None? {
      return None;
    }
    var headers := Headers(table.value.headerTexts);
    var records: seq<Record> := [];
    for r := 0 to |table.value.bodyCells|
      invariant |records| == r
      invariant forall i :: 0 <= i < r ==> records[i] == RowRecord(headers, table.value.bodyCells[i])
    {
      var rowData := MapRow(headers, table.value.bodyCells[r]);
      records := records + [rowData];
    }
    return Some(records);
  }
}
