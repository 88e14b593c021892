/** Values shared by the scraper, the cache and the read handlers. */
module Values {

  /** A value that may be missing: JavaScript's null / undefined. */
  datatype Option<+T> = None | Some(value: T)

  /** One table row as the page script builds it (`rowData`): column header to cell text.
      It is also what JSON.stringify writes to the cache and JSON.parse gives back. */
  type Record = map<string, string>
}
