/** The JSON documents the server keeps on disk (the menu and the order
    ledger), reduced to what the handlers can observe of them. */
module Storage {

  /** What a read of a document can find: no readable file, an empty file,
      text that is not valid JSON, or a JSON array of records. */
  datatype StoredFile<T> = Missing | Blank | Malformed | Json(records: seq<T>)

  /** The lenient decode of `readFileSafely` (server.js): only a well-formed
      document yields records; a missing, empty or malformed one reads as the
      empty collection rather than as an error. */
  function ReadFileSafely<T>(f: StoredFile<T>): (s: seq<T>)
    ensures f.Json? ==> s == f.records
    ensures !f.Json? ==> s == []
  {
    match f
    case Json(records) => records
    case _ => []
  }
}
