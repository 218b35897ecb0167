/** The browser's local storage as the application uses it: a map from keys
    to JSON text. The text under a key either parses as a document of the
    shape the component expects, or it does not; the model keeps the parsed
    document rather than its text. */
module Storage {

  datatype Stored<T> = Json(doc: T) | Unparsable(text: string)

  /** What `localStorage.getItem(key)` followed by `JSON.parse` yields. Every
      read in the application is guarded by a truthiness test on the text
      (`if (saved)`, `saved ? JSON.parse(saved) : …`), so a missing key and
      the empty text are both `Absent` and are never parsed; `Corrupt` is
      non-empty text that does not parse. */
  datatype Read<T> = Absent | Corrupt | Parsed(doc: T)

  function Load<T>(store: map<string, Stored<T>>, key: string): (r: Read<T>)
    ensures r.Absent? <==> key !in store || store[key] == Unparsable("")
    ensures r.Corrupt? <==> key in store && store[key].Unparsable? && store[key].text != ""
    ensures r.Parsed? <==> key in store && store[key].Json?
    ensures r.Parsed? ==> r.doc == store[key].doc
  {
    if key !in store then Absent
    else match store[key]
      case Json(d) => Parsed(d)
      case Unparsable(text) => if text == "" then Absent else Corrupt
  }

  /** `localStorage.setItem(key, JSON.stringify(doc))` followed by a read of
      the same key gives the document back. */
  lemma LoadAfterWrite<T>(store: map<string, Stored<T>>, key: string, doc: T, other: string)
    ensures Load(store[key := Json(doc)], key) == Parsed(doc)
    ensures other != key ==> Load(store[key := Json(doc)], other) == Load(store, other)
  {
  }
}
