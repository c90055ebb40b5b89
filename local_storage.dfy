/**
 * The browser's `window.localStorage`: a mutable map from string keys to
 * stored values. The history log is the one value kept as JSON; it is held
 * here as the sequence of records it encodes (`Log`), every other key as plain
 * text (`Text`). `T` is the record type of the log.
 */
module LocalStorage {
  import opened Js

  datatype Stored<T> = Text(text: string) | Log(entries: seq<T>)

  /**
   * The string `getItem` returns for a stored value. The JSON text of a log
   * is kept only up to its first character, `[`, which is all a reader of a
   * text key (a locale code, a theme name) can tell it apart by.
   */
  function AsText<T>(v: Stored<T>): (s: string)
    ensures v.Text? ==> s == v.text
    ensures v.Log? ==> s != "" && s[0] == '['
  {
    match v
    case Text(s) => s
    case Log(_) => "["
  }

  class Store<T> {
    var data: map<string, Stored<T>>

    constructor (initial: map<string, Stored<T>>)
      ensures data == initial
    {
      data := initial;
    }

    /** `localStorage.getItem(key)` as text; `None` is `null` (no such key). */
    function GetItem(key: string): (r: Option<string>)
      reads this
      ensures r.Some? <==> key in data
      ensures key in data && data[key].Text? ==> r == Some(data[key].text)
    {
      if key in data then Some(AsText(data[key])) else None
    }

    /** `localStorage.setItem(key, value)`: only `key` changes. */
    method SetItem(key: string, value: Stored<T>)
      modifies this
      ensures data == old(data)[key := value]
    {
      data := data[key := value];
    }

    /** `localStorage.removeItem(key)`: only `key` changes. */
    method RemoveItem(key: string)
      modifies this
      ensures data == old(data) - {key}
    {
      data := data - {key};
    }
  }
}
