/**
 * The browser's `localStorage` as the client code uses it: a map from string keys to string
 * values, read with `getItem` (null for a missing key) and changed with `setItem` and
 * `removeItem`.
 */
module BrowserStorage {
  import opened Wrappers

  type Items = map<string, string>

  /** `getItem(key)`; None is null. */
  function GetItem(items: Items, key: string): (r: Option<string>)
    ensures r.Some? <==> key in items
  {
    if key in items then Some(items[key]) else None
  }

  /** `!!localStorage.getItem(key)`: the key is there with a non-empty value. */
  predicate Present(items: Items, key: string) {
    key in items && items[key] != ""
  }

  class LocalStorage {
    var items: Items

    constructor (initial: Items)
      ensures items == initial
    {
      items := initial;
    }

    method SetItem(key: string, value: string)
      modifies this
      ensures items == old(items)[key := value]
    {
      items := items[key := value];
    }

    method RemoveItem(key: string)
      modifies this
      ensures items == old(items) - {key}
    {
      items := items - {key};
    }
  }
}
