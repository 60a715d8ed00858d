/** The browser's local storage as the front end uses it: a map from keys to strings,
    shared by every part of the page. */
module BrowserStorage {
  import opened Wrappers

  const TOKEN_KEY := "token"
  const USER_KEY := "user"

  class LocalStorage {
    var items: map<string, string>

    constructor (items: map<string, string>)
      ensures this.items == items
    {
      this.items := items;
    }

    /** `getItem`: the value, or nothing for an absent key. */
    method GetItem(key: string) returns (r: Option<string>)
      ensures key in items ==> r == Some(items[key])
      ensures key !in items ==> r == None
    {
      r := if key in items then Some(items[key]) else None;
    }

    /** `setItem`: the key holds the value; other keys are untouched. */
    method SetItem(key: string, value: string)
      modifies this
      ensures items == old(items)[key := value]
    {
      items := items[key := value];
    }

    /** `removeItem`: the key is gone; other keys are untouched. */
    method RemoveItem(key: string)
      modifies this
      ensures items == old(items) - {key}
    {
      items := items - {key};
    }

    /** Both session keys removed, as sign-out, a rejected token and a 401 do. */
    method ClearSession()
      modifies this
      ensures items == old(items) - {TOKEN_KEY, USER_KEY}
    {
      RemoveItem(TOKEN_KEY);
      RemoveItem(USER_KEY);
    }
  }
}
