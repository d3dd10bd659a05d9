/**
 * frontend/src/context/authContext.js: the `user` state of the AuthProvider and the two
 * localStorage keys it is kept consistent with. The provider is an object whose `user` field
 * the handlers and the effect update; `JSON.parse` and `JSON.stringify` are parameters.
 */
module AuthContext {
  import opened Wrappers
  import opened JsValues
  import opened BrowserStorage

  /** The useState initialiser: the parsed stored user, but only when a token is stored too. */
  function InitialUser(items: Items, parse: string -> Option<JsValue>): (user: JsValue)
    ensures user != Null ==> Present(items, "user") && Present(items, "token")
    ensures Present(items, "user") && Present(items, "token") && parse(items["user"]).Some? ==>
      user == parse(items["user"]).value
  {
    if Present(items, "user") && Present(items, "token") then
      match parse(items["user"])
      case None => Null
      case Some(u) => u
    else Null
  }

  /** The effect on `[user]`: the user is cleared when either key is missing. */
  function SyncedUser(items: Items, user: JsValue): (r: JsValue)
    ensures r == user || r == Null
    ensures !Present(items, "token") || !Present(items, "user") ==> r == Null
  {
    if !Present(items, "token") || !Present(items, "user") then Null else user
  }

  /** After a login that stored two non-empty values, the effect keeps the user it set. */
  lemma LoginSurvivesSync(items: Items, token: string, serialised: string, user: JsValue)
    requires token != "" && serialised != ""
    ensures SyncedUser(items["token" := token]["user" := serialised], user) == user
  {
  }

  /** After a logout the effect finds no session, whatever user it is given. */
  lemma LogoutStaysCleared(items: Items, user: JsValue)
    ensures SyncedUser(items - {"token", "user"}, user) == Null
  {
  }

  class AuthProvider {
    const storage: LocalStorage
    var user: JsValue

    constructor (storage: LocalStorage, parse: string -> Option<JsValue>)
      ensures this.storage == storage
      ensures user == InitialUser(storage.items, parse)
    {
      this.storage := storage;
      user := InitialUser(storage.items, parse);
    }

    /** login: the token (as a string) and the serialised user are stored, then the user is set. */
    method Login(token: JsValue, userData: JsValue, stringify: JsValue -> string)
      modifies storage, this
      ensures storage.items == old(storage.items)["token" := ToStr(token)]["user" := stringify(userData)]
      ensures user == userData
    {
      storage.SetItem("token", ToStr(token));
      storage.SetItem("user", stringify(userData));
      user := userData;
    }

    /** logout: both keys are removed and the user is cleared. */
    method Logout()
      modifies storage, this
      ensures storage.items == old(storage.items) - {"token", "user"}
      ensures user == Null
    {
      storage.RemoveItem("token");
      storage.RemoveItem("user");
      user := Null;
    }

    /** The effect, run after every change of `user`. */
    method Sync()
      modifies this
      ensures user == SyncedUser(storage.items, old(user))
    {
      if !Present(storage.items, "token") || !Present(storage.items, "user") {
        user := Null;
      }
    }
  }
}
