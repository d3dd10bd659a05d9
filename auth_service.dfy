/**
 * frontend/src/services/auth.jsx: the client's session rule (a token and a serialised user
 * in localStorage), the Authorization header it derives from the token, the request payloads
 * and the messages it throws on failure. HTTP calls are parameters (their `Reply`), and so are
 * `JSON.stringify` and `JSON.parse` (which gives nothing when it throws).
 */
module AuthService {
  import opened Wrappers
  import opened Text
  import opened JsValues
  import opened BrowserStorage
  import opened Client
  import AuthMiddleware

  /** getAuthHeader: `{}` without a stored token, otherwise the Bearer header. */
  function AuthHeader(items: Items): (h: Object)
    ensures h == [] <==> !Present(items, "token")
    ensures h != [] ==> h == [("Authorization", Str("Bearer " + items["token"]))]
  {
    if !Present(items, "token") then [] else [("Authorization", Str("Bearer " + items["token"]))]
  }

  /**
   * The header the client derives is the one the server's middleware reads: the token it
   * stored (a JWT has no spaces) is exactly the token handed to verification.
   */
  lemma AuthHeaderReachesMiddleware(items: Items)
    requires Present(items, "token") && ' ' !in items["token"]
    ensures var header := Prop(AuthHeader(items), "Authorization");
      header.Str? && AuthMiddleware.Token(Some(header.s)) == Some(items["token"])
  {
    AuthMiddleware.BearerToken(items["token"]);
  }

  /**
   * login, after the POST: `reply` is its outcome. Both `token` and `user` must be in the
   * response data; only then are they stored, the user serialised.
   */
  method Login(storage: LocalStorage, reply: Reply<JsValue>, stringify: JsValue -> string)
    returns (r: Reply<JsValue>)
    modifies storage
    ensures r == LoginResult(reply)
    ensures r.Done? ==> storage.items == old(storage.items)
      ["token" := ToStr(Field(reply.value, "token"))]["user" := stringify(Field(reply.value, "user"))]
    ensures r.Failed? ==> storage.items == old(storage.items)
  {
    r := LoginResult(reply);
    if r.Done? {
      storage.SetItem("token", ToStr(Field(reply.value, "token")));
      storage.SetItem("user", stringify(Field(reply.value, "user")));
    }
  }

  /** What login resolves with or rethrows. */
  function LoginResult(reply: Reply<JsValue>): (r: Reply<JsValue>)
  {
    match reply
    case Failed(e) => Failed(e)
    case Done(data) =>
      if data.Undefined? || data.Null? then
        Failed(ClientError(Undefined, "Cannot destructure property 'token' of 'response.data' as it is "
                                      + (if data.Undefined? then "undefined." else "null.")))
      else if !Truthy(Field(data, "token")) || !Truthy(Field(data, "user")) then
        Failed(ClientError(Undefined, "Invalid response from server"))
      else Done(Obj([("token", Field(data, "token")), ("user", Field(data, "user"))]))
  }

  /**
   * login succeeds exactly when the server answered with a truthy token and user, and then
   * returns both; a server answer without them is 'Invalid response from server'.
   */
  lemma LoginRequiresTokenAndUser(reply: Reply<JsValue>)
    ensures LoginResult(reply).Done? <==>
      reply.Done? && Truthy(Field(reply.value, "token")) && Truthy(Field(reply.value, "user"))
    ensures LoginResult(reply).Done? ==>
      && Prop(LoginResult(reply).value.entries, "token") == Field(reply.value, "token")
      && Prop(LoginResult(reply).value.entries, "user") == Field(reply.value, "user")
    ensures reply.Done? && reply.value.Obj? && !(Truthy(Field(reply.value, "token")) && Truthy(Field(reply.value, "user"))) ==>
      LoginResult(reply) == Failed(ClientError(Undefined, "Invalid response from server"))
    ensures reply.Failed? ==> LoginResult(reply) == reply
  {
  }

  /** handleUnauthorized: both keys go, and the page moves to /login. */
  method HandleUnauthorized(storage: LocalStorage) returns (location: string)
    modifies storage
    ensures storage.items == old(storage.items) - {"token", "user"}
    ensures location == "/login"
  {
    storage.RemoveItem("token");
    storage.RemoveItem("user");
    location := "/login";
  }

  /** register's request body: the form's camel-case names under the server's names. */
  function RegisterPayload(form: Object): (p: Object)
    ensures Keys(p) == ["first_name", "last_name", "email", "password"]
  {
    [("first_name", Prop(form, "firstName")), ("last_name", Prop(form, "lastName")),
     ("email", Prop(form, "email")), ("password", Prop(form, "password"))]
  }

  /** resetPassword's request body: `newPassword` is sent as `new_password`. */
  function ResetPayload(form: Object): (p: Object)
    ensures Keys(p) == ["email", "code", "new_password"]
  {
    [("email", Prop(form, "email")), ("code", Prop(form, "code")), ("new_password", Prop(form, "newPassword"))]
  }

  /** Each value the server receives is the form's value under the mapped name. */
  lemma PayloadsRename(form: Object)
    ensures Prop(RegisterPayload(form), "first_name") == Prop(form, "firstName")
    ensures Prop(RegisterPayload(form), "last_name") == Prop(form, "lastName")
    ensures Prop(RegisterPayload(form), "email") == Prop(form, "email")
    ensures Prop(RegisterPayload(form), "password") == Prop(form, "password")
    ensures Prop(ResetPayload(form), "new_password") == Prop(form, "newPassword")
    ensures Prop(ResetPayload(form), "email") == Prop(form, "email")
    ensures Prop(ResetPayload(form), "code") == Prop(form, "code")
  {
    var r := RegisterPayload(form);
    PropAt(r, 0);
    PropAt(r, 1);
    PropAt(r, 2);
    PropAt(r, 3);
    var p := ResetPayload(form);
    PropAt(p, 0);
    PropAt(p, 1);
    PropAt(p, 2);
  }

  /** requestPasswordReset's axios config: `{ headers }` only when there is a header to send. */
  function ResetRequestConfig(items: Items): (config: Object)
    ensures config != [] <==> Present(items, "token")
    ensures config != [] ==> Prop(config, "headers") == Obj(AuthHeader(items))
  {
    var headers := AuthHeader(items);
    if |headers| > 0 then [("headers", Obj(headers))] else []
  }

  /** The message thrown for a failed register: server error, then details, then the error's own message. */
  function RegisterError(e: ClientError): string {
    ToStr(FirstTruthy([ResponseData(e, "error"), ResponseData(e, "details"), Str(e.message)], Str("Registration failed")))
  }

  function RequestResetError(e: ClientError): string {
    ToStr(FirstTruthy([ResponseData(e, "error"), Str(e.message)], Str("Failed to request password reset")))
  }

  function ResetError(e: ClientError): string {
    ToStr(FirstTruthy([ResponseData(e, "error"), Str(e.message)], Str("Failed to reset password")))
  }

  /** The precedence of the three failure messages, and their fixed defaults. */
  lemma ErrorPrecedence(e: ClientError)
    ensures Truthy(ResponseData(e, "error")) ==>
      RegisterError(e) == ToStr(ResponseData(e, "error")) && RequestResetError(e) == RegisterError(e) && ResetError(e) == RegisterError(e)
    ensures !Truthy(ResponseData(e, "error")) && Truthy(ResponseData(e, "details")) ==>
      RegisterError(e) == ToStr(ResponseData(e, "details"))
    ensures !Truthy(ResponseData(e, "error")) && e.message != "" ==>
      RequestResetError(e) == e.message && ResetError(e) == e.message
    ensures !Truthy(ResponseData(e, "error")) && !Truthy(ResponseData(e, "details")) && e.message != "" ==>
      RegisterError(e) == e.message
    ensures !Truthy(ResponseData(e, "error")) && !Truthy(ResponseData(e, "details")) && e.message == "" ==>
      RegisterError(e) == "Registration failed"
    ensures !Truthy(ResponseData(e, "error")) && e.message == "" ==>
      RequestResetError(e) == "Failed to request password reset" && ResetError(e) == "Failed to reset password"
  {
    var err, details, own := ResponseData(e, "error"), ResponseData(e, "details"), Str(e.message);
    if Truthy(err) {
      FirstTruthyPicks([err, details, own], Str("Registration failed"), 0);
      FirstTruthyPicks([err, own], Str("Failed to request password reset"), 0);
      FirstTruthyPicks([err, own], Str("Failed to reset password"), 0);
    } else if Truthy(details) {
      FirstTruthyPicks([err, details, own], Str("Registration failed"), 1);
    }
    if !Truthy(err) && e.message != "" {
      FirstTruthyPicks([err, own], Str("Failed to request password reset"), 1);
      FirstTruthyPicks([err, own], Str("Failed to reset password"), 1);
      if !Truthy(details) {
        FirstTruthyPicks([err, details, own], Str("Registration failed"), 2);
      }
    }
  }

  datatype AuthState = AuthState(isAuthenticated: bool, user: JsValue, token: JsValue)

  /** `localStorage.getItem(key)` as a value: null when the key is missing. */
  function Stored(items: Items, key: string): (v: JsValue)
    ensures Truthy(v) <==> Present(items, key)
  {
    if key in items then Str(items[key]) else Null
  }

  /** checkAuthState. */
  function CheckAuthState(items: Items, parse: string -> Option<JsValue>): (s: AuthState)
  {
    var token := Stored(items, "token");
    if !Present(items, "user") then AuthState(Truthy(token) && Truthy(Null), Null, token)
    else
      match parse(items["user"])
      case None => AuthState(false, Null, Null)
      case Some(user) => AuthState(Truthy(token) && Truthy(user), user, token)
  }

  /**
   * Authenticated only with both keys present and a stored user that parses to a truthy
   * value; an unparseable user gives `{ false, null, null }`.
   */
  lemma CheckAuthStateCases(items: Items, parse: string -> Option<JsValue>)
    ensures CheckAuthState(items, parse).isAuthenticated <==>
      Present(items, "token") && Present(items, "user")
      && parse(items["user"]).Some? && Truthy(parse(items["user"]).value)
    ensures Present(items, "user") && parse(items["user"]).None? ==>
      CheckAuthState(items, parse) == AuthState(false, Null, Null)
    ensures CheckAuthState(items, parse).isAuthenticated ==>
      CheckAuthState(items, parse).token == Str(items["token"]) && Some(CheckAuthState(items, parse).user) == parse(items["user"])
  {
  }
}
