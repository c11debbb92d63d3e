/** The `Authorization` header the request interceptor adds. The source sends
    the stored text as it is; since `login` stores the token's JSON text, the
    header carries the token wrapped in quotes. `AuthorizationAsWritten`
    models that; `Authorization` is the header with the token itself. */
module HttpClient {
  import opened Base
  import JsonString
  import opened AuthContext

  const BEARER: string := "Bearer "

  /** The interceptor as written: `Bearer ${localStorage.getItem("token")}`
      whenever the stored text is truthy. */
  function AuthorizationAsWritten(storage: Storage): (h: Option<string>)
    ensures h.Some? <==> TOKEN_KEY in storage && storage[TOKEN_KEY] != ""
    ensures h.Some? ==> h.value == BEARER + storage[TOKEN_KEY]
  {
    var stored := GetItem(storage, TOKEN_KEY);
    if Truthy(stored) then Some(BEARER + stored.value) else None
  }

  /** After `login(token)` the header as written is `Bearer "…"`: the JSON
      text of the token, quotes included, not the token. */
  lemma QuotedBearerAfterLogin(s: Session, token: string)
    ensures AuthorizationAsWritten(Login(s, token).storage) == Some(BEARER + JsonString.Stringify(token))
    ensures AuthorizationAsWritten(Login(s, token).storage) != Some(BEARER + token)
  {
    var j := JsonString.Stringify(token);
    assert |BEARER + j| != |BEARER + token|;
  }

  /** The header with the token itself: the stored text is parsed the way the
      session store restores `auth`. */
  function Authorization(storage: Storage): (h: Option<string>)
    ensures h.Some? <==> InitialAuth(storage).Loaded? && InitialAuth(storage).auth.Some?
    ensures h.Some? ==> h.value == BEARER + InitialAuth(storage).auth.value
  {
    match InitialAuth(storage)
    case Loaded(Some(token)) => Some(BEARER + token)
    case _ => None
  }

  /** After `login(token)` every request carries `Bearer <token>`; after
      `logout()` none carries a header. */
  lemma BearerFollowsSession(s: Session, token: string)
    ensures Authorization(Login(s, token).storage) == Some(BEARER + token)
    ensures Authorization(Logout(s).storage).None?
  {
    RestoresStoredToken(Login(s, token).storage, token);
  }
}
