/** The session store: the `auth` value and the browser storage it is kept
    in, with the storage writes the login page makes around `login`. */
module AuthContext {
  import opened Base
  import opened Text
  import JsonString

  const TOKEN_KEY: string := "token"
  const USER_ID_KEY: string := "userId"
  const USER_NAME_KEY: string := "userName"

  /** `auth` together with the storage it is restored from. */
  datatype Session = Session(auth: Option<string>, storage: Storage)

  /** The outcome of restoring `auth` when the provider mounts. Only a token
      that is a JSON string (or the literal `null`) is tracked; other stored
      text makes `JSON.parse` throw or yield a non-string value. */
  datatype Restored = Loaded(auth: Option<string>) | NotAStringToken

  /** The initial `auth`: null when the `token` key is absent or empty,
      otherwise the parsed stored text. */
  function InitialAuth(storage: Storage): (r: Restored)
    ensures TOKEN_KEY !in storage || storage[TOKEN_KEY] == "" ==> r == Loaded(None)
    ensures r == Loaded(None) && TOKEN_KEY in storage && storage[TOKEN_KEY] != "" ==>
      JsonString.IsNullLiteral(storage[TOKEN_KEY])
    ensures r.Loaded? && r.auth.Some? ==>
      TOKEN_KEY in storage && JsonString.Parse(storage[TOKEN_KEY]) == Some(r.auth.value)
    ensures TOKEN_KEY in storage && storage[TOKEN_KEY] != "" && JsonString.Parse(storage[TOKEN_KEY]).Some? ==>
      r == Loaded(JsonString.Parse(storage[TOKEN_KEY]))
    ensures TOKEN_KEY in storage && JsonString.IsNullLiteral(storage[TOKEN_KEY]) ==> r == Loaded(None)
    ensures r == NotAStringToken <==>
      && TOKEN_KEY in storage && storage[TOKEN_KEY] != ""
      && JsonString.Parse(storage[TOKEN_KEY]).None? && !JsonString.IsNullLiteral(storage[TOKEN_KEY])
  {
    var stored := GetItem(storage, TOKEN_KEY);
    if !Truthy(stored) then Loaded(None)
    else match JsonString.Parse(stored.value)
      case Some(token) => Loaded(Some(token))
      case None => if JsonString.IsNullLiteral(stored.value) then Loaded(None) else NotAStringToken
  }

  function Init(storage: Storage): (r: Option<Session>)
    ensures r.Some? <==> InitialAuth(storage).Loaded?
    ensures r.Some? ==> r.value.storage == storage && r.value.auth == InitialAuth(storage).auth
  {
    match InitialAuth(storage)
    case Loaded(auth) => Some(Session(auth, storage))
    case NotAStringToken => None
  }

  /** `login(token)`: `auth` becomes the token and the storage's `token` key
      holds its JSON text; no other key changes. */
  function Login(s: Session, token: string): (r: Session)
    ensures r.auth == Some(token)
    ensures r.storage.Keys == s.storage.Keys + {TOKEN_KEY}
    ensures r.storage[TOKEN_KEY] == JsonString.Stringify(token)
    ensures forall k :: k in s.storage && k != TOKEN_KEY ==> r.storage[k] == s.storage[k]
  {
    Session(Some(token), s.storage[TOKEN_KEY := JsonString.Stringify(token)])
  }

  /** Restoring from the storage `login` leaves behind (a page reload) yields
      the same token that was logged in. */
  lemma LoginSurvivesReload(s: Session, token: string)
    ensures Init(Login(s, token).storage) == Some(Login(s, token))
  {
    RestoresStoredToken(Login(s, token).storage, token);
  }

  /** Storage whose `token` key holds the JSON text of a token restores that token. */
  lemma RestoresStoredToken(storage: Storage, token: string)
    requires TOKEN_KEY in storage && storage[TOKEN_KEY] == JsonString.Stringify(token)
    ensures InitialAuth(storage) == Loaded(Some(token))
  {
    JsonString.ParseStringify(token);
    assert GetItem(storage, TOKEN_KEY) == Some(JsonString.Stringify(token));
  }

  /** `logout()`: `auth` becomes null and exactly `token` and `userId` leave
      the storage; `userName` and every other key stay. */
  function Logout(s: Session): (r: Session)
    ensures r.auth.None?
    ensures r.storage.Keys == s.storage.Keys - {TOKEN_KEY, USER_ID_KEY}
    ensures forall k :: k in r.storage ==> r.storage[k] == s.storage[k]
    ensures InitialAuth(r.storage) == Loaded(None)
  {
    Session(None, s.storage - {TOKEN_KEY, USER_ID_KEY})
  }

  lemma LogoutIdempotent(s: Session)
    ensures Logout(Logout(s)) == Logout(s)
  {
  }

  /** Logging out after logging in leaves the storage as before, less `token`
      and `userId`. */
  lemma LogoutUndoesLogin(s: Session, token: string)
    ensures Logout(Login(s, token)).storage == s.storage - {TOKEN_KEY, USER_ID_KEY}
  {
  }

  /** The login page's sign-in once the token is decoded: it stores the
      user id (as `String(userId)`) and the display name (`name || ""`),
      then calls `login`. Decoding the token is not modelled; the claims are
      inputs. */
  function SignIn(s: Session, token: string, userId: nat, name: Option<string>): (r: Session)
    ensures r.auth == Some(token)
    ensures r.storage.Keys == s.storage.Keys + {TOKEN_KEY, USER_ID_KEY, USER_NAME_KEY}
    ensures r.storage[USER_ID_KEY] == NatToDecimal(userId)
    ensures r.storage[USER_NAME_KEY] == OrElse(name, "")
    ensures r.storage[TOKEN_KEY] == JsonString.Stringify(token)
    ensures forall k :: k in s.storage && k != TOKEN_KEY && k != USER_ID_KEY && k != USER_NAME_KEY ==>
      r.storage[k] == s.storage[k]
  {
    var stored := s.storage[USER_ID_KEY := NatToDecimal(userId)][USER_NAME_KEY := OrElse(name, "")];
    var r := Login(Session(s.auth, stored), token);
    KeysDistinct();
    r
  }

  /** The user id stored at sign-in reads back as that id through
      `Number(localStorage.getItem("userId"))`. */
  lemma SignInStoresUserId(s: Session, token: string, userId: nat, name: Option<string>)
    ensures ToNumber(GetItem(SignIn(s, token, userId, name).storage, USER_ID_KEY)) == Num(userId)
  {
    StoredDecimalReadsBack(SignIn(s, token, userId, name).storage, USER_ID_KEY, userId);
  }

  lemma KeysDistinct()
    ensures USER_ID_KEY != TOKEN_KEY && USER_NAME_KEY != TOKEN_KEY && USER_ID_KEY != USER_NAME_KEY
  {
  }

  /** `Number(localStorage.getItem(key))` reads back a count stored as `String(n)`. */
  lemma StoredDecimalReadsBack(storage: Storage, key: string, n: nat)
    requires key in storage && storage[key] == NatToDecimal(n)
    ensures ToNumber(GetItem(storage, key)) == Num(n)
  {
    NumberOfDecimal(n);
  }

  /** After signing out, the display name is still stored but the user id is
      gone, so `Number(localStorage.getItem("userId"))` reads 0. */
  lemma SignOutKeepsUserName(s: Session, token: string, userId: nat, name: Option<string>)
    ensures var out := Logout(SignIn(s, token, userId, name));
            && USER_NAME_KEY in out.storage && out.storage[USER_NAME_KEY] == OrElse(name, "")
            && ToNumber(GetItem(out.storage, USER_ID_KEY)) == Num(0)
  {
  }
}
