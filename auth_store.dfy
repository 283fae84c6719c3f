/** The front end's authentication store: the `token`, `user`, `loading` and
    `error` refs, kept in step with the browser's local storage. The HTTP
    calls of the auth service are parameters: each operation is given the
    response (or the error) the awaited call ended with. */
module AuthStore {
  import opened Values

  const TokenKey := "token"
  const UserKey := "user"
  const RegisterFallback := "注册失败"
  const LoginFallback := "登录失败"

  /** The user object the store keeps, as the server sends it. */
  datatype Account = Account(id: int, name: string, email: string, createdAt: Option<string>)

  /** `JSON.parse` of a stored user: it throws, or yields a value that is
      either an account or a falsy value such as `null`. */
  datatype Parsed = Unparsable | ParsedValue(value: Option<Account>)

  /** How an awaited `authService.register` / `login` call ended: a body with
      `success: true`, a body with `success: false`, or a rejection carrying
      an HTTP status (if a response came back), the server's `error` field
      and the error's `message`. */
  datatype AuthResponse =
    | Accepted(token: string, user: Account)
    | Refused(error: Option<string>)
    | Thrown(status: Option<int>, serverError: Option<string>, message: Option<string>)

  /** How an awaited `authService.getCurrentUser` call ended. */
  datatype FetchResponse =
    | Fetched(user: Account)
    | NotFetched
    | FetchThrown(status: Option<int>)

  /** The shape returned by `register` and `login`. */
  datatype Outcome = Outcome(success: bool, error: Option<string>)

  /** The `localStorage` of the page. */
  class LocalStorage {
    var items: map<string, string>

    constructor (items: map<string, string>)
      ensures this.items == items
    {
      this.items := items;
    }

    /** `getItem`: `null` for a missing key. */
    function GetItem(key: string): (v: Option<string>)
      reads this
      ensures v.Some? <==> key in items
      ensures v.Some? ==> v.value == items[key]
    {
      if key in items then Some(items[key]) else None
    }

    method SetItem(key: string, value: string)
      modifies this
      ensures items == old(items)[key := value]
    {
      items := items[key := value];
    }

    method RemoveItem(key: string)
      modifies this
      ensures items == old(items) - {key}
    {
      items := items - {key};
    }
  }

  /** The response interceptor of the API client: a rejection with status 401
      or 403 clears both stored keys before it reaches the caller. */
  predicate ClearsStorage(status: Option<int>) {
    status == Some(401) || status == Some(403)
  }

  /** `a || b || fallback` on strings: the first truthy one. */
  function FirstTruthy(a: Option<string>, b: Option<string>, fallback: string): (s: string)
    requires fallback != ""
    ensures s != ""
    ensures TruthyText(a) ==> s == a.value
    ensures !TruthyText(a) && TruthyText(b) ==> s == b.value
    ensures !TruthyText(a) && !TruthyText(b) ==> s == fallback
  {
    if TruthyText(a) then a.value else if TruthyText(b) then b.value else fallback
  }

  /** The text `error` receives when a register or login call fails. */
  function FailureText(resp: AuthResponse, fallback: string): (s: string)
    requires !resp.Accepted? && fallback != ""
    ensures s != ""
    ensures resp.Refused? ==> s == FirstTruthy(resp.error, None, fallback)
    ensures resp.Thrown? ==> s == FirstTruthy(resp.serverError, resp.message, fallback)
  {
    match resp
    case Refused(e) => FirstTruthy(e, None, fallback)
    case Thrown(_, server, message) => FirstTruthy(server, message, fallback)
  }

  class AuthStore {
    const storage: LocalStorage
    var user: Option<Account>
    var token: Option<string>
    var loading: bool
    var error: Option<string>

    /** `isAuthenticated`: `!!token && !!user`. */
    function IsAuthenticated(): (b: bool)
      reads this
      ensures b ==> token.Some? && |token.value| > 0 && user.Some?
      ensures token == None || token == Some("") || user == None ==> !b
    {
      TruthyText(token) && user.Some?
    }

    /** Store creation: `token` starts as the stored token when that is
        truthy, everything else empty. */
    constructor (storage: LocalStorage)
      ensures this.storage == storage
      ensures TruthyText(storage.GetItem(TokenKey)) ==> token == storage.GetItem(TokenKey)
      ensures !TruthyText(storage.GetItem(TokenKey)) ==> token == None
      ensures user == None && !loading && error == None
      ensures !IsAuthenticated()
    {
      this.storage := storage;
      var stored := storage.GetItem(TokenKey);
      token := if TruthyText(stored) then stored else None;
      user := None;
      loading := false;
      error := None;
    }

    /** `initAuth`: restores what is stored, leaving a ref alone when its key
        holds nothing truthy; a stored user that does not parse gives `null`. */
    method InitAuth(parse: string -> Parsed)
      modifies this
      ensures var stored := storage.GetItem(TokenKey);
        token == if TruthyText(stored) then stored else old(token)
      ensures var stored := storage.GetItem(UserKey);
        user == if !TruthyText(stored) then old(user)
                else match parse(stored.value)
                  case Unparsable => None
                  case ParsedValue(v) => v
      ensures loading == old(loading) && error == old(error)
      ensures storage.items == old(storage.items)
    {
      var storedToken := storage.GetItem(TokenKey);
      var storedUser := storage.GetItem(UserKey);
      if TruthyText(storedToken) {
        token := storedToken;
      }
      if TruthyText(storedUser) {
        match parse(storedUser.value) {
          case Unparsable => user := None;
          case ParsedValue(v) => user := v;
        }
      }
    }

    /** The synchronous start of `register` and `login`, up to the awaited
        call: the store shows a request in flight with no error. */
    method BeginRequest()
      modifies this
      ensures loading && error == None
      ensures token == old(token) && user == old(user)
    {
      loading := true;
      error := None;
    }

    /** The rest of `register` / `login` once the call has ended: on success
        the new session is adopted and stored; otherwise only `error` changes
        in the store; in every case `loading` ends false. */
    method Settle(resp: AuthResponse, fallback: string, stringify: Account -> string) returns (o: Outcome)
      requires fallback != ""
      modifies this, storage
      ensures !loading
      ensures resp.Accepted? ==>
        token == Some(resp.token) && user == Some(resp.user) && error == old(error) &&
        storage.items == old(storage.items)[TokenKey := resp.token][UserKey := stringify(resp.user)] &&
        o == Outcome(true, None)
      ensures !resp.Accepted? ==>
        token == old(token) && user == old(user) &&
        error == Some(FailureText(resp, fallback)) && o == Outcome(false, error)
      ensures resp.Refused? ==> storage.items == old(storage.items)
      ensures resp.Thrown? ==>
        (storage.items == if ClearsStorage(resp.status) then old(storage.items) - {TokenKey, UserKey}
                          else old(storage.items))
    {
      match resp {
        case Accepted(t, u) =>
          token := Some(t);
          user := Some(u);
          storage.SetItem(TokenKey, t);
          storage.SetItem(UserKey, stringify(u));
          o := Outcome(true, None);
        case Refused(e) =>
          error := Some(FirstTruthy(e, None, fallback));
          o := Outcome(false, error);
        case Thrown(status, server, message) =>
          if ClearsStorage(status) {
            storage.RemoveItem(TokenKey);
            storage.RemoveItem(UserKey);
            assert storage.items == old(storage.items) - {TokenKey, UserKey};
          }
          error := Some(FirstTruthy(server, message, fallback));
          o := Outcome(false, error);
      }
      loading := false;
    }

    /** `register` */
    method Register(resp: AuthResponse, stringify: Account -> string) returns (o: Outcome)
      modifies this, storage
      ensures !loading
      ensures resp.Accepted? ==>
        token == Some(resp.token) && user == Some(resp.user) && error == None &&
        storage.items == old(storage.items)[TokenKey := resp.token][UserKey := stringify(resp.user)] &&
        o == Outcome(true, None)
      ensures resp.Accepted? && resp.token != "" ==> IsAuthenticated()
      ensures !resp.Accepted? ==>
        token == old(token) && user == old(user) &&
        error == Some(FailureText(resp, RegisterFallback)) && o == Outcome(false, error)
      ensures resp.Refused? ==> storage.items == old(storage.items)
      ensures resp.Thrown? ==>
        (storage.items == if ClearsStorage(resp.status) then old(storage.items) - {TokenKey, UserKey}
                          else old(storage.items))
    {
      BeginRequest();
      o := Settle(resp, RegisterFallback, stringify);
    }

    /** `login`: the same steps with its own fallback text. */
    method Login(resp: AuthResponse, stringify: Account -> string) returns (o: Outcome)
      modifies this, storage
      ensures !loading
      ensures resp.Accepted? ==>
        token == Some(resp.token) && user == Some(resp.user) && error == None &&
        storage.items == old(storage.items)[TokenKey := resp.token][UserKey := stringify(resp.user)] &&
        o == Outcome(true, None)
      ensures resp.Accepted? && resp.token != "" ==> IsAuthenticated()
      ensures !resp.Accepted? ==>
        token == old(token) && user == old(user) &&
        error == Some(FailureText(resp, LoginFallback)) && o == Outcome(false, error)
      ensures resp.Refused? ==> storage.items == old(storage.items)
      ensures resp.Thrown? ==>
        (storage.items == if ClearsStorage(resp.status) then old(storage.items) - {TokenKey, UserKey}
                          else old(storage.items))
    {
      BeginRequest();
      o := Settle(resp, LoginFallback, stringify);
    }

    /** `logout`: both stored keys and the three refs are cleared. */
    method Logout()
      modifies this, storage
      ensures token == None && user == None && error == None && loading == old(loading)
      ensures storage.items == old(storage.items) - {TokenKey, UserKey}
      ensures !IsAuthenticated()
    {
      storage.RemoveItem(TokenKey);
      storage.RemoveItem(UserKey);
      token := None;
      user := None;
      error := None;
    }

    /** `fetchCurrentUser`: nothing without a token; a fetched user replaces
        the stored one; a failed request logs out. */
    method FetchCurrentUser(resp: FetchResponse, stringify: Account -> string)
      modifies this, storage
      ensures !TruthyText(old(token)) || resp.NotFetched? ==>
        token == old(token) && user == old(user) && error == old(error) &&
        storage.items == old(storage.items)
      ensures TruthyText(old(token)) && resp.Fetched? ==>
        token == old(token) && user == Some(resp.user) && error == old(error) &&
        storage.items == old(storage.items)[UserKey := stringify(resp.user)]
      ensures TruthyText(old(token)) && resp.FetchThrown? ==>
        token == None && user == None && error == None &&
        storage.items == old(storage.items) - {TokenKey, UserKey}
      ensures loading == old(loading)
    {
      if !TruthyText(token) {
        return;
      }
      match resp {
        case Fetched(u) =>
          user := Some(u);
          storage.SetItem(UserKey, stringify(u));
        case NotFetched =>
        case FetchThrown(status) =>
          if ClearsStorage(status) {
            storage.RemoveItem(TokenKey);
            storage.RemoveItem(UserKey);
          }
          Logout();
          assert storage.items == old(storage.items) - {TokenKey, UserKey};
      }
    }

    /** `clearError` */
    method ClearError()
      modifies this
      ensures error == None
      ensures token == old(token) && user == old(user) && loading == old(loading)
    {
      error := None;
    }
  }

  /** Signing in and then out leaves no session behind, in the store or in
      storage, whatever the sign-in call returned. */
  method LoginThenLogout(store: AuthStore, resp: AuthResponse, stringify: Account -> string)
    modifies store, store.storage
    ensures !store.IsAuthenticated() && !store.loading
    ensures TokenKey !in store.storage.items && UserKey !in store.storage.items
  {
    var _ := store.Login(resp, stringify);
    store.Logout();
  }
}
