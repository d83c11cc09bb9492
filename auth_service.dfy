/**
 * The authentication service: a development shortcut for the `admin` account, login through the
 * API otherwise, and a session kept in the browser's local storage under `authToken` and `user`.
 * The network, the page location and local storage are fields or parameters of the model.
 */
module AuthService {
  import opened Common

  datatype User = User(id: int, username: string, nome: string, role: string, token: string)

  const MockToken: string := "mock-jwt-token"
  /** The built-in development account. */
  const MockUser: User := User(1, "admin", "Administrador", "ADMIN", MockToken)
  const MockUsername: string := "admin"
  const MockPassword: string := "admin123"

  const TokenKey: string := "authToken"
  const UserKey: string := "user"
  const LoginPath: string := "/login"
  /** `postData`'s message when a failed request carries none of its own. */
  const PostFailedMessage: string := "Erro ao enviar dados"

  /** A local-storage entry: a plain string, or the `JSON.stringify` of a user (never the empty string). */
  datatype Stored = Raw(s: string) | Json(user: User)

  type Storage = map<string, Stored>

  /** `ApiResponse<User>`; `data == None` is a body without a user, such as the `{}` a failed request yields. */
  datatype ApiResponse = ApiResponse(data: Option<User>, status: int, error: Option<string>)

  /** What the login request does on the network: the server answers (2xx), or the request fails with
      perhaps a response status and perhaps a server message. */
  datatype Reply =
    | Answered(status: int, body: Option<User>)
    | Failed(failStatus: Option<int>, message: Option<string>)

  /** `response.data?.token` is truthy. */
  predicate HasToken(r: ApiResponse) {
    r.data.Some? && r.data.value.token != ""
  }

  /** `postData`: a success passes status and body through; a failure never throws but becomes a response with an
      empty body, `error.response?.status || 500` and `error.response?.data?.message || 'Erro ao enviar dados'`. */
  function PostData(reply: Reply): (r: ApiResponse)
    ensures reply.Answered? ==> r.data == reply.body && r.status == reply.status && r.error.None?
    ensures reply.Failed? ==> !HasToken(r) && r.error.Some? && r.error.value != ""
    ensures reply.Failed? && (reply.failStatus.None? || reply.failStatus.value == 0) ==> r.status == 500
    ensures reply.Failed? && reply.failStatus.Some? && reply.failStatus.value != 0 ==> r.status == reply.failStatus.value
    ensures reply.Failed? && (reply.message.None? || reply.message.value == "") ==> r.error == Some(PostFailedMessage)
    ensures reply.Failed? && reply.message.Some? && reply.message.value != "" ==> r.error == reply.message
  {
    match reply
    case Answered(status, body) => ApiResponse(body, status, None)
    case Failed(status, message) =>
      ApiResponse(None,
        if status.Some? && status.value != 0 then status.value else 500,
        Some(if message.Some? && message.value != "" then message.value else PostFailedMessage))
  }

  /** The response `login` resolves to: the mock account's without any request, otherwise `postData`'s. */
  function LoginResponse(username: string, password: string, reply: Reply): ApiResponse {
    if username == MockUsername && password == MockPassword then ApiResponse(Some(MockUser), 200, None)
    else PostData(reply)
  }

  /** Writes `authToken` and `user`, nothing else. */
  function StoreSession(st: Storage, u: User): (r: Storage)
    ensures r.Keys == st.Keys + {TokenKey, UserKey}
    ensures r[TokenKey] == Raw(u.token) && r[UserKey] == Json(u)
    ensures forall k :: k in st && k != TokenKey && k != UserKey ==> r[k] == st[k]
  {
    st[TokenKey := Raw(u.token)][UserKey := Json(u)]
  }

  /** Removes `authToken` and `user`, nothing else. */
  function ClearSession(st: Storage): (r: Storage)
    ensures r.Keys == st.Keys - {TokenKey, UserKey}
    ensures forall k :: k in r ==> r[k] == st[k]
  {
    st - {TokenKey, UserKey}
  }

  /** A stored string is truthy unless empty; a serialised user never is. */
  predicate Truthy(e: Stored) {
    e.Json? || e.s != ""
  }

  /** `getCurrentUser`: the stored user, or `null` when the entry is missing or empty. */
  function CurrentUser(st: Storage): Option<User> {
    if UserKey in st && st[UserKey].Json? then Some(st[UserKey].user) else None
  }

  /** `isAuthenticated`: `!!localStorage.getItem('authToken')`. */
  predicate Authenticated(st: Storage) {
    TokenKey in st && Truthy(st[TokenKey])
  }

  /** The stored token is the mock one, which `validateToken` accepts without asking the server. */
  predicate HoldsMockToken(st: Storage) {
    TokenKey in st && st[TokenKey] == Raw(MockToken)
  }

  /** Local storage after `login` resolved to `r`: the session is stored exactly when the response carries a token. */
  function AfterLogin(st: Storage, r: ApiResponse): Storage {
    if HasToken(r) then StoreSession(st, r.data.value) else st
  }

  /** `validateToken`'s answer: the mock token, or a token the server accepts. */
  predicate TokenVerdict(st: Storage, serverAccepts: bool) {
    HoldsMockToken(st) || serverAccepts
  }

  /** Local storage after `validateToken`: cleared by the `logout` in its `catch` when the token is refused. */
  function AfterValidate(st: Storage, serverAccepts: bool): Storage {
    if TokenVerdict(st, serverAccepts) then st else ClearSession(st)
  }

  /** Storing a session is read back by `getCurrentUser` and, for a non-empty token, by `isAuthenticated`. */
  lemma StoreThenRead(st: Storage, u: User)
    ensures CurrentUser(StoreSession(st, u)) == Some(u)
    ensures Authenticated(StoreSession(st, u)) <==> u.token != ""
    ensures HoldsMockToken(StoreSession(st, u)) <==> u.token == MockToken
  {
  }

  /** After clearing, no user and no authentication remain, whatever was stored before. */
  lemma ClearThenRead(st: Storage)
    ensures CurrentUser(ClearSession(st)) == None
    ensures !Authenticated(ClearSession(st)) && !HoldsMockToken(ClearSession(st))
    ensures ClearSession(ClearSession(st)) == ClearSession(st)
  {
  }

  /** A login response that carries a token always leaves the client authenticated as the user it names;
      one without a token leaves local storage untouched. */
  lemma LoginStoresExactlyTokenBearers(st: Storage, username: string, password: string, reply: Reply)
    ensures HasToken(LoginResponse(username, password, reply)) ==>
      && Authenticated(AfterLogin(st, LoginResponse(username, password, reply)))
      && CurrentUser(AfterLogin(st, LoginResponse(username, password, reply))) == LoginResponse(username, password, reply).data
    ensures !HasToken(LoginResponse(username, password, reply)) ==> AfterLogin(st, LoginResponse(username, password, reply)) == st
  {
    var r := LoginResponse(username, password, reply);
    if HasToken(r) {
      StoreThenRead(st, r.data.value);
    }
  }

  /** The development credentials always log in as the mock administrator, with no request sent. */
  lemma MockCredentialsAlwaysLogIn(st: Storage, reply: Reply)
    ensures LoginResponse(MockUsername, MockPassword, reply).status == 200
    ensures HasToken(LoginResponse(MockUsername, MockPassword, reply))
    ensures CurrentUser(AfterLogin(st, LoginResponse(MockUsername, MockPassword, reply))) == Some(MockUser)
    ensures HoldsMockToken(AfterLogin(st, LoginResponse(MockUsername, MockPassword, reply)))
    ensures Authenticated(AfterLogin(st, LoginResponse(MockUsername, MockPassword, reply)))
  {
    StoreThenRead(st, MockUser);
  }

  /** Mock login then logout: logged in as the mock administrator in between, and nothing left afterwards. */
  lemma MockLoginLogoutRoundTrip(st: Storage, reply: Reply)
    ensures var s1 := AfterLogin(st, LoginResponse(MockUsername, MockPassword, reply));
      && Authenticated(s1) && CurrentUser(s1) == Some(MockUser)
      && !Authenticated(ClearSession(s1)) && CurrentUser(ClearSession(s1)) == None
      && ClearSession(s1) == ClearSession(st)
  {
    MockCredentialsAlwaysLogIn(st, reply);
    var s1 := AfterLogin(st, LoginResponse(MockUsername, MockPassword, reply));
    ClearThenRead(s1);
    assert ClearSession(s1) == ClearSession(st);
  }

  /** A failed request never stores a session. */
  lemma FailedLoginStoresNothing(st: Storage, username: string, password: string, reply: Reply)
    requires reply.Failed? && !(username == MockUsername && password == MockPassword)
    ensures AfterLogin(st, LoginResponse(username, password, reply)) == st
    ensures LoginResponse(username, password, reply).error.Some?
  {
  }

  /** Any token equal to the mock string passes validation without the server, however it got into storage. */
  lemma MockTokenNeedsNoServer(st: Storage)
    requires HoldsMockToken(st)
    ensures TokenVerdict(st, false) && AfterValidate(st, false) == st
  {
  }

  /** A refused token ends the session: afterwards nothing is authenticated. */
  lemma RefusedTokenLogsOut(st: Storage, serverAccepts: bool)
    ensures !TokenVerdict(st, serverAccepts) <==> !HoldsMockToken(st) && !serverAccepts
    ensures !TokenVerdict(st, serverAccepts) ==> !Authenticated(AfterValidate(st, serverAccepts))
    ensures TokenVerdict(st, serverAccepts) ==> AfterValidate(st, serverAccepts) == st
  {
    ClearThenRead(st);
  }

  /** The browser state the service touches: local storage and the address `window.location.href` was set to. */
  class Session {
    var storage: Storage
    var location: Option<string>

    /** Only serialised users are ever stored under `user`. */
    ghost predicate Valid()
      reads this
    {
      UserKey in storage ==> storage[UserKey].Json?
    }

    constructor(initial: Storage)
      requires UserKey in initial ==> initial[UserKey].Json?
      ensures Valid() && storage == initial && location == None
    {
      storage := initial;
      location := None;
    }

    /** `login`: the mock account, or the API; the session is stored when the response carries a token. */
    method Login(username: string, password: string, reply: Reply) returns (r: ApiResponse, calledApi: bool)
      requires Valid()
      modifies this
      ensures Valid()
      ensures calledApi <==> !(username == MockUsername && password == MockPassword)
      ensures r == LoginResponse(username, password, reply)
      ensures storage == AfterLogin(old(storage), r) && location == old(location)
    {
      if username == MockUsername && password == MockPassword {
        storage := storage[TokenKey := Raw(MockUser.token)];
        storage := storage[UserKey := Json(MockUser)];
        return ApiResponse(Some(MockUser), 200, None), false;
      }
      calledApi := true;
      r := PostData(reply);
      if r.data.Some? && r.data.value.token != "" {
        storage := storage[TokenKey := Raw(r.data.value.token)];
        storage := storage[UserKey := Json(r.data.value)];
      }
    }

    /** `logout`: forget the session and go to the login page. */
    method Logout()
      requires Valid()
      modifies this
      ensures Valid()
      ensures storage == ClearSession(old(storage)) && location == Some(LoginPath)
    {
      storage := storage - {TokenKey};
      storage := storage - {UserKey};
      location := Some(LoginPath);
    }

    /** `getCurrentUser`: in a valid session, a user is returned exactly when one is stored. */
    function GetCurrentUser(): (r: Option<User>)
      reads this
      ensures Valid() ==> (r.Some? <==> UserKey in storage)
      ensures r.Some? ==> storage[UserKey] == Json(r.value)
    {
      CurrentUser(storage)
    }

    /** `isAuthenticated`. */
    predicate IsAuthenticated()
      reads this
    {
      Authenticated(storage)
    }

    /** `validateToken`: the mock token is accepted at once; any other, including none, is sent to the server,
        and a refusal logs out. */
    method ValidateToken(serverAccepts: bool) returns (valid: bool, calledApi: bool)
      requires Valid()
      modifies this
      ensures Valid()
      ensures calledApi <==> !HoldsMockToken(old(storage))
      ensures valid == TokenVerdict(old(storage), serverAccepts)
      ensures storage == AfterValidate(old(storage), serverAccepts)
      ensures location == if valid then old(location) else Some(LoginPath)
    {
      var token := if TokenKey in storage then Some(storage[TokenKey]) else None;
      if token == Some(Raw(MockToken)) {
        return true, false;
      }
      calledApi := true;
      if serverAccepts {
        return true, true;
      }
      Logout();
      valid := false;
    }
  }
}
