/**
 * The login page: refuses to submit with an empty field, then awaits `login` and either navigates
 * to the dashboard or shows a message; `loading` is on only while the request is pending.
 */
module LoginPage {
  import opened Common
  import opened AuthService

  const FillAllMessage: string := "Preencha todos os campos"
  const BadCredentialsMessage: string := "Credenciais inválidas"
  const ConnectErrorMessage: string := "Erro ao conectar ao servidor"
  const HomePath: string := "/"

  /** How the awaited `login` call ended: it resolved to a response, or it threw. */
  datatype Outcome = Returned(response: ApiResponse) | Threw

  /** The page navigates only for status 200 with a truthy token. */
  predicate Succeeded(o: Outcome) {
    o.Returned? && o.response.status == 200 && HasToken(o.response)
  }

  /** The message shown when a submitted login does not succeed: the response's own error when it has a non-empty
      one, the bad-credentials message otherwise, and the connection message when `login` threw. */
  function SubmitError(o: Outcome): (m: string)
    ensures m != ""
    ensures o.Threw? ==> m == ConnectErrorMessage
    ensures o.Returned? && o.response.error.Some? && o.response.error.value != "" ==> m == o.response.error.value
    ensures o.Returned? && (o.response.error.None? || o.response.error.value == "") ==> m == BadCredentialsMessage
  {
    match o
    case Threw => ConnectErrorMessage
    case Returned(r) => if r.error.Some? && r.error.value != "" then r.error.value else BadCredentialsMessage
  }

  /** `login` never throws, because `postData` turns every failed request into a response; so a failed request
      shows the message `postData` put in that response (its own fallback when the server sent none),
      not the page's connection message. */
  lemma FailedRequestShowsItsMessage(username: string, password: string, reply: Reply)
    requires reply.Failed? && !(username == MockUsername && password == MockPassword)
    ensures !Succeeded(Returned(LoginResponse(username, password, reply)))
    ensures SubmitError(Returned(LoginResponse(username, password, reply))) == LoginResponse(username, password, reply).error.value
    ensures reply.message.None? ==> SubmitError(Returned(LoginResponse(username, password, reply))) == PostFailedMessage
  {
    var r := LoginResponse(username, password, reply);
    assert r == PostData(reply);
  }

  /** Whenever the page navigates away, the session it navigates with is stored: the token reads back as
      authenticated and the stored user is the one the response named. */
  lemma NavigationImpliesStoredSession(st: Storage, username: string, password: string, reply: Reply)
    requires Succeeded(Returned(LoginResponse(username, password, reply)))
    ensures Authenticated(AfterLogin(st, LoginResponse(username, password, reply)))
    ensures CurrentUser(AfterLogin(st, LoginResponse(username, password, reply))) == LoginResponse(username, password, reply).data
  {
    LoginStoresExactlyTokenBearers(st, username, password, reply);
  }

  /** The converse fails: a 2xx answer other than 200 that carries a token stores the session,
      yet the page stays and shows the bad-credentials message. */
  lemma StoredWithoutNavigation()
    ensures var r := LoginResponse("maria", "segredo", Answered(201, Some(User(2, "maria", "Maria", "PROFESSOR", "t"))));
      && !Succeeded(Returned(r))
      && Authenticated(AfterLogin(map[], r))
      && SubmitError(Returned(r)) == BadCredentialsMessage
  {
    var r := LoginResponse("maria", "segredo", Answered(201, Some(User(2, "maria", "Maria", "PROFESSOR", "t"))));
    assert r == ApiResponse(Some(User(2, "maria", "Maria", "PROFESSOR", "t")), 201, None);
    StoreThenRead(map[], r.data.value);
  }

  /** The page's state: the two inputs, the message, the loading flag, and where `navigate` was sent. */
  class Page {
    var username: string
    var password: string
    var error: string
    var loading: bool
    var navigatedTo: Option<string>

    constructor()
      ensures username == "" && password == "" && error == "" && !loading && navigatedTo == None
    {
      username := "";
      password := "";
      error := "";
      loading := false;
      navigatedTo := None;
    }

    /** The input handlers. */
    method SetCredentials(u: string, p: string)
      modifies this
      ensures username == u && password == p
      ensures error == old(error) && loading == old(loading) && navigatedTo == old(navigatedTo)
    {
      username := u;
      password := p;
    }

    /** `handleSubmit` up to the `await`: an empty field shows a message and stops; otherwise loading starts
        with the message cleared. */
    method StartSubmit() returns (proceed: bool)
      modifies this
      ensures proceed <==> username != "" && password != ""
      ensures username == old(username) && password == old(password) && navigatedTo == old(navigatedTo)
      ensures !proceed ==> error == FillAllMessage && loading == old(loading)
      ensures proceed ==> error == "" && loading
    {
      if username == "" || password == "" {
        error := FillAllMessage;
        return false;
      }
      loading := true;
      error := "";
      proceed := true;
    }

    /** `handleSubmit` after the `await`: navigate home on success, show the message otherwise;
        loading always ends (`finally`). */
    method FinishSubmit(o: Outcome)
      modifies this
      ensures !loading
      ensures username == old(username) && password == old(password)
      ensures Succeeded(o) ==> navigatedTo == Some(HomePath) && error == old(error)
      ensures !Succeeded(o) ==> navigatedTo == old(navigatedTo) && error == SubmitError(o)
    {
      match o {
        case Threw =>
          error := ConnectErrorMessage;
        case Returned(r) =>
          if r.status == 200 && r.data.Some? && r.data.value.token != "" {
            navigatedTo := Some(HomePath);
          } else {
            error := if r.error.Some? && r.error.value != "" then r.error.value else BadCredentialsMessage;
          }
      }
      loading := false;
    }

    /** The whole submit against the service: an empty field sends nothing; otherwise `login` runs once and the
        page ends in the state `FinishSubmit` gives for its response. */
    method HandleSubmit(session: Session, reply: Reply)
      requires session.Valid()
      modifies this, session
      ensures session.Valid()
      ensures username == old(username) && password == old(password) && session.location == old(session.location)
      ensures old(username) == "" || old(password) == "" ==>
        && error == FillAllMessage && loading == old(loading) && navigatedTo == old(navigatedTo)
        && session.storage == old(session.storage)
      ensures old(username) != "" && old(password) != "" ==>
        var r := LoginResponse(old(username), old(password), reply);
        && !loading
        && session.storage == AfterLogin(old(session.storage), r)
        && (Succeeded(Returned(r)) ==> navigatedTo == Some(HomePath) && error == "")
        && (!Succeeded(Returned(r)) ==> navigatedTo == old(navigatedTo) && error == SubmitError(Returned(r)))
    {
      var proceed := StartSubmit();
      if proceed {
        var r, _ := session.Login(username, password, reply);
        FinishSubmit(Returned(r));
      }
    }
  }
}
