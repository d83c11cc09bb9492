/**
 * The route guard: on mount it checks the stored token (validating it with the server unless it is the
 * mock token) and meanwhile shows a spinner; then it shows the protected page or redirects to the login page.
 */
module ProtectedRoute {
  import opened Common
  import opened AuthService

  /** What the guard renders. */
  datatype View = Spinner | Outlet | NavigateTo(path: string)

  /** The render rule: a spinner while loading, then the page only for an authenticated, validated session. */
  function RenderDecision(loading: bool, authenticated: bool, isValid: bool): (v: View)
    ensures v == Spinner <==> loading
    ensures v == Outlet <==> !loading && authenticated && isValid
    ensures v.NavigateTo? ==> v.path == LoginPath
  {
    if loading then Spinner
    else if authenticated && isValid then Outlet
    else NavigateTo(LoginPath)
  }

  /** What the guard shows once its check has finished, for the local storage it found on mount. */
  function Guard(st: Storage, serverAccepts: bool): View {
    var valid := Authenticated(st) && TokenVerdict(st, serverAccepts);
    RenderDecision(false, Authenticated(if Authenticated(st) then AfterValidate(st, serverAccepts) else st), valid)
  }

  /** The page is shown exactly for a truthy token that is the mock one or that the server accepts;
      otherwise the guard always redirects to the login page. */
  lemma GuardAdmitsIff(st: Storage, serverAccepts: bool)
    ensures Guard(st, serverAccepts) == Outlet <==> Authenticated(st) && (HoldsMockToken(st) || serverAccepts)
    ensures Guard(st, serverAccepts) != Outlet ==> Guard(st, serverAccepts) == NavigateTo(LoginPath)
  {
    if Authenticated(st) && !TokenVerdict(st, serverAccepts) {
      RefusedTokenLogsOut(st, serverAccepts);
    }
  }

  /** Without a token the server is never asked and the page is never shown. */
  lemma NoTokenNoPage(st: Storage, serverAccepts: bool)
    requires !Authenticated(st)
    ensures Guard(st, serverAccepts) == NavigateTo(LoginPath)
  {
    GuardAdmitsIff(st, serverAccepts);
  }

  /** The component's state: `loading` and `isValid`. */
  class Route {
    var loading: bool
    var isValid: bool

    constructor()
      ensures loading && !isValid
    {
      loading := true;
      isValid := false;
    }

    /** `checkAuth`, run once on mount: validates only an authenticated session, then stops loading. */
    method CheckAuth(session: Session, serverAccepts: bool) returns (validateCalled: bool)
      requires session.Valid()
      modifies this, session
      ensures session.Valid()
      ensures validateCalled <==> Authenticated(old(session.storage))
      ensures !loading
      ensures isValid == if validateCalled then TokenVerdict(old(session.storage), serverAccepts) else old(isValid)
      ensures session.storage == if validateCalled then AfterValidate(old(session.storage), serverAccepts) else old(session.storage)
      ensures session.location == if validateCalled && !isValid then Some(LoginPath) else old(session.location)
    {
      validateCalled := false;
      var auth := session.IsAuthenticated();
      if auth {
        var valid, _ := session.ValidateToken(serverAccepts);
        validateCalled := true;
        isValid := valid;
      }
      loading := false;
    }

    /** The component's render: reads `isAuthenticated()` again at render time. */
    function Render(session: Session): View
      reads this, session
    {
      RenderDecision(loading, session.IsAuthenticated(), isValid)
    }
  }

  /** Mounting the guard: a spinner first, and when the check has finished, exactly `Guard`'s view. */
  method Mount(session: Session, serverAccepts: bool) returns (first: View, settled: View)
    requires session.Valid()
    modifies session
    ensures session.Valid()
    ensures first == Spinner
    ensures settled == Guard(old(session.storage), serverAccepts)
  {
    var route := new Route();
    first := route.Render(session);
    var _ := route.CheckAuth(session, serverAccepts);
    settled := route.Render(session);
  }
}
