/** The access gate in front of the dashboard. */
module ProtectedRoute {
  import opened Remote
  import AuthStore

  const LoginPath := "/login"

  /** What the gate renders: the "Verifying session..." screen, the protected children, or a redirect. */
  datatype View = Loading | Children | Redirect(to: string)

  /** The gate reads only the two session flags. */
  function Gate(checkingAuth: bool, authenticated: bool): (v: View)
    ensures checkingAuth <==> v == Loading
    ensures v == Children <==> !checkingAuth && authenticated
    ensures v.Redirect? <==> !checkingAuth && !authenticated
    ensures v.Redirect? ==> v.to == LoginPath
  {
    if checkingAuth then Loading
    else if authenticated then Children
    else Redirect(LoginPath)
  }

  /** The gate seen through a store. */
  function GateOf(store: AuthStore.AuthenticationStore): View
    reads store
  {
    Gate(store.checkingAuth, store.authenticated)
  }

  /**
   * Start-up: while the silent probe is in flight the gate shows the
   * loading screen (never a redirect); once it settles, the gate shows the
   * children on success and redirects to "/login" on failure.
   */
  method RenderAroundCheckAuth(store: AuthStore.AuthenticationStore, outcome: CallOutcome)
    returns (during: View, after: View)
    modifies store
    ensures during == Loading
    ensures after == if outcome.Ok? then Children else Redirect(LoginPath)
  {
    store.BeginCheckAuth();
    during := GateOf(store);
    store.CompleteCheckAuth(outcome);
    after := GateOf(store);
  }

  /** After `logoutUser`, outside a session check, the gate redirects whatever the server answered. */
  method RenderAfterLogout(store: AuthStore.AuthenticationStore, outcome: CallOutcome) returns (after: View)
    requires !store.checkingAuth
    modifies store
    ensures after == Redirect(LoginPath)
  {
    var _ := store.LogoutUser(outcome);
    after := GateOf(store);
  }
}
