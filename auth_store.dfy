/**
 * The client's session store: four fields and six actions, each bracketed
 * as "set at start / on success / on failure / finally". An action is one
 * method; the actions with an in-flight phase are also split into a
 * `Begin...` / `Complete...` pair so that the in-flight values are visible.
 * Each remote call is given as its outcome.
 */
module AuthStore {
  import opened Wrappers
  import opened Remote
  import AuthApi

  const LoginFallback := "Login failed. Please try again."
  const RegisterFallback := "Registration failed. Please try again."

  /**
   * What a failed login stores as `error`: the server's `error` on a 401
   * when it is truthy (a non-empty string or any list), the fallback
   * otherwise.
   */
  function LoginFailureMessage(outcome: CallOutcome): (m: ErrorField)
    requires !outcome.Ok?
    ensures Truthy(m)
    ensures m != Message(LoginFallback) ==> outcome.Err? && outcome.status == 401 && outcome.serverError == Some(m)
    ensures outcome.Err? && outcome.status == 401 && outcome.serverError.Some? && Truthy(outcome.serverError.value)
            ==> m == outcome.serverError.value
    ensures !(outcome.Err? && outcome.status == 401) ==> m == Message(LoginFallback)
  {
    if outcome.Err? && outcome.status == 401 && outcome.serverError.Some? && Truthy(outcome.serverError.value)
    then outcome.serverError.value
    else Message(LoginFallback)
  }

  /**
   * What a failed registration stores as `error`: the server's `error`
   * whatever the status when it is truthy, the fallback otherwise. A list
   * of validator messages is stored as the list itself.
   */
  function RegisterFailureMessage(outcome: CallOutcome): (m: ErrorField)
    requires !outcome.Ok?
    ensures Truthy(m)
    ensures m != Message(RegisterFallback) ==> outcome.Err? && outcome.serverError == Some(m)
    ensures outcome.Err? && outcome.serverError.Some? && Truthy(outcome.serverError.value) ==> m == outcome.serverError.value
    ensures outcome.NetworkError? ==> m == Message(RegisterFallback)
  {
    if outcome.Err? && outcome.serverError.Some? && Truthy(outcome.serverError.value)
    then outcome.serverError.value
    else Message(RegisterFallback)
  }

  class AuthenticationStore {
    var authenticated: bool
    var checkingAuth: bool
    /** Typed as a string in the client, but it holds whatever was caught: a string or a list of messages. */
    var error: ErrorField
    var loading: bool

    /** No action in flight. */
    predicate Idle()
      reads this
    {
      !loading && !checkingAuth
    }

    constructor ()
      ensures !authenticated && !checkingAuth && error == Message("") && !loading
      ensures Idle()
    {
      authenticated := false;
      checkingAuth := false;
      error := Message("");
      loading := false;
    }

    /**
     * The CSRF-priming action. `fetchCSRFToken` catches and logs any
     * failure, so the promise always fulfils; nothing in the store changes.
     */
    method FetchCsrfToken(outcome: CallOutcome) returns (settled: Settled)
      ensures settled == Fulfilled
    {
      settled := Fulfilled;
    }

    /** First step of `loginUser`. */
    method BeginLogin()
      modifies this
      ensures loading && error == Message("")
      ensures authenticated == old(authenticated) && checkingAuth == old(checkingAuth)
      ensures old(Idle()) ==> !checkingAuth
    {
      loading, error := true, Message("");
    }

    /** The awaited `login` call settled: the success or failure step, then `finally`. */
    method CompleteLogin(outcome: CallOutcome)
      modifies this
      ensures authenticated == (outcome.Ok? || old(authenticated))
      ensures error == if outcome.Ok? then old(error) else LoginFailureMessage(outcome)
      ensures !loading && checkingAuth == old(checkingAuth)
    {
      if outcome.Ok? {
        authenticated := true;
      } else {
        error := LoginFailureMessage(outcome);
      }
      loading := false;
    }

    /**
     * `loginUser`: success authenticates and leaves `error` empty; failure
     * keeps `authenticated`, records the message and does not reject.
     */
    method LoginUser(outcome: CallOutcome) returns (settled: Settled)
      modifies this
      ensures settled == Fulfilled
      ensures authenticated == (outcome.Ok? || old(authenticated))
      ensures error == if outcome.Ok? then Message("") else LoginFailureMessage(outcome)
      ensures !loading && checkingAuth == old(checkingAuth)
      ensures old(Idle()) ==> Idle()
    {
      BeginLogin();
      CompleteLogin(outcome);
      settled := Fulfilled;
    }

    /** First step of `registerUser`. */
    method BeginRegister()
      modifies this
      ensures loading && error == Message("")
      ensures authenticated == old(authenticated) && checkingAuth == old(checkingAuth)
    {
      loading, error := true, Message("");
    }

    /** The awaited `register` call settled: on failure record the message and rethrow it, then `finally`. */
    method CompleteRegister(outcome: CallOutcome) returns (settled: Settled)
      modifies this
      ensures settled == if outcome.Ok? then Fulfilled else Rejected(ErrorString(RegisterFailureMessage(outcome)))
      ensures error == if outcome.Ok? then old(error) else RegisterFailureMessage(outcome)
      ensures !loading && authenticated == old(authenticated) && checkingAuth == old(checkingAuth)
    {
      if outcome.Ok? {
        settled := Fulfilled;
      } else {
        var message := RegisterFailureMessage(outcome);
        error := message;
        settled := Rejected(ErrorString(message));
      }
      loading := false;
    }

    /**
     * `registerUser`: never touches `authenticated`; a failure records the
     * message and rejects with an `Error` carrying its string form.
     */
    method RegisterUser(outcome: CallOutcome) returns (settled: Settled)
      modifies this
      ensures settled == if outcome.Ok? then Fulfilled else Rejected(ErrorString(RegisterFailureMessage(outcome)))
      ensures error == if outcome.Ok? then Message("") else RegisterFailureMessage(outcome)
      ensures settled.Rejected? ==> settled.message == ErrorString(error) && Truthy(error)
      ensures !loading && authenticated == old(authenticated) && checkingAuth == old(checkingAuth)
      ensures old(Idle()) ==> Idle()
    {
      BeginRegister();
      settled := CompleteRegister(outcome);
    }

    /** `logoutUser`: whatever the server answers, the session ends locally and the promise fulfils. */
    method LogoutUser(outcome: CallOutcome) returns (settled: Settled)
      modifies this
      ensures settled == Fulfilled
      ensures !authenticated
      ensures error == old(error) && loading == old(loading) && checkingAuth == old(checkingAuth)
    {
      authenticated := false;
      settled := Fulfilled;
    }

    /** First step of `checkAuth`. */
    method BeginCheckAuth()
      modifies this`checkingAuth
      ensures checkingAuth
      ensures old(Idle()) ==> !loading
    {
      checkingAuth := true;
    }

    /** The awaited refresh settled: `authenticated` becomes whether it succeeded, then `finally` clears `checkingAuth`. */
    method CompleteCheckAuth(outcome: CallOutcome)
      modifies this`authenticated, this`checkingAuth
      ensures authenticated == outcome.Ok?
      ensures !checkingAuth
    {
      if outcome.Ok? {
        authenticated := true;
      } else {
        authenticated := false;
      }
      checkingAuth := false;
    }

    /** `checkAuth`: a silent probe; `error` and `loading` are untouched and it never rejects. */
    method CheckAuth(outcome: CallOutcome) returns (settled: Settled)
      modifies this`authenticated, this`checkingAuth
      ensures settled == Fulfilled
      ensures authenticated == outcome.Ok? && !checkingAuth
      ensures old(Idle()) ==> Idle()
    {
      BeginCheckAuth();
      CompleteCheckAuth(outcome);
      settled := Fulfilled;
    }

    /** `clearError`. */
    method ClearError()
      modifies this`error
      ensures error == Message("")
    {
      error := Message("");
    }
  }
}
