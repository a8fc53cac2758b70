/** The sign-up page: its field guard, the form it posts, and which message it shows. */
module Signup {
  import opened Wrappers
  import opened Remote
  import Routes

  datatype Severity = Success | Error

  /** The body posted to "/auth/register/". */
  datatype RegisterForm = RegisterForm(username: string, email: string, password: string)

  const MissingFieldsMessage := "Please fill in all fields."
  const RegisteredMessage := "User registered successfully!"
  const SignupFallback := "Registration failed."

  /** `!name || !email || !password`: one of the inputs is falsy, which for a string means empty. */
  predicate MissingField(name: string, email: string, password: string)
    ensures MissingField(name, email, password) <==> "" in [name, email, password]
  {
    name == "" || email == "" || password == ""
  }

  /**
   * The page's `API.post('/auth/register/', form)`: it reaches the register
   * view with the form unchanged, but through the bare axios instance, so no
   * `X-CSRFToken` header goes with it.
   */
  function SignupRequest(form: RegisterForm): (r: ApiRequest)
    ensures Routes.Accepts(r, Routes.Register)
    ensures r.body == Registration(form.username, form.email, form.password)
    ensures r.csrfHeader == None && r.withCredentials
  {
    ApiRequest(Post, "/auth/register/", Registration(form.username, form.email, form.password), None, true)
  }

  /**
   * `error.response?.data?.error || "Registration failed."`: the server's
   * `error` when truthy, whatever the status. A list of validator messages
   * reaches the snackbar as the list itself.
   */
  function SignupFailureMessage(outcome: CallOutcome): (m: ErrorField)
    requires !outcome.Ok?
    ensures Truthy(m)
    ensures outcome.Err? && outcome.serverError.Some? && Truthy(outcome.serverError.value) ==> m == outcome.serverError.value
    ensures m != Message(SignupFallback) ==> outcome.Err? && outcome.serverError == Some(m)
  {
    if outcome.Err? && outcome.serverError.Some? && Truthy(outcome.serverError.value)
    then outcome.serverError.value
    else Message(SignupFallback)
  }

  class SignupPage {
    var name: string
    var email: string
    var password: string
    var snackbarOpen: bool
    /** What `setSnackbarMessage` was last given: a string, or the server's list of messages. */
    var snackbarMessage: ErrorField
    var snackbarSeverity: Severity

    constructor ()
      ensures name == "" && email == "" && password == ""
      ensures !snackbarOpen && snackbarMessage == Message("") && snackbarSeverity == Success
    {
      name, email, password := "", "", "";
      snackbarOpen, snackbarMessage, snackbarSeverity := false, Message(""), Success;
    }

    method ShowSnackbar(message: ErrorField, severity: Severity)
      modifies this`snackbarOpen, this`snackbarMessage, this`snackbarSeverity
      ensures snackbarOpen && snackbarMessage == message && snackbarSeverity == severity
    {
      snackbarMessage := message;
      snackbarSeverity := severity;
      snackbarOpen := true;
    }

    method ClearInputs()
      modifies this`name, this`email, this`password
      ensures name == "" && email == "" && password == ""
    {
      name := "";
      email := "";
      password := "";
    }

    /**
     * `handleRegister`. `sent` is the request posted, if any; `outcome` is how
     * that post settled (unused when nothing is sent).
     */
    method HandleRegister(outcome: CallOutcome) returns (sent: Option<ApiRequest>)
      modifies this
      ensures snackbarOpen
      ensures MissingField(old(name), old(email), old(password)) ==>
                sent == None && snackbarMessage == Message(MissingFieldsMessage) && snackbarSeverity == Error
                && name == old(name) && email == old(email) && password == old(password)
      ensures !MissingField(old(name), old(email), old(password)) ==>
                sent == Some(SignupRequest(RegisterForm(old(name), old(email), old(password))))
      ensures sent.Some? && outcome.Ok? ==>
                snackbarMessage == Message(RegisteredMessage) && snackbarSeverity == Success
                && name == "" && email == "" && password == ""
      ensures sent.Some? && !outcome.Ok? ==>
                snackbarMessage == SignupFailureMessage(outcome) && snackbarSeverity == Error
                && name == old(name) && email == old(email) && password == old(password)
    {
      if MissingField(name, email, password) {
        ShowSnackbar(Message(MissingFieldsMessage), Error);
        sent := None;
        return;
      }
      var form := RegisterForm(name, email, password);
      sent := Some(SignupRequest(form));
      if outcome.Ok? {
        ShowSnackbar(Message(RegisteredMessage), Success);
        ClearInputs();
      } else {
        ShowSnackbar(SignupFailureMessage(outcome), Error);
      }
    }

    /** `handleCloseSnackbar`: a click-away keeps the snackbar; any other reason closes it. */
    method HandleCloseSnackbar(reason: Option<string>)
      modifies this`snackbarOpen
      ensures snackbarOpen == (old(snackbarOpen) && reason == Some("clickaway"))
    {
      if reason == Some("clickaway") {
        return;
      }
      snackbarOpen := false;
    }
  }
}
