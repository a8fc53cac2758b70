/**
 * The client and the server together: how a server response reaches the
 * client as a call outcome, and the messages a user then sees.
 */
module Interop {
  import opened Wrappers
  import opened Remote
  import Views
  import AuthStore
  import Signup
  import Text

  /**
   * How the HTTP client reports a response: a 2xx status resolves, any other
   * status rejects carrying the body's `error` field, a string or a list.
   */
  function ToOutcome(r: Views.Response): (o: CallOutcome)
    ensures o.Ok? <==> 200 <= r.status < 300
    ensures !o.Ok? ==> o.Err? && o.status == r.status
    ensures !o.Ok? ==> (o.serverError.Some? <==> r.body.Error? || r.body.ErrorList?)
    ensures !o.Ok? && r.body.Error? ==> o.serverError == Some(Message(r.body.error))
    ensures !o.Ok? && r.body.ErrorList? ==> o.serverError == Some(MessageList(r.body.errors))
  {
    if 200 <= r.status < 300 then Ok
    else Err(r.status, match r.body
                       case Error(e) => Some(Message(e))
                       case ErrorList(es) => Some(MessageList(es))
                       case _ => None)
  }

  /** A rejected login, for an unknown email or a wrong password alike, shows the server's message. */
  lemma LoginRejectionShown(users: seq<Views.UserRow>, email: string, password: string,
                            authenticate: (string, string) -> bool, tokensFor: int -> Views.Tokens)
    requires Views.Login(users, email, password, authenticate, tokensFor).status == 401
    ensures AuthStore.LoginFailureMessage(ToOutcome(Views.Login(users, email, password, authenticate, tokensFor)))
            == Message(Views.InvalidLoginMessage)
  {
    var r := Views.Login(users, email, password, authenticate, tokensFor);
    var matches := Views.UsersWithEmail(users, email);
    assert matches == [] || |matches| == 1;
  }

  /** A successful login resolves the client's call. */
  lemma LoginSuccessResolves(users: seq<Views.UserRow>, email: string, password: string,
                             authenticate: (string, string) -> bool, tokensFor: int -> Views.Tokens)
    requires Views.Login(users, email, password, authenticate, tokensFor).status == 200
    ensures ToOutcome(Views.Login(users, email, password, authenticate, tokensFor)).Ok?
  {
  }

  /**
   * A taken username or email is shown verbatim both by the store's
   * registration action and by the sign-up page.
   */
  lemma {:induction false} RegisterConflictShown(users: seq<Views.UserRow>, username: string, email: string,
                                                 passwordErrors: seq<string>)
    requires Views.UsernameTaken(users, username) || Views.EmailTaken(users, email)
    ensures var o := ToOutcome(Views.RegisterRejection(users, username, email, passwordErrors).value);
            var m := if Views.UsernameTaken(users, username) then Views.UsernameTakenMessage
                     else Views.EmailTakenMessage;
            !o.Ok? && AuthStore.RegisterFailureMessage(o) == Message(m) && Signup.SignupFailureMessage(o) == Message(m)
  {
    var r := Views.RegisterRejection(users, username, email, passwordErrors);
    assert r.value.status == 400;
  }

  /**
   * A password the validators refuse reaches the client as the list of
   * their messages: the store records the list and rejects with the
   * messages joined by ",", and the sign-up page shows the list.
   */
  lemma {:induction false} RegisterPasswordRejectionShown(users: seq<Views.UserRow>, username: string, email: string,
                                                          passwordErrors: seq<string>)
    requires !Views.UsernameTaken(users, username) && !Views.EmailTaken(users, email)
    requires passwordErrors != []
    ensures var o := ToOutcome(Views.RegisterRejection(users, username, email, passwordErrors).value);
            !o.Ok?
            && AuthStore.RegisterFailureMessage(o) == MessageList(passwordErrors)
            && ErrorString(AuthStore.RegisterFailureMessage(o)) == Text.Join(passwordErrors, ",")
            && Signup.SignupFailureMessage(o) == MessageList(passwordErrors)
  {
    var r := Views.RegisterRejection(users, username, email, passwordErrors);
    assert r.value.status == 400;
  }

  /** A refresh the server refuses rejects the client's session check, which then reports signed out. */
  lemma RefreshFailureRejects(cookies: map<string, string>, check: string -> Views.RefreshCheck)
    requires Views.Refresh(cookies, check).status != 200
    ensures !ToOutcome(Views.Refresh(cookies, check)).Ok?
  {
  }
}
