/**
 * The server's URL table, mounted under `/auth/`, and the HTTP verbs each
 * view accepts: what a client request must match to reach a view.
 */
module Routes {
  import opened Wrappers
  import opened Remote
  import opened Text

  /** The views the URL table names; the toggle route carries its integer path parameter. */
  datatype Endpoint =
    | CsrfToken
    | Register
    | LoginView
    | TokenRefresh
    | TodoListCreate
    | ToggleTodo(todoId: nat)
    | ClearCompleted
    | LogoutView

  const TodosPrefix := "/auth/todos/"
  const ToggleSuffix := "/toggle/"

  /**
   * The pattern `todos/<int:todo_id>/toggle/`: a non-empty run of decimal
   * digits between the fixed prefix and suffix, read as a number.
   */
  function RouteToggle(path: string): Option<nat> {
    if |path| > |TodosPrefix| + |ToggleSuffix|
       && path[..|TodosPrefix|] == TodosPrefix
       && path[|path| - |ToggleSuffix|..] == ToggleSuffix
       && AllDigits(path[|TodosPrefix|..|path| - |ToggleSuffix|])
    then Some(ParseDigits(path[|TodosPrefix|..|path| - |ToggleSuffix|]))
    else None
  }

  /** `urlpatterns`, tried in order; the first pattern that matches the whole path wins. */
  function Route(path: string): (e: Option<Endpoint>)
    ensures e.Some? && e.value.ToggleTodo? ==> RouteToggle(path) == Some(e.value.todoId)
    ensures e.Some? && !e.value.ToggleTodo? ==>
              path in {"/auth/csrf/", "/auth/register/", "/auth/login/", "/auth/refresh/", TodosPrefix,
                       "/auth/todos/clear_completed/", "/auth/logout/"}
  {
    if path == "/auth/csrf/" then Some(CsrfToken)
    else if path == "/auth/register/" then Some(Register)
    else if path == "/auth/login/" then Some(LoginView)
    else if path == "/auth/refresh/" then Some(TokenRefresh)
    else if path == TodosPrefix then Some(TodoListCreate)
    else if RouteToggle(path).Some? then Some(ToggleTodo(RouteToggle(path).value))
    else if path == "/auth/todos/clear_completed/" then Some(ClearCompleted)
    else if path == "/auth/logout/" then Some(LogoutView)
    else None
  }

  /** The verbs each view's `@api_view` list admits; the refresh view defines only `post`. */
  function Allowed(e: Endpoint): set<Method> {
    match e
    case CsrfToken => {Get}
    case TodoListCreate => {Get, Post}
    case ToggleTodo(_) => {Patch}
    case ClearCompleted => {Delete}
    case _ => {Post}
  }

  /** The request reaches the view `e` and the view takes its verb. */
  predicate Accepts(r: ApiRequest, e: Endpoint) {
    Route(r.path) == Some(e) && r.verb in Allowed(e)
  }

  /** The clear route is not read as a toggle: its middle part is not a number. */
  lemma ClearPathNotToggle()
    ensures RouteToggle("/auth/todos/clear_completed/") == None
  {
    var p := "/auth/todos/clear_completed/";
    assert p[|TodosPrefix|] == 'c';
    assert p[|TodosPrefix|..|p| - |ToggleSuffix|][0] == 'c';
  }
}
