/**
 * The client's to-do endpoints: the wire record, its mapping to the
 * client record, and the requests sent.
 */
module TodoApi {
  import opened Wrappers
  import opened Remote
  import opened Text
  import Routes

  /** The JSON the server sends for one item (the serializer's `id, text, completed, created_at`). */
  datatype BackendTodo = BackendTodo(id: int, text: string, completed: bool, createdAt: int)

  /** The client's item; `id` is optional in its type. Times are abstract integer keys. */
  datatype Todo = Todo(id: Option<int>, text: string, completed: bool, createdAt: int)

  /** `mapTodo`: the wire record comes back from the client record it gives. */
  function MapTodo(b: BackendTodo): (t: Todo)
    ensures ToWire(t) == Some(b)
  {
    Todo(Some(b.id), b.text, b.completed, b.createdAt)
  }

  /** The wire record a client item stands for; none without an `id`. */
  function ToWire(t: Todo): Option<BackendTodo> {
    if t.id.Some? then Some(BackendTodo(t.id.value, t.text, t.completed, t.createdAt)) else None
  }

  /** `mapTodo` loses nothing: the wire record comes back from the client record, and every client item with an id is a mapped record. */
  lemma MapTodoRoundTrip(b: BackendTodo, t: Todo)
    ensures ToWire(MapTodo(b)) == Some(b)
    ensures MapTodo(b).id == Some(b.id) && MapTodo(b).text == b.text
      && MapTodo(b).completed == b.completed && MapTodo(b).createdAt == b.createdAt
    ensures t.id.Some? ==> MapTodo(ToWire(t).value) == t
  {
  }

  /** `response.data.map(mapTodo)`: same length and order, element-wise `mapTodo`. */
  function MapTodos(bs: seq<BackendTodo>): (ts: seq<Todo>)
    ensures |ts| == |bs|
    ensures forall i :: 0 <= i < |bs| ==> ts[i] == MapTodo(bs[i])
    decreases |bs|
  {
    if bs == [] then [] else [MapTodo(bs[0])] + MapTodos(bs[1..])
  }

  /** `fetchTodos` GETs the list route. */
  function FetchTodosRequest(): (r: ApiRequest)
    ensures Routes.Accepts(r, Routes.TodoListCreate) && r.body == NoBody
  {
    ApiRequest(Get, "/auth/todos/", NoBody, None, true)
  }

  /** `createTodo` sends `{text}` with the text as given. */
  function CreateTodoRequest(text: string): (r: ApiRequest)
    ensures r.body == TodoText(text) && r.verb == Post
    ensures Routes.Accepts(r, Routes.TodoListCreate)
  {
    ApiRequest(Post, "/auth/todos/", TodoText(text), None, true)
  }

  const TogglePrefix := "/auth/todos/"
  const ToggleSuffix := "/toggle/"

  /** The path of `toggleTodoStatus(id)`: the id's decimal text between the fixed prefix and suffix. */
  function TogglePath(id: int): (p: string)
    ensures |p| == |TogglePrefix| + |IntToString(id)| + |ToggleSuffix|
    ensures p[..|TogglePrefix|] == TogglePrefix && p[|p| - |ToggleSuffix|..] == ToggleSuffix
    ensures p[|TogglePrefix|..|p| - |ToggleSuffix|] == IntToString(id)
  {
    TogglePrefix + IntToString(id) + ToggleSuffix
  }

  /** `toggleTodoStatus(id)` PATCHes the toggle route of that id; a negative id reaches no view. */
  function ToggleTodoRequest(id: int): (r: ApiRequest)
    ensures id >= 0 ==> Routes.Accepts(r, Routes.ToggleTodo(id))
    ensures id < 0 ==> Routes.Route(r.path) == None
  {
    TogglePathRoutes(id);
    ToggleRouteNotFixed(id);
    ApiRequest(Patch, TogglePath(id), NoBody, None, true)
  }

  /** `clearCompletedTodos` DELETEs the clear route. */
  function ClearCompletedRequest(): (r: ApiRequest)
    ensures Routes.Accepts(r, Routes.ClearCompleted)
  {
    Routes.ClearPathNotToggle();
    ApiRequest(Delete, "/auth/todos/clear_completed/", NoBody, None, true)
  }

  /** The server recovers the id the client put in the toggle path; a negative id routes nowhere. */
  lemma TogglePathRoutes(id: int)
    ensures Routes.RouteToggle(TogglePath(id)) == if id >= 0 then Some(id) else None
  {
    var p := TogglePath(id);
    var digits := IntToString(id);
    assert p[..|TogglePrefix|] == TogglePrefix;
    assert p[|p| - |ToggleSuffix|..] == ToggleSuffix;
    assert p[|TogglePrefix|..|p| - |ToggleSuffix|] == digits;
    if id >= 0 {
      ParseNatToString(id);
    }
  }

  /** A toggle path is none of the fixed routes: it is longer than all but one, and differs from that one after the prefix. */
  lemma ToggleRouteNotFixed(id: int)
    ensures TogglePath(id) !in {"/auth/csrf/", "/auth/register/", "/auth/login/", "/auth/refresh/",
                                Routes.TodosPrefix, "/auth/todos/clear_completed/", "/auth/logout/"}
  {
    var p := TogglePath(id);
    var digits := IntToString(id);
    assert p[|TogglePrefix|] == digits[0];
    assert IsDigit(digits[0]) || digits[0] == '-';
    assert "/auth/todos/clear_completed/"[|TogglePrefix|] == 'c';
  }

  /** What `fetchTodos` resolves to, given the server's answer. */
  function FetchTodos(response: Call<seq<BackendTodo>>): (r: Call<seq<Todo>>)
    ensures r.Done? <==> response.Done?
    ensures r.Done? ==> r.value == MapTodos(response.value)
    ensures r.Threw? ==> r.thrown == response.thrown
  {
    match response
    case Done(bs) => Done(MapTodos(bs))
    case Threw(t) => Threw(t)
  }

  /** What `createTodo` and `toggleTodoStatus` resolve to, given the server's answer. */
  function MapReply(response: Call<BackendTodo>): (r: Call<Todo>)
    ensures r.Done? <==> response.Done?
    ensures r.Done? ==> r.value == MapTodo(response.value)
    ensures r.Threw? ==> r.thrown == response.thrown
  {
    match response
    case Done(b) => Done(MapTodo(b))
    case Threw(t) => Threw(t)
  }
}
