/**
 * The client's to-do store: `todos`, `filter`, `loading`, `error`, and its
 * actions. The new lists are the pure transforms below; the actions set
 * fields as the store's `set(...)` calls do.
 */
module TodoStore {
  import opened Wrappers
  import opened Remote
  import opened TodoApi
  import Seqs
  import Ordering

  datatype Filter = All | Active | Completed

  /** The sort key of `fetchTodosFromAPI`. */
  function CreatedAt(t: Todo): int { t.createdAt }

  function IsActive(t: Todo): bool { !t.completed }

  /** The message recorded for a caught failure: the `Error`'s message, else the action's fallback. */
  function FailureMessage(thrown: Thrown, fallback: string): (m: string)
    ensures thrown.ErrorObject? ==> m == thrown.message
    ensures thrown.NonError? ==> m == fallback
  {
    match thrown
    case ErrorObject(message) => message
    case NonError => fallback
  }

  const FetchFallback := "Failed to fetch todos"
  const AddFallback := "Failed to add todo"
  const ToggleFallback := "Failed to toggle todo"
  const ClearFallback := "Failed to clear completed todos"

  /** `todos.map(todo => todo.id === id ? updated : todo)`. */
  function ReplaceById(todos: seq<Todo>, id: int, updated: Todo): (r: seq<Todo>)
    ensures |r| == |todos|
    ensures forall i :: 0 <= i < |todos| ==> r[i] == if todos[i].id == Some(id) then updated else todos[i]
    decreases |todos|
  {
    if todos == [] then []
    else [if todos[0].id == Some(id) then updated else todos[0]] + ReplaceById(todos[1..], id, updated)
  }

  /** Only items carrying the id change; items without an id never match. */
  lemma ReplaceByIdOthersUnchanged(todos: seq<Todo>, id: int, updated: Todo)
    ensures forall i :: 0 <= i < |todos| && todos[i].id != Some(id) ==> ReplaceById(todos, id, updated)[i] == todos[i]
    ensures (forall i :: 0 <= i < |todos| ==> todos[i].id != Some(id)) ==> ReplaceById(todos, id, updated) == todos
  {
  }

  /** The list after clearing: exactly the non-completed items, in order, so no completed one remains. */
  lemma ClearedList(todos: seq<Todo>)
    ensures forall t :: t in Seqs.Filter(todos, IsActive) ==> !t.completed
    ensures forall t :: multiset(Seqs.Filter(todos, IsActive))[t] == if t.completed then 0 else multiset(todos)[t]
    ensures Seqs.IsSubsequence(Seqs.Filter(todos, IsActive), todos)
  {
    Seqs.FilterMultiset(todos, IsActive);
    Seqs.FilterIsSubsequence(todos, IsActive);
  }

  /** The fetched list as stored: mapped, then ordered newest first; a reordering of what arrived. */
  lemma FetchedList(bs: seq<BackendTodo>)
    ensures Ordering.SortedDesc(Ordering.SortDesc(MapTodos(bs), CreatedAt), CreatedAt)
    ensures multiset(Ordering.SortDesc(MapTodos(bs), CreatedAt)) == multiset(MapTodos(bs))
  {
    Ordering.SortDescSorted(MapTodos(bs), CreatedAt);
  }

  class Store {
    var todos: seq<Todo>
    var filter: Filter
    var loading: bool
    var error: Option<string>

    constructor ()
      ensures todos == [] && filter == All && !loading && error == None
    {
      todos := [];
      filter := All;
      loading := false;
      error := None;
    }

    /** First step of `fetchTodosFromAPI`. */
    method BeginFetch()
      modifies this`loading, this`error
      ensures loading && error == None
    {
      loading, error := true, None;
    }

    /** The awaited `fetchTodos` settled. */
    method CompleteFetch(response: Call<seq<BackendTodo>>)
      modifies this`todos, this`loading, this`error
      ensures !loading
      ensures response.Done? ==> todos == Ordering.SortDesc(MapTodos(response.value), CreatedAt) && error == old(error)
      ensures response.Threw? ==> todos == old(todos) && error == Some(FailureMessage(response.thrown, FetchFallback))
    {
      match FetchTodos(response)
      case Done(fetched) =>
        todos, loading := Ordering.SortDesc(fetched, CreatedAt), false;
      case Threw(thrown) =>
        error, loading := Some(FailureMessage(thrown, FetchFallback)), false;
    }

    /** `fetchTodosFromAPI`: on success the list is the fetched one newest first and `error` stays cleared. */
    method FetchTodosFromApi(response: Call<seq<BackendTodo>>)
      modifies this`todos, this`loading, this`error
      ensures !loading
      ensures response.Done? ==> todos == Ordering.SortDesc(MapTodos(response.value), CreatedAt) && error == None
      ensures response.Threw? ==> todos == old(todos) && error == Some(FailureMessage(response.thrown, FetchFallback))
    {
      BeginFetch();
      CompleteFetch(response);
    }

    /** `addTodo`: the created item goes first, the old items follow in order. */
    method AddTodo(response: Call<BackendTodo>)
      modifies this`todos, this`loading, this`error
      ensures response.Done? ==> todos == [MapTodo(response.value)] + old(todos)
                                 && loading == old(loading) && error == old(error)
      ensures response.Threw? ==> todos == old(todos) && !loading
                                  && error == Some(FailureMessage(response.thrown, AddFallback))
    {
      match MapReply(response)
      case Done(created) =>
        todos := [created] + todos;
      case Threw(thrown) =>
        error, loading := Some(FailureMessage(thrown, AddFallback)), false;
    }

    /** `toggleTodo(id)`: every item with that id becomes the returned item. */
    method ToggleTodo(id: int, response: Call<BackendTodo>)
      modifies this`todos, this`loading, this`error
      ensures response.Done? ==> todos == ReplaceById(old(todos), id, MapTodo(response.value))
                                 && loading == old(loading) && error == old(error)
      ensures response.Threw? ==> todos == old(todos) && !loading
                                  && error == Some(FailureMessage(response.thrown, ToggleFallback))
    {
      match MapReply(response)
      case Done(updated) =>
        todos := ReplaceById(todos, id, updated);
      case Threw(thrown) =>
        error, loading := Some(FailureMessage(thrown, ToggleFallback)), false;
    }

    /** `clearCompleted`: the non-completed items stay, in order. The server's reply carries nothing used. */
    method ClearCompleted(response: Call<()>)
      modifies this`todos, this`loading, this`error
      ensures response.Done? ==> todos == Seqs.Filter(old(todos), IsActive)
                                 && loading == old(loading) && error == old(error)
      ensures response.Threw? ==> todos == old(todos) && !loading
                                  && error == Some(FailureMessage(response.thrown, ClearFallback))
    {
      match response
      case Done(_) =>
        todos := Seqs.Filter(todos, IsActive);
      case Threw(thrown) =>
        error, loading := Some(FailureMessage(thrown, ClearFallback)), false;
    }

    /** `setFilter`. */
    method SetFilter(f: Filter)
      modifies this`filter
      ensures filter == f
    {
      filter := f;
    }
  }
}
