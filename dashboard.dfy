/** The dashboard's view rules and its local component state. */
module Dashboard {
  import opened Wrappers
  import opened Remote
  import opened Text
  import opened TodoApi
  import TodoStore
  import Seqs

  function ShowAll(t: Todo): bool { true }
  function IsCompleted(t: Todo): bool { t.completed }

  /** `filteredTodos`. */
  function FilteredTodos(todos: seq<Todo>, filter: TodoStore.Filter): (r: seq<Todo>)
    ensures Seqs.IsSubsequence(r, todos)
  {
    var keep := match filter
      case Active => TodoStore.IsActive
      case Completed => IsCompleted
      case All => ShowAll;
    Seqs.FilterIsSubsequence(todos, keep);
    Seqs.Filter(todos, keep)
  }

  /**
   * "active" shows exactly the non-completed items, "completed" exactly the
   * completed ones, and "all" every item unchanged, each in list order.
   */
  lemma FilteredTodosExact(todos: seq<Todo>)
    ensures forall t :: multiset(FilteredTodos(todos, TodoStore.Active))[t] == if t.completed then 0 else multiset(todos)[t]
    ensures forall t :: multiset(FilteredTodos(todos, TodoStore.Completed))[t] == if t.completed then multiset(todos)[t] else 0
    ensures FilteredTodos(todos, TodoStore.All) == todos
  {
    Seqs.FilterMultiset(todos, TodoStore.IsActive);
    Seqs.FilterMultiset(todos, IsCompleted);
    Seqs.FilterAll(todos, ShowAll);
  }

  /** The "item(s) left" count: non-completed items of the whole list, whatever the filter. */
  function ItemsLeft(todos: seq<Todo>): (n: nat)
    ensures n == Seqs.Count(todos, TodoStore.IsActive)
  {
    Seqs.FilterLength(todos, TodoStore.IsActive);
    |Seqs.Filter(todos, TodoStore.IsActive)|
  }

  /** The count equals the length of the "active" view, and with the "completed" view it covers the list. */
  lemma ItemsLeftPartition(todos: seq<Todo>)
    ensures ItemsLeft(todos) == |FilteredTodos(todos, TodoStore.Active)|
    ensures ItemsLeft(todos) + |FilteredTodos(todos, TodoStore.Completed)| == |todos|
  {
    Seqs.FilterLength(todos, IsCompleted);
    Seqs.CountComplement(todos, TodoStore.IsActive, IsCompleted);
  }

  /** The click handler's guard `todo.id && handleToggle(todo.id)`: no toggle for an undefined or zero id. */
  function ClickTarget(t: Todo): (target: Option<int>)
    ensures target.Some? <==> t.id.Some? && t.id.value != 0
    ensures target.Some? ==> target.value == t.id.value
  {
    if t.id.Some? && t.id.value != 0 then t.id else None
  }

  function FilterName(f: TodoStore.Filter): string {
    match f
    case All => "all"
    case Active => "active"
    case Completed => "completed"
  }

  /** `f[0].toUpperCase() + f.slice(1)` for a non-empty ASCII word. */
  function Capitalize(s: string): (r: string)
    requires s != []
    ensures |r| == |s| && r[0] == UpperAscii(s[0]) && r[1..] == s[1..]
  {
    [UpperAscii(s[0])] + s[1..]
  }

  /** A button's label: lower-casing it gives back the filter's name. */
  function FilterLabel(f: TodoStore.Filter): (caption: string)
    ensures LowerAsciiString(caption) == FilterName(f)
  {
    Capitalize(FilterName(f))
  }

  /** The three buttons read "All", "Active" and "Completed". */
  lemma FilterLabels()
    ensures FilterLabel(TodoStore.All) == "All"
    ensures FilterLabel(TodoStore.Active) == "Active"
    ensures FilterLabel(TodoStore.Completed) == "Completed"
  {
    assert FilterLabel(TodoStore.All) == [UpperAscii('a')] + "ll";
    assert FilterLabel(TodoStore.Active) == [UpperAscii('a')] + "ctive";
    assert FilterLabel(TodoStore.Completed) == [UpperAscii('c')] + "ompleted";
  }

  const AddedMessage := "Todo added successfully!"
  const UpdatedMessage := "Todo updated!"
  const ClearedMessage := "Completed todos cleared!"

  /** The component's own state: the input box and the snackbar. */
  class DashboardView {
    var input: string
    var snackbarOpen: bool
    var snackbarMessage: string

    constructor ()
      ensures input == "" && !snackbarOpen && snackbarMessage == ""
    {
      input, snackbarOpen, snackbarMessage := "", false, "";
    }

    method ShowSnackbar(message: string)
      modifies this`snackbarOpen, this`snackbarMessage
      ensures snackbarOpen && snackbarMessage == message
    {
      snackbarMessage := message;
      snackbarOpen := true;
    }

    /**
     * `handleAddTodo`: with blank input nothing happens; otherwise the
     * trimmed text is handed to `addTodo` (not awaited), the input is
     * cleared and the success message shows.
     */
    method HandleAddTodo() returns (added: Option<string>)
      modifies this
      ensures AllWhitespace(old(input)) ==>
                added == None && input == old(input)
                && snackbarOpen == old(snackbarOpen) && snackbarMessage == old(snackbarMessage)
      ensures !AllWhitespace(old(input)) ==>
                added == Some(Trim(old(input))) && input == "" && snackbarOpen && snackbarMessage == AddedMessage
      ensures added.Some? ==>
                added.value != [] && !IsJsWhitespace(added.value[0]) && !IsJsWhitespace(added.value[|added.value| - 1])
    {
      TrimEmptyIff(input);
      TrimShape(input);
      if Trim(input) != [] {
        added := Some(Trim(input));
        input := "";
        ShowSnackbar(AddedMessage);
      } else {
        added := None;
      }
    }

    /** `handleToggle`: waits for `toggleTodo` (which never rejects), then confirms. */
    method HandleToggle(store: TodoStore.Store, id: int, response: Call<BackendTodo>)
      modifies this`snackbarOpen, this`snackbarMessage, store`todos, store`loading, store`error
      ensures snackbarOpen && snackbarMessage == UpdatedMessage
      ensures response.Done? ==> store.todos == TodoStore.ReplaceById(old(store.todos), id, MapTodo(response.value))
                                 && store.loading == old(store.loading) && store.error == old(store.error)
      ensures response.Threw? ==> store.todos == old(store.todos) && !store.loading
                                  && store.error == Some(TodoStore.FailureMessage(response.thrown, TodoStore.ToggleFallback))
    {
      store.ToggleTodo(id, response);
      ShowSnackbar(UpdatedMessage);
    }

    /** `handleClearCompleted`: waits for `clearCompleted` (which never rejects), then confirms. */
    method HandleClearCompleted(store: TodoStore.Store, response: Call<()>)
      modifies this`snackbarOpen, this`snackbarMessage, store`todos, store`loading, store`error
      ensures snackbarOpen && snackbarMessage == ClearedMessage
      ensures response.Done? ==> store.todos == Seqs.Filter(old(store.todos), TodoStore.IsActive)
                                 && store.loading == old(store.loading) && store.error == old(store.error)
      ensures response.Threw? ==> store.todos == old(store.todos) && !store.loading
                                  && store.error == Some(TodoStore.FailureMessage(response.thrown, TodoStore.ClearFallback))
    {
      store.ClearCompleted(response);
      ShowSnackbar(ClearedMessage);
    }

    /** `handleCloseSnackbar`. */
    method HandleCloseSnackbar()
      modifies this`snackbarOpen, this`snackbarMessage
      ensures !snackbarOpen && snackbarMessage == ""
    {
      snackbarOpen := false;
      snackbarMessage := "";
    }
  }
}
