/** The todo list container (app/components/todo-container.tsx): the
    client-side search and filter effect, and the component state that its
    handlers update. Network responses and the confirmation popup are
    inputs of the handlers. */
module TodoContainer {
  import opened Types
  import opened Text
  import opened Seqs

  // ----- the filter effect -----

  /** The search filter: the lower-cased term occurs in the lower-cased
      title, in a non-empty description, or in some tag name. */
  predicate MatchesSearch(todo: Todo, term: string)
  {
    var q := ToLower(term);
    Includes(ToLower(todo.title), q)
    || (todo.description.Some? && todo.description.value != []
        && Includes(ToLower(todo.description.value), q))
    || exists tag :: tag in todo.tags && Includes(ToLower(tag.name), q)
  }

  /** The status filter: "completed" keeps completed todos, any other value incomplete ones. */
  predicate MatchesStatus(todo: Todo, status: string)
  {
    if status == "completed" then todo.completed else !todo.completed
  }

  predicate MatchesPriority(todo: Todo, priority: string)
  {
    PriorityName(todo.priority) == priority
  }

  /** A todo passes every active filter; an empty term and the value "all" switch a filter off. */
  predicate PassesFilters(todo: Todo, term: string, status: string, priority: string)
  {
    && (term == [] || MatchesSearch(todo, term))
    && (status == "all" || MatchesStatus(todo, status))
    && (priority == "all" || MatchesPriority(todo, priority))
  }

  /** The three filters applied one after another, as the effect does. */
  function ApplyFilters(todos: seq<Todo>, term: string, status: string, priority: string): (r: seq<Todo>)
    ensures r == Filter(todos, t => PassesFilters(t, term, status, priority))
    ensures IsSubsequence(r, todos)
    ensures forall t :: t in r <==> t in todos && PassesFilters(t, term, status, priority)
    ensures forall t :: multiset(r)[t] == if PassesFilters(t, term, status, priority) then multiset(todos)[t] else 0
    ensures term == [] && status == "all" && priority == "all" ==> r == todos
    ensures status == "completed" ==> forall t :: t in r ==> t.completed
    ensures status != "all" && status != "completed" ==> forall t :: t in r ==> !t.completed
    ensures priority != "all" ==> forall t :: t in r ==> PriorityName(t.priority) == priority
  {
    var search := (t: Todo) => MatchesSearch(t, term);
    var byStatus := (t: Todo) => MatchesStatus(t, status);
    var byPriority := (t: Todo) => MatchesPriority(t, priority);
    var afterSearch := if term != [] then Filter(todos, search) else todos;
    var afterStatus := if status != "all" then Filter(afterSearch, byStatus) else afterSearch;
    var result := if priority != "all" then Filter(afterStatus, byPriority) else afterStatus;
    FiltersCompose(todos, term, status, priority);
    FilterIsSubsequence(todos, t => PassesFilters(t, term, status, priority));
    assert forall t :: t in result <==> t in todos && PassesFilters(t, term, status, priority) by {
      forall t ensures t in result <==> t in todos && PassesFilters(t, term, status, priority) {
        FilterMembership(todos, t => PassesFilters(t, term, status, priority), t);
      }
    }
    assert forall t :: multiset(result)[t] == if PassesFilters(t, term, status, priority) then multiset(todos)[t] else 0 by {
      forall t ensures multiset(result)[t] == if PassesFilters(t, term, status, priority) then multiset(todos)[t] else 0 {
        FilterCount(todos, t => PassesFilters(t, term, status, priority), t);
      }
    }
    if term == [] && status == "all" && priority == "all" then
      FilterAllPass(todos, t => PassesFilters(t, term, status, priority));
      result
    else
      result
  }

  /** The chain of optional filters equals one filter by `PassesFilters`. */
  lemma FiltersCompose(todos: seq<Todo>, term: string, status: string, priority: string)
    ensures
      var afterSearch := if term != [] then Filter(todos, t => MatchesSearch(t, term)) else todos;
      var afterStatus := if status != "all" then Filter(afterSearch, t => MatchesStatus(t, status)) else afterSearch;
      var result := if priority != "all" then Filter(afterStatus, t => MatchesPriority(t, priority)) else afterStatus;
      result == Filter(todos, t => PassesFilters(t, term, status, priority))
  {
    var p1 := (t: Todo) => term == [] || MatchesSearch(t, term);
    var p2 := (t: Todo) => p1(t) && (status == "all" || MatchesStatus(t, status));
    var p3 := (t: Todo) => p2(t) && (priority == "all" || MatchesPriority(t, priority));
    var afterSearch := if term != [] then Filter(todos, t => MatchesSearch(t, term)) else todos;
    assert afterSearch == Filter(todos, p1) by {
      if term != [] {
        FilterExt(todos, t => MatchesSearch(t, term), p1);
      } else {
        FilterAllPass(todos, p1);
      }
    }
    var afterStatus := if status != "all" then Filter(afterSearch, t => MatchesStatus(t, status)) else afterSearch;
    assert afterStatus == Filter(todos, p2) by {
      if status != "all" {
        FilterTwice(todos, p1, t => MatchesStatus(t, status), p2);
      } else {
        FilterExt(todos, p1, p2);
      }
    }
    var result := if priority != "all" then Filter(afterStatus, t => MatchesPriority(t, priority)) else afterStatus;
    assert result == Filter(todos, p3) by {
      if priority != "all" {
        FilterTwice(todos, p2, t => MatchesPriority(t, priority), p3);
      } else {
        FilterExt(todos, p2, p3);
      }
    }
    FilterExt(todos, p3, t => PassesFilters(t, term, status, priority));
  }

  /** The search filter in terms of positions: the lower-cased term starts
      at some index of the lower-cased title, of a non-empty description, or
      of some tag's name. */
  lemma MatchesSearchIff(todo: Todo, term: string)
    ensures MatchesSearch(todo, term) <==>
      var q := ToLower(term);
      || (exists i :: OccursAt(ToLower(todo.title), q, i))
      || (todo.description.Some? && todo.description.value != []
          && exists i :: OccursAt(ToLower(todo.description.value), q, i))
      || (exists k, i :: 0 <= k < |todo.tags| && OccursAt(ToLower(todo.tags[k].name), q, i))
  {
    var q := ToLower(term);
    IncludesIffOccurs(ToLower(todo.title), q);
    if todo.description.Some? {
      IncludesIffOccurs(ToLower(todo.description.value), q);
    }
    forall k | 0 <= k < |todo.tags| {
      IncludesIffOccurs(ToLower(todo.tags[k].name), q);
    }
  }

  /** The search ignores the case of the term. */
  lemma SearchIgnoresTermCase(todo: Todo, term: string)
    ensures MatchesSearch(todo, term) == MatchesSearch(todo, ToLower(term))
  {
    ToLowerIdempotent(term);
  }

  // ----- local removal after a delete -----

  /** `todos.filter(todo => todo.id !== id)`: every todo with that id goes,
      the others stay, in order and with their multiplicity. */
  function WithoutId(todos: seq<Todo>, id: Id): (r: seq<Todo>)
    ensures IsSubsequence(r, todos)
    ensures forall t :: t in r <==> t in todos && t.id != id
    ensures forall t: Todo :: t.id != id ==> multiset(r)[t] == multiset(todos)[t]
    ensures (forall t :: t in todos ==> t.id != id) ==> r == todos
  {
    var keep := (t: Todo) => t.id != id;
    var r := Filter(todos, keep);
    FilterIsSubsequence(todos, keep);
    assert forall t :: t in r <==> t in todos && t.id != id by {
      forall t ensures t in r <==> t in todos && t.id != id {
        FilterMembership(todos, keep, t);
      }
    }
    assert forall t: Todo :: t.id != id ==> multiset(r)[t] == multiset(todos)[t] by {
      forall t: Todo | t.id != id ensures multiset(r)[t] == multiset(todos)[t] {
        FilterCount(todos, keep, t);
      }
    }
    if forall t :: t in todos ==> t.id != id then
      FilterAllPass(todos, keep);
      r
    else
      r
  }

  // ----- the component state -----

  /** What a form submission sends: a POST when no todo is being edited,
      otherwise a PATCH of the edited todo's id. */
  datatype Submission = CreateRequest(data: TodoFormData) | UpdateRequest(id: Id, data: TodoFormData)

  class Container {
    var todos: seq<Todo>
    var filteredTodos: seq<Todo>
    var isLoading: bool
    var isDialogOpen: bool
    var editingTodo: Option<Todo>
    var searchTerm: string
    var filterStatus: string
    var filterPriority: string

    /** The filter effect has run on the current list and filter values. */
    ghost predicate Valid()
      reads this
    {
      filteredTodos == ApplyFilters(todos, searchTerm, filterStatus, filterPriority)
    }

    constructor ()
      ensures Valid()
      ensures todos == [] && filteredTodos == [] && isLoading && !isDialogOpen && editingTodo == None
      ensures searchTerm == [] && filterStatus == "all" && filterPriority == "all"
    {
      todos, filteredTodos := [], [];
      isLoading, isDialogOpen, editingTodo := true, false, None;
      searchTerm, filterStatus, filterPriority := [], "all", "all";
    }

    /** The effect that recomputes the visible list. */
    method RunFilterEffect()
      modifies this`filteredTodos
      ensures Valid()
    {
      var term, status, priority := searchTerm, filterStatus, filterPriority;
      var result := todos;
      if term != [] {
        result := Filter(result, t => MatchesSearch(t, term));
      }
      if status != "all" {
        result := Filter(result, t => MatchesStatus(t, status));
      }
      if priority != "all" {
        result := Filter(result, t => MatchesPriority(t, priority));
      }
      FiltersCompose(todos, term, status, priority);
      filteredTodos := result;
    }

    method SetSearchTerm(term: string)
      modifies this
      ensures Valid() && searchTerm == term
      ensures todos == old(todos) && filterStatus == old(filterStatus) && filterPriority == old(filterPriority)
      ensures isLoading == old(isLoading) && isDialogOpen == old(isDialogOpen) && editingTodo == old(editingTodo)
    {
      searchTerm := term;
      RunFilterEffect();
    }

    method SetFilterStatus(status: string)
      modifies this
      ensures Valid() && filterStatus == status
      ensures todos == old(todos) && searchTerm == old(searchTerm) && filterPriority == old(filterPriority)
      ensures isLoading == old(isLoading) && isDialogOpen == old(isDialogOpen) && editingTodo == old(editingTodo)
    {
      filterStatus := status;
      RunFilterEffect();
    }

    method SetFilterPriority(priority: string)
      modifies this
      ensures Valid() && filterPriority == priority
      ensures todos == old(todos) && searchTerm == old(searchTerm) && filterStatus == old(filterStatus)
      ensures isLoading == old(isLoading) && isDialogOpen == old(isDialogOpen) && editingTodo == old(editingTodo)
    {
      filterPriority := priority;
      RunFilterEffect();
    }

    /** `fetchTodos`: `response` is the list GET /api/todos returned, or None when the request failed. */
    method FetchTodos(response: Option<seq<Todo>>)
      modifies this
      ensures Valid() && !isLoading
      ensures todos == if response.Some? then response.value else old(todos)
      ensures searchTerm == old(searchTerm) && filterStatus == old(filterStatus) && filterPriority == old(filterPriority)
      ensures isDialogOpen == old(isDialogOpen) && editingTodo == old(editingTodo)
    {
      isLoading := true;
      if response.Some? {
        todos := response.value;
      }
      isLoading := false;
      RunFilterEffect();
    }

    /** `handleCreateTodo`: `posted` says whether the POST succeeded and
        `refetch` is the outcome of the reload that follows it. A failed
        POST is re-thrown to the form (`ok` is false) and changes nothing. */
    method HandleCreateTodo(posted: bool, refetch: Option<seq<Todo>>) returns (ok: bool)
      requires Valid()
      modifies this
      ensures Valid() && ok == posted
      ensures !posted ==> todos == old(todos) && isDialogOpen == old(isDialogOpen) && isLoading == old(isLoading)
      ensures posted ==> todos == (if refetch.Some? then refetch.value else old(todos)) && !isDialogOpen && !isLoading
      ensures editingTodo == old(editingTodo)
      ensures searchTerm == old(searchTerm) && filterStatus == old(filterStatus) && filterPriority == old(filterPriority)
    {
      if !posted {
        return false;
      }
      FetchTodos(refetch);
      isDialogOpen := false;
      ok := true;
    }

    /** `handleUpdateTodo`: a failed PATCH is reported by a toast and
        changes nothing; a successful one reloads the list and, when a todo
        was being edited, closes the dialog and ends the edit. */
    method HandleUpdateTodo(id: Id, patched: bool, refetch: Option<seq<Todo>>)
      requires Valid()
      modifies this
      ensures Valid()
      ensures !patched ==> todos == old(todos) && isDialogOpen == old(isDialogOpen)
                           && editingTodo == old(editingTodo) && isLoading == old(isLoading)
      ensures patched ==> todos == (if refetch.Some? then refetch.value else old(todos)) && !isLoading
      ensures patched && old(editingTodo).Some? ==> !isDialogOpen && editingTodo == None
      ensures patched && old(editingTodo).None? ==> isDialogOpen == old(isDialogOpen) && editingTodo == None
      ensures searchTerm == old(searchTerm) && filterStatus == old(filterStatus) && filterPriority == old(filterPriority)
    {
      if !patched {
        return;
      }
      FetchTodos(refetch);
      if editingTodo.Some? {
        isDialogOpen := false;
        editingTodo := None;
      }
    }

    /** `handleDeleteTodo`: `confirmed` is the answer to the confirmation
        popup and `deleted` whether the DELETE succeeded. Only a confirmed,
        successful delete changes the list, removing every todo with that id. */
    method HandleDeleteTodo(id: Id, confirmed: bool, deleted: bool) returns (sent: bool)
      requires Valid()
      modifies this
      ensures Valid() && sent == confirmed
      ensures todos == if confirmed && deleted then WithoutId(old(todos), id) else old(todos)
      ensures isLoading == old(isLoading) && isDialogOpen == old(isDialogOpen) && editingTodo == old(editingTodo)
      ensures searchTerm == old(searchTerm) && filterStatus == old(filterStatus) && filterPriority == old(filterPriority)
    {
      if !confirmed {
        return false;
      }
      sent := true;
      if deleted {
        todos := WithoutId(todos, id);
        RunFilterEffect();
      }
    }

    /** `handleEditTodo`: start editing `todo` in the dialog. */
    method HandleEditTodo(todo: Todo)
      requires Valid()
      modifies this
      ensures Valid() && editingTodo == Some(todo) && isDialogOpen
      ensures todos == old(todos) && filteredTodos == old(filteredTodos) && isLoading == old(isLoading)
      ensures searchTerm == old(searchTerm) && filterStatus == old(filterStatus) && filterPriority == old(filterPriority)
    {
      editingTodo := Some(todo);
      isDialogOpen := true;
    }

    /** The "new task" button: open the dialog with no todo being edited. */
    method OpenNewDialog()
      requires Valid()
      modifies this
      ensures Valid() && editingTodo == None && isDialogOpen
      ensures todos == old(todos) && filteredTodos == old(filteredTodos) && isLoading == old(isLoading)
      ensures searchTerm == old(searchTerm) && filterStatus == old(filterStatus) && filterPriority == old(filterPriority)
    {
      editingTodo := None;
      isDialogOpen := true;
    }

    /** The form's cancel button: close the dialog and end the edit. */
    method CancelDialog()
      requires Valid()
      modifies this
      ensures Valid() && editingTodo == None && !isDialogOpen
      ensures todos == old(todos) && filteredTodos == old(filteredTodos) && isLoading == old(isLoading)
      ensures searchTerm == old(searchTerm) && filterStatus == old(filterStatus) && filterPriority == old(filterPriority)
    {
      isDialogOpen := false;
      editingTodo := None;
    }

    /** The dialog's own open/close callback: only the open flag changes,
        so closing it this way keeps the todo being edited. */
    method SetDialogOpen(open: bool)
      requires Valid()
      modifies this
      ensures Valid() && isDialogOpen == open && editingTodo == old(editingTodo)
      ensures todos == old(todos) && filteredTodos == old(filteredTodos) && isLoading == old(isLoading)
      ensures searchTerm == old(searchTerm) && filterStatus == old(filterStatus) && filterPriority == old(filterPriority)
    {
      isDialogOpen := open;
    }

    /** `handleFormSubmit`: an update of the edited todo's id when editing,
        otherwise a create. `accepted` is whether the server accepted the
        request and `refetch` the outcome of the reload; `ok` is false when
        the call threw back to the form, which only a failed create does. */
    method HandleFormSubmit(formData: TodoFormData, accepted: bool, refetch: Option<seq<Todo>>)
      returns (sent: Submission, ok: bool)
      requires Valid()
      modifies this
      ensures Valid()
      ensures old(editingTodo).Some? ==> sent == UpdateRequest(old(editingTodo).value.id, formData) && ok
      ensures old(editingTodo).None? ==> sent == CreateRequest(formData) && ok == accepted
      ensures accepted ==> todos == (if refetch.Some? then refetch.value else old(todos))
                           && !isDialogOpen && editingTodo == None
      ensures !accepted ==> todos == old(todos) && isDialogOpen == old(isDialogOpen) && editingTodo == old(editingTodo)
      ensures searchTerm == old(searchTerm) && filterStatus == old(filterStatus) && filterPriority == old(filterPriority)
    {
      if editingTodo.Some? {
        sent := UpdateRequest(editingTodo.value.id, formData);
        HandleUpdateTodo(editingTodo.value.id, accepted, refetch);
        ok := true;
      } else {
        sent := CreateRequest(formData);
        ok := HandleCreateTodo(accepted, refetch);
      }
    }
  }
}
