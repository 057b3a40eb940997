/** The create path end to end: the data the todo form submits, posted by
    the container's `handleCreateTodo` as the JSON body of POST /api/todos,
    and what the route makes of it. */
module CreateFlow {
  import opened Types
  import opened Text
  import opened Store
  import opened TodoForm
  import opened TodosRoute

  /** The body `JSON.stringify(formData)` produces: every form field is
      present and `completed` is not among them. */
  function CreateBody(fd: TodoFormData): TodoRequest
  {
    TodoRequest(Some(fd.title), Some(fd.description), None,
                Some(PriorityName(fd.priority)), fd.dueDate, Some(fd.tags))
  }

  /** A form whose title passes the submit guard and fits the schema is
      accepted, and the new todo carries the form's title, description and
      priority, the default completion flag, the due date unless it was
      cleared to "", and one tag per entered name, in order. */
  lemma SubmittedFormCreates(db: Db, defaults: ColumnDefaults, fd: TodoFormData)
    requires !TitleBlank(fd.title) && |fd.title| <= 255
    ensures var s := PostTodoStep(db, defaults, CreateBody(fd));
      && s.response.TodoCreated?
      && var todo := s.response.todo;
      && s.db.todos == db.todos + [todo]
      && todo.title == fd.title && todo.description == Some(fd.description)
      && todo.priority == fd.priority && todo.completed == defaults.completed
      && (todo.dueDate.None? <==> fd.dueDate.None? || fd.dueDate.value == [])
      && TagNames(todo.tags) == fd.tags
  {
    assert fd.title != [];
    PostTodoCreates(db, defaults, CreateBody(fd));
  }

  /** The two title checks differ: a title of 1 to 255 whitespace characters
      is stopped by the form but satisfies the schema, and a non-blank title longer than 255
      characters passes the form and is refused by the route. */
  lemma TitleChecksDiffer(db: Db, defaults: ColumnDefaults, fd: TodoFormData)
    ensures AllSpace(fd.title) && 1 <= |fd.title| <= 255 ==>
      TitleBlank(fd.title) && PostTodoStep(db, defaults, CreateBody(fd)).response.TodoCreated?
    ensures !TitleBlank(fd.title) && |fd.title| > 255 ==>
      PostTodoStep(db, defaults, CreateBody(fd)) == Step(db, TodoInvalid)
  {
  }

  /** Tags typed into the form and submitted become tag rows whose names
      are exactly the parsed entries, and the tables stay valid. */
  lemma TypedTagsAttached(db: Db, defaults: ColumnDefaults, fd: TodoFormData, text: string)
    requires Valid(db) && !TitleBlank(fd.title) && |fd.title| <= 255
    ensures var s := PostTodoStep(db, defaults, CreateBody(fd.(tags := ParseTags(text))));
      && s.response.TodoCreated?
      && TagNames(s.response.todo.tags) == ParseTags(text)
      && (forall i :: 0 <= i < |s.response.todo.tags| ==> WellFormedTag(s.response.todo.tags[i].name))
      && Valid(s.db)
  {
    var typed := fd.(tags := ParseTags(text));
    SubmittedFormCreates(db, defaults, typed);
    PostTodoValid(db, defaults, CreateBody(typed));
    var todo := PostTodoStep(db, defaults, CreateBody(typed)).response.todo;
    forall i | 0 <= i < |todo.tags| ensures WellFormedTag(todo.tags[i].name) {
      assert TagNames(todo.tags)[i] == todo.tags[i].name;
      assert ParseTags(text)[i] in ParseTags(text);
    }
  }
}
