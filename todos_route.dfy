/** The todo collection endpoints (app/api/todos/route.ts): GET lists the
    todos newest first with their tags; POST validates the body, defaults
    the tag list, normalises the due date and creates the todo, connecting
    each named tag or creating it first. */
module TodosRoute {
  import opened Types
  import opened Seqs
  import opened Store

  /** The POST body after JSON decoding. `dueDate` None stands for both an
      absent and a null field. */
  datatype TodoRequest = TodoRequest(
    title: Option<string>,
    description: Option<string>,
    completed: Option<bool>,
    priority: Option<string>,
    dueDate: Option<string>,
    tags: Option<seq<string>>)

  /** The column defaults for the fields the body may omit. */
  datatype ColumnDefaults = ColumnDefaults(completed: bool, priority: Priority)

  datatype TodoResponse =
    | TodoCreated(todo: Todo)   // 201 with the new row and its tags
    | TodoInvalid               // 400, the body failed the schema

  function TodoStatus(r: TodoResponse): int
  {
    if r.TodoCreated? then 201 else 400
  }

  /** `todoSchema`: a title of 1 to 255 characters and, when given, one of
      the three priority names. */
  predicate ValidTodoRequest(req: TodoRequest)
  {
    && req.title.Some? && 1 <= |req.title.value| <= 255
    && (req.priority.None? || ParsePriority(req.priority.value).Some?)
  }

  /** `validatedData.dueDate ? ... : null`: absent, null and "" become null. */
  function NormalizeDueDate(d: Option<string>): (r: Option<string>)
    ensures r.None? <==> d.None? || d.value == []
    ensures r.Some? ==> r == d
  {
    if d.Some? && d.value != [] then d else None
  }

  // ----- connect-or-create -----

  /** The tables after connecting names, and the tags attached, in order. */
  datatype Linked = Linked(db: Db, attached: seq<Tag>)

  /** Connect the tag named `name` if there is one, otherwise create it
      (with no color) and connect the new row. */
  function ConnectOne(db: Db, name: string): (r: Linked)
    ensures |r.attached| == 1 && r.attached[0].name == name
    ensures name in TagNames(db.tags) ==> r.db == db && r.attached[0] in db.tags
    ensures name !in TagNames(db.tags) ==>
              && r.db == db.(tags := db.tags + r.attached, nextId := db.nextId + 1, clock := db.clock + 1)
              && r.attached[0] == Tag(db.nextId, name, None, db.clock)
  {
    match FindTagByName(db.tags, name)
    case Some(t) => Linked(db, [t])
    case None =>
      var t := Tag(db.nextId, name, None, db.clock);
      Linked(db.(tags := db.tags + [t], nextId := db.nextId + 1, clock := db.clock + 1), [t])
  }

  /** `connectOrCreate` over the supplied names, one after another. */
  function ConnectOrCreate(db: Db, names: seq<string>): (r: Linked)
    decreases |names|
  {
    if names == [] then Linked(db, [])
    else
      var first := ConnectOne(db, names[0]);
      var rest := ConnectOrCreate(first.db, names[1..]);
      Linked(rest.db, first.attached + rest.attached)
  }

  /** One connect-or-create keeps the tables valid. */
  lemma ConnectOneValid(db: Db, name: string)
    requires Valid(db)
    ensures Valid(ConnectOne(db, name).db)
  {
    var r := ConnectOne(db, name);
    if name !in TagNames(db.tags) {
      forall i | 0 <= i < |db.tags| ensures db.tags[i].name != name {
        assert TagNames(db.tags)[i] == db.tags[i].name;
      }
      assert UniqueNames(r.db.tags);
    }
  }

  /** Connect-or-create leaves the todo table alone, keeps every existing
      tag row in place and moves the id and clock supply forward. */
  lemma {:induction false} ConnectOrCreateKeeps(db: Db, names: seq<string>)
    ensures var r := ConnectOrCreate(db, names);
      && r.db.todos == db.todos
      && |db.tags| <= |r.db.tags| && r.db.tags[..|db.tags|] == db.tags
      && db.nextId <= r.db.nextId && db.clock <= r.db.clock
    decreases |names|
  {
    if names != [] {
      var first := ConnectOne(db, names[0]);
      ConnectOrCreateKeeps(first.db, names[1..]);
      assert first.db.tags[..|db.tags|] == db.tags;
    }
  }

  /** The attached tags carry exactly the supplied names, in order. */
  lemma {:induction false} ConnectOrCreateNames(db: Db, names: seq<string>)
    ensures TagNames(ConnectOrCreate(db, names).attached) == names
    decreases |names|
  {
    if names != [] {
      var first := ConnectOne(db, names[0]);
      var rest := ConnectOrCreate(first.db, names[1..]);
      ConnectOrCreateNames(first.db, names[1..]);
      assert TagNames(first.attached + rest.attached) == [names[0]] + TagNames(rest.attached);
      assert names == [names[0]] + names[1..];
    }
  }

  /** The tables stay valid and every attached tag is a row of the new tag table. */
  lemma {:induction false} ConnectOrCreateValid(db: Db, names: seq<string>)
    requires Valid(db)
    ensures var r := ConnectOrCreate(db, names);
      Valid(r.db) && forall t :: t in r.attached ==> t in r.db.tags
    decreases |names|
  {
    if names != [] {
      var first := ConnectOne(db, names[0]);
      ConnectOneValid(db, names[0]);
      ConnectOrCreateValid(first.db, names[1..]);
      ConnectOrCreateKeeps(first.db, names[1..]);
      var rest := ConnectOrCreate(first.db, names[1..]);
      assert first.attached[0] in first.db.tags;
      assert first.db.tags == rest.db.tags[..|first.db.tags|];
      assert first.attached[0] in rest.db.tags;
    }
  }

  /** Every row connect-or-create adds is for a supplied name that had no row. */
  lemma {:induction false} ConnectOrCreateNewRows(db: Db, names: seq<string>)
    ensures var r := ConnectOrCreate(db, names);
      forall k :: |db.tags| <= k < |r.db.tags| ==> r.db.tags[k].name in names && r.db.tags[k].name !in TagNames(db.tags)
    decreases |names|
  {
    if names != [] {
      var first := ConnectOne(db, names[0]);
      var r := ConnectOrCreate(db, names);
      ConnectOrCreateNewRows(first.db, names[1..]);
      ConnectOrCreateKeeps(first.db, names[1..]);
      forall k | |db.tags| <= k < |r.db.tags|
        ensures r.db.tags[k].name in names && r.db.tags[k].name !in TagNames(db.tags)
      {
        if k < |first.db.tags| {
          assert r.db.tags[k] == first.db.tags[k] == first.attached[0];
        } else {
          assert TagNames(db.tags) == TagNames(first.db.tags)[..|db.tags|];
        }
      }
    }
  }

  // ----- POST and GET -----

  /** The row POST creates from a valid body, once its tags are attached. */
  function NewTodo(db: Db, defaults: ColumnDefaults, req: TodoRequest, attached: seq<Tag>): Todo
    requires ValidTodoRequest(req)
  {
    Todo(
      db.nextId,
      req.title.value,
      req.description,
      if req.completed.Some? then req.completed.value else defaults.completed,
      if req.priority.Some? then ParsePriority(req.priority.value).value else defaults.priority,
      NormalizeDueDate(req.dueDate),
      db.clock,
      db.clock,
      attached)
  }

  /** POST /api/todos as one step on the tables. */
  function PostTodoStep(db: Db, defaults: ColumnDefaults, req: TodoRequest): (s: Step<TodoResponse>)
    ensures !ValidTodoRequest(req) ==> s.response == TodoInvalid && s.db == db
    ensures TodoStatus(s.response) == 201 <==> ValidTodoRequest(req)
  {
    if !ValidTodoRequest(req) then Step(db, TodoInvalid)
    else
      var names := if req.tags.Some? then req.tags.value else [];
      var linked := ConnectOrCreate(db, names);
      var todo := NewTodo(linked.db, defaults, req, linked.attached);
      var db' := linked.db.(todos := linked.db.todos + [todo], nextId := linked.db.nextId + 1, clock := linked.db.clock + 1);
      Step(db', TodoCreated(todo))
  }

  /** A successful POST answers with the new row and its tags: the
      validated fields are copied, an omitted field takes its column default
      and the due date is normalised; the tags carry the supplied names in
      order, none when the list is omitted; the todo is appended after the
      existing, unchanged todos; tag rows are only added, each for a
      supplied name that had no row. */
  lemma PostTodoCreates(db: Db, defaults: ColumnDefaults, req: TodoRequest)
    requires ValidTodoRequest(req)
    ensures var s := PostTodoStep(db, defaults, req);
      var names := if req.tags.Some? then req.tags.value else [];
      && s.response.TodoCreated?
      && var todo := s.response.todo;
      && s.db.todos == db.todos + [todo]
      && todo.title == req.title.value && todo.description == req.description
      && todo.completed == (if req.completed.Some? then req.completed.value else defaults.completed)
      && (req.priority.Some? ==> PriorityName(todo.priority) == req.priority.value)
      && (req.priority.None? ==> todo.priority == defaults.priority)
      && todo.dueDate == NormalizeDueDate(req.dueDate)
      && TagNames(todo.tags) == names
      && (req.tags.None? ==> todo.tags == [])
      && |db.tags| <= |s.db.tags| && s.db.tags[..|db.tags|] == db.tags
      && (forall k :: |db.tags| <= k < |s.db.tags| ==> s.db.tags[k].name in names && s.db.tags[k].name !in TagNames(db.tags))
  {
    var names := if req.tags.Some? then req.tags.value else [];
    ConnectOrCreateKeeps(db, names);
    ConnectOrCreateNames(db, names);
    ConnectOrCreateNewRows(db, names);
    if req.priority.Some? {
      ParsePriorityName(req.priority.value);
    }
  }

  /** A supplied name that already had a row is connected to that very row. */
  lemma PostTodoReusesTags(db: Db, defaults: ColumnDefaults, req: TodoRequest)
    requires Valid(db) && ValidTodoRequest(req)
    ensures var s := PostTodoStep(db, defaults, req);
      var names := if req.tags.Some? then req.tags.value else [];
      && s.response.TodoCreated? && |s.response.todo.tags| == |names|
      && forall i :: 0 <= i < |names| && names[i] in TagNames(db.tags) ==> s.response.todo.tags[i] in db.tags
  {
    var names := if req.tags.Some? then req.tags.value else [];
    ConnectOrCreateKeeps(db, names);
    ConnectOrCreateNames(db, names);
    ConnectOrCreateValid(db, names);
    var linked := ConnectOrCreate(db, names);
    var todo := PostTodoStep(db, defaults, req).response.todo;
    assert todo.tags == linked.attached;
    forall i | 0 <= i < |names| && names[i] in TagNames(db.tags) ensures todo.tags[i] in db.tags {
      var j :| 0 <= j < |db.tags| && TagNames(db.tags)[j] == names[i];
      assert db.tags[j] in linked.db.tags by { assert linked.db.tags[j] == db.tags[j]; }
      assert todo.tags[i] in todo.tags;
      UniqueNameRow(linked.db.tags, todo.tags[i], db.tags[j]);
    }
  }

  /** POST keeps the tables valid; in particular tag names stay unique. */
  lemma PostTodoValid(db: Db, defaults: ColumnDefaults, req: TodoRequest)
    requires Valid(db)
    ensures Valid(PostTodoStep(db, defaults, req).db)
    ensures UniqueNames(PostTodoStep(db, defaults, req).db.tags)
  {
    if ValidTodoRequest(req) {
      var names := if req.tags.Some? then req.tags.value else [];
      ConnectOrCreateKeeps(db, names);
      ConnectOrCreateValid(db, names);
      var linked := ConnectOrCreate(db, names);
      var s := PostTodoStep(db, defaults, req);
      forall i, t | 0 <= i < |s.db.todos| && t in s.db.todos[i].tags ensures t in s.db.tags {
        if i < |db.todos| {
          assert s.db.todos[i] == linked.db.todos[i];
        }
      }
    }
  }

  /** GET /api/todos: every todo, newest first. */
  function ListTodos(db: Db): (r: seq<Todo>)
    ensures multiset(r) == multiset(db.todos)
    ensures Valid(db) ==> forall i, j :: 0 <= i < j < |r| ==> r[i].createdAt > r[j].createdAt
  {
    var r := Reverse(db.todos);
    assert Valid(db) ==> forall i, j :: 0 <= i < j < |r| ==> r[i].createdAt > r[j].createdAt by {
      if Valid(db) {
        forall i, j | 0 <= i < j < |r| ensures r[i].createdAt > r[j].createdAt {
          var n := |db.todos|;
          assert r[i] == db.todos[n - 1 - i] && r[j] == db.todos[n - 1 - j];
        }
      }
    }
    r
  }
}
