/** The shared database as mutable state, with the two route modules'
    handlers as methods on it. Each method is proved to perform exactly the
    step its route's module describes, so the lemmas proved there (unique
    tag names, connect-or-create, ordering) hold of the running tables. */
module Database {
  import opened Types
  import opened Seqs
  import opened Store
  import opened Ordering
  import opened TagsRoute
  import opened TodosRoute

  class Database {
    const defaults: ColumnDefaults
    var tags: seq<Tag>
    var todos: seq<Todo>
    var nextId: Id
    var clock: Stamp

    /** The tables as a value. */
    function State(): Db
      reads this
    {
      Db(tags, todos, nextId, clock)
    }

    ghost predicate Valid()
      reads this
    {
      Store.Valid(State())
    }

    constructor (defaults: ColumnDefaults)
      ensures Valid() && State() == EmptyDb && this.defaults == defaults
    {
      this.defaults := defaults;
      tags, todos, nextId, clock := [], [], 0, 0;
    }

    /** GET /api/tags. */
    method GetTags() returns (r: seq<Tag>)
      ensures r == ListTags(State())
    {
      r := SortByName(tags);
    }

    /** POST /api/tags: validate, look the name up, insert. */
    method PostTag(req: TagRequest) returns (res: TagResponse)
      requires Valid()
      modifies this
      ensures Valid()
      ensures State() == PostTagStep(old(State()), req).db
      ensures res == PostTagStep(old(State()), req).response
    {
      if req.name.None? || !(1 <= |req.name.value| <= 50) {
        return TagInvalid;
      }
      var name := req.name.value;
      var existing := FindTagByName(tags, name);
      if existing.Some? {
        return TagDuplicate;
      }
      var tag := Tag(nextId, name, req.color, clock);
      tags := tags + [tag];
      nextId := nextId + 1;
      clock := clock + 1;
      res := TagCreated(tag);
    }

    /** The nested `connectOrCreate`, one name at a time. */
    method ConnectOrCreateTags(names: seq<string>) returns (attached: seq<Tag>)
      modifies this
      ensures Linked(State(), attached) == ConnectOrCreate(old(State()), names)
    {
      attached := [];
      var i := 0;
      while i < |names|
        invariant 0 <= i <= |names|
        invariant var rest := ConnectOrCreate(State(), names[i..]);
          ConnectOrCreate(old(State()), names) == Linked(rest.db, attached + rest.attached)
      {
        ghost var before := State();
        var found := FindTagByName(tags, names[i]);
        var tag: Tag;
        if found.Some? {
          tag := found.value;
        } else {
          tag := Tag(nextId, names[i], None, clock);
          tags := tags + [tag];
          nextId := nextId + 1;
          clock := clock + 1;
        }
        assert ConnectOne(before, names[i]) == Linked(State(), [tag]);
        assert names[i..][1..] == names[i + 1..];
        attached := attached + [tag];
        i := i + 1;
      }
      assert names[i..] == [];
    }

    /** POST /api/todos: validate, default the tag list, connect or create
        the tags, normalise the due date, insert. */
    method PostTodo(req: TodoRequest) returns (res: TodoResponse)
      requires Valid()
      modifies this
      ensures Valid()
      ensures State() == PostTodoStep(old(State()), defaults, req).db
      ensures res == PostTodoStep(old(State()), defaults, req).response
    {
      PostTodoValid(State(), defaults, req);
      if req.title.None? || !(1 <= |req.title.value| <= 255)
         || (req.priority.Some? && ParsePriority(req.priority.value).None?) {
        return TodoInvalid;
      }
      var names := if req.tags.Some? then req.tags.value else [];
      var attached := ConnectOrCreateTags(names);
      var completed := if req.completed.Some? then req.completed.value else defaults.completed;
      var priority := if req.priority.Some? then ParsePriority(req.priority.value).value else defaults.priority;
      var dueDate := NormalizeDueDate(req.dueDate);
      var todo := Todo(nextId, req.title.value, req.description, completed, priority, dueDate, clock, clock, attached);
      todos := todos + [todo];
      nextId := nextId + 1;
      clock := clock + 1;
      res := TodoCreated(todo);
    }

    /** GET /api/todos. */
    method GetTodos() returns (r: seq<Todo>)
      ensures r == ListTodos(State())
    {
      r := Reverse(todos);
    }
  }
}
