/** The application's shared data model: priorities, tags, todos and the
    todo form's data (app/lib/types.ts). Nullable fields are `Option`s;
    database ids and timestamps are abstract naturals. */
module Types {

  datatype Option<T> = None | Some(value: T)

  /** A database key (a generated string in the application; only its identity matters). */
  type Id = nat

  /** A creation or update time, as an abstract ordered key. */
  type Stamp = nat

  datatype Priority = Low | Medium | High

  /** The wire name of a priority. */
  function PriorityName(p: Priority): (s: string)
    ensures ParsePriority(s) == Some(p)
  {
    match p
    case Low => "LOW"
    case Medium => "MEDIUM"
    case High => "HIGH"
  }

  /** The priority a wire name stands for, if it is one of the three. */
  function ParsePriority(s: string): (r: Option<Priority>)
    ensures r.Some? <==> s == "LOW" || s == "MEDIUM" || s == "HIGH"
  {
    if s == "LOW" then Some(Low)
    else if s == "MEDIUM" then Some(Medium)
    else if s == "HIGH" then Some(High)
    else None
  }

  lemma ParsePriorityName(s: string)
    requires ParsePriority(s).Some?
    ensures PriorityName(ParsePriority(s).value) == s
  {
  }

  datatype Tag = Tag(id: Id, name: string, color: Option<string>, createdAt: Stamp)

  datatype Todo = Todo(
    id: Id,
    title: string,
    description: Option<string>,
    completed: bool,
    priority: Priority,
    dueDate: Option<string>,
    createdAt: Stamp,
    updatedAt: Stamp,
    tags: seq<Tag>)

  datatype TodoFormData = TodoFormData(
    title: string,
    description: string,
    priority: Priority,
    dueDate: Option<string>,
    tags: seq<string>)

  /** The names of a list of tags, in order (`tags.map(tag => tag.name)`). */
  function TagNames(tags: seq<Tag>): (r: seq<string>)
    ensures |r| == |tags|
    ensures forall i :: 0 <= i < |tags| ==> r[i] == tags[i].name
    decreases |tags|
  {
    if tags == [] then [] else [tags[0].name] + TagNames(tags[1..])
  }
}
