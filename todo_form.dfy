/** The todo form (app/components/todo-form.tsx): parsing the
    comma-separated tag input, displaying tags, initialising from the todo
    being edited, the field updates and the submit guard. */
module TodoForm {
  import opened Types
  import opened Text
  import opened Seqs

  // ----- tags: parse and display -----

  /** A tag as the parser produces it: non-empty, trimmed and comma-free. */
  predicate WellFormedTag(t: string)
  {
    t != [] && IsTrimmed(t) && ',' !in t
  }

  predicate NonEmpty(t: string) { t != [] }

  /** The pieces of the input between commas, each trimmed, in input order. */
  function TrimmedPieces(s: string): (r: seq<string>)
    ensures |r| == |Split(s, ',')| && forall i :: 0 <= i < |r| ==> r[i] == Trim(Split(s, ',')[i])
    ensures forall t :: t in r ==> IsTrimmed(t) && ',' !in t
  {
    var pieces := Split(s, ',');
    var r := Map(pieces, Trim);
    forall t | t in r ensures IsTrimmed(t) && ',' !in t {
      var i :| 0 <= i < |r| && r[i] == t;
      TrimChars(pieces[i]);
    }
    r
  }

  /** `handleTagsChange`: split on ",", trim each piece, drop the empty ones. */
  function ParseTags(s: string): (r: seq<string>)
    ensures forall i :: 0 <= i < |r| ==> WellFormedTag(r[i])
    ensures IsSubsequence(r, TrimmedPieces(s))
    ensures forall t :: t in r <==> t in TrimmedPieces(s) && t != []
    ensures forall t :: multiset(r)[t] == if t != [] then multiset(TrimmedPieces(s))[t] else 0
  {
    var pieces := TrimmedPieces(s);
    var r := Filter(pieces, NonEmpty);
    FilterIsSubsequence(pieces, NonEmpty);
    forall t ensures multiset(r)[t] == if t != [] then multiset(pieces)[t] else 0 {
      FilterCount(pieces, NonEmpty, t);
    }
    forall t ensures t in r <==> t in pieces && t != [] {
      FilterMembership(pieces, NonEmpty, t);
    }
    forall i | 0 <= i < |r| ensures WellFormedTag(r[i]) {
      assert r[i] in r;
    }
    r
  }

  /** The tag input's displayed value: `tags.join(", ")`. */
  function JoinTags(tags: seq<string>): string
  {
    Join(tags, ", ")
  }

  /** Every piece prefixed by one space. */
  function Padded(ts: seq<string>): (r: seq<string>)
    ensures |r| == |ts|
    ensures forall i :: 0 <= i < |ts| ==> r[i] == [' '] + ts[i]
    decreases |ts|
  {
    if ts == [] then [] else [[' '] + ts[0]] + Padded(ts[1..])
  }

  lemma SplitNoSep(s: string, sep: char)
    requires sep !in s
    ensures Split(s, sep) == [s]
  {
    SplitPrefix(s, [], sep);
    assert s + [] == s;
  }

  /** Splitting joined comma-free tags on "," gives the first tag and then
      each further tag behind the space the separator left. */
  lemma {:induction false} SplitJoined(p: string, tags: seq<string>)
    requires tags != []
    requires ',' !in p
    requires forall i :: 0 <= i < |tags| ==> ',' !in tags[i]
    ensures Split(p + JoinTags(tags), ',') == [p + tags[0]] + Padded(tags[1..])
    decreases |tags|
  {
    if |tags| == 1 {
      assert JoinTags(tags) == tags[0];
      SplitNoSep(p + tags[0], ',');
      assert tags[1..] == [];
    } else {
      var a := p + tags[0];
      var rest := tags[1..];
      var b := [' '] + JoinTags(rest);
      assert JoinTags(tags) == tags[0] + ", " + JoinTags(rest);
      assert p + JoinTags(tags) == a + ([','] + b);
      SplitPrefix(a, [','] + b, ',');
      SplitAtSep(b, ',');
      SplitJoined([' '], rest);
      assert Split(b, ',') == [[' '] + rest[0]] + Padded(rest[1..]);
      assert Split([','] + b, ',') == [[]] + Split(b, ',');
      assert Split(a + ([','] + b), ',') == [a + []] + Split(b, ',');
      assert a + [] == a;
      assert Padded(rest) == [[' '] + rest[0]] + Padded(rest[1..]);
    }
  }

  /** The trimmed pieces of displayed well-formed tags are the tags. */
  lemma TrimmedPiecesOfJoin(tags: seq<string>)
    requires tags != []
    requires forall i :: 0 <= i < |tags| ==> WellFormedTag(tags[i])
    ensures TrimmedPieces(JoinTags(tags)) == tags
  {
    var s := JoinTags(tags);
    SplitJoined([], tags);
    assert [] + s == s;
    assert [] + tags[0] == tags[0];
    var pieces := Split(s, ',');
    assert pieces == [tags[0]] + Padded(tags[1..]);
    var trimmed := Map(pieces, Trim);
    forall i | 0 <= i < |tags| ensures trimmed[i] == tags[i] {
      if i > 0 {
        assert pieces[i] == [' '] + tags[i];
        TrimSpacePrefix(tags[i]);
      }
    }
    assert trimmed == tags;
  }

  /** Displaying well-formed tags and parsing the display gives them back. */
  lemma ParseJoinRoundTrip(tags: seq<string>)
    requires forall i :: 0 <= i < |tags| ==> WellFormedTag(tags[i])
    ensures ParseTags(JoinTags(tags)) == tags
  {
    if tags == [] {
      assert Split([], ',') == [[]];
      assert Map([[]], Trim) == [[]];
      assert Filter([[]], NonEmpty) == [];
    } else {
      TrimmedPiecesOfJoin(tags);
      FilterAllPass(tags, NonEmpty);
    }
  }

  /** Re-parsing the displayed value of parsed tags changes nothing. */
  lemma ParseDisplayStable(s: string)
    ensures ParseTags(JoinTags(ParseTags(s))) == ParseTags(s)
  {
    ParseJoinRoundTrip(ParseTags(s));
  }

  /** An input made only of commas and whitespace yields no tags. */
  lemma ParseBlank(s: string)
    requires forall i :: 0 <= i < |s| ==> s[i] == ',' || IsSpace(s[i])
    ensures ParseTags(s) == []
  {
    var pieces := Split(s, ',');
    var trimmed := TrimmedPieces(s);
    forall i | 0 <= i < |pieces| ensures trimmed[i] == [] {
      forall j | 0 <= j < |pieces[i]| ensures IsSpace(pieces[i][j]) {
        SplitChars(s, ',', i, pieces[i][j]);
      }
    }
    FilterNonePass(trimmed, NonEmpty);
  }

  // ----- form state -----

  /** The form's initial data when no todo is being edited. */
  const EmptyForm := TodoFormData("", "", Medium, None, [])

  /** Edit-mode initialisation: the todo's title, priority and due date, its
      description with null shown as "", and its tag names in order. */
  function FormDataOf(todo: Todo): (fd: TodoFormData)
    ensures fd.title == todo.title && fd.priority == todo.priority && fd.dueDate == todo.dueDate
    ensures todo.description.None? ==> fd.description == []
    ensures todo.description.Some? ==> fd.description == todo.description.value
    ensures |fd.tags| == |todo.tags| && forall i :: 0 <= i < |fd.tags| ==> fd.tags[i] == todo.tags[i].name
  {
    TodoFormData(
      todo.title,
      if todo.description.Some? then todo.description.value else [],
      todo.priority,
      todo.dueDate,
      TagNames(todo.tags))
  }

  /** The edited todo's tags show in the tag input as a value that parses
      back to the same names, when the names are well-formed. */
  lemma EditedTagsReparse(todo: Todo)
    requires forall i :: 0 <= i < |todo.tags| ==> WellFormedTag(todo.tags[i].name)
    ensures ParseTags(JoinTags(FormDataOf(todo).tags)) == FormDataOf(todo).tags
  {
    ParseJoinRoundTrip(FormDataOf(todo).tags);
  }

  /** The submit guard: a title that trims to "" blocks submission. */
  function TitleBlank(title: string): (b: bool)
    ensures b <==> AllSpace(title)
  {
    Trim(title) == []
  }

  /** The text inputs `handleChange` serves, by their `name` attribute. */
  datatype TextField = TitleField | DescriptionField | DueDateField

  /** What one press of the submit button leads to. */
  datatype SubmitOutcome =
    | TitleRequired                                // error toast, nothing sent
    | Saved(data: TodoFormData, updated: bool)     // success toast for an update or a create
    | SaveFailed(data: TodoFormData)               // `onSubmit` threw: error toast

  class FormState {
    var todo: Option<Todo>
    var formData: TodoFormData
    var isSubmitting: bool

    /** Mounting the form, with the initialisation effect run once. */
    constructor (todo: Option<Todo>)
      ensures this.todo == todo && !isSubmitting
      ensures formData == if todo.Some? then FormDataOf(todo.value) else EmptyForm
    {
      this.todo := todo;
      isSubmitting := false;
      formData := if todo.Some? then FormDataOf(todo.value) else EmptyForm;
    }

    /** A new `todo` prop: the effect copies an edited todo in and leaves
        the data as it was when the prop is absent. */
    method ReceiveTodo(t: Option<Todo>)
      modifies this
      ensures todo == t && isSubmitting == old(isSubmitting)
      ensures formData == if t.Some? then FormDataOf(t.value) else old(formData)
    {
      todo := t;
      if t.Some? {
        formData := FormDataOf(t.value);
      }
    }

    /** `handleChange`: the named text field takes the input's value. The date
        input's value is stored as given, so clearing it stores "". */
    method HandleChange(field: TextField, value: string)
      modifies this`formData
      ensures match field
        case TitleField => formData == old(formData).(title := value)
        case DescriptionField => formData == old(formData).(description := value)
        case DueDateField => formData == old(formData).(dueDate := Some(value))
    {
      match field
      case TitleField => formData := formData.(title := value);
      case DescriptionField => formData := formData.(description := value);
      case DueDateField => formData := formData.(dueDate := Some(value));
    }

    /** `handleSelectChange(value, "priority")`: only the priority changes. */
    method HandleSelectChange(value: Priority)
      modifies this`formData
      ensures formData == old(formData).(priority := value)
    {
      formData := formData.(priority := value);
    }

    /** `handleTagsChange`: the tags become the parse of the input's text. */
    method HandleTagsChange(text: string)
      modifies this`formData
      ensures formData == old(formData).(tags := ParseTags(text))
      ensures forall i :: 0 <= i < |formData.tags| ==> WellFormedTag(formData.tags[i])
      ensures ParseTags(TagsText()) == formData.tags
    {
      formData := formData.(tags := ParseTags(text));
      ParseDisplayStable(text);
    }

    /** The tag input's displayed value. */
    function TagsText(): string
      reads this
    {
      JoinTags(formData.tags)
    }

    /** `handleSubmit`: `onSubmitOk` is whether the parent's `onSubmit`
        returned normally. A blank title stops before `onSubmit` is called;
        otherwise `onSubmit` gets the current data and the submitting flag is
        cleared again at the end. */
    method HandleSubmit(onSubmitOk: bool) returns (outcome: SubmitOutcome)
      modifies this`isSubmitting
      ensures TitleBlank(formData.title) ==> outcome == TitleRequired && isSubmitting == old(isSubmitting)
      ensures !TitleBlank(formData.title) ==> !isSubmitting
      ensures !TitleBlank(formData.title) && onSubmitOk ==> outcome == Saved(formData, todo.Some?)
      ensures !TitleBlank(formData.title) && !onSubmitOk ==> outcome == SaveFailed(formData)
    {
      if TitleBlank(formData.title) {
        return TitleRequired;
      }
      isSubmitting := true;
      if onSubmitOk {
        outcome := Saved(formData, todo.Some?);
      } else {
        outcome := SaveFailed(formData);
      }
      isSubmitting := false;
    }
  }
}
