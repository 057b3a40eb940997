# ultimate-todo-app in Dafny

A model of the logic of a small Next.js todo application. The model covers four parts:

- **The todo list container.** The client-side search and filter effect and the state its handlers change (app/components/todo-container.tsx).
- **The todo form.** It parses the comma-separated tag input, shows tags back joined with `", "`, initialises from the todo being edited, updates fields and guards submission (app/components/todo-form.tsx).
- **The tag endpoints.** They validate, check for a duplicate name and insert on POST, and list sorted by name on GET (app/api/tags/route.ts).
- **The todo endpoints.** They validate the body, default the tag list, normalise the due date, connect or create tags by name and insert on POST, and list newest first on GET (app/api/todos/route.ts).

The data follows app/lib/types.ts. `Priority` is a datatype. `Tag`, `Todo` and `TodoFormData` are datatypes, and nullable fields are `Option`.

## Layout

- `text.dfy`, `module Text`: the string operations the source calls.
  - `toLowerCase`, on ASCII letters;
  - `includes`;
  - `trim`, over a fixed whitespace set;
  - `split` and `join`.
- `seqs.dfy`, `module Seqs`: `Array.filter` and `Array.map` as functions, order-preserving subsequences, and reversal.
- `types.dfy`, `module Types`: the entities, and the priority names with their parser.
- `todo_container.dfy`, `module TodoContainer`:
  - the filter effect, as the function `ApplyFilters`;
  - the local removal after a delete, `WithoutId`;
  - the component state, as `class Container`, whose methods are the handlers.
- `todo_form.dfy`, `module TodoForm`:
  - tag parsing and display, and edit-mode initialisation, as functions;
  - the form state, as `class FormState`, whose methods are the change and submit handlers.
- `store.dfy`, `module Store`:
  - the two tables `Db`, with an id counter and a clock;
  - the invariant `Valid`, which says tag names are unique, ids and creation stamps increase, and every attached tag is a row of the tag table;
  - `findUnique` by name.
- `ordering.dfy`, `module Ordering`: the order of `orderBy: { name: "asc" }`, and a sort by it.
- `tags_route.dfy`, `module TagsRoute`: POST and GET of /api/tags, as steps on `Db`.
- `todos_route.dfy`, `module TodosRoute`: POST and GET of /api/todos, as steps on `Db`. Connect-or-create is the explicit operation `ConnectOrCreate`.
- `database.dfy`, `module Database`: the shared tables as `class Database`. Its methods perform the route handlers step by step and are proved equal to the step functions, so the lemmas about those steps hold of the class's state.
- `create_flow.dfy`, `module CreateFlow`: the create path end to end. The form's data is posted as a JSON body and the route turns it into a todo.

Inputs that come from outside the code are parameters of the handlers: network responses, the `confirm()` answer, and whether the parent's `onSubmit` threw.

When a todo is being edited, `handleUpdateTodo` catches a failed PATCH itself and shows an error toast. So `handleFormSubmit` returns normally, and the form then shows its success toast as well. `HandleFormSubmit` states this: `ok` is always true when editing.

## Model

| member | source | states |
|---|---|---|
| Types.ParsePriority | app/api/todos/route.ts:9 | The parse succeeds exactly for "LOW", "MEDIUM" and "HIGH". |
| Types.PriorityName | app/lib/types.ts:1 | Every priority's name parses back to that priority. |
| Types.ParsePriorityName | app/api/todos/route.ts:9 | Every accepted name is the name of the priority it parses to. |
| Types.TagNames | app/components/todo-form.tsx:43 | `tags.map(tag => tag.name)`: same length, and entry i is the name of tag i. |
| Text.ToLower | app/components/todo-container.tsx:73 | Same length as the input. Each upper-case letter becomes its lower-case counterpart, 32 code points on, and every other character is unchanged. |
| Text.ToLowerIdempotent | app/components/todo-container.tsx:73-77 | Lower-casing twice is lower-casing once. |
| Text.IncludesIffOccurs | app/components/todo-container.tsx:73-77 | `includes` holds exactly when the term occurs at some index. |
| Text.Trim | app/components/todo-form.tsx:63 | The result has no leading or trailing whitespace and is the input minus a whitespace prefix and suffix. It is empty exactly when the input is all whitespace. An already-trimmed string is unchanged. |
| Text.TrimChars | app/components/todo-form.tsx:63 | Trimming introduces no character. |
| Text.Split | app/components/todo-form.tsx:62 | At least one piece, and no piece contains the separator. |
| Text.JoinSplit | app/components/todo-form.tsx:62 | Joining the pieces with the separator gives back the input. |
| Seqs.Filter | app/components/todo-container.tsx:71 | `Array.filter`: a result no longer than the input, made of input elements that pass. |
| Seqs.FilterIsSubsequence | app/components/todo-container.tsx:71 | A filter keeps the order of what it keeps. |
| Seqs.FilterCount | app/components/todo-container.tsx:71 | A passing element keeps its multiplicity and a failing one disappears. |
| TodoContainer.ApplyFilters | app/components/todo-container.tsx:66-95 | The filter effect's result is an order-preserving subsequence of `todos`. A todo is in it iff it passes every active filter, with its multiplicity kept. An empty term with both filters at "all" gives `todos` back. "completed" keeps only completed todos and any other non-"all" status only incomplete ones. A priority filter keeps only that priority. |
| TodoContainer.FiltersCompose | app/components/todo-container.tsx:67-92 | The three optional filters in turn equal one filter by the conjunction of the active ones. |
| TodoContainer.MatchesSearchIff | app/components/todo-container.tsx:71-79 | A todo matches the search iff the lower-cased term occurs in the lower-cased title, in a non-null non-empty description, or in some tag name. |
| TodoContainer.SearchIgnoresTermCase | app/components/todo-container.tsx:73-77 | The search gives the same answer for a term and its lower-cased form. |
| TodoContainer.WithoutId | app/components/todo-container.tsx:166 | Removal by id: an order-preserving subsequence holding exactly the todos with another id, each with its multiplicity. The list is unchanged when no todo has that id. |
| TodoContainer.Container.constructor | app/components/todo-container.tsx:27-34 | The initial state: empty lists, loading, dialog closed, nothing edited, empty search and both filters "all". |
| TodoContainer.Container.RunFilterEffect | app/components/todo-container.tsx:66-95 | After the effect, `filteredTodos` is `ApplyFilters` of the current list and filter values. |
| TodoContainer.Container.SetSearchTerm | app/components/todo-container.tsx:207 | Only the term changes, and the visible list is recomputed. |
| TodoContainer.Container.SetFilterStatus | app/components/todo-container.tsx:231 | Only the status filter changes, and the visible list is recomputed. |
| TodoContainer.Container.SetFilterPriority | app/components/todo-container.tsx:246 | Only the priority filter changes, and the visible list is recomputed. |
| TodoContainer.Container.FetchTodos | app/components/todo-container.tsx:37-58 | A successful load replaces `todos` and a failed one keeps it. Loading ends either way, and nothing else changes. |
| TodoContainer.Container.HandleCreateTodo | app/components/todo-container.tsx:98-118 | A failed POST is reported back to the caller and changes nothing. A successful one reloads the list and closes the dialog. |
| TodoContainer.Container.HandleUpdateTodo | app/components/todo-container.tsx:121-149 | A failed PATCH changes nothing. A successful one reloads the list and, if a todo was being edited, closes the dialog and ends the edit. |
| TodoContainer.Container.HandleDeleteTodo | app/components/todo-container.tsx:152-179 | A declined confirmation sends nothing and leaves `todos` unchanged. A confirmed, successful delete sets `todos` to `WithoutId(old todos, id)`. A failed delete keeps `todos`. |
| TodoContainer.Container.HandleEditTodo | app/components/todo-container.tsx:182-185 | Editing sets `editingTodo` to the todo, opens the dialog, and changes nothing else. |
| TodoContainer.Container.OpenNewDialog | app/components/todo-container.tsx:211-214 | The new-task button clears `editingTodo` and opens the dialog. |
| TodoContainer.Container.CancelDialog | app/components/todo-container.tsx:295-298 | Cancel closes the dialog and clears `editingTodo`. |
| TodoContainer.Container.SetDialogOpen | app/components/todo-container.tsx:285 | The dialog's own callback changes only the open flag. |
| TodoContainer.Container.HandleFormSubmit | app/components/todo-container.tsx:188-194 | When editing, the submission is an update with the edited todo's id and always returns normally. Otherwise it is a create, which throws back exactly when the POST failed. An accepted submission reloads the list, closes the dialog and ends the edit. A rejected one keeps all three. |
| TodoForm.TrimmedPieces | app/components/todo-form.tsx:61-63 | Piece i is the trim of the i-th comma-separated piece of the input, so every piece is trimmed and comma-free. |
| TodoForm.ParseTags | app/components/todo-form.tsx:59-66 | Every parsed tag is non-empty, trimmed and comma-free. The tags are the non-empty trimmed pieces, in input order and each as often as it occurs among them. |
| TodoForm.ParseJoinRoundTrip | app/components/todo-form.tsx:59-66 | Parsing the `join(", ")` display of non-empty, trimmed, comma-free tags gives the same tags. |
| TodoForm.ParseDisplayStable | app/components/todo-form.tsx:158 | Re-parsing the display of parsed tags changes nothing. |
| TodoForm.ParseBlank | app/components/todo-form.tsx:61-64 | An input of only commas and whitespace, the empty input included, yields no tags. |
| TodoForm.FormDataOf | app/components/todo-form.tsx:36-46 | Edit initialisation copies title, priority and due date. A null description becomes "". The tags are the todo's tag names, in order. |
| TodoForm.EditedTagsReparse | app/components/todo-form.tsx:43 | An edited todo's well-formed tag names, once displayed, parse back unchanged. |
| TodoForm.TitleBlank | app/components/todo-form.tsx:71 | The guard fires exactly for a title made only of whitespace, including "". |
| TodoForm.FormState.constructor | app/components/todo-form.tsx:26-46 | Mounting gives the edited todo's data, or the empty form with priority MEDIUM, and not submitting. |
| TodoForm.FormState.ReceiveTodo | app/components/todo-form.tsx:36-46 | A todo prop replaces the data with its initialisation. An absent one leaves the data as it was. |
| TodoForm.FormState.HandleChange | app/components/todo-form.tsx:48-53 | Only the named field takes the new value. |
| TodoForm.FormState.HandleSelectChange | app/components/todo-form.tsx:55-57 | Only the priority changes. |
| TodoForm.FormState.HandleTagsChange | app/components/todo-form.tsx:59-66 | Only the tags change, to the parse of the text. They are well-formed, and their display parses back to them. |
| TodoForm.FormState.HandleSubmit | app/components/todo-form.tsx:68-97 | A blank title stops before `onSubmit` is called. Otherwise the current data is submitted, the outcome follows whether `onSubmit` threw, and the submitting flag ends cleared. |
| Store.FindTagByName | app/api/tags/route.ts:29-31 | A found row is in the table and has that name. Nothing is found exactly when no row has the name. |
| Store.UniqueNameRow | app/api/tags/route.ts:29-31 | With unique names, two rows with the same name are the same row. |
| Store.UniqueNamesAtMostOnce | app/api/tags/route.ts:13-15 | With unique names, no row occurs twice. |
| Store.EmptyDbValid | app/api/tags/route.ts:40-42 | The empty tables satisfy the invariant. |
| Ordering.LexTotal | app/api/tags/route.ts:14 | Any two names are comparable. |
| Ordering.LexTrans | app/api/tags/route.ts:14 | The name order is transitive. |
| Ordering.LexAntisym | app/api/tags/route.ts:14 | Names that are ordered both ways are equal. |
| Ordering.SortByName | app/api/tags/route.ts:13-15 | The result is a permutation of the input, sorted ascending by name. |
| TagsRoute.PostTagStep | app/api/tags/route.ts:24-55 | A missing name, or one of length 0 or over 50, gives a 400 and leaves the store unchanged. A name already in the store gives a 400 and leaves it unchanged. The status is 201 exactly for a valid, fresh name; then exactly one tag with that name and color is appended and the rest is unchanged. The invariant is preserved. |
| TagsRoute.PostTagsKeepNamesUnique | app/api/tags/route.ts:29-42 | Any sequential series of POSTs keeps tag names pairwise distinct and the tables valid. |
| TagsRoute.PostTagsOnlyAppend | app/api/tags/route.ts:40-42 | A series of POSTs only appends tags and never touches todos. |
| TagsRoute.ListTags | app/api/tags/route.ts:11-21 | GET returns a permutation of the tag table, sorted ascending by name. In a valid store, every tag occurs exactly once and the names are distinct. |
| TodosRoute.NormalizeDueDate | app/api/todos/route.ts:39 | An absent, null or empty due date becomes null. Any other value is kept. |
| TodosRoute.ConnectOne | app/api/todos/route.ts:46-49 | An existing row with the name is connected and the tables are unchanged. Otherwise a new row with that name is created and connected. |
| TodosRoute.ConnectOneValid | app/api/todos/route.ts:46-49 | Connecting or creating one name keeps the tables valid. |
| TodosRoute.ConnectOrCreateKeeps | app/api/todos/route.ts:45-50 | Connect-or-create leaves todos alone, only appends tag rows, and never moves the counters back. |
| TodosRoute.ConnectOrCreateNames | app/api/todos/route.ts:45-50 | The attached tags carry the supplied names, in order. |
| TodosRoute.ConnectOrCreateValid | app/api/todos/route.ts:45-50 | Connect-or-create keeps tag names unique and the tables valid, and every attached tag is a row of the table. |
| TodosRoute.ConnectOrCreateNewRows | app/api/todos/route.ts:45-50 | Every new row is for a supplied name that had no row. |
| TodosRoute.PostTodoStep | app/api/todos/route.ts:29-66 | A body failing the schema gives a 400 and leaves the store unchanged: no title, a title of length 0 or over 255, or a priority outside the three names. The status is 201 exactly for a valid body. |
| TodosRoute.PostTodoCreates | app/api/todos/route.ts:35-55 | A successful POST copies the validated fields, with column defaults for omitted ones. Its due date is normalised; its tag names equal the supplied list, which is empty when omitted. The existing todos are unchanged, and only rows for missing names are added. |
| TodosRoute.PostTodoReusesTags | app/api/todos/route.ts:46-49 | A supplied name that already had a row is connected to that row. |
| TodosRoute.PostTodoValid | app/api/todos/route.ts:41-53 | POST keeps the tables valid and tag names unique. |
| TodosRoute.ListTodos | app/api/todos/route.ts:15-26 | GET returns a permutation of the todos, by strictly descending `createdAt` in a valid store. |
| Database.Database.GetTags | app/api/tags/route.ts:11-21 | Returns `ListTags` of the current tables. |
| Database.Database.PostTag | app/api/tags/route.ts:24-55 | The imperative handler performs exactly `PostTagStep` and keeps the tables valid. |
| Database.Database.ConnectOrCreateTags | app/api/todos/route.ts:45-50 | The loop over the names performs exactly `ConnectOrCreate`. |
| Database.Database.PostTodo | app/api/todos/route.ts:29-66 | The imperative handler performs exactly `PostTodoStep` and keeps the tables valid. |
| Database.Database.GetTodos | app/api/todos/route.ts:15-26 | Returns `ListTodos` of the current tables. |
| CreateFlow.SubmittedFormCreates | app/components/todo-container.tsx:98-106 | Suppose the form posts data whose title is non-blank and at most 255 characters. Then a todo is created with the form's title, description and priority and the default completion flag. Its due date is null iff the form's was null or "", and its tag names are the form's tags. |
| CreateFlow.TitleChecksDiffer | app/components/todo-form.tsx:71-78 | The form blocks every whitespace-only title of 1 to 255 characters, all of which the schema accepts. The schema refuses a non-blank title over 255 characters that the form lets through. |
| CreateFlow.TypedTagsAttached | app/components/todo-form.tsx:59-66 | Tags typed into the form and submitted become rows whose names are exactly the parsed, well-formed entries, and the tables stay valid. |

## Left out

- Rendering: the JSX of every component, the loading and empty-list messages, app/page.tsx, and app/components/todo-item.tsx. The item's completion toggle is a PATCH with `!completed`, which reaches the model as `HandleUpdateTodo`.
- Network, JSON and runtime plumbing are parameters of the handlers. This covers `fetch`, response status and body decoding, `toast`, `console.error` and the `confirm()` popup. React's effect scheduling is taken as running the effect right after each state change.
- The per-id PATCH and DELETE route, app/api/todos/[id]/route.ts, is not part of this model. The container only sees its outcome, as a boolean.
- Zod's error payload and the 500 paths. A request arrives already decoded into `TagRequest` or `TodoRequest`, so JSON type errors are not modelled.
- Database internals:
  - ids are natural numbers and timestamps a counter advanced by each insert, so "createdAt desc" is the reverse of insertion order;
  - the database's name collation is modelled as code-point order;
  - `new Date(...)` parsing is not modelled: the due date is an opaque string;
  - the defaults for an omitted `completed` or `priority` are a `ColumnDefaults` parameter, because the database schema is not part of this model;
  - a tag created without a color gets a null color.
- Concurrency: each request is one atomic step. The race between `findUnique` and `create` is not modelled.
- Unicode: lower-casing covers ASCII letters only, and `trim` uses a fixed whitespace set. String lengths count characters, not UTF-16 units.
- Tag lists with repeated names. The model connects the same row once per occurrence; what Prisma does there is not visible in the source.
- TodoForm.FormState.HandleSelectChange: takes a `Priority`, because the select offers only the three priority names.
- The order of a todo's tags. The model attaches tags in the order the names were supplied. `PostTodoCreates`, `ConnectOrCreateNames`, `SubmittedFormCreates` and `TypedTagsAttached` rely on that order when they equate the tag names with the supplied list. The route reads the relation back with `include: { tags: true }` and no `orderBy`, so the program promises only the names as a multiset, not their order.
- Interleaving in the client handlers. Each container and form handler is one atomic step, although the source awaits the network part-way through (for example between the POST and the reload in `handleCreateTodo`, and between the DELETE and the local removal in `handleDeleteTodo`). State changes made by other events during those awaits are not modelled.
