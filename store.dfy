/** The database as the two routes see it: a tag table and a todo table,
    with the key and timestamp supply the database provides. Every request
    is one atomic step on this state. */
module Store {
  import opened Types

  /** Both tables, the next free id and the clock. Rows are kept in insertion order. */
  datatype Db = Db(tags: seq<Tag>, todos: seq<Todo>, nextId: Id, clock: Stamp)

  /** The state after a request, and the request's response. */
  datatype Step<R> = Step(db: Db, response: R)

  /** Tag names are pairwise distinct (the unique constraint on the name column). */
  predicate UniqueNames(tags: seq<Tag>)
  {
    forall i, j :: 0 <= i < j < |tags| ==> tags[i].name != tags[j].name
  }

  /** The table invariant: unique tag names; ids increasing in insertion
      order and below `nextId`; todo creation times increasing in insertion
      order and below `clock`; every tag attached to a todo is a row of the
      tag table. */
  predicate Valid(db: Db)
  {
    && UniqueNames(db.tags)
    && (forall i, j :: 0 <= i < j < |db.tags| ==> db.tags[i].id < db.tags[j].id)
    && (forall i :: 0 <= i < |db.tags| ==> db.tags[i].id < db.nextId && db.tags[i].createdAt < db.clock)
    && (forall i, j :: 0 <= i < j < |db.todos| ==>
          db.todos[i].id < db.todos[j].id && db.todos[i].createdAt < db.todos[j].createdAt)
    && (forall i :: 0 <= i < |db.todos| ==> db.todos[i].id < db.nextId && db.todos[i].createdAt < db.clock)
    && (forall i, t :: 0 <= i < |db.todos| && t in db.todos[i].tags ==> t in db.tags)
  }

  const EmptyDb := Db([], [], 0, 0)

  lemma EmptyDbValid()
    ensures Valid(EmptyDb)
  {
  }

  /** `findUnique({ where: { name } })` on the tag table. */
  function FindTagByName(tags: seq<Tag>, name: string): (r: Option<Tag>)
    ensures r.Some? ==> r.value in tags && r.value.name == name
    ensures r.None? <==> name !in TagNames(tags)
    decreases |tags|
  {
    if tags == [] then None
    else if tags[0].name == name then Some(tags[0])
    else
      assert TagNames(tags) == [tags[0].name] + TagNames(tags[1..]);
      FindTagByName(tags[1..], name)
  }

  /** With unique names, a name picks out at most one row. */
  lemma UniqueNameRow(tags: seq<Tag>, a: Tag, b: Tag)
    requires UniqueNames(tags)
    requires a in tags && b in tags && a.name == b.name
    ensures a == b
  {
    var i :| 0 <= i < |tags| && tags[i] == a;
    var j :| 0 <= j < |tags| && tags[j] == b;
    assert !(i < j) && !(j < i);
  }

  /** Rows with increasing ids are pairwise distinct, so each occurs once. */
  lemma {:induction false} IncreasingIdsOccurOnce(tags: seq<Tag>, t: Tag)
    requires forall i, j :: 0 <= i < j < |tags| ==> tags[i].id < tags[j].id
    requires t in tags
    ensures multiset(tags)[t] == 1
    decreases |tags|
  {
    assert tags == [tags[0]] + tags[1..];
    if tags[0] == t {
      assert t !in tags[1..];
    } else {
      IncreasingIdsOccurOnce(tags[1..], t);
    }
  }

  /** With unique names no row occurs twice. */
  lemma {:induction false} UniqueNamesAtMostOnce(tags: seq<Tag>, t: Tag)
    requires UniqueNames(tags)
    ensures multiset(tags)[t] <= 1
    decreases |tags|
  {
    if tags != [] {
      assert tags == [tags[0]] + tags[1..];
      UniqueNamesAtMostOnce(tags[1..], t);
      if tags[0] == t {
        assert t !in tags[1..];
      }
    }
  }

  lemma TwiceCounted<T>(s: seq<T>, i: nat, j: nat)
    requires i < j < |s| && s[i] == s[j]
    ensures multiset(s)[s[i]] >= 2
  {
    assert s == s[..i] + [s[i]] + s[i + 1..j] + [s[j]] + s[j + 1..];
  }

  /** A reordering of a table with unique names has unique names. */
  lemma UniqueNamesPermutation(a: seq<Tag>, b: seq<Tag>)
    requires multiset(a) == multiset(b) && UniqueNames(b)
    ensures UniqueNames(a)
  {
    forall i, j | 0 <= i < j < |a| ensures a[i].name != a[j].name {
      assert a[i] in multiset(b) && a[j] in multiset(b);
      if a[i].name == a[j].name {
        UniqueNameRow(b, a[i], a[j]);
        UniqueNamesAtMostOnce(b, a[i]);
        TwiceCounted(a, i, j);
      }
    }
  }
}
