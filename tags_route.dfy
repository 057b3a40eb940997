/** The tag endpoints (app/api/tags/route.ts): GET lists the tag table by
    name, POST validates the body, refuses a name already taken and
    otherwise inserts one row. */
module TagsRoute {
  import opened Types
  import opened Store
  import opened Ordering

  /** The POST body after JSON decoding: `name` may be missing. */
  datatype TagRequest = TagRequest(name: Option<string>, color: Option<string>)

  datatype TagResponse =
    | TagCreated(tag: Tag)   // 201 with the new row
    | TagInvalid             // 400, the body failed the schema
    | TagDuplicate           // 400, "Tag with this name already exists"

  function TagStatus(r: TagResponse): int
  {
    match r
    case TagCreated(_) => 201
    case TagInvalid => 400
    case TagDuplicate => 400
  }

  /** `tagSchema`: a name of 1 to 50 characters; the color is free. */
  predicate ValidTagRequest(req: TagRequest)
  {
    req.name.Some? && 1 <= |req.name.value| <= 50
  }

  /** POST /api/tags as one step on the tables. */
  function PostTagStep(db: Db, req: TagRequest): (s: Step<TagResponse>)
    ensures !ValidTagRequest(req) ==> s.response == TagInvalid && s.db == db
    ensures ValidTagRequest(req) && req.name.value in TagNames(db.tags) ==>
              s.response == TagDuplicate && s.db == db
    ensures TagStatus(s.response) == 201 <==> ValidTagRequest(req) && req.name.value !in TagNames(db.tags)
    ensures TagStatus(s.response) == 201 ==>
              && s.response.tag.name == req.name.value && s.response.tag.color == req.color
              && s.db.tags == db.tags + [s.response.tag] && s.db.todos == db.todos
    ensures TagStatus(s.response) == 400 ==> s.db == db
    ensures Valid(db) ==> Valid(s.db)
  {
    if !ValidTagRequest(req) then Step(db, TagInvalid)
    else
      var name := req.name.value;
      match FindTagByName(db.tags, name)
      case Some(_) => Step(db, TagDuplicate)
      case None =>
        var tag := Tag(db.nextId, name, req.color, db.clock);
        var db' := Db(db.tags + [tag], db.todos, db.nextId + 1, db.clock + 1);
        assert Valid(db) ==> UniqueNames(db'.tags) by {
          forall i | 0 <= i < |db.tags| ensures db.tags[i].name != name {
            assert TagNames(db.tags)[i] == db.tags[i].name;
          }
        }
        Step(db', TagCreated(tag))
  }

  /** A sequential series of POSTs, each on the state the previous one left. */
  function PostTags(db: Db, reqs: seq<TagRequest>): Db
    decreases |reqs|
  {
    if reqs == [] then db else PostTags(PostTagStep(db, reqs[0]).db, reqs[1..])
  }

  /** Tag names stay pairwise distinct, whatever series of POSTs is made. */
  lemma {:induction false} PostTagsKeepNamesUnique(db: Db, reqs: seq<TagRequest>)
    requires Valid(db)
    ensures Valid(PostTags(db, reqs)) && UniqueNames(PostTags(db, reqs).tags)
    decreases |reqs|
  {
    if reqs != [] {
      PostTagsKeepNamesUnique(PostTagStep(db, reqs[0]).db, reqs[1..]);
    }
  }

  /** A series of POSTs never removes or alters a row: the old table is a prefix of the new. */
  lemma {:induction false} PostTagsOnlyAppend(db: Db, reqs: seq<TagRequest>)
    ensures |db.tags| <= |PostTags(db, reqs).tags|
    ensures PostTags(db, reqs).tags[..|db.tags|] == db.tags
    ensures PostTags(db, reqs).todos == db.todos
    decreases |reqs|
  {
    if reqs != [] {
      var db1 := PostTagStep(db, reqs[0]).db;
      PostTagsOnlyAppend(db1, reqs[1..]);
      assert db1.tags[..|db.tags|] == db.tags;
    }
  }

  /** GET /api/tags: every row, ascending by name; each row once and, the
      names being unique, in strictly increasing order. */
  function ListTags(db: Db): (r: seq<Tag>)
    ensures multiset(r) == multiset(db.tags)
    ensures SortedByName(r)
    ensures Valid(db) ==> forall t :: t in db.tags ==> multiset(r)[t] == 1
    ensures Valid(db) ==> forall i, j :: 0 <= i < j < |r| ==> r[i].name != r[j].name
  {
    var r := SortByName(db.tags);
    if Valid(db) then
      forall t | t in db.tags ensures multiset(r)[t] == 1 {
        IncreasingIdsOccurOnce(db.tags, t);
      }
      UniqueNamesPermutation(r, db.tags);
      r
    else
      r
  }
}
