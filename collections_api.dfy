/**
  The collections endpoint (/api/collections): named groups of project
  slugs stored as hashes under `collection:<id>`. POST creates a collection
  only when the id is free, PUT merges the provided fields into an existing
  one, DELETE removes one, and GET parses every stored collection.
*/
module CollectionsApi {
  import opened Strings
  import opened Seqs
  import opened Wrappers
  import opened KeyValueStore

  // ---------------------------------------------------------------------------
  // isValidCollectionId: /^[a-z0-9-_]+$/i

  /** One character of the class [a-z0-9-_] under the i flag. */
  predicate IsIdChar(c: char) {
    ('a' <= c <= 'z') || ('A' <= c <= 'Z') || ('0' <= c <= '9') || c == '-' || c == '_'
  }

  /** The pattern matched the way a regex engine reads `[...]+` anchored at both ends. */
  predicate IsValidCollectionId(id: string)
    decreases |id|
  {
    |id| > 0 && IsIdChar(id[0]) && (|id| == 1 || IsValidCollectionId(id[1..]))
  }

  /** The pattern accepts exactly the non-empty strings over letters, digits, '-' and '_'. */
  lemma {:induction false} ValidIdChars(id: string)
    ensures IsValidCollectionId(id) <==> |id| > 0 && forall i :: 0 <= i < |id| ==> IsIdChar(id[i])
    decreases |id|
  {
    if |id| > 1 {
      ValidIdChars(id[1..]);
      assert forall i :: 1 <= i < |id| ==> id[i] == id[1..][i - 1];
    }
  }

  /** A valid id holds no ',' (so it survives a comma-joined list) and no ':'. */
  lemma ValidIdSeparatorFree(id: string)
    requires IsValidCollectionId(id)
    ensures ',' !in id && ':' !in id
  {
    ValidIdChars(id);
  }

  const InvalidId := "id must contain only alphanumeric characters, hyphens, and underscores"

  datatype Reply =
    | BadRequest(error: string)
    | NotFound(error: string)
    | Conflict(error: string)
    | Saved(id: string)
    | Deleted

  // ---------------------------------------------------------------------------
  // POST: create if absent

  /** A POST body; `id`, `name` and `description` are "" when absent or falsy. */
  datatype CollectionInput = CollectionInput(
    id: string,
    name: string,
    description: string,
    projects: Option<TagsInput>,
    tags: Option<TagsInput>)

  /** `Array.isArray(v) ? v.join(",") : v || ""`, with an absent member read as "". */
  function ListValue(v: Option<TagsInput>): (s: string)
    ensures v.None? ==> s == ""
    ensures v.Some? ==> s == TagsValue(v.value)
  {
    match v
    case None => ""
    case Some(t) => TagsValue(t)
  }

  /**
    The record a create writes. createdAt and updatedAt are two separate
    clock readings, which differ when the clock moves between them.
  */
  function NewCollection(c: CollectionInput, createdAt: string, updatedAt: string): (h: Hash)
    ensures h.Keys == {"name", "description", "projects", "tags", "createdAt", "updatedAt"}
    ensures h["name"] == c.name && h["description"] == c.description
    ensures h["projects"] == ListValue(c.projects) && h["tags"] == ListValue(c.tags)
    ensures h["createdAt"] == createdAt && h["updatedAt"] == updatedAt
  {
    map[
      "name" := c.name,
      "description" := c.description,
      "projects" := ListValue(c.projects),
      "tags" := ListValue(c.tags),
      "createdAt" := createdAt,
      "updatedAt" := updatedAt]
  }

  /** The outcome of POST on a store snapshot. */
  function CreateSpec(db: Db, c: CollectionInput, createdAt: string, updatedAt: string): (r: (Db, Reply))
    ensures c.id == "" || c.name == "" ==> r == (db, BadRequest("id and name are required"))
    ensures c.id != "" && c.name != "" && !IsValidCollectionId(c.id) ==> r == (db, BadRequest(InvalidId))
    ensures IsValidCollectionId(c.id) && c.name != "" && c.id in db.collection ==>
              r == (db, Conflict("collection already exists"))
    ensures r.1.Saved? <==> IsValidCollectionId(c.id) && c.name != "" && c.id !in db.collection
    ensures r.1.Saved? ==> r.0 == db.(collection := db.collection[c.id := NewCollection(c, createdAt, updatedAt)]) && r.1.id == c.id
  {
    if c.id == "" || c.name == "" then (db, BadRequest("id and name are required"))
    else if !IsValidCollectionId(c.id) then (db, BadRequest(InvalidId))
    else if c.id in db.collection then (db, Conflict("collection already exists"))
    else (db.(collection := db.collection[c.id := NewCollection(c, createdAt, updatedAt)]), Saved(c.id))
  }

  /** POST /api/collections; `createdAt` and `updatedAt` are the two clock readings as ISO strings. */
  method Create(st: Store, c: CollectionInput, createdAt: string, updatedAt: string) returns (resp: Reply)
    modifies st
    ensures (st.Snapshot(), resp) == CreateSpec(old(st.Snapshot()), c, createdAt, updatedAt)
  {
    if c.id == "" || c.name == "" {
      return BadRequest("id and name are required");
    }
    if !IsValidCollectionId(c.id) {
      return BadRequest(InvalidId);
    }
    if c.id in st.collection {
      return Conflict("collection already exists");
    }
    var data := map[
      "name" := c.name,
      "description" := c.description,
      "projects" := ListValue(c.projects),
      "tags" := ListValue(c.tags),
      "createdAt" := createdAt,
      "updatedAt" := updatedAt];
    assert Merge(CollectionOf(st.Snapshot(), c.id), data) == data;
    st.HSetCollection(c.id, data);
    return Saved(c.id);
  }

  // ---------------------------------------------------------------------------
  // PUT: merge the provided fields into an existing collection

  /** A PUT body; a member is None when undefined, and falsy description is "". */
  datatype CollectionUpdate = CollectionUpdate(
    id: string,
    name: Option<string>,
    description: Option<string>,
    projects: Option<TagsInput>,
    tags: Option<TagsInput>)

  /** The `updates` record: each defined member, and always a fresh updatedAt. */
  function UpdateFields(u: CollectionUpdate, now: string): (h: Hash)
    ensures h.Keys <= {"name", "description", "projects", "tags", "updatedAt"}
    ensures "updatedAt" in h && h["updatedAt"] == now
    ensures "name" in h <==> u.name.Some?
    ensures "description" in h <==> u.description.Some?
    ensures "projects" in h <==> u.projects.Some?
    ensures "tags" in h <==> u.tags.Some?
    ensures u.name.Some? ==> h["name"] == u.name.value
    ensures u.description.Some? ==> h["description"] == u.description.value
    ensures u.projects.Some? ==> h["projects"] == TagsValue(u.projects.value)
    ensures u.tags.Some? ==> h["tags"] == TagsValue(u.tags.value)
  {
    var a: Hash := if u.name.Some? then map["name" := u.name.value] else map[];
    var b := if u.description.Some? then a["description" := u.description.value] else a;
    var c := if u.projects.Some? then b["projects" := TagsValue(u.projects.value)] else b;
    var d := if u.tags.Some? then c["tags" := TagsValue(u.tags.value)] else c;
    d["updatedAt" := now]
  }

  /** The outcome of PUT on a store snapshot. */
  function UpdateSpec(db: Db, u: CollectionUpdate, now: string): (r: (Db, Reply))
    ensures u.id == "" ==> r == (db, BadRequest("id is required"))
    ensures u.id != "" && !IsValidCollectionId(u.id) ==> r == (db, BadRequest(InvalidId))
    ensures IsValidCollectionId(u.id) && u.id !in db.collection ==> r == (db, NotFound("collection not found"))
    ensures r.1.Saved? <==> IsValidCollectionId(u.id) && u.id in db.collection
    ensures r.1.Saved? ==>
              r.0 == db.(collection := db.collection[u.id := Merge(db.collection[u.id], UpdateFields(u, now))])
  {
    if u.id == "" then (db, BadRequest("id is required"))
    else if !IsValidCollectionId(u.id) then (db, BadRequest(InvalidId))
    else if u.id !in db.collection then (db, NotFound("collection not found"))
    else (db.(collection := db.collection[u.id := Merge(db.collection[u.id], UpdateFields(u, now))]), Saved(u.id))
  }

  /**
    An update changes only the provided fields and updatedAt: createdAt and
    every other stored field keep their values.
  */
  lemma UpdateKeepsOthers(db: Db, u: CollectionUpdate, now: string)
    requires UpdateSpec(db, u, now).1.Saved?
    ensures var old_ := db.collection[u.id];
      var new_ := UpdateSpec(db, u, now).0.collection[u.id];
      && new_["updatedAt"] == now
      && ("createdAt" in old_ ==> "createdAt" in new_ && new_["createdAt"] == old_["createdAt"])
      && (u.name.None? && "name" in old_ ==> new_["name"] == old_["name"])
      && (u.description.None? && "description" in old_ ==> new_["description"] == old_["description"])
      && (u.projects.None? && "projects" in old_ ==> new_["projects"] == old_["projects"])
      && (u.tags.None? && "tags" in old_ ==> new_["tags"] == old_["tags"])
      && new_.Keys == old_.Keys + UpdateFields(u, now).Keys
  {
  }

  /** PUT /api/collections. */
  method Update(st: Store, u: CollectionUpdate, now: string) returns (resp: Reply)
    modifies st
    ensures (st.Snapshot(), resp) == UpdateSpec(old(st.Snapshot()), u, now)
  {
    if u.id == "" {
      return BadRequest("id is required");
    }
    if !IsValidCollectionId(u.id) {
      return BadRequest(InvalidId);
    }
    if u.id !in st.collection {
      return NotFound("collection not found");
    }
    var updates: Hash := map[];
    if u.name.Some? {
      updates := updates["name" := u.name.value];
    }
    if u.description.Some? {
      updates := updates["description" := u.description.value];
    }
    if u.projects.Some? {
      updates := updates["projects" := TagsValue(u.projects.value)];
    }
    if u.tags.Some? {
      updates := updates["tags" := TagsValue(u.tags.value)];
    }
    updates := updates["updatedAt" := now];
    st.HSetCollection(u.id, updates);
    return Saved(u.id);
  }

  // ---------------------------------------------------------------------------
  // DELETE

  /** DELETE /api/collections?id=<id>; `id` is "" when the parameter is absent. */
  method Delete(st: Store, id: string) returns (resp: Reply)
    modifies st
    ensures id == "" ==> resp == BadRequest("id is required") && st.Snapshot() == old(st.Snapshot())
    ensures id != "" && !IsValidCollectionId(id) ==> resp == BadRequest(InvalidId) && st.Snapshot() == old(st.Snapshot())
    ensures IsValidCollectionId(id) ==>
              resp == Deleted && st.Snapshot() == old(st.Snapshot()).(collection := old(st.collection) - {id})
  {
    if id == "" {
      return BadRequest("id is required");
    }
    if !IsValidCollectionId(id) {
      return BadRequest(InvalidId);
    }
    st.DelCollection(id);
    return Deleted;
  }

  // ---------------------------------------------------------------------------
  // GET

  /** `s ? s.split(",").filter(Boolean) : []`. */
  function ParseList(s: string): (r: seq<string>)
    ensures forall x :: x in r ==> x != "" && ',' !in x
  {
    Filter(ReadTags(s), NonEmptyFn())
  }

  function NonEmptyFn(): string -> bool {
    (x: string) => x != ""
  }

  /** A list of non-empty, comma-free entries stored with join(",") parses back unchanged. */
  lemma ParseListJoin(xs: seq<string>)
    requires forall x :: x in xs ==> x != "" && ',' !in x
    ensures ParseList(JoinTags(xs)) == xs
  {
    if xs == [] {
      JoinEmpty(xs, ',');
    } else {
      assert xs != [""] by {
        assert xs[0] in xs;
      }
      ReadJoinTags(xs);
      FilterAll(xs, NonEmptyFn());
    }
  }

  /** One collection as GET returns it; missing timestamps are null. */
  datatype Collection = Collection(
    id: string,
    name: string,
    description: string,
    projects: seq<string>,
    tags: seq<string>,
    createdAt: Option<string>,
    updatedAt: Option<string>)

  function CollectionView(id: string, h: Hash): Collection {
    Collection(
      id,
      FieldOrEmpty(h, "name"),
      FieldOrEmpty(h, "description"),
      ParseList(FieldOrEmpty(h, "projects")),
      ParseList(FieldOrEmpty(h, "tags")),
      Field(h, "createdAt"),
      Field(h, "updatedAt"))
  }

  /** GET /api/collections over the collection ids, one entry per id in scan order. */
  function ListCollections(db: Db, ids: seq<string>): (r: seq<Collection>)
    ensures |r| == |ids|
    ensures forall i :: 0 <= i < |ids| ==> r[i].id == ids[i]
  {
    seq(|ids|, i requires 0 <= i < |ids| => CollectionView(ids[i], CollectionOf(db, ids[i])))
  }

  /**
    A collection created from arrays of non-empty, comma-free project ids and
    tags is listed with exactly those arrays, its name and description, and
    the two timestamps it was created with.
  */
  lemma CreatedReadsBack(db: Db, c: CollectionInput, createdAt: string, updatedAt: string, ps: seq<string>, ts: seq<string>)
    requires CreateSpec(db, c, createdAt, updatedAt).1.Saved?
    requires c.projects == Some(TagArray(ps)) && c.tags == Some(TagArray(ts))
    requires forall x :: x in ps ==> x != "" && ',' !in x
    requires forall x :: x in ts ==> x != "" && ',' !in x
    requires createdAt != "" && updatedAt != ""
    ensures var v := CollectionView(c.id, CollectionOf(CreateSpec(db, c, createdAt, updatedAt).0, c.id));
      && v.id == c.id && v.name == c.name && v.description == c.description
      && v.projects == ps && v.tags == ts
      && v.createdAt == Some(createdAt) && v.updatedAt == Some(updatedAt)
  {
    ParseListJoin(ps);
    ParseListJoin(ts);
  }
}
