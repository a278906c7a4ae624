/**
  The Redis database the routes share, reduced to the four key families they
  use: `link:<slug>` (a string, the redirect target), `meta:<slug>` (a hash of
  string fields), `count:<slug>` (the click counter) and `collection:<id>`
  (a hash). A hash write merges: the given fields overwrite and every other
  field survives. A missing hash reads as the empty object, as hGetAll does.
*/
module KeyValueStore {
  import opened Strings
  import opened Wrappers

  type Hash = map<string, string>

  /** The whole database as a value, so handler specifications can be functions. */
  datatype Db = Db(
    link: map<string, string>,
    meta: map<string, Hash>,
    count: map<string, nat>,
    collection: map<string, Hash>)

  /**
    The two clock readings a sync takes for a new record: the createdAt it
    stores in the meta hash and the createdAt of the item it returns. They
    are separate `new Date()` calls, so they differ when the clock moves.
  */
  datatype Readings = Readings(stored: string, returned: string)

  /** hSet(key, fields) applied to the hash h that key held. */
  function Merge(h: Hash, fields: Hash): (r: Hash)
    ensures r.Keys == h.Keys + fields.Keys
    ensures forall f :: f in fields ==> r[f] == fields[f]
    ensures forall f :: f in h && f !in fields ==> r[f] == h[f]
  {
    h + fields
  }

  /** Writing every field a hash already has (and possibly more) leaves exactly the written fields. */
  lemma MergeCovering(h: Hash, fields: Hash)
    requires h.Keys <= fields.Keys
    ensures Merge(h, fields) == fields
  {
    var r := Merge(h, fields);
    assert r.Keys == fields.Keys;
  }

  /** hGetAll on a meta key. */
  function MetaOf(db: Db, slug: string): (h: Hash)
    ensures slug in db.meta ==> h == db.meta[slug]
    ensures slug !in db.meta ==> h == map[]
  {
    if slug in db.meta then db.meta[slug] else map[]
  }

  /** hGetAll on a collection key. */
  function CollectionOf(db: Db, id: string): (h: Hash)
    ensures id in db.collection ==> h == db.collection[id]
    ensures id !in db.collection ==> h == map[]
  {
    if id in db.collection then db.collection[id] else map[]
  }

  /** Number(get(`count:<slug>`) || 0). */
  function ClicksOf(db: Db, slug: string): (n: nat)
    ensures slug in db.count ==> n == db.count[slug]
    ensures slug !in db.count ==> n == 0
  {
    if slug in db.count then db.count[slug] else 0
  }

  /** `h[f] || null`: a field that is absent or empty reads as null. */
  function Field(h: Hash, f: string): (r: Option<string>)
    ensures r.Some? <==> f in h && h[f] != ""
    ensures r.Some? ==> r.value == h[f]
  {
    if f in h then NonEmpty(h[f]) else None
  }

  /** `h[f] || ""`. */
  function FieldOrEmpty(h: Hash, f: string): (r: string)
    ensures f in h ==> r == h[f]
    ensures f !in h ==> r == ""
  {
    if f in h then h[f] else ""
  }

  // ---------------------------------------------------------------------------
  // The comma-joined tag list

  /** tags.join(","): how every writer stores a tag array. */
  function JoinTags(tags: seq<string>): string {
    Join(tags, ',')
  }

  /**
    A list-valued member of a request body: an array, joined with "," when
    stored, or a plain string stored as given ("" when absent or falsy).
  */
  datatype TagsInput = TagArray(items: seq<string>) | TagText(text: string)

  /** `Array.isArray(v) ? v.join(",") : v`. */
  function TagsValue(t: TagsInput): (s: string)
    ensures t.TagArray? ==> s == JoinTags(t.items)
    ensures t.TagText? ==> s == t.text
  {
    match t
    case TagArray(items) => JoinTags(items)
    case TagText(text) => text
  }

  /** `s ? s.split(",") : []`: how every reader parses a stored tag list. */
  function ReadTags(s: string): (r: seq<string>)
    ensures s == "" ==> r == []
    ensures s != "" ==> |r| >= 1 && Join(r, ',') == s
    ensures forall t :: t in r ==> ',' !in t
  {
    if s == "" then []
    else
      JoinSplit(s, ',');
      Split(s, ',')
  }

  /** The tags field of a hash, parsed. */
  function TagsOf(h: Hash): (r: seq<string>)
    ensures "tags" !in h ==> r == []
    ensures "tags" in h ==> r == ReadTags(h["tags"])
  {
    ReadTags(FieldOrEmpty(h, "tags"))
  }

  /**
    A tag array written with join(",") reads back as the same array exactly
    when no tag holds a comma and the array is not [""] (which is written as
    "" and reads back as []).
  */
  lemma ReadJoinTags(tags: seq<string>)
    requires NoneContains(tags, ',')
    ensures ReadTags(JoinTags(tags)) == tags <==> tags != [""]
  {
    JoinEmpty(tags, ',');
    if |tags| > 0 && tags != [""] {
      SplitJoin(tags, ',');
    }
  }

  // ---------------------------------------------------------------------------
  // The store object

  class Store {
    var link: map<string, string>
    var meta: map<string, Hash>
    var count: map<string, nat>
    var collection: map<string, Hash>

    function Snapshot(): Db
      reads this
    {
      Db(link, meta, count, collection)
    }

    constructor ()
      ensures Snapshot() == Db(map[], map[], map[], map[])
    {
      link := map[];
      meta := map[];
      count := map[];
      collection := map[];
    }

    /** set(`link:<slug>`, target). */
    method SetLink(slug: string, target: string)
      modifies this
      ensures Snapshot() == old(Snapshot()).(link := old(link)[slug := target])
    {
      link := link[slug := target];
    }

    /** hSet(`meta:<slug>`, fields). */
    method HSetMeta(slug: string, fields: Hash)
      modifies this
      ensures Snapshot() == old(Snapshot()).(meta := old(meta)[slug := Merge(MetaOf(old(Snapshot()), slug), fields)])
    {
      meta := meta[slug := Merge(MetaOf(Snapshot(), slug), fields)];
    }

    /** hSet(`collection:<id>`, fields). */
    method HSetCollection(id: string, fields: Hash)
      modifies this
      ensures Snapshot() == old(Snapshot()).(collection := old(collection)[id := Merge(CollectionOf(old(Snapshot()), id), fields)])
    {
      collection := collection[id := Merge(CollectionOf(Snapshot(), id), fields)];
    }

    /** del on the three keys of one slug; each count is 1 when that key existed. */
    method DelSlug(slug: string) returns (links: nat, counts: nat, metas: nat)
      modifies this
      ensures links == (if slug in old(link) then 1 else 0)
      ensures counts == (if slug in old(count) then 1 else 0)
      ensures metas == (if slug in old(meta) then 1 else 0)
      ensures Snapshot() == old(Snapshot()).(link := old(link) - {slug}, count := old(count) - {slug}, meta := old(meta) - {slug})
    {
      links := if slug in link then 1 else 0;
      counts := if slug in count then 1 else 0;
      metas := if slug in meta then 1 else 0;
      link := link - {slug};
      count := count - {slug};
      meta := meta - {slug};
    }

    /** del(`collection:<id>`). */
    method DelCollection(id: string)
      modifies this
      ensures Snapshot() == old(Snapshot()).(collection := old(collection) - {id})
    {
      collection := collection - {id};
    }
  }
}
