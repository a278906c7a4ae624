/**
  The /api/links route: bulk create (POST), single upsert (PUT), lookup and
  filtered, newest-first, paginated listing (GET), metadata merge (PATCH) and
  single or bulk delete (DELETE). Each handler is a method over the shared
  Store, proved against a specification function on Db values.
*/
module LinksApi {
  import opened Strings
  import opened Seqs
  import opened Wrappers
  import opened KeyValueStore

  // ---------------------------------------------------------------------------
  // Keys and validation

  /** slug.toLowerCase().replace(/^\//, ""): lower-cased, one leading slash dropped. */
  function SlugKey(slug: string): (k: string)
    ensures |k| <= |slug|
    ensures StartsWith(slug, "/") ==> Lower(slug) == "/" + k
    ensures !StartsWith(slug, "/") ==> k == Lower(slug)
  {
    var l := Lower(slug);
    if |l| > 0 && l[0] == '/' then l[1..] else l
  }

  /** Normalising a key again changes it exactly when the slug began with "//". */
  lemma SlugKeyIdempotent(slug: string)
    ensures SlugKey(SlugKey(slug)) == SlugKey(slug) <==> !StartsWith(slug, "//")
  {
    LowerIdempotent(slug);
    var l := Lower(slug);
    if StartsWith(slug, "//") {
      assert l[0] == '/' && l[1] == '/';
      assert |SlugKey(SlugKey(slug))| < |SlugKey(slug)|;
    } else if |slug| > 0 && slug[0] == '/' {
      var k := l[1..];
      assert Lower(k) == k;
      assert |k| > 0 ==> k[0] != '/' by {
        if |k| > 0 {
          assert slug[1] != '/';
          assert k[0] == LowerChar(slug[1]);
        }
      }
    } else {
      assert Lower(l) == l;
      assert |l| > 0 ==> l[0] == LowerChar(slug[0]);
    }
  }

  /** /^https?:\/\//i: the target begins with http:// or https://, in any letter case. */
  predicate ValidTarget(t: string) {
    StartsWith(Lower(t), "http://") || StartsWith(Lower(t), "https://")
  }

  /** The check ignores letter case: a target and its lower-cased form are judged alike. */
  lemma ValidTargetIgnoresCase(t: string)
    ensures ValidTarget(t) <==> ValidTarget(Lower(t))
  {
    LowerIdempotent(t);
  }

  /** A valid target is at least as long as "http://" and carries its scheme separator. */
  lemma ValidTargetShape(t: string)
    requires ValidTarget(t)
    ensures |t| >= 7
    ensures t[4] == ':' || t[5] == ':'
  {
    var l := Lower(t);
    if StartsWith(l, "http://") {
      assert l[4] == ':';
      assert LowerChar(t[4]) == ':';
    } else {
      assert l[5] == ':';
      assert LowerChar(t[5]) == ':';
    }
  }

  // ---------------------------------------------------------------------------
  // Request bodies

  /**
    `if (tags) metadata.tags = Array.isArray(tags) ? tags.join(",") : tags`:
    an array is always written (even an empty one), a string only when non-empty.
  */
  function TagsToWrite(t: TagsInput): (r: Option<string>)
    ensures t.TagArray? ==> r == Some(JoinTags(t.items))
    ensures t.TagText? ==> r == NonEmpty(t.text)
  {
    match t
    case TagArray(items) => Some(JoinTags(items))
    case TagText(text) => NonEmpty(text)
  }

  /** One link of a POST body, or the whole PUT body; absent strings are "". */
  datatype LinkInput = LinkInput(
    slug: string,
    target: string,
    permanent: bool,
    title: string,
    description: string,
    tags: TagsInput)

  /** The per-link validation of lines 25-32 and 67-76: the error message, if any. */
  function Rejection(l: LinkInput): (e: Option<string>)
    ensures e.None? <==> l.slug != "" && l.target != "" && ValidTarget(l.target)
  {
    if l.slug == "" || l.target == "" then Some("slug and target required")
    else if !ValidTarget(l.target) then Some("target must start with http(s)://")
    else None
  }

  /** The metadata hash a create writes: permanent flag, timestamp, and each truthy field. */
  function NewMeta(l: LinkInput, now: string): (m: Hash)
    ensures "permanent" in m && m["permanent"] == (if l.permanent then "1" else "0")
    ensures "createdAt" in m && m["createdAt"] == now
    ensures "title" in m <==> l.title != ""
    ensures "title" in m ==> m["title"] == l.title
    ensures "description" in m <==> l.description != ""
    ensures "description" in m ==> m["description"] == l.description
    ensures "tags" in m <==> TagsToWrite(l.tags).Some?
    ensures "tags" in m ==> m["tags"] == TagsToWrite(l.tags).value
    ensures m.Keys <= {"permanent", "createdAt", "title", "description", "tags"}
  {
    var base := map["permanent" := if l.permanent then "1" else "0", "createdAt" := now];
    var withTitle := if l.title != "" then base["title" := l.title] else base;
    var withDesc := if l.description != "" then withTitle["description" := l.description] else withTitle;
    match TagsToWrite(l.tags)
    case Some(t) => withDesc["tags" := t]
    case None => withDesc
  }

  /** set(`link:<key>`, target) followed by hSet(`meta:<key>`, NewMeta). */
  function WriteLink(db: Db, l: LinkInput, now: string): (d: Db)
  {
    var k := SlugKey(l.slug);
    db.(link := db.link[k := l.target], meta := db.meta[k := Merge(MetaOf(db, k), NewMeta(l, now))])
  }

  /**
    What a valid write does to the store: the target is set, the flag and the
    timestamp are replaced, a stored title, description or tags field that
    the request leaves falsy survives, and no other key changes.
  */
  lemma WriteLinkEffect(db: Db, l: LinkInput, now: string)
    ensures var d := WriteLink(db, l, now); var k := SlugKey(l.slug);
      && d.link == db.link[k := l.target]
      && d.meta.Keys == db.meta.Keys + {k}
      && (forall s :: s in db.meta && s != k ==> d.meta[s] == db.meta[s])
      && d.count == db.count && d.collection == db.collection
      && d.meta[k]["createdAt"] == now
      && d.meta[k]["permanent"] == (if l.permanent then "1" else "0")
      && (forall f :: f in MetaOf(db, k) && f !in {"permanent", "createdAt", "title", "description", "tags"}
            ==> d.meta[k][f] == MetaOf(db, k)[f])
      && (l.title == "" && "title" in MetaOf(db, k) ==> d.meta[k]["title"] == MetaOf(db, k)["title"])
      && (l.description == "" && "description" in MetaOf(db, k) ==> d.meta[k]["description"] == MetaOf(db, k)["description"])
      && (TagsToWrite(l.tags).None? && "tags" in MetaOf(db, k) ==> d.meta[k]["tags"] == MetaOf(db, k)["tags"])
  {
  }

  // ---------------------------------------------------------------------------
  // POST: bulk create

  datatype PostResult =
    | Rejected(slug: string, error: string)
    | Created(key: string, short: string, target: string,
              title: Option<string>, description: Option<string>, tags: Option<string>)

  /** The result reported for a link that was written. */
  function CreatedResult(l: LinkInput, now: string, origin: string): (r: PostResult)
    ensures r.Created? && r.key == SlugKey(l.slug) && r.target == l.target
    ensures r.short == origin + "/" + SlugKey(l.slug)
  {
    var k := SlugKey(l.slug);
    var m := NewMeta(l, now);
    Created(k, origin + "/" + k, l.target,
      if "title" in m then Some(m["title"]) else None,
      if "description" in m then Some(m["description"]) else None,
      if "tags" in m then Some(m["tags"]) else None)
  }

  /** One iteration of the POST loop. */
  function PostStep(db: Db, l: LinkInput, now: string, origin: string): (Db, PostResult) {
    match Rejection(l)
    case Some(e) => (db, Rejected(l.slug, e))
    case None => (WriteLink(db, l, now), CreatedResult(l, now, origin))
  }

  /** One POST step rejects exactly an invalid link and otherwise adds its link and meta keys, nothing else. */
  lemma PostStepFrame(db: Db, l: LinkInput, now: string, origin: string)
    ensures var r := PostStep(db, l, now, origin);
      var added := if Rejection(l).None? then {SlugKey(l.slug)} else {};
      && (r.1.Rejected? <==> Rejection(l).Some?)
      && (r.1.Created? ==> r.1.key == SlugKey(l.slug))
      && r.0.link.Keys == db.link.Keys + added
      && r.0.meta.Keys == db.meta.Keys + added
      && r.0.count == db.count && r.0.collection == db.collection
  {
  }

  /** The keys the valid links of a POST body write. */
  function WrittenKeys(links: seq<LinkInput>): set<string>
    decreases |links|
  {
    if links == [] then {}
    else
      var l := links[|links| - 1];
      WrittenKeys(links[..|links| - 1]) + (if Rejection(l).None? then {SlugKey(l.slug)} else {})
  }

  /**
    The POST loop over the links in order, as a fold of PostStep. Each
    iteration reads the clock afresh: link i is stamped with clock(i).
  */
  function PostSpec(db: Db, links: seq<LinkInput>, clock: nat -> string, origin: string): (Db, seq<PostResult>)
    decreases |links|
  {
    if links == [] then (db, [])
    else
      var prev := PostSpec(db, links[..|links| - 1], clock, origin);
      var step := PostStep(prev.0, links[|links| - 1], clock(|links| - 1), origin);
      (step.0, prev.1 + [step.1])
  }

  /** The POST loop reports one result per link, rejected exactly where validation fails. */
  lemma {:induction false} PostSpecResults(db: Db, links: seq<LinkInput>, clock: nat -> string, origin: string)
    ensures var r := PostSpec(db, links, clock, origin);
      && |r.1| == |links|
      && (forall i :: 0 <= i < |links| ==> (r.1[i].Rejected? <==> Rejection(links[i]).Some?))
      && (forall i :: 0 <= i < |links| && r.1[i].Created? ==> r.1[i].key == SlugKey(links[i].slug))
    decreases |links|
  {
    if links != [] {
      var init, l := links[..|links| - 1], links[|links| - 1];
      var now := clock(|links| - 1);
      var prev := PostSpec(db, init, clock, origin);
      var step := PostStep(prev.0, l, now, origin);
      var r := PostSpec(db, links, clock, origin);
      assert r == (step.0, prev.1 + [step.1]);
      PostSpecResults(db, init, clock, origin);
      PostStepFrame(prev.0, l, now, origin);
      forall i | 0 <= i < |links|
        ensures (r.1[i].Rejected? <==> Rejection(links[i]).Some?)
        ensures r.1[i].Created? ==> r.1[i].key == SlugKey(links[i].slug)
      {
        if i < |init| {
          assert r.1[i] == prev.1[i] && links[i] == init[i];
        } else {
          assert r.1[i] == step.1 && links[i] == l;
        }
      }
    }
  }

  /**
    The POST loop adds link and meta keys exactly for the valid links and
    leaves counters and collections untouched.
  */
  lemma {:induction false} PostSpecKeys(db: Db, links: seq<LinkInput>, clock: nat -> string, origin: string)
    ensures var r := PostSpec(db, links, clock, origin);
      && r.0.link.Keys == db.link.Keys + WrittenKeys(links)
      && r.0.meta.Keys == db.meta.Keys + WrittenKeys(links)
      && r.0.count == db.count && r.0.collection == db.collection
    decreases |links|
  {
    if links != [] {
      var init, l := links[..|links| - 1], links[|links| - 1];
      var prev := PostSpec(db, init, clock, origin);
      var now := clock(|links| - 1);
      assert PostSpec(db, links, clock, origin).0 == PostStep(prev.0, l, now, origin).0;
      PostSpecKeys(db, init, clock, origin);
      PostStepFrame(prev.0, l, now, origin);
      assert WrittenKeys(links) == WrittenKeys(init) + (if Rejection(l).None? then {SlugKey(l.slug)} else {});
    }
  }

  /** The loop after one more link is the loop so far followed by that link's step. */
  lemma PostSpecStep(db: Db, links: seq<LinkInput>, i: nat, clock: nat -> string, origin: string)
    requires i < |links|
    ensures var prev := PostSpec(db, links[..i], clock, origin);
      var step := PostStep(prev.0, links[i], clock(i), origin);
      PostSpec(db, links[..i + 1], clock, origin) == (step.0, prev.1 + [step.1])
  {
    assert links[..i + 1][..i] == links[..i];
  }

  datatype PostResponse = PostBadRequest(error: string) | PostResults(results: seq<PostResult>)

  /** The POST loop body for one link. */
  method PostOne(st: Store, l: LinkInput, now: string, origin: string) returns (result: PostResult)
    modifies st
    ensures (st.Snapshot(), result) == PostStep(old(st.Snapshot()), l, now, origin)
  {
    var err := Rejection(l);
    if err.Some? {
      result := Rejected(l.slug, err.value);
    } else {
      var key := SlugKey(l.slug);
      st.SetLink(key, l.target);
      st.HSetMeta(key, NewMeta(l, now));
      result := CreatedResult(l, now, origin);
    }
  }

  /**
    POST /api/links. `links` is None when the body has no links array;
    clock(i) is the ISO reading taken while link i is written.
  */
  method Post(st: Store, links: Option<seq<LinkInput>>, clock: nat -> string, origin: string) returns (resp: PostResponse)
    modifies st
    ensures links.None? ==> resp == PostBadRequest("links array required") && st.Snapshot() == old(st.Snapshot())
    ensures links.Some? ==>
      var spec := PostSpec(old(st.Snapshot()), links.value, clock, origin);
      resp == PostResults(spec.1) && st.Snapshot() == spec.0
  {
    if links.None? {
      return PostBadRequest("links array required");
    }
    var ls := links.value;
    ghost var db0 := st.Snapshot();
    var results: seq<PostResult> := [];
    var i := 0;
    while i < |ls|
      invariant 0 <= i <= |ls|
      invariant (st.Snapshot(), results) == PostSpec(db0, ls[..i], clock, origin)
    {
      PostSpecStep(db0, ls, i, clock, origin);
      var result := PostOne(st, ls[i], clock(i), origin);
      results := results + [result];
      i := i + 1;
    }
    assert ls[..|ls|] == ls;
    return PostResults(results);
  }

  // ---------------------------------------------------------------------------
  // PUT: single upsert

  datatype PutResponse = PutBadRequest(error: string) | PutOk(result: PostResult)

  /** PUT /api/links: the POST step for one link, with validation failures as 400. */
  method Put(st: Store, l: LinkInput, now: string, origin: string) returns (resp: PutResponse)
    modifies st
    ensures Rejection(l).Some? ==> resp == PutBadRequest(Rejection(l).value) && st.Snapshot() == old(st.Snapshot())
    ensures Rejection(l).None? ==>
      resp == PutOk(CreatedResult(l, now, origin)) && st.Snapshot() == WriteLink(old(st.Snapshot()), l, now)
  {
    var err := Rejection(l);
    if err.Some? {
      return PutBadRequest(err.value);
    }
    var key := SlugKey(l.slug);
    st.SetLink(key, l.target);
    st.HSetMeta(key, NewMeta(l, now));
    return PutOk(CreatedResult(l, now, origin));
  }

  // ---------------------------------------------------------------------------
  // GET: lookup and listing

  /** The metadata object every reader builds from a meta hash. */
  datatype EntryMeta = EntryMeta(
    permanent: bool,
    title: Option<string>,
    description: Option<string>,
    tags: seq<string>,
    createdAt: Option<string>)

  function MetaView(h: Hash): (m: EntryMeta)
    ensures m.permanent <==> "permanent" in h && h["permanent"] == "1"
    ensures m.title == Field(h, "title") && m.description == Field(h, "description")
    ensures m.tags == TagsOf(h)
    ensures m.createdAt == Field(h, "createdAt")
  {
    EntryMeta(
      "permanent" in h && h["permanent"] == "1",
      Field(h, "title"),
      Field(h, "description"),
      TagsOf(h),
      Field(h, "createdAt"))
  }

  /** A comma-free tag array stored by POST or PUT is listed back unchanged. */
  lemma StoredTagsReadBack(db: Db, l: LinkInput, now: string)
    requires Rejection(l).None? && l.tags.TagArray?
    requires NoneContains(l.tags.items, ',') && l.tags.items != [""]
    ensures MetaView(WriteLink(db, l, now).meta[SlugKey(l.slug)]).tags == l.tags.items
  {
    ReadJoinTags(l.tags.items);
  }

  datatype SingleView = SingleView(slug: string, target: Option<string>, clicks: nat, metadata: Option<EntryMeta>)

  /** GET ?slug=: the slug is lower-cased (no slash stripping); metadata only for a truthy target. */
  function GetSingle(db: Db, slugParam: string): (v: SingleView)
    ensures v.slug == Lower(slugParam)
    ensures v.target.Some? <==> v.slug in db.link
    ensures v.target.Some? ==> v.target.value == db.link[v.slug]
    ensures v.clicks == ClicksOf(db, v.slug)
    ensures v.metadata.Some? <==> v.slug in db.link && db.link[v.slug] != ""
    ensures v.metadata.Some? ==> v.metadata.value == MetaView(MetaOf(db, v.slug))
  {
    var s := Lower(slugParam);
    var target := if s in db.link then Some(db.link[s]) else None;
    var metadata := if s in db.link && db.link[s] != "" then Some(MetaView(MetaOf(db, s))) else None;
    SingleView(s, target, ClicksOf(db, s), metadata)
  }

  datatype LinkEntry = LinkEntry(slug: string, target: string, clicks: nat, metadata: EntryMeta)

  function EntryOf(db: Db, slug: string): (e: LinkEntry)
    ensures e.slug == slug && e.clicks == ClicksOf(db, slug)
    ensures e.metadata == MetaView(MetaOf(db, slug))
    ensures slug in db.link ==> e.target == db.link[slug]
  {
    LinkEntry(slug, if slug in db.link then db.link[slug] else "", ClicksOf(db, slug), MetaView(MetaOf(db, slug)))
  }

  /** The entries built for the scanned slugs, in scan order. */
  function Entries(db: Db, keys: seq<string>): (es: seq<LinkEntry>)
    ensures |es| == |keys|
    ensures forall i :: 0 <= i < |keys| ==> es[i] == EntryOf(db, keys[i])
  {
    seq(|keys|, i requires 0 <= i < |keys| => EntryOf(db, keys[i]))
  }

  /** The listing's query parameters; absent strings are "", absent numbers None. */
  datatype ListQuery = ListQuery(tag: string, source: string, search: string, limit: Option<nat>, offset: Option<nat>)

  /** `Math.min(parseInt(limit || "50"), 200)`: 50 when absent, the given size capped at 200. */
  function ListLimit(q: ListQuery): (n: nat)
    ensures n <= 200
    ensures q.limit.None? ==> n == 50
    ensures q.limit.Some? && q.limit.value <= 200 ==> n == q.limit.value
    ensures q.limit.Some? && q.limit.value > 200 ==> n == 200
  {
    var l := q.limit.GetOr(50);
    if l < 200 then l else 200
  }

  /** The search filter of lines 162-174 on one entry. */
  predicate MatchesSearch(e: LinkEntry, search: string) {
    (e.metadata.title.Some? && ContainsCI(e.metadata.title.value, search))
    || (e.metadata.description.Some? && ContainsCI(e.metadata.description.value, search))
    || (exists t :: t in e.metadata.tags && ContainsCI(t, search))
  }

  /** The three filters of lines 160-174; an absent parameter does not filter. */
  predicate Matches(q: ListQuery, e: LinkEntry) {
    && (q.tag == "" || q.tag in e.metadata.tags)
    && (q.source == "" || StartsWith(e.slug, q.source + "-"))
    && (q.search == "" || MatchesSearch(e, q.search))
  }

  function MatchesFn(q: ListQuery): LinkEntry -> bool {
    (e: LinkEntry) => Matches(q, e)
  }

  /** new Date(createdAt || 0).getTime(), with the date parser given as timeOf. */
  function CreatedTime(timeOf: string -> int, m: EntryMeta): int {
    match m.createdAt
    case None => 0
    case Some(c) => timeOf(c)
  }

  function EntryTime(timeOf: string -> int): LinkEntry -> int {
    (e: LinkEntry) => CreatedTime(timeOf, e.metadata)
  }

  /** The scanned entries that pass the filters, in scan order. */
  function Selected(db: Db, keys: seq<string>, q: ListQuery): (r: seq<LinkEntry>)
    ensures |r| <= |keys|
  {
    Filter(Entries(db, keys), MatchesFn(q))
  }

  /** Scanning one more key appends its entry when it passes the filters. */
  lemma SelectedSnoc(db: Db, keys: seq<string>, q: ListQuery, i: nat)
    requires i < |keys|
    ensures var e := EntryOf(db, keys[i]);
      Selected(db, keys[..i + 1], q) == Selected(db, keys[..i], q) + if Matches(q, e) then [e] else []
  {
    var e := EntryOf(db, keys[i]);
    assert Entries(db, keys[..i + 1]) == Entries(db, keys[..i]) + [e];
    FilterAppend(Entries(db, keys[..i]), [e], MatchesFn(q));
    assert Filter([e], MatchesFn(q)) == if Matches(q, e) then [e] else [] by {
      assert [e][..0] == [];
    }
  }

  /** An entry is selected exactly when it is the entry of a stored link and passes the filters. */
  lemma SelectedIff(db: Db, keys: seq<string>, q: ListQuery, e: LinkEntry)
    requires forall s :: s in keys <==> s in db.link
    ensures e in Selected(db, keys, q) <==> e.slug in db.link && e == EntryOf(db, e.slug) && Matches(q, e)
  {
    var es := Entries(db, keys);
    if e in es {
      var i :| 0 <= i < |es| && es[i] == e;
      assert keys[i] == e.slug;
    }
    if e.slug in db.link && e == EntryOf(db, e.slug) {
      var i :| 0 <= i < |keys| && keys[i] == e.slug;
      assert es[i] == e;
    }
  }

  /** All selected entries, newest first (Array.prototype.sort on createdAt, missing = 0). */
  function Matching(db: Db, keys: seq<string>, q: ListQuery, timeOf: string -> int): (r: seq<LinkEntry>)
    ensures multiset(r) == multiset(Selected(db, keys, q))
    ensures forall i, j :: 0 <= i < j < |r| ==> CreatedTime(timeOf, r[i].metadata) >= CreatedTime(timeOf, r[j].metadata)
  {
    var all := Selected(db, keys, q);
    SortByKeyDesc(all, EntryTime(timeOf));
    Sort(all, ByKeyDesc(EntryTime(timeOf)))
  }

  /**
    The listing before paging holds exactly the entries of the stored links
    that pass every active filter.
  */
  lemma MatchingExactly(db: Db, keys: seq<string>, q: ListQuery, timeOf: string -> int, e: LinkEntry)
    requires forall s :: s in keys <==> s in db.link
    ensures e in Matching(db, keys, q, timeOf) <==> e.slug in db.link && e == EntryOf(db, e.slug) && Matches(q, e)
  {
    SelectedIff(db, keys, q, e);
    var m := Matching(db, keys, q, timeOf);
    assert e in m <==> e in multiset(m);
    assert e in Selected(db, keys, q) <==> e in multiset(Selected(db, keys, q));
  }

  datatype ListResponse = ListResponse(links: seq<LinkEntry>, total: nat, limit: nat, offset: nat, hasMore: bool)

  /** The page of the newest-first listing that GET returns. */
  function ListSpec(db: Db, keys: seq<string>, q: ListQuery, timeOf: string -> int): (r: ListResponse)
    ensures r.total == |Matching(db, keys, q, timeOf)|
    ensures r.limit == ListLimit(q) && r.offset == q.offset.GetOr(0)
    ensures r.links == Page(Matching(db, keys, q, timeOf), r.offset, r.limit)
    ensures |r.links| <= r.limit
    ensures r.hasMore <==> r.offset + r.limit < r.total
  {
    var all := Matching(db, keys, q, timeOf);
    var limit := ListLimit(q);
    var offset := q.offset.GetOr(0);
    ListResponse(Page(all, offset, limit), |all|, limit, offset, offset + limit < |all|)
  }

  /**
    GET /api/links without a slug: scan the link keys (given as `keys`, the
    result of `keys("link:*")`), build each entry, keep those passing the
    filters, sort newest first and cut the page. The loop meets ListSpec for
    any `keys`; MatchingExactly says what the listing holds when `keys`
    enumerates the link key space.
  */
  method List(st: Store, keys: seq<string>, q: ListQuery, timeOf: string -> int) returns (resp: ListResponse)
    ensures resp == ListSpec(st.Snapshot(), keys, q, timeOf)
  {
    var db := st.Snapshot();
    var limit := ListLimit(q);
    var offset := q.offset.GetOr(0);
    var results: seq<LinkEntry> := [];
    var i := 0;
    while i < |keys|
      invariant 0 <= i <= |keys|
      invariant results == Selected(db, keys[..i], q)
    {
      var entry := EntryOf(db, keys[i]);
      SelectedSnoc(db, keys, q, i);
      if Matches(q, entry) {
        results := results + [entry];
      }
      i := i + 1;
    }
    assert keys[..|keys|] == keys;
    results := Sort(results, ByKeyDesc(EntryTime(timeOf)));
    resp := ListResponse(Page(results, offset, limit), |results|, limit, offset, offset + limit < |results|);
  }

  // ---------------------------------------------------------------------------
  // PATCH: merge updates into existing metadata

  /** The updates object: a field is None when undefined; `target` is "" when falsy. */
  datatype Updates = Updates(
    title: Option<string>,
    description: Option<string>,
    tags: Option<TagsInput>,
    permanent: Option<bool>,
    target: string)

  /** { ...existing } with each defined update written over it. */
  function Patched(h: Hash, u: Updates): (m: Hash)
    ensures m.Keys == h.Keys
      + (if u.title.Some? then {"title"} else {})
      + (if u.description.Some? then {"description"} else {})
      + (if u.tags.Some? then {"tags"} else {})
      + (if u.permanent.Some? then {"permanent"} else {})
    ensures u.title.Some? ==> m["title"] == u.title.value
    ensures u.description.Some? ==> m["description"] == u.description.value
    ensures u.tags.Some? ==> m["tags"] == TagsValue(u.tags.value)
    ensures u.permanent.Some? ==> m["permanent"] == (if u.permanent.value then "1" else "0")
    ensures forall f :: f in h && f !in {"title", "description", "tags", "permanent"} ==> m[f] == h[f]
    ensures u.title.None? && "title" in h ==> m["title"] == h["title"]
    ensures u.description.None? && "description" in h ==> m["description"] == h["description"]
    ensures u.tags.None? && "tags" in h ==> m["tags"] == h["tags"]
    ensures u.permanent.None? && "permanent" in h ==> m["permanent"] == h["permanent"]
  {
    var a := if u.title.Some? then h["title" := u.title.value] else h;
    var b := if u.description.Some? then a["description" := u.description.value] else a;
    var c := if u.tags.Some? then b["tags" := TagsValue(u.tags.value)] else b;
    if u.permanent.Some? then c["permanent" := if u.permanent.value then "1" else "0"] else c
  }

  datatype PatchResult = NotFound(slug: string) | Updated(key: string, metadata: EntryMeta)

  /** One iteration of the PATCH loop. */
  function PatchStep(db: Db, slug: string, u: Updates): (Db, PatchResult) {
    var k := SlugKey(slug);
    var h := MetaOf(db, k);
    if |h| == 0 then (db, NotFound(slug))
    else
      var updated := Patched(h, u);
      var db1 := if u.target != "" then db.(link := db.link[k := u.target]) else db;
      (db1.(meta := db1.meta[k := Merge(h, updated)]), Updated(k, MetaView(updated)))
  }

  /**
    A missing or empty meta hash is reported as not found and nothing
    changes; otherwise the stored hash becomes exactly the patched hash (the
    hSet merge adds nothing the patch does not already hold) and the target
    is replaced only when a new one is given.
  */
  lemma PatchStepEffect(db: Db, slug: string, u: Updates)
    ensures var k := SlugKey(slug); var r := PatchStep(db, slug, u);
      |MetaOf(db, k)| == 0 ==> r == (db, NotFound(slug))
    ensures var k := SlugKey(slug); var h := MetaOf(db, k); var r := PatchStep(db, slug, u);
      |h| > 0 ==>
        && r.1 == Updated(k, MetaView(Patched(h, u)))
        && r.0.meta == db.meta[k := Patched(h, u)]
        && r.0.link == (if u.target != "" then db.link[k := u.target] else db.link)
        && r.0.count == db.count && r.0.collection == db.collection
  {
    var k := SlugKey(slug);
    var h := MetaOf(db, k);
    if |h| > 0 {
      MergeCovering(h, Patched(h, u));
    }
  }

  /** A patch keeps the creation time and never touches counters or collections. */
  lemma PatchKeepsCreatedAt(db: Db, slug: string, u: Updates)
    requires var h := MetaOf(db, SlugKey(slug)); |h| > 0 && "createdAt" in h
    ensures var d := PatchStep(db, slug, u).0; var k := SlugKey(slug);
      d.meta[k]["createdAt"] == db.meta[k]["createdAt"] && d.count == db.count
  {
    PatchStepEffect(db, slug, u);
  }

  /** One patch step keeps the set of meta keys, counters and collections, and reports its slug. */
  lemma PatchStepFrame(db: Db, slug: string, u: Updates)
    ensures var r := PatchStep(db, slug, u);
      && r.0.count == db.count && r.0.collection == db.collection
      && r.0.meta.Keys == db.meta.Keys
      && (u.target == "" ==> r.0.link == db.link)
      && (r.1.Updated? ==> r.1.key == SlugKey(slug))
      && (r.1.NotFound? ==> r.1.slug == slug)
  {
    var k := SlugKey(slug);
    PatchStepEffect(db, slug, u);
    if |MetaOf(db, k)| > 0 {
      assert k in db.meta;
    }
  }

  function PatchSpec(db: Db, slugs: seq<string>, u: Updates): (r: (Db, seq<PatchResult>))
    ensures |r.1| == |slugs|
    ensures forall i :: 0 <= i < |slugs| && r.1[i].Updated? ==> r.1[i].key == SlugKey(slugs[i])
    ensures forall i :: 0 <= i < |slugs| && r.1[i].NotFound? ==> r.1[i].slug == slugs[i]
    ensures r.0.count == db.count && r.0.collection == db.collection
    ensures r.0.meta.Keys == db.meta.Keys
    ensures u.target == "" ==> r.0.link == db.link
    decreases |slugs|
  {
    if slugs == [] then (db, [])
    else
      var prev := PatchSpec(db, slugs[..|slugs| - 1], u);
      var step := PatchStep(prev.0, slugs[|slugs| - 1], u);
      PatchStepFrame(prev.0, slugs[|slugs| - 1], u);
      (step.0, prev.1 + [step.1])
  }

  datatype PatchResponse = PatchBadRequest(error: string) | PatchResults(results: seq<PatchResult>)

  /** The PATCH loop body for one slug. */
  method PatchOne(st: Store, slug: string, u: Updates) returns (result: PatchResult)
    modifies st
    ensures (st.Snapshot(), result) == PatchStep(old(st.Snapshot()), slug, u)
  {
    var key := SlugKey(slug);
    var existing := MetaOf(st.Snapshot(), key);
    if |existing| == 0 {
      result := NotFound(slug);
    } else {
      var updated := Patched(existing, u);
      if u.target != "" {
        st.SetLink(key, u.target);
      }
      st.HSetMeta(key, updated);
      result := Updated(key, MetaView(updated));
    }
  }

  /** PATCH /api/links. `slugs` is None when not an array, `updates` None when falsy. */
  method Patch(st: Store, slugs: Option<seq<string>>, updates: Option<Updates>) returns (resp: PatchResponse)
    modifies st
    ensures slugs.None? || updates.None? ==>
      resp == PatchBadRequest("slugs array and updates object required") && st.Snapshot() == old(st.Snapshot())
    ensures slugs.Some? && updates.Some? ==>
      var spec := PatchSpec(old(st.Snapshot()), slugs.value, updates.value);
      resp == PatchResults(spec.1) && st.Snapshot() == spec.0
  {
    if slugs.None? || updates.None? {
      return PatchBadRequest("slugs array and updates object required");
    }
    var ss := slugs.value;
    var u := updates.value;
    ghost var db0 := st.Snapshot();
    var results: seq<PatchResult> := [];
    var i := 0;
    while i < |ss|
      invariant 0 <= i <= |ss|
      invariant (st.Snapshot(), results) == PatchSpec(db0, ss[..i], u)
    {
      assert ss[..i + 1][..i] == ss[..i];
      var result := PatchOne(st, ss[i], u);
      results := results + [result];
      i := i + 1;
    }
    assert ss[..|ss|] == ss;
    return PatchResults(results);
  }

  // ---------------------------------------------------------------------------
  // DELETE: one slug or a comma-separated list

  datatype KeysDeleted = KeysDeleted(link: nat, count: nat, meta: nat)

  datatype DeleteResult = DeleteResult(key: string, existed: bool, keysDeleted: KeysDeleted)

  /** Deleting the three keys of one slug; `existed` is the link key's presence before. */
  function DeleteKey(db: Db, k: string): (r: (Db, DeleteResult))
    ensures r.0 == db.(link := db.link - {k}, count := db.count - {k}, meta := db.meta - {k})
    ensures r.1.key == k && (r.1.existed <==> k in db.link)
    ensures r.1.keysDeleted.link == (if k in db.link then 1 else 0)
  {
    (db.(link := db.link - {k}, count := db.count - {k}, meta := db.meta - {k}),
     DeleteResult(k, k in db.link,
       KeysDeleted(if k in db.link then 1 else 0, if k in db.count then 1 else 0, if k in db.meta then 1 else 0)))
  }

  /**
    Deleting a list of keys in order: one result per key in input order, a key
    reported as existing exactly when its link was present and not already
    deleted earlier in the list, and afterwards no listed key survives.
  */
  function DeleteAll(db: Db, keys: seq<string>): (r: (Db, seq<DeleteResult>))
    ensures |r.1| == |keys|
    ensures forall i :: 0 <= i < |keys| ==> r.1[i].key == keys[i]
    ensures forall i :: 0 <= i < |keys| ==> (r.1[i].existed <==> keys[i] in db.link && keys[i] !in keys[..i])
    ensures r.0.link == db.link - set k | k in keys
    ensures r.0.count == db.count - set k | k in keys
    ensures r.0.meta == db.meta - set k | k in keys
    ensures r.0.collection == db.collection
    decreases |keys|
  {
    if keys == [] then (db, [])
    else
      var init := keys[..|keys| - 1];
      var prev := DeleteAll(db, init);
      var step := DeleteKey(prev.0, keys[|keys| - 1]);
      assert forall k :: k in keys <==> k in init || k == keys[|keys| - 1] by {
        assert keys == init + [keys[|keys| - 1]];
      }
      var r := (step.0, prev.1 + [step.1]);
      assert forall i :: 0 <= i < |init| ==> keys[..i] == init[..i];
      r
  }

  /** The bulk form's keys: split on ",", each entry trimmed, lower-cased and slash-stripped. */
  function BulkKeys(slugs: string): (ks: seq<string>)
    ensures |ks| == |Split(slugs, ',')|
    ensures forall i :: 0 <= i < |ks| ==> ks[i] == SlugKey(Trim(Split(slugs, ',')[i]))
  {
    var parts := Split(slugs, ',');
    seq(|parts|, i requires 0 <= i < |parts| => SlugKey(Trim(parts[i])))
  }

  /** The bulk loop of lines 292-314, over the already normalised keys. */
  method DeleteMany(st: Store, keys: seq<string>) returns (results: seq<DeleteResult>)
    modifies st
    ensures (st.Snapshot(), results) == DeleteAll(old(st.Snapshot()), keys)
  {
    ghost var db0 := st.Snapshot();
    results := [];
    var i := 0;
    while i < |keys|
      invariant 0 <= i <= |keys|
      invariant (st.Snapshot(), results) == DeleteAll(db0, keys[..i])
    {
      var key := keys[i];
      assert keys[..i + 1][..i] == keys[..i];
      var existed := key in st.link;
      var l, c, m := st.DelSlug(key);
      results := results + [DeleteResult(key, existed, KeysDeleted(l, c, m))];
      i := i + 1;
    }
    assert keys[..|keys|] == keys;
  }

  datatype DeleteResponse =
    | DeleteBadRequest(error: string)
    | DeletedOne(key: string, existed: bool, keysDeleted: KeysDeleted)
    | DeletedMany(deleted: seq<string>, results: seq<DeleteResult>)

  /** DELETE /api/links: `slug` (untrimmed) wins over `slugs`; "" means absent. */
  method Delete(st: Store, slug: string, slugs: string) returns (resp: DeleteResponse)
    modifies st
    ensures slug == "" && slugs == "" ==>
      resp == DeleteBadRequest("slug or slugs parameter required") && st.Snapshot() == old(st.Snapshot())
    ensures slug != "" ==>
      var spec := DeleteKey(old(st.Snapshot()), SlugKey(slug));
      resp == DeletedOne(spec.1.key, spec.1.existed, spec.1.keysDeleted) && st.Snapshot() == spec.0
    ensures slug == "" && slugs != "" ==>
      var spec := DeleteAll(old(st.Snapshot()), BulkKeys(slugs));
      resp == DeletedMany(BulkKeys(slugs), spec.1) && st.Snapshot() == spec.0
  {
    if slug != "" {
      var key := SlugKey(slug);
      var existed := key in st.link;
      var l, c, m := st.DelSlug(key);
      return DeletedOne(key, existed, KeysDeleted(l, c, m));
    } else if slugs != "" {
      var keys := BulkKeys(slugs);
      var results := DeleteMany(st, keys);
      return DeletedMany(keys, results);
    } else {
      return DeleteBadRequest("slug or slugs parameter required");
    }
  }
}
