/**
  The /api/tags route: tag statistics and prefix suggestions (GET), adding
  tags to a list of links (POST), removing tags from them (PATCH), renaming a
  tag everywhere (PUT) and deleting a tag everywhere (DELETE). Every write is
  an hSet of the single `tags` field of a meta hash.
*/
module TagsApi {
  import opened Strings
  import opened Seqs
  import opened Wrappers
  import opened KeyValueStore

  // ---------------------------------------------------------------------------
  // Reading and writing the tags field

  /** `meta.tags ? meta.tags.split(",").map((t) => t.trim()) : []`. */
  function ExistingTags(h: Hash): seq<string> {
    TrimAll(TagsOf(h))
  }

  /** The stored tags read back one per piece, trimmed and without commas. */
  lemma ExistingTagsFacts(h: Hash)
    ensures var r := ExistingTags(h);
      && |r| == |TagsOf(h)|
      && (forall i :: 0 <= i < |r| ==> r[i] == Trim(TagsOf(h)[i]))
      && NoneContains(r, ',')
      && AllTrimmed(r)
  {
    TrimAllFacts(TagsOf(h), ',');
  }

  /** hSet(`meta:<slug>`, { tags: v }). */
  function WriteTags(db: Db, slug: string, v: string): (d: Db)
    ensures d.link == db.link && d.count == db.count && d.collection == db.collection
    ensures d.meta.Keys == db.meta.Keys + {slug}
    ensures d.meta[slug] == MetaOf(db, slug)["tags" := v]
    ensures forall s :: s in db.meta && s != slug ==> d.meta[s] == db.meta[s]
  {
    assert Merge(MetaOf(db, slug), map["tags" := v]) == MetaOf(db, slug)["tags" := v];
    db.(meta := db.meta[slug := Merge(MetaOf(db, slug), map["tags" := v])])
  }

  /**
    The loop shared by every tag write: for each slug in order, read its meta
    hash, let `edit` decide the new tags value (None: no write), write it, and
    count the writes. Only meta hashes of the listed slugs can change.
  */
  function EditAll(db: Db, slugs: seq<string>, edit: Hash -> Option<string>): (r: (Db, nat))
    ensures r.1 <= |slugs|
    ensures r.0.link == db.link && r.0.count == db.count && r.0.collection == db.collection
    ensures forall s :: s in db.meta && s !in slugs ==> s in r.0.meta && r.0.meta[s] == db.meta[s]
    ensures forall s :: s in r.0.meta ==> s in db.meta || s in slugs
    decreases |slugs|
  {
    if slugs == [] then (db, 0)
    else
      var init := slugs[..|slugs| - 1];
      var last := slugs[|slugs| - 1];
      assert forall s :: s in slugs <==> s in init || s == last by {
        assert slugs == init + [last];
      }
      var prev := EditAll(db, init, edit);
      ApplyEdit(prev, last, edit(MetaOf(prev.0, last)))
  }

  /** One slug of the loop: write `e` when there is one, and count the write. */
  function ApplyEdit(prev: (Db, nat), slug: string, e: Option<string>): (Db, nat) {
    if e.None? then prev else (WriteTags(prev.0, slug, e.value), prev.1 + 1)
  }

  /** The loop after one more slug is the loop so far followed by that slug's edit. */
  lemma EditAllStep(db: Db, slugs: seq<string>, i: nat, edit: Hash -> Option<string>)
    requires i < |slugs|
    ensures var prev := EditAll(db, slugs[..i], edit);
      EditAll(db, slugs[..i + 1], edit) == ApplyEdit(prev, slugs[i], edit(MetaOf(prev.0, slugs[i])))
  {
    assert slugs[..i + 1][..i] == slugs[..i];
  }

  /** The hash a slug ends with when its edit runs on `h`. */
  function Edited(h: Hash, e: Option<string>): (h2: Hash)
    ensures e.None? ==> h2 == h
    ensures e.Some? ==> h2 == h["tags" := e.value]
  {
    match e
    case None => h
    case Some(v) => h["tags" := v]
  }

  /** Whether the edit writes for a slug, judged on the store before the loop. */
  function WritesFn(db: Db, edit: Hash -> Option<string>): string -> bool {
    (s: string) => edit(MetaOf(db, s)).Some?
  }

  /**
    Over distinct slugs every edit sees the hash as it was before the loop:
    each slug ends up with its own edit applied, and the count is the number
    of slugs whose edit writes.
  */
  lemma {:induction false} EditAllDistinct(db: Db, slugs: seq<string>, edit: Hash -> Option<string>)
    requires NoDup(slugs)
    ensures EditAll(db, slugs, edit).1 == Count(slugs, WritesFn(db, edit))
    ensures forall s :: s in slugs ==> MetaOf(EditAll(db, slugs, edit).0, s) == Edited(MetaOf(db, s), edit(MetaOf(db, s)))
    decreases |slugs|
  {
    if slugs != [] {
      var init := slugs[..|slugs| - 1];
      var last := slugs[|slugs| - 1];
      assert slugs == init + [last];
      EditAllDistinct(db, init, edit);
      var prev := EditAll(db, init, edit);
      assert last !in init;
      assert MetaOf(prev.0, last) == MetaOf(db, last);
    }
  }

  /** hGetAll for every slug the route touches reads through the same store. */
  function MetaFn(db: Db): string -> Hash {
    (s: string) => MetaOf(db, s)
  }

  // ---------------------------------------------------------------------------
  // POST: add tags

  /**
    The new list is the existing trimmed tags followed by the requested tags,
    deduplicated in first-occurrence order; as written, it is written when its
    length differs from the existing list's, which is what the handler below
    does (AddEditIntended is the comparison evidently meant).
  */
  function AddEdit(h: Hash, tags: seq<string>): Option<string> {
    var e := ExistingTags(h);
    var n := Dedupe(e + tags);
    if |n| != |e| then Some(JoinTags(n)) else None
  }

  function AddFn(tags: seq<string>): Hash -> Option<string> {
    (h: Hash) => AddEdit(h, tags)
  }

  /** Tags as the admin page sends them: non-empty, trimmed, without commas. */
  predicate CleanTags(tags: seq<string>) {
    forall t :: t in tags ==> t != "" && IsTrimmed(t) && ',' !in t
  }

  /** A written list of clean, trimmed tags reads back as itself unless it is [""]. */
  lemma ReadBackTrimmed(h: Hash, n: seq<string>)
    requires NoneContains(n, ',') && AllTrimmed(n)
    ensures ExistingTags(h["tags" := JoinTags(n)]) == if n == [""] then [] else n
  {
    ReadJoinTags(n);
    TrimAllOfTrimmed(n);
  }

  /** Stored tags merged with clean requested tags are comma-free and trimmed. */
  lemma MergedClean(h: Hash, tags: seq<string>)
    requires CleanTags(tags)
    ensures NoneContains(Dedupe(ExistingTags(h) + tags), ',')
    ensures AllTrimmed(Dedupe(ExistingTags(h) + tags))
  {
    ExistingTagsFacts(h);
    var e := ExistingTags(h);
    var n := Dedupe(e + tags);
    forall x | x in n ensures ',' !in x && Trim(x) == x {
      assert x in e + tags;
      if x in e {
        var k :| 0 <= k < |e| && e[k] == x;
        TrimIsTrimmed(TagsOf(h)[k]);
      } else {
        TrimOfTrimmed(x);
      }
    }
  }

  /**
    With clean requested tags, adding the same tags a second time writes
    nothing: POST is idempotent. After a write the stored list is
    deduplicated and holds every requested tag; without one nothing changed.
  */
  lemma AddIdempotent(h: Hash, tags: seq<string>)
    requires CleanTags(tags)
    ensures AddEdit(Edited(h, AddEdit(h, tags)), tags).None?
  {
    var e := ExistingTags(h);
    var n := Dedupe(e + tags);
    if |n| != |e| {
      MergedClean(h, tags);
      ReadBackTrimmed(h, n);
      var h2 := Edited(h, AddEdit(h, tags));
      forall x | x in tags ensures x in n {
        assert x in e + tags;
      }
      if n == [""] {
        assert ExistingTags(h2) == [];
        HeadIn(tags);
        assert tags == [];
        assert ExistingTags(h2) + tags == [];
      } else {
        assert ExistingTags(h2) == n;
        DedupeNoDup(n);
        DedupePrefix(n, tags);
        DedupeSameLength(n, tags);
        assert Dedupe(n + tags) == Dedupe(n + tags)[..|n|];
      }
    }
  }

  /** With a duplicate-free stored list, the stored tags stay first and in order. */
  lemma AddKeepsExistingFirst(h: Hash, tags: seq<string>)
    requires NoDup(ExistingTags(h))
    ensures var e := ExistingTags(h); var n := Dedupe(e + tags);
      |e| <= |n| && n[..|e|] == e && forall t :: t in tags ==> t in n
  {
    var e := ExistingTags(h);
    DedupeNoDup(e);
    DedupePrefix(e, tags);
    forall t | t in tags ensures t in Dedupe(e + tags) {
      assert t in e + tags;
    }
  }

  /**
    The evident intent of the length test: write when the deduplicated list
    differs from the stored one. Whenever the requested tags are clean, every
    one of them is stored afterwards.
  */
  function AddEditIntended(h: Hash, tags: seq<string>): Option<string> {
    var e := ExistingTags(h);
    var n := Dedupe(e + tags);
    if n != e then Some(JoinTags(n)) else None
  }

  lemma AddIntendedStoresAll(h: Hash, tags: seq<string>)
    requires CleanTags(tags)
    ensures forall t :: t in tags ==> t in ExistingTags(Edited(h, AddEditIntended(h, tags)))
  {
    var e := ExistingTags(h);
    var n := Dedupe(e + tags);
    forall t | t in tags ensures t in n {
      assert t in e + tags;
    }
    if n != e && tags != [] {
      assert n != [""] by {
        assert tags[0] in n && tags[0] != "";
      }
      MergedClean(h, tags);
      ReadBackTrimmed(h, n);
    }
  }

  /** On a duplicate-free stored list the code as written and the intended rule agree. */
  lemma AddAgreesOnNoDup(h: Hash, tags: seq<string>)
    requires NoDup(ExistingTags(h))
    ensures AddEdit(h, tags) == AddEditIntended(h, tags)
  {
    var e := ExistingTags(h);
    DedupeNoDup(e);
    DedupePrefix(e, tags);
    var n := Dedupe(e + tags);
    if |n| == |e| {
      assert n == n[..|e|];
    }
  }

  /**
    As written, a stored list holding a duplicate hides a new tag: with the
    stored tags reading back as [a, a] (the text "a,a", see StoredAA), b is
    not stored, yet adding [b] gives [a, b], of the same length, so b is
    never written.
  */
  lemma AddMissesNewTag(h: Hash, a: string, b: string)
    requires ExistingTags(h) == [a, a] && b != a
    ensures AddEdit(h, [b]).None?
  {
    var e := ExistingTags(h);
    assert |Dedupe(e + [b])| == |e| by {
      assert e + [b] == [a, a, b];
      DedupeRepeat(a, b);
    }
  }

  /** On the same stored list the intended rule writes b. */
  lemma AddIntendedWritesNewTag(h: Hash, a: string, b: string)
    requires ExistingTags(h) == [a, a] && b != a
    ensures AddEditIntended(h, [b]).Some?
  {
    var e := ExistingTags(h);
    assert Dedupe(e + [b]) != e by {
      assert e + [b] == [a, a, b];
      DedupeRepeat(a, b);
      assert Dedupe(e + [b])[1] == b;
    }
  }

  /** The stored text "a,a" reads back as two "a" tags. */
  lemma StoredAA(h: Hash)
    requires h == map["tags" := "a,a"]
    ensures ExistingTags(h) == ["a", "a"]
  {
    TagsAA(h);
    TrimAllAA();
  }

  lemma TagsAA(h: Hash)
    requires h == map["tags" := "a,a"]
    ensures TagsOf(h) == ["a", "a"]
  {
    SplitAA();
  }

  /** "a" has no white space to trim. */
  lemma TrimAllAA()
    ensures TrimAll(["a", "a"]) == ["a", "a"]
  {
    TrimOfTrimmed("a");
    var r := TrimAll(["a", "a"]);
    assert r[0] == "a" && r[1] == "a";
  }

  /** Splitting "a,a" at commas gives two "a" pieces. */
  lemma SplitAA()
    ensures Split("a,a", ',') == ["a", "a"]
  {
    assert Split("a", ',') == ["a"] by {
      assert "a"[1..] == "";
      assert Split("", ',') == [""];
      assert ['a'] + "" == "a";
      assert [['a'] + ""] + [""][1..] == ["a"];
    }
    assert Split(",a", ',') == ["", "a"] by {
      assert ",a"[1..] == "a";
    }
    assert "a,a"[1..] == ",a";
  }

  /** Deduplicating [a, a, b] gives [a, b]. */
  lemma DedupeRepeat(a: string, b: string)
    requires b != a
    ensures Dedupe([a, a, b]) == [a, b]
  {
    var s := [a, a, b];
    assert s[..2] == [a, a];
    assert s[..2][..1] == [a];
    assert [a][..0] == [];
  }

  datatype Reply = BadRequest(error: string) | Message(updatedCount: nat)

  /** The POST loop body for one slug. */
  method AddToLink(st: Store, slug: string, tags: seq<string>, count: nat) returns (updatedCount: nat)
    modifies st
    ensures (st.Snapshot(), updatedCount) == ApplyEdit((old(st.Snapshot()), count), slug, AddEdit(MetaOf(old(st.Snapshot()), slug), tags))
  {
    updatedCount := count;
    var meta := MetaOf(st.Snapshot(), slug);
    var existingTags := ExistingTags(meta);
    var newTags := Dedupe(existingTags + tags);
    if |newTags| != |existingTags| {
      st.HSetMeta(slug, map["tags" := JoinTags(newTags)]);
      updatedCount := updatedCount + 1;
    }
  }

  /** POST /api/tags: slugs are used as given (no lower-casing). */
  method AddTags(st: Store, slugs: Option<seq<string>>, tags: Option<seq<string>>) returns (resp: Reply)
    modifies st
    ensures slugs.None? || tags.None? ==>
      resp == BadRequest("slugs (array) and tags (array) required") && st.Snapshot() == old(st.Snapshot())
    ensures slugs.Some? && tags.Some? ==>
      var r := EditAll(old(st.Snapshot()), slugs.value, AddFn(tags.value));
      resp == Message(r.1) && st.Snapshot() == r.0
  {
    if slugs.None? || tags.None? {
      return BadRequest("slugs (array) and tags (array) required");
    }
    var ss := slugs.value;
    ghost var db0 := st.Snapshot();
    var updatedCount := 0;
    var i := 0;
    while i < |ss|
      invariant 0 <= i <= |ss|
      invariant (st.Snapshot(), updatedCount) == EditAll(db0, ss[..i], AddFn(tags.value))
    {
      EditAllStep(db0, ss, i, AddFn(tags.value));
      updatedCount := AddToLink(st, ss[i], tags.value, updatedCount);
      i := i + 1;
    }
    assert ss[..|ss|] == ss;
    return Message(updatedCount);
  }

  // ---------------------------------------------------------------------------
  // PATCH: remove tags

  function NotInFn(tags: seq<string>): string -> bool {
    (t: string) => t !in tags
  }

  /** `existing.filter((t) => !tags.includes(t))`. */
  function Without(e: seq<string>, tags: seq<string>): seq<string>
    decreases |e|
  {
    if e == [] then []
    else Without(e[..|e| - 1], tags) + if e[|e| - 1] in tags then [] else [e[|e| - 1]]
  }

  lemma {:induction false} WithoutIsFilter(e: seq<string>, tags: seq<string>)
    ensures Without(e, tags) == Filter(e, NotInFn(tags))
    decreases |e|
  {
    if e != [] {
      WithoutIsFilter(e[..|e| - 1], tags);
    }
  }

  /** Only a truthy tags field is edited: the trimmed tags not requested, written if any went. */
  function RemoveEdit(h: Hash, tags: seq<string>): Option<string> {
    if FieldOrEmpty(h, "tags") == "" then None
    else
      var e := ExistingTags(h);
      var f := Without(e, tags);
      if |f| != |e| then Some(JoinTags(f)) else None
  }

  function RemoveFn(tags: seq<string>): Hash -> Option<string> {
    (h: Hash) => RemoveEdit(h, tags)
  }

  /** Filtering a list of trimmed, comma-free tags keeps it trimmed and comma-free. */
  lemma TrimmedFilter(e: seq<string>, p: string -> bool)
    requires AllTrimmed(e) && NoneContains(e, ',')
    ensures AllTrimmed(Filter(e, p)) && NoneContains(Filter(e, p), ',')
  {
    var f := Filter(e, p);
    forall i | 0 <= i < |f| ensures Trim(f[i]) == f[i] {
      assert f[i] in e;
    }
  }

  /**
    After a removal no requested tag is stored, the remaining tags keep their
    order, and a write happens exactly when a requested tag was present.
  */
  lemma RemoveEffect(h: Hash, tags: seq<string>)
    ensures var h2 := Edited(h, RemoveEdit(h, tags));
      && (forall t :: t in tags ==> t !in ExistingTags(h2))
      && (RemoveEdit(h, tags).Some? <==> exists t :: t in tags && t in ExistingTags(h))
      && (RemoveEdit(h, tags).Some? ==>
            var f := Filter(ExistingTags(h), NotInFn(tags));
            ExistingTags(h2) == if f == [""] then [] else f)
  {
    ExistingTagsFacts(h);
    var e := ExistingTags(h);
    var f := Filter(e, NotInFn(tags));
    WithoutIsFilter(e, tags);
    FilterLength(e, NotInFn(tags));
    if RemoveEdit(h, tags).Some? {
      TrimmedFilter(e, NotInFn(tags));
      ReadBackTrimmed(h, f);
      var t :| t in e && t in tags;
    }
  }

  /** The PATCH loop body for one slug. */
  method RemoveFromLink(st: Store, slug: string, tags: seq<string>, count: nat) returns (updatedCount: nat)
    modifies st
    ensures (st.Snapshot(), updatedCount) == ApplyEdit((old(st.Snapshot()), count), slug, RemoveEdit(MetaOf(old(st.Snapshot()), slug), tags))
  {
    updatedCount := count;
    var meta := MetaOf(st.Snapshot(), slug);
    if FieldOrEmpty(meta, "tags") != "" {
      var existingTags := ExistingTags(meta);
      var filteredTags := Without(existingTags, tags);
      if |filteredTags| != |existingTags| {
        st.HSetMeta(slug, map["tags" := JoinTags(filteredTags)]);
        updatedCount := updatedCount + 1;
      }
    }
  }

  /** PATCH /api/tags. */
  method RemoveTags(st: Store, slugs: Option<seq<string>>, tags: Option<seq<string>>) returns (resp: Reply)
    modifies st
    ensures slugs.None? || tags.None? ==>
      resp == BadRequest("slugs (array) and tags (array) required") && st.Snapshot() == old(st.Snapshot())
    ensures slugs.Some? && tags.Some? ==>
      var r := EditAll(old(st.Snapshot()), slugs.value, RemoveFn(tags.value));
      resp == Message(r.1) && st.Snapshot() == r.0
  {
    if slugs.None? || tags.None? {
      return BadRequest("slugs (array) and tags (array) required");
    }
    var ss := slugs.value;
    ghost var db0 := st.Snapshot();
    var updatedCount := 0;
    var i := 0;
    while i < |ss|
      invariant 0 <= i <= |ss|
      invariant (st.Snapshot(), updatedCount) == EditAll(db0, ss[..i], RemoveFn(tags.value))
    {
      EditAllStep(db0, ss, i, RemoveFn(tags.value));
      updatedCount := RemoveFromLink(st, ss[i], tags.value, updatedCount);
      i := i + 1;
    }
    assert ss[..|ss|] == ss;
    return Message(updatedCount);
  }

  // ---------------------------------------------------------------------------
  // PUT: rename a tag

  /** Each piece whose trim equals trim(oldTag) becomes newTag; others keep their spacing. */
  function Renamed(parts: seq<string>, oldTag: string, newTag: string): (r: seq<string>)
    ensures |r| == |parts|
    ensures forall i :: 0 <= i < |parts| ==>
      r[i] == if Trim(parts[i]) == Trim(oldTag) then newTag else parts[i]
  {
    seq(|parts|, i requires 0 <= i < |parts| => if Trim(parts[i]) == Trim(oldTag) then newTag else parts[i])
  }

  /** The rename edit: write the joined pieces when the string changed. */
  function RenameEdit(h: Hash, oldTag: string, newTag: string): (r: Option<string>)
    ensures TagsOf(h) == [] ==> r.None?
    ensures TagsOf(h) != [] ==>
      var u := JoinTags(Renamed(TagsOf(h), oldTag, newTag));
      && (r.Some? <==> u != h["tags"])
      && (r.Some? ==> r.value == u)
  {
    if FieldOrEmpty(h, "tags") == "" then None
    else
      var u := JoinTags(Renamed(TagsOf(h), oldTag, newTag));
      if u != h["tags"] then Some(u) else None
  }

  function RenameFn(oldTag: string, newTag: string): Hash -> Option<string> {
    (h: Hash) => RenameEdit(h, oldTag, newTag)
  }

  /** A piece the rename changes. */
  predicate RenamesPiece(p: string, oldTag: string, newTag: string) {
    Trim(p) == Trim(oldTag) && p != newTag
  }

  /** Renaming to a comma-free name keeps every piece comma-free. */
  lemma RenamedCommaFree(parts: seq<string>, oldTag: string, newTag: string)
    requires NoneContains(parts, ',') && ',' !in newTag
    ensures NoneContains(Renamed(parts, oldTag, newTag), ',')
  {
    var u := Renamed(parts, oldTag, newTag);
    forall x | x in u ensures ',' !in x {
      var i :| 0 <= i < |u| && u[i] == x;
      if x != newTag {
        assert parts[i] in parts;
      }
    }
  }

  /** The renamed pieces equal the originals exactly when no piece is renamed. */
  lemma RenamedUnchanged(parts: seq<string>, oldTag: string, newTag: string)
    ensures Renamed(parts, oldTag, newTag) == parts <==> !exists p :: p in parts && RenamesPiece(p, oldTag, newTag)
  {
    var u := Renamed(parts, oldTag, newTag);
    if u == parts {
      forall p | p in parts ensures !RenamesPiece(p, oldTag, newTag) {
        var i :| 0 <= i < |parts| && parts[i] == p;
        assert u[i] == parts[i];
      }
    } else {
      var i :| 0 <= i < |parts| && u[i] != parts[i];
      assert RenamesPiece(parts[i], oldTag, newTag);
    }
  }

  /**
    For a non-empty, comma-free new name, a link is written (and counted)
    exactly when one of its pieces matches the old tag and is not already the
    new tag; the stored pieces afterwards are the renamed pieces.
  */
  lemma RenameWritesIff(h: Hash, oldTag: string, newTag: string)
    requires ',' !in newTag && newTag != ""
    ensures RenameEdit(h, oldTag, newTag).Some? <==>
      exists p :: p in TagsOf(h) && RenamesPiece(p, oldTag, newTag)
    ensures RenameEdit(h, oldTag, newTag).Some? ==>
      TagsOf(Edited(h, RenameEdit(h, oldTag, newTag))) == Renamed(TagsOf(h), oldTag, newTag)
  {
    var parts := TagsOf(h);
    RenamedUnchanged(parts, oldTag, newTag);
    if parts != [] {
      var u := Renamed(parts, oldTag, newTag);
      RenamedCommaFree(parts, oldTag, newTag);
      if u != parts {
        if JoinTags(u) == h["tags"] {
          JoinInjective(u, parts, ',');
        }
        assert u != [""] by {
          if |u| == 1 && Trim(parts[0]) == Trim(oldTag) {
            assert u[0] == newTag;
          }
        }
        ReadJoinTags(u);
      }
    }
  }

  datatype RenameRequest = RenameRequest(oldTag: string, newTag: string)

  /** The PUT loop body for one link. */
  method RenameInLink(st: Store, slug: string, oldTag: string, newTag: string, count: nat) returns (updatedCount: nat)
    modifies st
    ensures (st.Snapshot(), updatedCount) == ApplyEdit((old(st.Snapshot()), count), slug, RenameEdit(MetaOf(old(st.Snapshot()), slug), oldTag, newTag))
  {
    updatedCount := count;
    var meta := MetaOf(st.Snapshot(), slug);
    if FieldOrEmpty(meta, "tags") != "" {
      var updated := JoinTags(Renamed(TagsOf(meta), oldTag, newTag));
      if updated != meta["tags"] {
        st.HSetMeta(slug, map["tags" := updated]);
        updatedCount := updatedCount + 1;
      }
    }
  }

  /** PUT /api/tags over the link keys (`keys` enumerates them without repeats). */
  method RenameTag(st: Store, keys: seq<string>, oldTag: string, newTag: string) returns (resp: Reply)
    requires NoDup(keys) && forall s :: s in keys <==> s in st.link
    modifies st
    ensures oldTag == "" || newTag == "" ==>
      resp == BadRequest("oldTag and newTag required") && st.Snapshot() == old(st.Snapshot())
    ensures oldTag != "" && newTag != "" ==>
      var r := EditAll(old(st.Snapshot()), keys, RenameFn(oldTag, newTag));
      resp == Message(r.1) && st.Snapshot() == r.0
  {
    if oldTag == "" || newTag == "" {
      return BadRequest("oldTag and newTag required");
    }
    ghost var db0 := st.Snapshot();
    var updatedCount := 0;
    var i := 0;
    while i < |keys|
      invariant 0 <= i <= |keys|
      invariant (st.Snapshot(), updatedCount) == EditAll(db0, keys[..i], RenameFn(oldTag, newTag))
    {
      EditAllStep(db0, keys, i, RenameFn(oldTag, newTag));
      updatedCount := RenameInLink(st, keys[i], oldTag, newTag, updatedCount);
      i := i + 1;
    }
    assert keys[..|keys|] == keys;
    return Message(updatedCount);
  }

  // ---------------------------------------------------------------------------
  // DELETE: remove a tag everywhere

  function KeepFn(tag: string): string -> bool {
    (p: string) => Trim(p) != Trim(tag)
  }

  /** The pieces whose trim differs from trim(tag), written if any piece went. */
  function DeleteEdit(h: Hash, tag: string): (r: Option<string>)
    ensures TagsOf(h) == [] ==> r.None?
    ensures TagsOf(h) != [] ==>
      var f := Filter(TagsOf(h), KeepFn(tag));
      && (r.Some? <==> |f| != |TagsOf(h)|)
      && (r.Some? ==> r.value == JoinTags(f))
  {
    if FieldOrEmpty(h, "tags") == "" then None
    else
      var f := Filter(TagsOf(h), KeepFn(tag));
      if |f| != |TagsOf(h)| then Some(JoinTags(f)) else None
  }

  function DeleteFn(tag: string): Hash -> Option<string> {
    (h: Hash) => DeleteEdit(h, tag)
  }

  /**
    A link is written (and counted) exactly when one of its pieces trims to
    trim(tag), and afterwards none does.
  */
  lemma DeleteEffect(h: Hash, tag: string)
    ensures DeleteEdit(h, tag).Some? <==> HoldsTag(h, tag)
    ensures forall p :: p in TagsOf(Edited(h, DeleteEdit(h, tag))) ==> Trim(p) != Trim(tag)
  {
    var parts := TagsOf(h);
    var f := Filter(parts, KeepFn(tag));
    FilterLength(parts, KeepFn(tag));
    if DeleteEdit(h, tag).Some? {
      ReadJoinTags(f);
      JoinEmpty(f, ',');
      if f != [] && f != [""] {
        SplitJoin(f, ',');
      }
    }
  }

  /** Some piece of the hash's tags trims to trim(tag). */
  predicate HoldsTag(h: Hash, tag: string) {
    exists p :: p in TagsOf(h) && Trim(p) == Trim(tag)
  }

  function HoldsFn(db: Db, tag: string): string -> bool {
    (s: string) => HoldsTag(MetaOf(db, s), tag)
  }

  /** Over distinct link keys the count is the number of links that held the tag. */
  lemma DeleteCountsHolders(db: Db, keys: seq<string>, tag: string)
    requires NoDup(keys)
    ensures EditAll(db, keys, DeleteFn(tag)).1 == Count(keys, HoldsFn(db, tag))
  {
    EditAllDistinct(db, keys, DeleteFn(tag));
    forall s | s in keys ensures WritesFn(db, DeleteFn(tag))(s) == HoldsFn(db, tag)(s) {
      DeleteEffect(MetaOf(db, s), tag);
    }
    FilterCongruent(keys, WritesFn(db, DeleteFn(tag)), HoldsFn(db, tag));
  }

  /** The DELETE loop body for one link. */
  method DeleteFromLink(st: Store, slug: string, tag: string, count: nat) returns (updatedCount: nat)
    modifies st
    ensures (st.Snapshot(), updatedCount) == ApplyEdit((old(st.Snapshot()), count), slug, DeleteEdit(MetaOf(old(st.Snapshot()), slug), tag))
  {
    updatedCount := count;
    var meta := MetaOf(st.Snapshot(), slug);
    if FieldOrEmpty(meta, "tags") != "" {
      var parts := TagsOf(meta);
      var filteredTags := Filter(parts, KeepFn(tag));
      if |filteredTags| != |parts| {
        st.HSetMeta(slug, map["tags" := JoinTags(filteredTags)]);
        updatedCount := updatedCount + 1;
      }
    }
  }

  /** DELETE /api/tags over the link keys. */
  method DeleteTag(st: Store, keys: seq<string>, tag: string) returns (resp: Reply)
    requires NoDup(keys) && forall s :: s in keys <==> s in st.link
    modifies st
    ensures tag == "" ==> resp == BadRequest("tag required") && st.Snapshot() == old(st.Snapshot())
    ensures tag != "" ==>
      var r := EditAll(old(st.Snapshot()), keys, DeleteFn(tag));
      resp == Message(r.1) && st.Snapshot() == r.0
  {
    if tag == "" {
      return BadRequest("tag required");
    }
    ghost var db0 := st.Snapshot();
    var updatedCount := 0;
    var i := 0;
    while i < |keys|
      invariant 0 <= i <= |keys|
      invariant (st.Snapshot(), updatedCount) == EditAll(db0, keys[..i], DeleteFn(tag))
    {
      EditAllStep(db0, keys, i, DeleteFn(tag));
      updatedCount := DeleteFromLink(st, keys[i], tag, updatedCount);
      i := i + 1;
    }
    assert keys[..|keys|] == keys;
    return Message(updatedCount);
  }
}
