/**
  OpenReview ingestion: the notes the notes API returned for a user are
  filtered down to submissions, and each becomes an "openreview-<id>" link.
  A submission whose meta hash already holds fields is read back from the
  store and nothing is written; a new one gets its link and meta hash.
  The login, profile and notes requests are outside the model: the notes
  arrive as a parameter, None standing for any failed or empty response.
*/
module OpenReview {
  import opened Strings
  import opened Seqs
  import opened Wrappers
  import opened KeyValueStore

  // ---------------------------------------------------------------------------
  // Content fields: a string, a {value} wrapper, or neither

  /** A text-valued content field as the API sends it. */
  datatype JsText =
    | Missing                    // undefined
    | Str(s: string)             // a plain string
    | Boxed(value: string)       // { value: "..." }
    | OtherObject                // an object without a value member

  /** JavaScript truthiness of such a field. */
  predicate Truthy(f: JsText) {
    match f
    case Missing => false
    case Str(s) => s != ""
    case Boxed(_) => true
    case OtherObject => true
  }

  /** extractValue: the string itself, the wrapped value, or "". */
  function ExtractValue(f: JsText): (r: string)
    ensures f.Str? ==> r == f.s
    ensures f.Boxed? ==> r == f.value
    ensures f.Missing? || f.OtherObject? ==> r == ""
  {
    match f
    case Str(s) => s
    case Boxed(v) => v
    case _ => ""
  }

  /** A list-valued content field as the API sends it. */
  datatype JsList =
    | MissingList                     // undefined
    | List(items: seq<string>)        // an array
    | BoxedList(items: seq<string>)   // { value: [...] }
    | BoxedNonList                    // { value: <not an array> } or an object without value
    | NonList                         // a string or another non-array value

  /** extractArrayValue: the array itself, the wrapped array, or []. */
  function ExtractArrayValue(f: JsList): (r: seq<string>)
    ensures f.List? || f.BoxedList? ==> r == f.items
    ensures !(f.List? || f.BoxedList?) ==> r == []
  {
    match f
    case List(items) => items
    case BoxedList(items) => items
    case _ => []
  }

  /** The part of a note the ingestion reads. */
  datatype Note = Note(
    id: string,
    invitations: Option<seq<string>>,
    title: JsText,
    abstractText: JsText,
    venue: JsText,
    pdf: JsText,
    ddate: Option<int>)

  // ---------------------------------------------------------------------------
  // The submission filter

  predicate SubmissionInvitation(inv: string) {
    Contains(inv, "/-/Submission") || Contains(inv, "/-/Blind_Submission")
    || Contains(inv, "/-/Paper") || Contains(inv, "/-/Proceedings")
  }

  /** Some invitation marks the note as a submission. */
  predicate HasSubmissionInvitation(n: Note) {
    n.invitations.Some? && exists inv :: inv in n.invitations.value && SubmissionInvitation(inv)
  }

  /** Title, abstract, and a pdf or a venue. */
  predicate HasSubmissionContent(n: Note) {
    Truthy(n.title) && Truthy(n.abstractText) && (Truthy(n.pdf) || Truthy(n.venue))
  }

  /** `isSubmission && !note.ddate`: a deletion date of 0 is falsy and does not exclude the note. */
  predicate IsKept(n: Note) {
    (HasSubmissionInvitation(n) || HasSubmissionContent(n)) && (n.ddate.None? || n.ddate.value == 0)
  }

  function KeptFn(): Note -> bool {
    (n: Note) => IsKept(n)
  }

  /** The submission notes, in the order the API returned them. */
  function SubmissionNotes(notes: seq<Note>): (r: seq<Note>)
    ensures IsSubsequence(r, notes)
    ensures forall n :: n in r <==> n in notes && IsKept(n)
  {
    FilterIsSubsequence(notes, KeptFn());
    Filter(notes, KeptFn())
  }

  // ---------------------------------------------------------------------------
  // One submission

  function Slug(n: Note): string {
    "openreview-" + n.id
  }

  function ForumUrl(id: string): string {
    "https://openreview.net/forum?id=" + id
  }

  function PdfUrl(id: string): string {
    "https://openreview.net/pdf?id=" + id
  }

  /** The returned LinkItem; source is always "openreview". Title, description and tags are JSON values. */
  datatype ReviewItem = ReviewItem(
    slug: string,
    target: string,
    shortUrl: string,
    title: JsText,
    description: Option<JsText>,
    tags: seq<JsText>,
    clicks: nat,
    createdAt: Option<string>)

  /** A new record points at the pdf when there is one, at the forum otherwise. */
  function NewTarget(n: Note): (t: string)
    ensures Truthy(n.pdf) ==> t == PdfUrl(n.id)
    ensures !Truthy(n.pdf) ==> t == ForumUrl(n.id)
  {
    if Truthy(n.pdf) then PdfUrl(n.id) else ForumUrl(n.id)
  }

  /** `[venue || "OpenReview"]`: the venue tag of a new record, never empty. */
  function NewTag(n: Note): (t: string)
    ensures t != ""
    ensures ExtractValue(n.venue) != "" ==> t == ExtractValue(n.venue)
  {
    if ExtractValue(n.venue) != "" then ExtractValue(n.venue) else "OpenReview"
  }

  /** The meta hash written for a new record. */
  function NewMetadata(n: Note, now: string): (m: Hash)
    ensures "permanent" in m && "createdAt" in m && "title" in m && "tags" in m
    ensures m["permanent"] == "0" && m["createdAt"] == now && m["title"] == ExtractValue(n.title)
    ensures "description" in m <==> ExtractValue(n.abstractText) != ""
    ensures "description" in m ==> m["description"] == ExtractValue(n.abstractText)
    ensures m["tags"] == NewTag(n)
    ensures m.Keys <= {"permanent", "createdAt", "title", "description", "tags"}
  {
    var base := map["permanent" := "0", "createdAt" := now, "title" := ExtractValue(n.title)];
    var withDescription := if ExtractValue(n.abstractText) != "" then base["description" := ExtractValue(n.abstractText)] else base;
    assert JoinTags([NewTag(n)]) == NewTag(n);
    withDescription["tags" := JoinTags([NewTag(n)])]
  }

  /**
    The item read back for a submission whose meta hash already holds fields,
    as written: a missing stored field falls back to the note's raw content
    field. The sync below reads back this way (StoredItemIntended is the
    read-back evidently meant).
  */
  function StoredItem(db: Db, n: Note): ReviewItem {
    var slug := Slug(n);
    var stored := MetaOf(db, slug);
    var target := if slug in db.link && db.link[slug] != "" then db.link[slug] else ForumUrl(n.id);
    ReviewItem(
      slug,
      target,
      "/" + slug,
      if FieldOrEmpty(stored, "title") != "" then Str(stored["title"]) else n.title,
      if FieldOrEmpty(stored, "description") != "" then Some(Str(stored["description"]))
      else if Truthy(n.abstractText) then Some(n.abstractText) else None,
      if FieldOrEmpty(stored, "tags") != "" then StrList(Split(stored["tags"], ','))
      else [if Truthy(n.venue) then n.venue else Str("OpenReview")],
      ClicksOf(db, slug),
      Field(stored, "createdAt"))
  }

  function StrList(xs: seq<string>): (r: seq<JsText>)
    ensures |r| == |xs| && forall i :: 0 <= i < |xs| ==> r[i] == Str(xs[i])
  {
    seq(|xs|, i requires 0 <= i < |xs| => Str(xs[i]))
  }

  /** The item returned for a new submission. */
  function NewItem(n: Note, now: string): ReviewItem {
    ReviewItem(
      Slug(n),
      NewTarget(n),
      "/" + Slug(n),
      Str(ExtractValue(n.title)),
      if ExtractValue(n.abstractText) != "" then Some(Str(ExtractValue(n.abstractText))) else None,
      [Str(NewTag(n))],
      0,
      Some(now))
  }

  /** A submission has stored metadata when its meta hash has at least one field. */
  predicate HasStoredMeta(db: Db, n: Note) {
    MetaOf(db, Slug(n)) != map[]
  }

  /** One submission: read back when stored, otherwise written with t.stored and returned with t.returned. */
  function SyncOne(db: Db, n: Note, t: Readings): (r: (Db, ReviewItem))
    ensures r.1.slug == Slug(n) && r.1.shortUrl == "/" + Slug(n)
    ensures HasStoredMeta(db, n) ==> r.0 == db
    ensures !HasStoredMeta(db, n) ==> r.0 == db.(link := db.link[Slug(n) := NewTarget(n)],
                                               meta := db.meta[Slug(n) := NewMetadata(n, t.stored)])
  {
    if HasStoredMeta(db, n) then (db, StoredItem(db, n))
    else
      var db1 := db.(link := db.link[Slug(n) := NewTarget(n)]);
      assert Merge(MetaOf(db1, Slug(n)), NewMetadata(n, t.stored)) == NewMetadata(n, t.stored);
      (db1.(meta := db1.meta[Slug(n) := NewMetadata(n, t.stored)]), NewItem(n, t.returned))
  }

  /** The submissions processed one after another; submission i takes the readings clock(i). */
  function SyncAll(db: Db, ns: seq<Note>, clock: nat -> Readings): (r: (Db, seq<ReviewItem>))
    ensures |r.1| == |ns|
    decreases |ns|
  {
    if ns == [] then (db, [])
    else
      var before := SyncAll(db, ns[..|ns| - 1], clock);
      var one := SyncOne(before.0, ns[|ns| - 1], clock(|ns| - 1));
      (one.0, before.1 + [one.1])
  }

  /** One more submission syncs against the store the earlier ones left. */
  lemma SyncAllStep(db: Db, ns: seq<Note>, i: nat, clock: nat -> Readings)
    requires i < |ns|
    ensures var before := SyncAll(db, ns[..i], clock);
      var one := SyncOne(before.0, ns[i], clock(i));
      SyncAll(db, ns[..i + 1], clock) == (one.0, before.1 + [one.1])
  {
    assert ns[..i + 1][..i] == ns[..i];
  }

  /** getOpenReviewSubmissions: [] for an empty user id or a failed fetch, else the synced submissions. */
  function SubmissionsSpec(db: Db, userId: string, notes: Option<seq<Note>>, clock: nat -> Readings): (r: (Db, seq<ReviewItem>))
    ensures userId == "" || notes.None? ==> r == (db, [])
  {
    if userId == "" || notes.None? then (db, [])
    else SyncAll(db, SubmissionNotes(notes.value), clock)
  }

  // ---------------------------------------------------------------------------
  // Properties

  /**
    Syncing touches only the submission's link and meta keys, never its
    click counter or any collection, and a second sync of the same note
    writes nothing: the first one left a non-empty meta hash.
  */
  lemma SyncOneThenStored(db: Db, n: Note, t: Readings)
    ensures var db1 := SyncOne(db, n, t).0;
      && HasStoredMeta(db1, n)
      && SyncOne(db1, n, t).0 == db1
      && db1.count == db.count && db1.collection == db.collection
      && (forall k :: k != Slug(n) ==> (k in db1.link <==> k in db.link) && (k in db1.meta <==> k in db.meta))
  {
    var db1 := SyncOne(db, n, t).0;
    if !HasStoredMeta(db, n) {
      assert "permanent" in MetaOf(db1, Slug(n));
    }
  }

  /** Stored metadata takes precedence: its non-empty fields are what the item shows. */
  lemma StoredTakesPrecedence(db: Db, n: Note, t: Readings)
    requires HasStoredMeta(db, n)
    ensures var it := SyncOne(db, n, t).1;
      var stored := MetaOf(db, Slug(n));
      && ("title" in stored && stored["title"] != "" ==> it.title == Str(stored["title"]))
      && ("description" in stored && stored["description"] != "" ==> it.description == Some(Str(stored["description"])))
      && ("tags" in stored && stored["tags"] != "" ==> it.tags == StrList(Split(stored["tags"], ',')))
      && it.clicks == ClicksOf(db, Slug(n))
  {
  }

  /** A new record's item and meta hash agree: the same title, description and single tag. */
  lemma NewItemMatchesMeta(db: Db, n: Note, t: Readings)
    requires !HasStoredMeta(db, n)
    requires ',' !in ExtractValue(n.venue)
    ensures var (db1, it) := SyncOne(db, n, t);
      var m := db1.meta[Slug(n)];
      && db1.link[Slug(n)] == it.target
      && it.title == Str(m["title"])
      && (it.description.Some? <==> "description" in m)
      && (it.description.Some? ==> it.description.value == Str(m["description"]))
      && ReadTags(m["tags"]) == [NewTag(n)]
      && it.tags == StrList(ReadTags(m["tags"]))
  {
    var t := NewTag(n);
    NewTagHasNoComma(n);
    assert JoinTags([t]) == t;
    SplitNoSep(t, ',');
  }

  /** The new-record tag is the venue or "OpenReview"; it holds a comma only if the venue does. */
  lemma NewTagHasNoComma(n: Note)
    requires ',' !in ExtractValue(n.venue)
    ensures ',' !in NewTag(n)
  {
  }

  /** The processed notes are exactly the kept ones, each giving one item in order. */
  lemma SubmissionsOrder(db: Db, userId: string, notes: seq<Note>, clock: nat -> Readings)
    requires userId != ""
    ensures var items := SubmissionsSpec(db, userId, Some(notes), clock).1;
      var subs := SubmissionNotes(notes);
      && |items| == |subs|
      && forall i :: 0 <= i < |subs| ==> items[i].slug == Slug(subs[i])
  {
    SyncAllSlugs(db, SubmissionNotes(notes), clock);
  }

  lemma {:induction false} SyncAllSlugs(db: Db, ns: seq<Note>, clock: nat -> Readings)
    ensures forall i :: 0 <= i < |ns| ==> SyncAll(db, ns, clock).1[i].slug == Slug(ns[i])
    decreases |ns|
  {
    if ns != [] {
      SyncAllSlugs(db, ns[..|ns| - 1], clock);
    }
  }

  // ---------------------------------------------------------------------------
  // The handler

  /** One element of the Promise.all map, run to completion before the next. */
  method SyncNote(st: Store, n: Note, t: Readings) returns (item: ReviewItem)
    modifies st
    ensures (st.Snapshot(), item) == SyncOne(old(st.Snapshot()), n, t)
  {
    var slug := "openreview-" + n.id;
    var storedMeta := MetaOf(st.Snapshot(), slug);
    if storedMeta != map[] {
      item := StoredItem(st.Snapshot(), n);
      return;
    }
    var target := if Truthy(n.pdf) then PdfUrl(n.id) else ForumUrl(n.id);
    st.SetLink(slug, target);
    var metadata := NewMetadata(n, t.stored);
    assert Merge(MetaOf(st.Snapshot(), slug), metadata) == metadata;
    st.HSetMeta(slug, metadata);
    item := NewItem(n, t.returned);
  }

  /** getOpenReviewSubmissions for a user whose notes were fetched (None when any request failed). */
  method GetSubmissions(st: Store, userId: string, notes: Option<seq<Note>>, clock: nat -> Readings)
    returns (items: seq<ReviewItem>)
    modifies st
    ensures (st.Snapshot(), items) == SubmissionsSpec(old(st.Snapshot()), userId, notes, clock)
  {
    if userId == "" || notes.None? {
      return [];
    }
    var subs := SubmissionNotes(notes.value);
    ghost var db0 := st.Snapshot();
    items := [];
    var i := 0;
    while i < |subs|
      invariant 0 <= i <= |subs|
      invariant (st.Snapshot(), items) == SyncAll(db0, subs[..i], clock)
    {
      SyncAllStep(db0, subs, i, clock);
      var item := SyncNote(st, subs[i], clock(i));
      items := items + [item];
      i := i + 1;
    }
    assert subs[..|subs|] == subs;
  }

  // ---------------------------------------------------------------------------
  // Stored records fall back to raw content fields

  /**
    As written, a stored record without a title shows the note's raw title
    field, which the notes API sends as a { value } wrapper: the item's title
    is then an object, not a string.
  */
  lemma StoredTitleMayBeObject()
    ensures var n := Note("x", None, Boxed("T"), Missing, Missing, Missing, None);
      var db := Db(map[], map["openreview-x" := map["createdAt" := "2024"]], map[], map[]);
      HasStoredMeta(db, n) && SyncOne(db, n, Readings("now", "now")).1.title == Boxed("T")
  {
    var n := Note("x", None, Boxed("T"), Missing, Missing, Missing, None);
    var db := Db(map[], map["openreview-x" := map["createdAt" := "2024"]], map[], map[]);
    assert Slug(n) == "openreview-x";
    assert "createdAt" in MetaOf(db, Slug(n));
  }

  /** The stored-record item with every fallback passed through extractValue, as the new-record path does. */
  function StoredItemIntended(db: Db, n: Note): ReviewItem {
    var slug := Slug(n);
    var stored := MetaOf(db, slug);
    var target := if slug in db.link && db.link[slug] != "" then db.link[slug] else ForumUrl(n.id);
    ReviewItem(
      slug,
      target,
      "/" + slug,
      Str(if FieldOrEmpty(stored, "title") != "" then stored["title"] else ExtractValue(n.title)),
      if FieldOrEmpty(stored, "description") != "" then Some(Str(stored["description"]))
      else if ExtractValue(n.abstractText) != "" then Some(Str(ExtractValue(n.abstractText))) else None,
      if FieldOrEmpty(stored, "tags") != "" then StrList(Split(stored["tags"], ','))
      else [Str(NewTag(n))],
      ClicksOf(db, slug),
      Field(stored, "createdAt"))
  }

  /** Corrected, every title, description and tag of a stored record is a plain string. */
  lemma StoredItemIntendedIsText(db: Db, n: Note)
    ensures var it := StoredItemIntended(db, n);
      && it.title.Str?
      && (it.description.Some? ==> it.description.value.Str? && it.description.value.s != "")
      && (forall t :: t in it.tags ==> t.Str?)
  {
  }

  /** Corrected and as written agree when the note's fields are plain strings. */
  lemma StoredItemAgreesOnPlainFields(db: Db, n: Note)
    requires n.title.Str? && (n.abstractText.Str? || n.abstractText.Missing?) && (n.venue.Str? || n.venue.Missing?)
    ensures StoredItemIntended(db, n) == StoredItem(db, n)
  {
  }
}
