/**
  ORCID ingestion: each work group the ORCID works API returned for an id
  becomes an "orcid-<put-code>" link. A work whose meta hash already holds
  fields is read back from the store and nothing is written; a new one gets
  its link and meta hash. The works request is outside the model: the
  groups arrive as a parameter, None standing for a failed response.
*/
module Orcid {
  import opened Strings
  import opened Seqs
  import opened Wrappers
  import opened KeyValueStore

  /** One external id of a work. */
  datatype ExternalId = ExternalId(idType: string, url: string)

  /**
    The fields of a work summary the ingestion reads. shortDescription and
    url are "" when absent; journalTitle is None when the journal-title
    object is absent and holds its value otherwise.
  */
  datatype Work = Work(
    putCode: nat,
    title: string,
    journalTitle: Option<string>,
    shortDescription: string,
    url: string,
    externalIds: seq<ExternalId>)

  /** One returned LinkItem; source is always "orcid". */
  datatype OrcidItem = OrcidItem(
    slug: string,
    target: string,
    shortUrl: string,
    title: string,
    description: Option<string>,
    tags: seq<string>,
    clicks: nat,
    createdAt: Option<string>)

  function Slug(w: Work): string {
    "orcid-" + NatToString(w.putCode)
  }

  /** `externalIds.find(id => id["external-id-type"] === "doi")`. */
  function FindDoi(ids: seq<ExternalId>): (r: Option<ExternalId>)
    ensures r.None? <==> forall i :: 0 <= i < |ids| ==> ids[i].idType != "doi"
    ensures r.Some? ==> r.value in ids && r.value.idType == "doi"
    decreases |ids|
  {
    if ids == [] then None
    else if ids[0].idType == "doi" then Some(ids[0])
    else
      var r := FindDoi(ids[1..]);
      assert r.None? ==> forall i :: 1 <= i < |ids| ==> ids[i] == ids[1..][i - 1];
      r
  }

  /** The id found is the first DOI: every id before it has another type. */
  lemma {:induction false} FindDoiFirst(ids: seq<ExternalId>)
    requires FindDoi(ids).Some?
    ensures exists i :: 0 <= i < |ids| && ids[i] == FindDoi(ids).value
                        && forall j :: 0 <= j < i ==> ids[j].idType != "doi"
    decreases |ids|
  {
    if ids[0].idType != "doi" {
      FindDoiFirst(ids[1..]);
      var i :| 0 <= i < |ids[1..]| && ids[1..][i] == FindDoi(ids[1..]).value
               && forall j :: 0 <= j < i ==> ids[1..][j].idType != "doi";
      assert ids[i + 1] == FindDoi(ids).value;
      forall j | 0 <= j < i + 1 ensures ids[j].idType != "doi" {
        if j > 0 {
          assert ids[j] == ids[1..][j - 1];
        }
      }
    } else {
      assert ids[0] == FindDoi(ids).value;
    }
  }

  /** The DOI's URL, else the work URL, else the ORCID profile. */
  function Target(w: Work, orcidId: string): (t: string)
    ensures FindDoi(w.externalIds).Some? ==> t == FindDoi(w.externalIds).value.url
    ensures FindDoi(w.externalIds).None? && w.url != "" ==> t == w.url
    ensures FindDoi(w.externalIds).None? && w.url == "" ==> t == "https://orcid.org/" + orcidId
  {
    match FindDoi(w.externalIds)
    case Some(doi) => doi.url
    case None => if w.url != "" then w.url else "https://orcid.org/" + orcidId
  }

  /** `short-description || journal-title?.value`, absent when both are empty. */
  function Description(w: Work): (d: Option<string>)
    ensures w.shortDescription != "" ==> d == Some(w.shortDescription)
    ensures w.shortDescription == "" && w.journalTitle.Some? && w.journalTitle.value != "" ==> d == Some(w.journalTitle.value)
    ensures d.None? <==> w.shortDescription == "" && (w.journalTitle.None? || w.journalTitle.value == "")
  {
    if w.shortDescription != "" then Some(w.shortDescription)
    else if w.journalTitle.Some? && w.journalTitle.value != "" then Some(w.journalTitle.value)
    else None
  }

  /** `journal-title ? [journal-title.value] : []`: the object's presence decides, even with an empty value. */
  function Tags(w: Work): (t: seq<string>)
    ensures |t| <= 1
    ensures w.journalTitle.Some? ==> t == [w.journalTitle.value]
    ensures w.journalTitle.None? ==> t == []
  {
    if w.journalTitle.Some? then [w.journalTitle.value] else []
  }

  /** The meta hash written for a new work. */
  function NewMetadata(w: Work, now: string): (m: Hash)
    ensures "permanent" in m && m["permanent"] == "0"
    ensures "createdAt" in m && m["createdAt"] == now
    ensures "title" in m && m["title"] == w.title
    ensures "description" in m <==> Description(w).Some?
    ensures "description" in m ==> m["description"] == Description(w).value
    ensures "tags" in m <==> w.journalTitle.Some?
    ensures "tags" in m ==> m["tags"] == JoinTags(Tags(w))
  {
    var base := map["permanent" := "0", "createdAt" := now, "title" := w.title];
    var withDescription := if Description(w).Some? then base["description" := Description(w).value] else base;
    if |Tags(w)| > 0 then withDescription["tags" := JoinTags(Tags(w))] else withDescription
  }

  predicate HasStoredMeta(db: Db, w: Work) {
    MetaOf(db, Slug(w)) != map[]
  }

  /** The item read back for a work whose meta hash already holds fields. */
  function StoredItem(db: Db, w: Work): OrcidItem {
    var slug := Slug(w);
    var stored := MetaOf(db, slug);
    OrcidItem(
      slug,
      if slug in db.link then db.link[slug] else "",
      "/" + slug,
      if FieldOrEmpty(stored, "title") != "" then stored["title"] else w.title,
      if FieldOrEmpty(stored, "description") != "" then Some(stored["description"]) else Description(w),
      if FieldOrEmpty(stored, "tags") != "" then Split(stored["tags"], ',') else Tags(w),
      ClicksOf(db, slug),
      Field(stored, "createdAt"))
  }

  /** The item returned for a new work. */
  function NewItem(w: Work, orcidId: string, now: string): OrcidItem {
    OrcidItem(Slug(w), Target(w, orcidId), "/" + Slug(w), w.title, Description(w), Tags(w), 0, Some(now))
  }

  /** One work: read back when stored, otherwise written with t.stored and returned with t.returned. */
  function SyncOne(db: Db, w: Work, orcidId: string, t: Readings): (r: (Db, OrcidItem))
    ensures r.1.slug == Slug(w) && r.1.shortUrl == "/" + Slug(w)
    ensures HasStoredMeta(db, w) ==> r == (db, StoredItem(db, w))
    ensures !HasStoredMeta(db, w) ==> r.0 == db.(link := db.link[Slug(w) := Target(w, orcidId)],
                                               meta := db.meta[Slug(w) := NewMetadata(w, t.stored)])
  {
    if HasStoredMeta(db, w) then (db, StoredItem(db, w))
    else
      var db1 := db.(link := db.link[Slug(w) := Target(w, orcidId)]);
      assert Merge(MetaOf(db1, Slug(w)), NewMetadata(w, t.stored)) == NewMetadata(w, t.stored);
      (db1.(meta := db1.meta[Slug(w) := NewMetadata(w, t.stored)]), NewItem(w, orcidId, t.returned))
  }

  /** The works processed one after another; work i takes the readings clock(i). */
  function SyncAll(db: Db, ws: seq<Work>, orcidId: string, clock: nat -> Readings): (r: (Db, seq<OrcidItem>))
    ensures |r.1| == |ws|
    decreases |ws|
  {
    if ws == [] then (db, [])
    else
      var before := SyncAll(db, ws[..|ws| - 1], orcidId, clock);
      var one := SyncOne(before.0, ws[|ws| - 1], orcidId, clock(|ws| - 1));
      (one.0, before.1 + [one.1])
  }

  /** `workGroup["work-summary"][0]` of every group that has one. */
  function FirstWorks(groups: seq<seq<Work>>): (r: seq<Work>)
    ensures |r| <= |groups|
    decreases |groups|
  {
    if groups == [] then []
    else
      var last := groups[|groups| - 1];
      FirstWorks(groups[..|groups| - 1]) + (if last == [] then [] else [last[0]])
  }

  /**
    getOrcidWorks: [] for an empty id or a failed fetch. A group without a
    work summary throws, which turns the result into [] while the other
    groups' writes still happen.
  */
  function WorksSpec(db: Db, orcidId: string, groups: Option<seq<seq<Work>>>, clock: nat -> Readings): (r: (Db, seq<OrcidItem>))
    ensures orcidId == "" || groups.None? ==> r == (db, [])
    ensures groups.Some? && ([] in groups.value) ==> r.1 == []
  {
    if orcidId == "" || groups.None? then (db, [])
    else
      var (db1, items) := SyncAll(db, FirstWorks(groups.value), orcidId, clock);
      (db1, if [] in groups.value then [] else items)
  }

  // ---------------------------------------------------------------------------
  // Properties

  /** Stored metadata takes precedence over the work's own fields, and nothing is written. */
  lemma StoredTakesPrecedence(db: Db, w: Work, orcidId: string, t: Readings)
    requires HasStoredMeta(db, w)
    ensures var (db1, it) := SyncOne(db, w, orcidId, t);
      var stored := MetaOf(db, Slug(w));
      && db1 == db
      && ("title" in stored && stored["title"] != "" ==> it.title == stored["title"])
      && ("description" in stored && stored["description"] != "" ==> it.description == Some(stored["description"]))
      && ("tags" in stored && stored["tags"] != "" ==> it.tags == Split(stored["tags"], ','))
      && it.clicks == ClicksOf(db, Slug(w))
  {
  }

  /**
    Reading a freshly written work back shows the same item except for
    createdAt, when the journal title holds no comma, the work had no clicks
    and the stored clock text is not empty: the stored fields reproduce every
    derived one. The re-read createdAt is the reading stored in the meta
    hash, which equals the one first returned only when the clock did not
    move between the two readings.
  */
  lemma ResyncShowsSameItem(db: Db, w: Work, orcidId: string, t: Readings, later: Readings)
    requires !HasStoredMeta(db, w)
    requires w.journalTitle.Some? ==> ',' !in w.journalTitle.value
    requires ClicksOf(db, Slug(w)) == 0 && t.stored != ""
    ensures var (db1, it) := SyncOne(db, w, orcidId, t);
      && HasStoredMeta(db1, w)
      && SyncOne(db1, w, orcidId, later) == (db1, it.(createdAt := Some(t.stored)))
      && (SyncOne(db1, w, orcidId, later).1 == it <==> t.stored == t.returned)
  {
    var (db1, it) := SyncOne(db, w, orcidId, t);
    var m := NewMetadata(w, t.stored);
    assert MetaOf(db1, Slug(w)) == m;
    if w.journalTitle.Some? {
      var j := w.journalTitle.value;
      assert JoinTags([j]) == j;
      if j != "" {
        SplitNoSep(j, ',');
      }
    }
  }

  /** The processed works are the first summaries of the groups, one item each, in order. */
  lemma {:induction false} SyncAllSlugs(db: Db, ws: seq<Work>, orcidId: string, clock: nat -> Readings)
    ensures forall i :: 0 <= i < |ws| ==> SyncAll(db, ws, orcidId, clock).1[i].slug == Slug(ws[i])
    decreases |ws|
  {
    if ws != [] {
      SyncAllSlugs(db, ws[..|ws| - 1], orcidId, clock);
    }
  }

  /** With every group holding a summary, there is one item per group, its slug the first put-code's. */
  lemma {:induction false} FirstWorksAll(groups: seq<seq<Work>>)
    requires forall i :: 0 <= i < |groups| ==> groups[i] != []
    ensures |FirstWorks(groups)| == |groups|
    ensures forall i :: 0 <= i < |groups| ==> FirstWorks(groups)[i] == groups[i][0]
    decreases |groups|
  {
    if groups != [] {
      FirstWorksAll(groups[..|groups| - 1]);
    }
  }

  /** One more group: its first work is processed after the earlier ones, or it marks the result failed. */
  lemma GroupStep(db: Db, gs: seq<seq<Work>>, i: nat, orcidId: string, clock: nat -> Readings)
    requires i < |gs|
    ensures ([] in gs[..i + 1]) <==> ([] in gs[..i] || gs[i] == [])
    ensures gs[i] == [] ==> FirstWorks(gs[..i + 1]) == FirstWorks(gs[..i])
    ensures gs[i] != [] ==>
      var before := SyncAll(db, FirstWorks(gs[..i]), orcidId, clock);
      var one := SyncOne(before.0, gs[i][0], orcidId, clock(|before.1|));
      SyncAll(db, FirstWorks(gs[..i + 1]), orcidId, clock) == (one.0, before.1 + [one.1])
  {
    assert gs[..i + 1] == gs[..i] + [gs[i]];
    assert gs[..i + 1][..i] == gs[..i];
    if gs[i] != [] {
      var works := FirstWorks(gs[..i]);
      assert FirstWorks(gs[..i + 1]) == works + [gs[i][0]];
      assert (works + [gs[i][0]])[..|works|] == works;
    }
  }

  // ---------------------------------------------------------------------------
  // The handler

  /** One element of the Promise.all map, run to completion before the next. */
  method SyncWork(st: Store, w: Work, orcidId: string, t: Readings) returns (item: OrcidItem)
    modifies st
    ensures (st.Snapshot(), item) == SyncOne(old(st.Snapshot()), w, orcidId, t)
  {
    var slug := "orcid-" + NatToString(w.putCode);
    var storedMeta := MetaOf(st.Snapshot(), slug);
    if storedMeta != map[] {
      item := StoredItem(st.Snapshot(), w);
      return;
    }
    var target := Target(w, orcidId);
    st.SetLink(slug, target);
    var metadata := NewMetadata(w, t.stored);
    assert Merge(MetaOf(st.Snapshot(), slug), metadata) == metadata;
    st.HSetMeta(slug, metadata);
    item := NewItem(w, orcidId, t.returned);
  }

  /** getOrcidWorks for an id whose works were fetched (None when the request failed). */
  method GetOrcidWorks(st: Store, orcidId: string, groups: Option<seq<seq<Work>>>, clock: nat -> Readings)
    returns (items: seq<OrcidItem>)
    modifies st
    ensures (st.Snapshot(), items) == WorksSpec(old(st.Snapshot()), orcidId, groups, clock)
  {
    if orcidId == "" || groups.None? {
      return [];
    }
    var gs := groups.value;
    ghost var db0 := st.Snapshot();
    items := [];
    var failed := false;
    var i := 0;
    while i < |gs|
      invariant 0 <= i <= |gs|
      invariant (st.Snapshot(), items) == SyncAll(db0, FirstWorks(gs[..i]), orcidId, clock)
      invariant failed <==> [] in gs[..i]
    {
      GroupStep(db0, gs, i, orcidId, clock);
      if gs[i] == [] {
        failed := true;
      } else {
        var item := SyncWork(st, gs[i][0], orcidId, clock(|items|));
        items := items + [item];
      }
      i := i + 1;
    }
    assert gs[..|gs|] == gs;
    if failed {
      items := [];
    }
  }
}
