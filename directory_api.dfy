/**
  The public directory endpoint (GET /api/directory): every stored link with
  its target, clicks, short URL and metadata, most clicked first, or a 500
  reply when the database cannot be read.
*/
module DirectoryApi {
  import opened Strings
  import opened Seqs
  import opened Wrappers
  import opened KeyValueStore

  /** One directory entry; absent or empty metadata fields are null. */
  datatype DirEntry = DirEntry(
    slug: string,
    target: Option<string>,
    clicks: nat,
    shortUrl: string,
    title: Option<string>,
    description: Option<string>,
    tags: seq<string>,
    createdAt: Option<string>)

  datatype DirectoryResponse =
    | Listing(links: seq<DirEntry>, total: nat)
    | FetchFailed(error: string)

  /** The entry built for one key. */
  function DirEntryOf(db: Db, slug: string): (e: DirEntry)
    ensures e.slug == slug && e.clicks == ClicksOf(db, slug)
    ensures e.shortUrl == "/" + slug
    ensures e.target.Some? <==> slug in db.link
    ensures e.target.Some? ==> e.target.value == db.link[slug]
    ensures e.tags == TagsOf(MetaOf(db, slug))
  {
    var meta := MetaOf(db, slug);
    DirEntry(
      slug,
      if slug in db.link then Some(db.link[slug]) else None,
      ClicksOf(db, slug),
      "/" + slug,
      Field(meta, "title"),
      Field(meta, "description"),
      TagsOf(meta),
      Field(meta, "createdAt"))
  }

  /** `keys.map(...)` under Promise.all: one entry per key, in key order. */
  function DirEntries(db: Db, keys: seq<string>): (r: seq<DirEntry>)
    ensures |r| == |keys| && forall i :: 0 <= i < |keys| ==> r[i] == DirEntryOf(db, keys[i])
  {
    seq(|keys|, i requires 0 <= i < |keys| => DirEntryOf(db, keys[i]))
  }

  function EntryClicks(): DirEntry -> int {
    (e: DirEntry) => e.clicks as int
  }

  /** The reply; `reachable` is false when a database call fails, which the handler turns into a 500. */
  function DirectorySpec(db: Db, keys: seq<string>, reachable: bool): (r: DirectoryResponse)
    ensures !reachable <==> r == FetchFailed("Failed to fetch links")
    ensures r.Listing? ==> r.total == |r.links| == |keys|
  {
    if !reachable then FetchFailed("Failed to fetch links")
    else
      var links := Sort(DirEntries(db, keys), ByKeyDesc(EntryClicks()));
      Listing(links, |links|)
  }

  /**
    The listing holds each key's entry exactly once (for distinct keys), most
    clicked first, and every stored link appears.
  */
  lemma ListingFacts(db: Db, keys: seq<string>)
    requires NoDup(keys)
    requires forall s :: s in keys <==> s in db.link
    ensures var r := DirectorySpec(db, keys, true).links;
      && NoDup(r)
      && (forall e :: e in r <==> e.slug in db.link && e == DirEntryOf(db, e.slug))
      && (forall i, j :: 0 <= i < j < |r| ==> r[i].clicks >= r[j].clicks)
  {
    var es := DirEntries(db, keys);
    var r := DirectorySpec(db, keys, true).links;
    assert NoDup(es) by {
      forall i, j | 0 <= i < j < |es| ensures es[i] != es[j] {
        assert es[i].slug == keys[i] && es[j].slug == keys[j];
      }
    }
    ByKeyDescTotal(EntryClicks());
    SortDistinct(es, ByKeyDesc(EntryClicks()));
    forall e ensures e in r <==> e.slug in db.link && e == DirEntryOf(db, e.slug) {
      if e.slug in db.link && e == DirEntryOf(db, e.slug) {
        var i :| 0 <= i < |keys| && keys[i] == e.slug;
        assert es[i] == e;
      }
    }
    forall i, j | 0 <= i < j < |r| ensures r[i].clicks >= r[j].clicks {
      assert ByKeyDesc(EntryClicks())(r[i], r[j]);
    }
  }

  /** GET /api/directory. */
  method GetDirectory(st: Store, keys: seq<string>, reachable: bool) returns (resp: DirectoryResponse)
    ensures resp == DirectorySpec(st.Snapshot(), keys, reachable)
  {
    if !reachable {
      return FetchFailed("Failed to fetch links");
    }
    var db := st.Snapshot();
    var links := DirEntries(db, keys);
    links := Sort(links, ByKeyDesc(EntryClicks()));
    resp := Listing(links, |links|);
  }
}
