/**
  The public project listing: the search, source and tag filters over the
  initial links, the four sort orders, the collections drawn from the
  filtered (or, on a collection match, the initial) links, and the
  standalone links that no rendered collection shows. The 300 ms debounce
  and the React rendering are outside the model; the state the effect
  updates is a class.
*/
module SearchableProjects {
  import opened Strings
  import opened Seqs
  import opened Wrappers

  datatype LinkSource = ManualSource | OrcidSource

  datatype SourceFilter = AllSources | OnlySource(source: LinkSource)

  /** A listed link; createdAt is "" when null or absent. */
  datatype LinkItem = LinkItem(
    slug: string,
    target: string,
    shortUrl: string,
    title: Option<string>,
    description: Option<string>,
    tags: seq<string>,
    source: LinkSource,
    clicks: nat,
    createdAt: string)

  /** A collection; createdAt is "" when null. */
  datatype CollectionItem = CollectionItem(
    id: string,
    name: string,
    description: string,
    projects: seq<string>,
    tags: Option<seq<string>>,
    createdAt: string)

  datatype SortBy = AlphabeticalAsc | AlphabeticalDesc | Newest | Oldest

  /** The search query, source filter and selected tag (None is null). */
  datatype Filters = Filters(query: string, source: SourceFilter, tag: Option<string>)

  // ---------------------------------------------------------------------------
  // sortItems

  /**
    The comparator of sortItems, for items whose sort name is `name` (the
    title or name, else the slug, else "") and whose creation text is
    `created`; timeOf stands for `new Date(x).getTime()`.
  */
  function ItemCompare<T>(order: SortBy, name: T -> string, created: T -> string, timeOf: string -> int, a: T, b: T): int {
    match order
    case AlphabeticalAsc => StrCmp(name(a), name(b))
    case AlphabeticalDesc => StrCmp(name(b), name(a))
    case Newest =>
      if created(a) != "" && created(b) != "" then timeOf(created(b)) - timeOf(created(a))
      else StrCmp(name(b), name(a))
    case Oldest =>
      if created(a) != "" && created(b) != "" then timeOf(created(a)) - timeOf(created(b))
      else StrCmp(name(a), name(b))
  }

  function ItemOrder<T(!new)>(order: SortBy, name: T -> string, created: T -> string, timeOf: string -> int): (T, T) -> bool {
    (a: T, b: T) => ItemCompare(order, name, created, timeOf, a, b) <= 0
  }

  /** `[...items].sort(...)`: a sorted copy holding exactly the items, each as often. */
  function SortItems<T(!new)>(items: seq<T>, order: SortBy, name: T -> string, created: T -> string, timeOf: string -> int): (r: seq<T>)
    ensures multiset(r) == multiset(items)
  {
    Sort(items, ItemOrder(order, name, created, timeOf))
  }

  /** The alphabetical orders are total preorders, so the result is in name order. */
  lemma AlphabeticalOrder<T(!new)>(items: seq<T>, order: SortBy, name: T -> string, created: T -> string, timeOf: string -> int)
    requires order == AlphabeticalAsc || order == AlphabeticalDesc
    ensures var r := SortItems(items, order, name, created, timeOf);
      forall i, j :: 0 <= i < j < |r| ==>
        if order == AlphabeticalAsc then StrLe(name(r[i]), name(r[j])) else StrLe(name(r[j]), name(r[i]))
  {
    var le := ItemOrder(order, name, created, timeOf);
    forall a: T, b: T ensures le(a, b) || le(b, a) {
      StrLeTotal(name(a), name(b));
    }
    forall a: T, b: T, c: T | le(a, b) && le(b, c) ensures le(a, c) {
      if order == AlphabeticalAsc {
        StrLeTrans(name(a), name(b), name(c));
      } else {
        StrLeTrans(name(c), name(b), name(a));
      }
    }
    SortSorted(items, le);
  }

  function TimeKey<T>(created: T -> string, timeOf: string -> int, sign: int): T -> int {
    (x: T) => sign * timeOf(created(x))
  }

  /** When every item has a creation date, newest and oldest order by time. */
  lemma DatedOrder<T(!new)>(items: seq<T>, order: SortBy, name: T -> string, created: T -> string, timeOf: string -> int)
    requires order == Newest || order == Oldest
    requires forall x :: x in items ==> created(x) != ""
    ensures var r := SortItems(items, order, name, created, timeOf);
      forall i, j :: 0 <= i < j < |r| ==>
        if order == Newest then timeOf(created(r[i])) >= timeOf(created(r[j]))
        else timeOf(created(r[i])) <= timeOf(created(r[j]))
  {
    var key := TimeKey(created, timeOf, if order == Newest then 1 else -1);
    SortCongruent(items, ItemOrder(order, name, created, timeOf), ByKeyDesc(key));
    SortByKeyDesc(items, key);
  }

  /** Every item may precede itself, in every mode. */
  lemma ItemOrderReflexive<T(!new)>(order: SortBy, name: T -> string, created: T -> string, timeOf: string -> int, a: T)
    ensures ItemOrder(order, name, created, timeOf)(a, a)
  {
    StrLeRefl(name(a));
  }

  // ---------------------------------------------------------------------------
  // Links

  /** `link.title || link.slug || ""`. */
  function LinkName(): LinkItem -> string {
    (l: LinkItem) => if l.title.Some? && l.title.value != "" then l.title.value else l.slug
  }

  function LinkCreated(): LinkItem -> string {
    (l: LinkItem) => l.createdAt
  }

  /**
    Newest order is not transitive once dated and undated links mix: x may
    precede y and y may precede z by name, while z precedes x by date, so
    the order the sort leaves them in depends on the JavaScript engine.
  */
  lemma NewestNotTransitive(timeOf: string -> int)
    requires timeOf("2024") == 1 && timeOf("2025") == 2
    ensures var x := LinkItem("c", "", "", None, None, [], ManualSource, 0, "2024");
      var y := LinkItem("b", "", "", None, None, [], ManualSource, 0, "");
      var z := LinkItem("a", "", "", None, None, [], ManualSource, 0, "2025");
      var le := ItemOrder(Newest, LinkName(), LinkCreated(), timeOf);
      le(x, y) && le(y, z) && !le(x, z)
  {
    assert StrLe("b", "c");
    assert StrLe("a", "b");
  }

  // ---------------------------------------------------------------------------
  // The filter pipeline

  /** The query is a case-insensitive substring of the slug, target, title, description or a tag. */
  predicate QueryMatch(q: string, l: LinkItem) {
    || ContainsCI(l.slug, q)
    || ContainsCI(l.target, q)
    || (l.title.Some? && ContainsCI(l.title.value, q))
    || (l.description.Some? && ContainsCI(l.description.value, q))
    || exists t :: t in l.tags && ContainsCI(t, q)
  }

  predicate SourceMatch(f: SourceFilter, l: LinkItem) {
    f.AllSources? || l.source == f.source
  }

  /** Some tag equals the selected one, ignoring case. */
  predicate TagMatch(tag: string, l: LinkItem) {
    exists t :: t in l.tags && EqualsCI(t, tag)
  }

  /** `selectedTag` is truthy. */
  predicate TagActive(tag: Option<string>) {
    tag.Some? && tag.value != ""
  }

  predicate Passes(f: Filters, l: LinkItem) {
    && (f.query == "" || QueryMatch(f.query, l))
    && SourceMatch(f.source, l)
    && (!TagActive(f.tag) || TagMatch(f.tag.value, l))
  }

  function PassesFn(f: Filters): LinkItem -> bool {
    (l: LinkItem) => Passes(f, l)
  }

  function QueryFn(q: string): LinkItem -> bool {
    (l: LinkItem) => QueryMatch(q, l)
  }

  function SourceFn(f: SourceFilter): LinkItem -> bool {
    (l: LinkItem) => SourceMatch(f, l)
  }

  function TagFn(tag: string): LinkItem -> bool {
    (l: LinkItem) => TagMatch(tag, l)
  }

  predicate NoFilters(f: Filters) {
    f.query == "" && f.source == AllSources && !TagActive(f.tag)
  }

  /** The three filters applied one after the other, each only when active. */
  function FilterLinks(links: seq<LinkItem>, f: Filters): seq<LinkItem> {
    if NoFilters(f) then links
    else TagStep(SourceStep(QueryStep(links, f), f), f)
  }

  function QueryStage(f: Filters): LinkItem -> bool {
    (l: LinkItem) => f.query == "" || QueryMatch(f.query, l)
  }

  function SourceStage(f: Filters): LinkItem -> bool {
    (l: LinkItem) => (f.query == "" || QueryMatch(f.query, l)) && SourceMatch(f.source, l)
  }

  function QueryStep(links: seq<LinkItem>, f: Filters): seq<LinkItem> {
    if f.query != "" then Filter(links, QueryFn(f.query)) else links
  }

  function SourceStep(a: seq<LinkItem>, f: Filters): seq<LinkItem> {
    if f.source != AllSources then Filter(a, SourceFn(f.source)) else a
  }

  function TagStep(b: seq<LinkItem>, f: Filters): seq<LinkItem> {
    if TagActive(f.tag) then Filter(b, TagFn(f.tag.value)) else b
  }

  lemma QueryStepFilters(links: seq<LinkItem>, f: Filters)
    ensures QueryStep(links, f) == Filter(links, QueryStage(f))
  {
    if f.query == "" {
      FilterAll(links, QueryStage(f));
    } else {
      FilterCongruent(links, QueryFn(f.query), QueryStage(f));
    }
  }

  lemma SourceStepFilters(links: seq<LinkItem>, f: Filters)
    ensures SourceStep(Filter(links, QueryStage(f)), f) == Filter(links, SourceStage(f))
  {
    if f.source != AllSources {
      FilterFilter(links, QueryStage(f), SourceFn(f.source));
      FilterCongruent(links, x => QueryStage(f)(x) && SourceFn(f.source)(x), SourceStage(f));
    } else {
      FilterCongruent(links, QueryStage(f), SourceStage(f));
    }
  }

  lemma TagStepFilters(links: seq<LinkItem>, f: Filters)
    ensures TagStep(Filter(links, SourceStage(f)), f) == Filter(links, PassesFn(f))
  {
    if TagActive(f.tag) {
      FilterFilter(links, SourceStage(f), TagFn(f.tag.value));
      FilterCongruent(links, x => SourceStage(f)(x) && TagFn(f.tag.value)(x), PassesFn(f));
    } else {
      FilterCongruent(links, SourceStage(f), PassesFn(f));
    }
  }

  /**
    The pipeline is one order-preserving filter by every active condition,
    and with no filter active it returns the links themselves.
  */
  lemma FilterLinksFacts(links: seq<LinkItem>, f: Filters)
    ensures FilterLinks(links, f) == Filter(links, PassesFn(f))
    ensures NoFilters(f) ==> FilterLinks(links, f) == links
  {
    QueryStepFilters(links, f);
    SourceStepFilters(links, f);
    TagStepFilters(links, f);
    if NoFilters(f) {
      FilterAll(links, PassesFn(f));
    } else {
      assert FilterLinks(links, f) == TagStep(SourceStep(QueryStep(links, f), f), f);
    }
  }

  /** Every listed link's tags, in order (`flatMap(link => link.tags || [])`). */
  function AllTags(links: seq<LinkItem>): (r: seq<string>)
    decreases |links|
  {
    if links == [] then [] else AllTags(links[..|links| - 1]) + links[|links| - 1].tags
  }

  lemma {:induction false} AllTagsIff(links: seq<LinkItem>, t: string)
    ensures t in AllTags(links) <==> exists l :: l in links && t in l.tags
    decreases |links|
  {
    if links != [] {
      var init := links[..|links| - 1];
      AllTagsIff(init, t);
      assert links == init + [links[|links| - 1]];
      if exists l :: l in links && t in l.tags {
        var l :| l in links && t in l.tags;
        if l != links[|links| - 1] {
          assert l in init;
        }
      }
    }
  }

  // ---------------------------------------------------------------------------
  // Collections

  datatype RenderedCollection = RenderedCollection(collection: CollectionItem, collectionProjects: seq<LinkItem>)

  /** A query is set and the collection's name or description contains it, ignoring case. */
  predicate MatchesCollectionName(c: CollectionItem, q: string) {
    q != "" && (ContainsCI(c.name, q) || ContainsCI(c.description, q))
  }

  /** A tag is selected (possibly "") and one of the collection's tags equals it, ignoring case. */
  predicate MatchesCollectionTag(c: CollectionItem, tag: Option<string>) {
    tag.Some? && c.tags.Some? && exists t :: t in c.tags.value && EqualsCI(t, tag.value)
  }

  function MemberFn(c: CollectionItem): LinkItem -> bool {
    (l: LinkItem) => l.slug in c.projects
  }

  /** Membership, the source filter and the tag filter: the query does not apply. */
  function DirectMemberFn(c: CollectionItem, f: Filters): LinkItem -> bool {
    (l: LinkItem) =>
      l.slug in c.projects && SourceMatch(f.source, l) && (!TagActive(f.tag) || TagMatch(f.tag.value, l))
  }

  /** The projects a collection shows, sorted like the links. */
  function CollectionProjects(c: CollectionItem, initial: seq<LinkItem>, sorted: seq<LinkItem>, f: Filters, order: SortBy, timeOf: string -> int): seq<LinkItem> {
    var base :=
      if MatchesCollectionName(c, f.query) || MatchesCollectionTag(c, f.tag) then Filter(initial, DirectMemberFn(c, f))
      else Filter(sorted, MemberFn(c));
    SortItems(base, order, LinkName(), LinkCreated(), timeOf)
  }

  /**
    A matching collection draws its members from all initial links, subject
    only to the source and tag filters; any other collection shows only
    members among the filtered, sorted links.
  */
  lemma CollectionProjectsSource(c: CollectionItem, initial: seq<LinkItem>, sorted: seq<LinkItem>, f: Filters, order: SortBy, timeOf: string -> int)
    ensures var ps := CollectionProjects(c, initial, sorted, f, order, timeOf);
      if MatchesCollectionName(c, f.query) || MatchesCollectionTag(c, f.tag) then
        forall l :: l in ps <==>
          l in initial && l.slug in c.projects && SourceMatch(f.source, l) && (!TagActive(f.tag) || TagMatch(f.tag.value, l))
      else
        forall l :: l in ps <==> l in sorted && l.slug in c.projects
  {
    var base :=
      if MatchesCollectionName(c, f.query) || MatchesCollectionTag(c, f.tag) then Filter(initial, DirectMemberFn(c, f))
      else Filter(sorted, MemberFn(c));
    var ps := CollectionProjects(c, initial, sorted, f, order, timeOf);
    forall l ensures l in ps <==> l in base {
      assert l in ps <==> l in multiset(ps);
      assert l in base <==> l in multiset(base);
    }
  }

  /** A rendered collection's name, for sortItems with the "name" key (collections have no slug). */
  function CollectionName(): RenderedCollection -> string {
    (r: RenderedCollection) => r.collection.name
  }

  function CollectionCreated(): RenderedCollection -> string {
    (r: RenderedCollection) => r.collection.createdAt
  }

  /** `sortItems([a, b], sortBy, "name")[0] === a ? -1 : 1`. */
  function PairCompare(order: SortBy, timeOf: string -> int, a: RenderedCollection, b: RenderedCollection): int {
    if SortItems([a, b], order, CollectionName(), CollectionCreated(), timeOf)[0] == a then -1 else 1
  }

  function PairOrder(order: SortBy, timeOf: string -> int): (RenderedCollection, RenderedCollection) -> bool {
    (a: RenderedCollection, b: RenderedCollection) => PairCompare(order, timeOf, a, b) <= 0
  }

  /** Sorting a pair and asking which came first is the item order itself. */
  lemma PairCompareIsItemOrder(order: SortBy, timeOf: string -> int, a: RenderedCollection, b: RenderedCollection)
    ensures PairOrder(order, timeOf)(a, b) <==> ItemOrder(order, CollectionName(), CollectionCreated(), timeOf)(a, b)
  {
    var le := ItemOrder(order, CollectionName(), CollectionCreated(), timeOf);
    ItemOrderReflexive(order, CollectionName(), CollectionCreated(), timeOf, a);
    assert [a, b][1..] == [b];
    assert Sort([b], le) == [b] by {
      assert [b][1..] == [];
    }
  }

  /**
    The comparator is not antisymmetric: two collections that tie in the
    item order (the same name, or the same date in the date orders) compare
    as -1 both ways, so the order a sort leaves them in is up to the
    JavaScript engine, not the stable order Sort gives.
  */
  lemma PairCompareTies(order: SortBy, timeOf: string -> int, a: RenderedCollection, b: RenderedCollection)
    requires ItemOrder(order, CollectionName(), CollectionCreated(), timeOf)(a, b)
    requires ItemOrder(order, CollectionName(), CollectionCreated(), timeOf)(b, a)
    ensures PairCompare(order, timeOf, a, b) == -1 && PairCompare(order, timeOf, b, a) == -1
  {
    PairCompareIsItemOrder(order, timeOf, a, b);
    PairCompareIsItemOrder(order, timeOf, b, a);
  }

  function NonEmptyFn(): RenderedCollection -> bool {
    (r: RenderedCollection) => |r.collectionProjects| > 0
  }

  /** collectionsToRender: each collection with its projects, the empty ones dropped, then sorted. */
  function CollectionsToRender(cs: seq<CollectionItem>, initial: seq<LinkItem>, sorted: seq<LinkItem>, f: Filters, order: SortBy, timeOf: string -> int): seq<RenderedCollection> {
    Sort(Filter(AllRendered(cs, initial, sorted, f, order, timeOf), NonEmptyFn()), PairOrder(order, timeOf))
  }

  function AllRendered(cs: seq<CollectionItem>, initial: seq<LinkItem>, sorted: seq<LinkItem>, f: Filters, order: SortBy, timeOf: string -> int): (all: seq<RenderedCollection>)
    ensures |all| == |cs|
    ensures forall i :: 0 <= i < |cs| ==>
      all[i] == RenderedCollection(cs[i], CollectionProjects(cs[i], initial, sorted, f, order, timeOf))
  {
    seq(|cs|, i requires 0 <= i < |cs| =>
      RenderedCollection(cs[i], CollectionProjects(cs[i], initial, sorted, f, order, timeOf)))
  }

  /** Every rendered collection is one of the collections, with its non-empty project list. */
  lemma RenderedAreNonEmpty(cs: seq<CollectionItem>, initial: seq<LinkItem>, sorted: seq<LinkItem>, f: Filters, order: SortBy, timeOf: string -> int)
    ensures var rs := CollectionsToRender(cs, initial, sorted, f, order, timeOf);
      forall r :: r in rs ==>
        && |r.collectionProjects| > 0
        && r.collection in cs
        && r.collectionProjects == CollectionProjects(r.collection, initial, sorted, f, order, timeOf)
  {
    var all := AllRendered(cs, initial, sorted, f, order, timeOf);
    assert CollectionsToRender(cs, initial, sorted, f, order, timeOf) == Sort(Filter(all, NonEmptyFn()), PairOrder(order, timeOf));
    SortSameElements(Filter(all, NonEmptyFn()), PairOrder(order, timeOf));
    forall r | r in all ensures r.collection in cs
      && r.collectionProjects == CollectionProjects(r.collection, initial, sorted, f, order, timeOf)
    {
      var i :| 0 <= i < |all| && all[i] == r;
    }
  }

  /** Every collection with at least one project is rendered. */
  lemma NonEmptyAreRendered(cs: seq<CollectionItem>, initial: seq<LinkItem>, sorted: seq<LinkItem>, f: Filters, order: SortBy, timeOf: string -> int, c: CollectionItem)
    requires c in cs && |CollectionProjects(c, initial, sorted, f, order, timeOf)| > 0
    ensures RenderedCollection(c, CollectionProjects(c, initial, sorted, f, order, timeOf)) in CollectionsToRender(cs, initial, sorted, f, order, timeOf)
  {
    var all := AllRendered(cs, initial, sorted, f, order, timeOf);
    assert CollectionsToRender(cs, initial, sorted, f, order, timeOf) == Sort(Filter(all, NonEmptyFn()), PairOrder(order, timeOf));
    SortSameElements(Filter(all, NonEmptyFn()), PairOrder(order, timeOf));
    var i :| 0 <= i < |cs| && cs[i] == c;
    assert all[i] in all;
  }

  // ---------------------------------------------------------------------------
  // Standalone links

  function SlugSet(ps: seq<LinkItem>): set<string> {
    set p | p in ps :: p.slug
  }

  /** shownInCollections: the slugs of every rendered collection's projects. */
  function ShownSlugs(rs: seq<RenderedCollection>): set<string>
    decreases |rs|
  {
    if rs == [] then {} else ShownSlugs(rs[..|rs| - 1]) + SlugSet(rs[|rs| - 1].collectionProjects)
  }

  lemma {:induction false} ShownSlugsIff(rs: seq<RenderedCollection>, slug: string)
    ensures slug in ShownSlugs(rs) <==>
      exists i, p :: 0 <= i < |rs| && p in rs[i].collectionProjects && p.slug == slug
    decreases |rs|
  {
    if rs != [] {
      var n := |rs| - 1;
      ShownSlugsIff(rs[..n], slug);
      if slug in ShownSlugs(rs[..n]) {
        var i, p :| 0 <= i < n && p in rs[..n][i].collectionProjects && p.slug == slug;
        assert rs[i] == rs[..n][i];
      }
      if exists i, p :: 0 <= i < |rs| && p in rs[i].collectionProjects && p.slug == slug {
        var i, p :| 0 <= i < |rs| && p in rs[i].collectionProjects && p.slug == slug;
        if i < n {
          assert rs[..n][i] == rs[i];
        }
      }
    }
  }

  /** The two nested forEach loops filling the set. */
  method ShownInCollections(rs: seq<RenderedCollection>) returns (shown: set<string>)
    ensures shown == ShownSlugs(rs)
  {
    shown := {};
    var i := 0;
    while i < |rs|
      invariant 0 <= i <= |rs|
      invariant shown == ShownSlugs(rs[..i])
    {
      var ps := rs[i].collectionProjects;
      var j := 0;
      while j < |ps|
        invariant 0 <= j <= |ps|
        invariant shown == ShownSlugs(rs[..i]) + SlugSet(ps[..j])
      {
        assert SlugSet(ps[..j + 1]) == SlugSet(ps[..j]) + {ps[j].slug} by {
          assert ps[..j + 1] == ps[..j] + [ps[j]];
        }
        shown := shown + {ps[j].slug};
        j := j + 1;
      }
      assert ps[..j] == ps;
      assert rs[..i + 1][..i] == rs[..i];
      i := i + 1;
    }
    assert rs[..i] == rs;
  }

  function NotShownFn(shown: set<string>): LinkItem -> bool {
    (l: LinkItem) => l.slug !in shown
  }

  function StandaloneLinks(sorted: seq<LinkItem>, rs: seq<RenderedCollection>): seq<LinkItem> {
    Filter(sorted, NotShownFn(ShownSlugs(rs)))
  }

  /**
    The standalone links keep the sorted order, share no slug with any
    project of a rendered collection, and every sorted link is either
    standalone or shown in some rendered collection.
  */
  lemma StandalonePartition(sorted: seq<LinkItem>, rs: seq<RenderedCollection>)
    ensures var st := StandaloneLinks(sorted, rs);
      && IsSubsequence(st, sorted)
      && (forall l, i, p :: l in st && 0 <= i < |rs| && p in rs[i].collectionProjects ==> p.slug != l.slug)
      && (forall l :: l in sorted ==>
            l in st || exists i, p :: 0 <= i < |rs| && p in rs[i].collectionProjects && p.slug == l.slug)
  {
    var st := StandaloneLinks(sorted, rs);
    FilterIsSubsequence(sorted, NotShownFn(ShownSlugs(rs)));
    forall l, i, p | l in st && 0 <= i < |rs| && p in rs[i].collectionProjects
      ensures p.slug != l.slug
    {
      ShownSlugsIff(rs, p.slug);
    }
    forall l | l in sorted && l !in st
      ensures exists i, p :: 0 <= i < |rs| && p in rs[i].collectionProjects && p.slug == l.slug
    {
      ShownSlugsIff(rs, l.slug);
    }
  }

  // ---------------------------------------------------------------------------
  // The component's state

  datatype Page = Page(collections: seq<RenderedCollection>, standalone: seq<LinkItem>)

  /** What one render shows for the current state. */
  function PageSpec(initial: seq<LinkItem>, cs: seq<CollectionItem>, filtered: seq<LinkItem>, f: Filters, order: SortBy, timeOf: string -> int): Page {
    var sorted := SortItems(filtered, order, LinkName(), LinkCreated(), timeOf);
    var rs := CollectionsToRender(cs, initial, sorted, f, order, timeOf);
    Page(rs, StandaloneLinks(sorted, rs))
  }

  class ProjectsView {
    const initialLinks: seq<LinkItem>
    const initialCollections: seq<CollectionItem>
    var searchQuery: string
    var sourceFilter: SourceFilter
    var selectedTag: Option<string>
    var filteredLinks: seq<LinkItem>
    var highlights: map<string, seq<string>>
    var sortBy: SortBy

    function CurrentFilters(): Filters
      reads this
    {
      Filters(searchQuery, sourceFilter, selectedTag)
    }

    /** The initial state: no filters, the initial links, alphabetical order. */
    constructor(links: seq<LinkItem>, collections: seq<CollectionItem>)
      ensures initialLinks == links && initialCollections == collections
      ensures searchQuery == "" && sourceFilter == AllSources && selectedTag == None
      ensures filteredLinks == links && highlights == map[] && sortBy == AlphabeticalAsc
    {
      initialLinks := links;
      initialCollections := collections;
      searchQuery := "";
      sourceFilter := AllSources;
      selectedTag := None;
      filteredLinks := links;
      highlights := map[];
      sortBy := AlphabeticalAsc;
    }

    /** performSearch: the filtered links for the current filters, and no highlights. */
    method PerformSearch()
      modifies this
      ensures filteredLinks == FilterLinks(initialLinks, CurrentFilters())
      ensures filteredLinks == Filter(initialLinks, PassesFn(CurrentFilters()))
      ensures highlights == map[]
      ensures searchQuery == old(searchQuery) && sourceFilter == old(sourceFilter)
      ensures selectedTag == old(selectedTag) && sortBy == old(sortBy)
    {
      var f := CurrentFilters();
      if searchQuery == "" && sourceFilter == AllSources && !(selectedTag.Some? && selectedTag.value != "") {
        filteredLinks := initialLinks;
        highlights := map[];
        FilterLinksFacts(initialLinks, f);
        return;
      }
      var filtered := initialLinks;
      if searchQuery != "" {
        filtered := Filter(filtered, QueryFn(searchQuery));
      }
      if sourceFilter != AllSources {
        filtered := Filter(filtered, SourceFn(sourceFilter));
      }
      if selectedTag.Some? && selectedTag.value != "" {
        filtered := Filter(filtered, TagFn(selectedTag.value));
      }
      filteredLinks := filtered;
      highlights := map[];
      FilterLinksFacts(initialLinks, f);
    }

    /** The render: sorted links, the collections to render and the standalone links. */
    method Render(timeOf: string -> int) returns (page: Page)
      ensures page == PageSpec(initialLinks, initialCollections, filteredLinks, CurrentFilters(), sortBy, timeOf)
    {
      var sorted := SortItems(filteredLinks, sortBy, LinkName(), LinkCreated(), timeOf);
      var rs := CollectionsToRender(initialCollections, initialLinks, sorted, CurrentFilters(), sortBy, timeOf);
      var shown := ShownInCollections(rs);
      page := Page(rs, Filter(sorted, NotShownFn(shown)));
    }
  }
}
