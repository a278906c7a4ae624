/**
  The admin statistics endpoint (GET /api/stats): one pass over the link
  keys counts links, clicks and link sources, tallies tags, collects the
  links created since the start of the reporting period and every link as
  a candidate top performer; the two lists are then sorted and cut to ten.
*/
module StatsApi {
  import opened Strings
  import opened Seqs
  import opened Wrappers
  import opened KeyValueStore
  import opened TagQueries
  import opened SearchApi

  /** One element of recentActivity; lastAccessed is the creation time in milliseconds. */
  datatype Activity = Activity(slug: string, clicks: nat, lastAccessed: int)

  /** One element of topPerformers; title is absent when the meta hash has none. */
  datatype Performer = Performer(slug: string, clicks: nat, title: Option<string>)

  // ---------------------------------------------------------------------------
  // Per-link values

  /**
    `meta.createdAt ? new Date(meta.createdAt) : null`, as a time in
    milliseconds: None for an absent or empty field and for a string `parse`
    rejects (an invalid Date, which compares false with every date).
  */
  function CreatedAt(h: Hash, parse: string -> Option<int>): (r: Option<int>)
    ensures FieldOrEmpty(h, "createdAt") == "" ==> r == None
    ensures FieldOrEmpty(h, "createdAt") != "" ==> r == parse(h["createdAt"])
  {
    if FieldOrEmpty(h, "createdAt") == "" then None else parse(h["createdAt"])
  }

  /** The recentActivity entry a link contributes, when it was created at or after periodStart. */
  function ActivityOf(db: Db, slug: string, parse: string -> Option<int>, periodStart: int): (r: Option<Activity>)
    ensures r.Some? <==> CreatedAt(MetaOf(db, slug), parse).Some? && CreatedAt(MetaOf(db, slug), parse).value >= periodStart
    ensures r.Some? ==> r.value.slug == slug && r.value.clicks == ClicksOf(db, slug)
                        && r.value.lastAccessed == CreatedAt(MetaOf(db, slug), parse).value
  {
    match CreatedAt(MetaOf(db, slug), parse)
    case None => None
    case Some(t) => if t >= periodStart then Some(Activity(slug, ClicksOf(db, slug), t)) else None
  }

  /** The topPerformers candidate a link contributes. */
  function PerformerOf(db: Db, slug: string): (p: Performer)
    ensures p.slug == slug && p.clicks == ClicksOf(db, slug)
    ensures p.title.Some? <==> "title" in MetaOf(db, slug)
  {
    var h := MetaOf(db, slug);
    Performer(slug, ClicksOf(db, slug), if "title" in h then Some(h["title"]) else None)
  }

  /** recentActivity before sorting: the qualifying links, in key order. */
  function Activities(db: Db, keys: seq<string>, parse: string -> Option<int>, periodStart: int): (r: seq<Activity>)
    ensures |r| <= |keys|
    decreases |keys|
  {
    if keys == [] then []
    else
      var init := keys[..|keys| - 1];
      Activities(db, init, parse, periodStart)
        + match ActivityOf(db, keys[|keys| - 1], parse, periodStart)
          case None => []
          case Some(a) => [a]
  }

  /** topPerformers before sorting: one candidate per key, in key order. */
  function Performers(db: Db, keys: seq<string>): seq<Performer>
    decreases |keys|
  {
    if keys == [] then []
    else Performers(db, keys[..|keys| - 1]) + [PerformerOf(db, keys[|keys| - 1])]
  }

  /** An activity is collected exactly when some key contributes it. */
  lemma {:induction false} ActivitiesIff(db: Db, keys: seq<string>, parse: string -> Option<int>, periodStart: int, a: Activity)
    ensures a in Activities(db, keys, parse, periodStart) <==>
              exists k :: k in keys && ActivityOf(db, k, parse, periodStart) == Some(a)
    decreases |keys|
  {
    if keys != [] {
      var init := keys[..|keys| - 1];
      var last := keys[|keys| - 1];
      ActivitiesIff(db, init, parse, periodStart, a);
      assert keys == init + [last];
      if a in Activities(db, keys, parse, periodStart) && a !in Activities(db, init, parse, periodStart) {
        assert ActivityOf(db, last, parse, periodStart) == Some(a);
      }
    }
  }

  /** The i-th candidate is the i-th key's. */
  lemma {:induction false} PerformersAt(db: Db, keys: seq<string>)
    ensures |Performers(db, keys)| == |keys|
    ensures forall i :: 0 <= i < |keys| ==> Performers(db, keys)[i] == PerformerOf(db, keys[i])
    decreases |keys|
  {
    if keys != [] {
      PerformersAt(db, keys[..|keys| - 1]);
    }
  }

  // ---------------------------------------------------------------------------
  // The response

  function ActivityTime(): Activity -> int {
    (a: Activity) => a.lastAccessed
  }

  function PerformerClicks(): Performer -> int {
    (p: Performer) => p.clicks as int
  }

  /** The ten newest qualifying links, newest first. */
  function RecentActivity(db: Db, keys: seq<string>, parse: string -> Option<int>, periodStart: int): seq<Activity> {
    Take(Sort(Activities(db, keys, parse, periodStart), ByKeyDesc(ActivityTime())), 10)
  }

  /** The ten most clicked links, most clicked first. */
  function TopPerformers(db: Db, keys: seq<string>): seq<Performer> {
    Take(Sort(Performers(db, keys), ByKeyDesc(PerformerClicks())), 10)
  }

  function SourceIs(s: Source): string -> bool {
    (slug: string) => SourceOf(slug) == s
  }

  /**
    avgClicksPerLink in hundredths: Math.round(clicks / links * 100), that is
    the floor of clicks * 100 / links + 1/2; zero when there are no links.
  */
  function AvgCents(clicks: nat, links: nat): (r: nat)
    ensures links == 0 ==> r == 0
    ensures links > 0 ==> r * (2 * links) <= 200 * clicks + links < (r + 1) * (2 * links)
  {
    if links == 0 then 0 else (200 * clicks + links) / (2 * links)
  }

  /** `searchParams.get("period") || "all"`. */
  function PeriodName(period: string): (r: string)
    ensures r != ""
    ensures period != "" ==> r == period
  {
    if period == "" then "all" else period
  }

  datatype AdminStats = AdminStats(
    totalLinks: nat,
    totalClicks: nat,
    manual: nat,
    orcid: nat,
    openreview: nat,
    tags: seq<TagCount>,
    recentActivity: seq<Activity>,
    topPerformers: seq<Performer>,
    period: string,
    avgClicksPerLinkCents: nat,
    uniqueTags: nat)

  /** Every key is counted under exactly one source. */
  lemma {:induction false} SourcesPartition(keys: seq<string>)
    ensures Count(keys, SourceIs(Manual)) + Count(keys, SourceIs(Orcid)) + Count(keys, SourceIs(OpenReview)) == |keys|
    decreases |keys|
  {
    if keys != [] {
      SourcesPartition(keys[..|keys| - 1]);
    }
  }

  /** The whole response for the given link keys, period name and period start. */
  function StatsSpec(db: Db, keys: seq<string>, period: string, parse: string -> Option<int>, periodStart: int): (r: AdminStats)
    ensures r.totalLinks == |keys|
    ensures r.manual + r.orcid + r.openreview == r.totalLinks
    ensures r.uniqueTags == |set t | t in Occurrences(db, keys)|
    ensures |r.recentActivity| <= 10 && |r.topPerformers| <= 10
    ensures r.totalLinks == 0 ==> r.totalClicks == 0 && r.avgClicksPerLinkCents == 0
  {
    SourcesPartition(keys);
    SumOfNonNegative(keys, ClicksFn(db));
    var occ := Occurrences(db, keys);
    UniqueTagsCount(occ);
    var clicks := SumOf(keys, ClicksFn(db)) as nat;
    AdminStats(
      |keys|,
      clicks,
      Count(keys, SourceIs(Manual)),
      Count(keys, SourceIs(Orcid)),
      Count(keys, SourceIs(OpenReview)),
      TagEntries(occ),
      RecentActivity(db, keys, parse, periodStart),
      TopPerformers(db, keys),
      PeriodName(period),
      AvgCents(clicks, |keys|),
      |TagEntries(occ)|)
  }

  // ---------------------------------------------------------------------------
  // What the lists promise

  /**
    recentActivity: at most ten links created at or after periodStart, each
    with its own clicks and creation time, newest first.
  */
  lemma RecentActivityFacts(db: Db, keys: seq<string>, parse: string -> Option<int>, periodStart: int)
    ensures var r := RecentActivity(db, keys, parse, periodStart);
      && |r| <= 10
      && (forall i :: 0 <= i < |r| ==>
            r[i].slug in keys && ActivityOf(db, r[i].slug, parse, periodStart) == Some(r[i])
            && r[i].lastAccessed >= periodStart)
      && (forall i, j :: 0 <= i < j < |r| ==> r[i].lastAccessed >= r[j].lastAccessed)
  {
    var s := Sort(Activities(db, keys, parse, periodStart), ByKeyDesc(ActivityTime()));
    var r := RecentActivity(db, keys, parse, periodStart);
    ByKeyDescTotal(ActivityTime());
    SortFacts(Activities(db, keys, parse, periodStart), ByKeyDesc(ActivityTime()));
    forall i | 0 <= i < |r|
      ensures r[i].slug in keys && ActivityOf(db, r[i].slug, parse, periodStart) == Some(r[i])
    {
      assert r[i] == s[i] && s[i] in s;
      ActivitiesIff(db, keys, parse, periodStart, r[i]);
    }
    forall i, j | 0 <= i < j < |r| ensures r[i].lastAccessed >= r[j].lastAccessed {
      assert r[i] == s[i] && r[j] == s[j];
      assert ByKeyDesc(ActivityTime())(s[i], s[j]);
    }
  }

  /** A qualifying link missing from recentActivity means the list is full and the link is no newer than the tenth. */
  lemma RecentActivityComplete(db: Db, keys: seq<string>, parse: string -> Option<int>, periodStart: int, k: string, a: Activity)
    requires k in keys && ActivityOf(db, k, parse, periodStart) == Some(a)
    requires forall i :: 0 <= i < |RecentActivity(db, keys, parse, periodStart)| ==> RecentActivity(db, keys, parse, periodStart)[i].slug != k
    ensures |RecentActivity(db, keys, parse, periodStart)| == 10
    ensures RecentActivity(db, keys, parse, periodStart)[9].lastAccessed >= a.lastAccessed
  {
    var all := Activities(db, keys, parse, periodStart);
    var s := Sort(all, ByKeyDesc(ActivityTime()));
    var r := RecentActivity(db, keys, parse, periodStart);
    ByKeyDescTotal(ActivityTime());
    SortFacts(all, ByKeyDesc(ActivityTime()));
    ActivitiesIff(db, keys, parse, periodStart, a);
    assert a in s;
    assert a !in r by {
      forall i | 0 <= i < |r| ensures r[i] != a {
        assert r[i].slug != k;
      }
    }
    TakeOmits(s, 10, a, ByKeyDesc(ActivityTime()));
  }

  /**
    topPerformers: at most ten distinct links, each with its own clicks and
    title, most clicked first.
  */
  lemma TopPerformersFacts(db: Db, keys: seq<string>)
    requires NoDup(keys)
    ensures var r := TopPerformers(db, keys);
      && |r| <= 10
      && (forall i :: 0 <= i < |r| ==> r[i].slug in keys && r[i] == PerformerOf(db, r[i].slug))
      && (forall i, j :: 0 <= i < j < |r| ==> r[i].clicks >= r[j].clicks && r[i].slug != r[j].slug)
  {
    var ps := Performers(db, keys);
    var s := Sort(ps, ByKeyDesc(PerformerClicks()));
    var r := TopPerformers(db, keys);
    PerformersAt(db, keys);
    assert NoDup(ps) by {
      forall i, j | 0 <= i < j < |ps| ensures ps[i] != ps[j] {
        assert ps[i].slug == keys[i] && ps[j].slug == keys[j];
      }
    }
    ByKeyDescTotal(PerformerClicks());
    SortDistinct(ps, ByKeyDesc(PerformerClicks()));
    TakeNoDup(s, 10);
    forall i | 0 <= i < |r| ensures r[i].slug in keys && r[i] == PerformerOf(db, r[i].slug) {
      assert r[i] == s[i] && s[i] in ps;
      var k :| 0 <= k < |ps| && ps[k] == r[i];
    }
    forall i, j | 0 <= i < j < |r| ensures r[i].clicks >= r[j].clicks && r[i].slug != r[j].slug {
      assert r[i] == s[i] && r[j] == s[j];
      assert ByKeyDesc(PerformerClicks())(s[i], s[j]);
      assert r[i] != r[j];
      assert r[i] == PerformerOf(db, r[i].slug) && r[j] == PerformerOf(db, r[j].slug);
    }
  }

  /** A link missing from topPerformers means the list is full and the link has no more clicks than the tenth. */
  lemma TopPerformersComplete(db: Db, keys: seq<string>, k: string)
    requires k in keys
    requires forall i :: 0 <= i < |TopPerformers(db, keys)| ==> TopPerformers(db, keys)[i].slug != k
    ensures |TopPerformers(db, keys)| == 10 && ClicksOf(db, k) <= TopPerformers(db, keys)[9].clicks
  {
    var ps := Performers(db, keys);
    var s := Sort(ps, ByKeyDesc(PerformerClicks()));
    var r := TopPerformers(db, keys);
    var p := PerformerOf(db, k);
    PerformersAt(db, keys);
    var i :| 0 <= i < |keys| && keys[i] == k;
    assert ps[i] == p;
    ByKeyDescTotal(PerformerClicks());
    SortFacts(ps, ByKeyDesc(PerformerClicks()));
    assert p in s;
    assert p !in r by {
      forall j | 0 <= j < |r| ensures r[j] != p {
        assert r[j].slug != k;
      }
    }
    TakeOmits(s, 10, p, ByKeyDesc(PerformerClicks()));
  }

  // ---------------------------------------------------------------------------
  // The handler

  /** The running totals of the scan: clicks, one count per source and both candidate lists. */
  datatype Scan = Scan(clicks: int, manual: nat, orcid: nat, openreview: nat,
                       recent: seq<Activity>, top: seq<Performer>)

  /** What the scan has gathered from the given keys. */
  function ScanOf(db: Db, keys: seq<string>, parse: string -> Option<int>, periodStart: int): Scan {
    Scan(SumOf(keys, ClicksFn(db)), Count(keys, SourceIs(Manual)), Count(keys, SourceIs(Orcid)),
         Count(keys, SourceIs(OpenReview)), Activities(db, keys, parse, periodStart), Performers(db, keys))
  }

  /** The totals after one more key: its clicks, exactly one source, its activity if any, and its candidate. */
  function AddKey(s: Scan, db: Db, slug: string, parse: string -> Option<int>, periodStart: int): Scan {
    Scan(s.clicks + ClicksOf(db, slug),
         s.manual + (if SourceOf(slug) == Manual then 1 else 0),
         s.orcid + (if SourceOf(slug) == Orcid then 1 else 0),
         s.openreview + (if SourceOf(slug) == OpenReview then 1 else 0),
         s.recent + (match ActivityOf(db, slug, parse, periodStart) case None => [] case Some(a) => [a]),
         s.top + [PerformerOf(db, slug)])
  }

  /** Scanning one more key adds exactly that key to the totals. */
  lemma ScanStep(db: Db, keys: seq<string>, i: nat, parse: string -> Option<int>, periodStart: int)
    requires i < |keys|
    ensures ScanOf(db, keys[..i + 1], parse, periodStart) == AddKey(ScanOf(db, keys[..i], parse, periodStart), db, keys[i], parse, periodStart)
  {
    assert keys[..i + 1][..i] == keys[..i];
  }

  /** The loop body for one key, apart from the tag tally. */
  method ScanKey(db: Db, slug: string, parse: string -> Option<int>, periodStart: int, s: Scan)
    returns (r: Scan)
    ensures r == AddKey(s, db, slug, parse, periodStart)
  {
    var totalClicks, manual, orcid, openreview, recent, top := s.clicks, s.manual, s.orcid, s.openreview, s.recent, s.top;
    var meta := MetaOf(db, slug);
    var clicks := ClicksOf(db, slug);
    totalClicks := totalClicks + clicks;
    if StartsWith(slug, "orcid-") {
      orcid := orcid + 1;
    } else if StartsWith(slug, "openreview-") {
      openreview := openreview + 1;
    } else {
      manual := manual + 1;
    }
    var createdAt := CreatedAt(meta, parse);
    if createdAt.Some? && createdAt.value >= periodStart {
      recent := recent + [Activity(slug, clicks, createdAt.value)];
    }
    top := top + [Performer(slug, clicks, if "title" in meta then Some(meta["title"]) else None)];
    r := Scan(totalClicks, manual, orcid, openreview, recent, top);
  }

  /** The scan over the keys: totals, sources, tag tally and both candidate lists. */
  method ScanLinks(db: Db, keys: seq<string>, parse: string -> Option<int>, periodStart: int)
    returns (totalClicks: int, manual: nat, orcid: nat, openreview: nat,
             counts: map<string, nat>, order: seq<string>,
             recent: seq<Activity>, top: seq<Performer>)
    ensures totalClicks == SumOf(keys, ClicksFn(db))
    ensures manual == Count(keys, SourceIs(Manual))
    ensures orcid == Count(keys, SourceIs(Orcid))
    ensures openreview == Count(keys, SourceIs(OpenReview))
    ensures Tallies(counts, order, Occurrences(db, keys))
    ensures recent == Activities(db, keys, parse, periodStart)
    ensures top == Performers(db, keys)
  {
    counts, order := map[], [];
    var s := Scan(0, 0, 0, 0, [], []);
    var i := 0;
    while i < |keys|
      invariant 0 <= i <= |keys|
      invariant s == ScanOf(db, keys[..i], parse, periodStart)
      invariant Tallies(counts, order, Occurrences(db, keys[..i]))
    {
      ScanStep(db, keys, i, parse, periodStart);
      OccurrencesSnoc(db, keys, i);
      s := ScanKey(db, keys[i], parse, periodStart, s);
      counts, order := TallyLink(counts, order, TagsOf(MetaOf(db, keys[i])), Occurrences(db, keys[..i]));
      i := i + 1;
    }
    assert keys[..|keys|] == keys;
    totalClicks, manual, orcid, openreview, recent, top := s.clicks, s.manual, s.orcid, s.openreview, s.recent, s.top;
  }

  /** GET /api/stats for an authorised caller. */
  method GetStats(st: Store, keys: seq<string>, period: string, parse: string -> Option<int>, periodStart: int)
    returns (r: AdminStats)
    ensures r == StatsSpec(st.Snapshot(), keys, period, parse, periodStart)
  {
    var db := st.Snapshot();
    var totalClicks, manual, orcid, openreview, counts, order, recent, top := ScanLinks(db, keys, parse, periodStart);
    SumOfNonNegative(keys, ClicksFn(db));
    TallyEntries(counts, order, Occurrences(db, keys));
    ObjectKeyOrderFacts(order);
    var tags := Entries(counts, order);
    recent := Take(Sort(recent, ByKeyDesc(ActivityTime())), 10);
    top := Take(Sort(top, ByKeyDesc(PerformerClicks())), 10);
    var avg := AvgCents(totalClicks as nat, |keys|);
    r := AdminStats(|keys|, totalClicks as nat, manual, orcid, openreview, tags, recent, top,
               PeriodName(period), avg, |order|);
  }
}
