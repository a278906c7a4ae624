/**
  The search endpoint (GET /api/search): filters the links by source and
  tag, scores them against a query, highlights the matches and returns one
  page of the results, best score first.
*/
module SearchApi {
  import opened Strings
  import opened Seqs
  import opened Wrappers
  import opened KeyValueStore

  // ---------------------------------------------------------------------------
  // calculateRelevance

  function TagMatchFn(q: string): string -> bool {
    (t: string) => ContainsCI(t, q)
  }

  /**
    10 for a title containing the query and 5 more when it starts with it,
    5 for a description containing it, 3 per tag containing it; empty title
    and description never score.
  */
  function Score(q: string, title: string, description: string, tags: seq<string>): nat {
    (if title != "" && ContainsCI(title, q) then 10 + (if StartsWithCI(title, q) then 5 else 0) else 0)
    + (if description != "" && ContainsCI(description, q) then 5 else 0)
    + 3 * Count(tags, TagMatchFn(q))
  }

  /** The score is 0 exactly when neither title, description nor any tag contains the query. */
  lemma ScoreZeroIff(q: string, title: string, description: string, tags: seq<string>)
    ensures Score(q, title, description, tags) == 0 <==>
              && !(title != "" && ContainsCI(title, q))
              && !(description != "" && ContainsCI(description, q))
              && forall t :: t in tags ==> !ContainsCI(t, q)
  {
    CountZeroIff(tags, TagMatchFn(q));
  }

  /** A title that starts with a non-empty query scores at least 15. */
  lemma TitlePrefixScore(q: string, title: string, description: string, tags: seq<string>)
    requires q != "" && StartsWithCI(title, q)
    ensures Score(q, title, description, tags) >= 15
  {
    StartsWithContains(Lower(title), Lower(q));
  }

  /** calculateRelevance: the tag loop adds 3 per matching tag. */
  method CalculateRelevance(q: string, title: string, description: string, tags: seq<string>) returns (score: nat)
    ensures score == Score(q, title, description, tags)
  {
    var queryLower := Lower(q);
    score := 0;
    if title != "" && Contains(Lower(title), queryLower) {
      score := score + 10;
      if StartsWith(Lower(title), queryLower) {
        score := score + 5;
      }
    }
    if description != "" && Contains(Lower(description), queryLower) {
      score := score + 5;
    }
    ghost var base := score;
    var i := 0;
    while i < |tags|
      invariant 0 <= i <= |tags|
      invariant score == base + 3 * Count(tags[..i], TagMatchFn(q))
    {
      assert tags[..i + 1][..i] == tags[..i];
      if Contains(Lower(tags[i]), queryLower) {
        score := score + 3;
      }
      i := i + 1;
    }
    assert tags[..|tags|] == tags;
  }

  // ---------------------------------------------------------------------------
  // highlightText: text.match(new RegExp(escaped query, "gi")) || []

  /** The non-overlapping case-insensitive occurrences of q in text from index i, left to right. */
  function MatchesFrom(text: string, q: string, i: nat): (r: seq<string>)
    requires |q| > 0 && i <= |text|
    ensures forall m :: m in r ==> |m| == |q| && EqualsCI(m, q)
    decreases |text| - i
  {
    if i + |q| > |text| then []
    else if EqualsCI(text[i..i + |q|], q) then [text[i..i + |q|]] + MatchesFrom(text, q, i + |q|)
    else MatchesFrom(text, q, i + 1)
  }

  /**
    The query is matched literally (its metacharacters are escaped); an empty
    query matches the empty string at each of the |text| + 1 positions.
  */
  function HighlightText(text: string, q: string): (r: seq<string>)
    ensures forall m :: m in r ==> EqualsCI(m, q)
  {
    if text == "" then []
    else if q == "" then seq(|text| + 1, _ => "")
    else MatchesFrom(text, q, 0)
  }

  /** The lower-cased slice is the slice of the lower-cased text. */
  lemma LowerSlice(text: string, i: nat, j: nat)
    requires i <= j <= |text|
    ensures Lower(text[i..j]) == Lower(text)[i..j]
  {
  }

  lemma {:induction false} MatchesFromIff(text: string, q: string, i: nat)
    requires |q| > 0 && i <= |text|
    ensures MatchesFrom(text, q, i) != [] <==> exists j :: i <= j && OccursAt(Lower(text), Lower(q), j)
    decreases |text| - i
  {
    if i + |q| > |text| {
      forall j | i <= j ensures !OccursAt(Lower(text), Lower(q), j) {
      }
    } else {
      LowerSlice(text, i, i + |q|);
      if !EqualsCI(text[i..i + |q|], q) {
        MatchesFromIff(text, q, i + 1);
        assert !OccursAt(Lower(text), Lower(q), i);
      } else {
        assert OccursAt(Lower(text), Lower(q), i);
      }
    }
  }

  /** For a non-empty query, something is highlighted exactly when the text contains the query. */
  lemma HighlightIff(text: string, q: string)
    requires q != ""
    ensures HighlightText(text, q) != [] <==> ContainsCI(text, q)
  {
    ContainsIff(Lower(text), Lower(q));
    if text == "" {
      assert !OccursAt(Lower(text), Lower(q), 0);
    } else {
      MatchesFromIff(text, q, 0);
    }
  }

  // ---------------------------------------------------------------------------
  // Entries

  datatype Source = Manual | Orcid | OpenReview

  /** entrySource: by slug prefix, "orcid-" before "openreview-". */
  function SourceOf(slug: string): (s: Source)
    ensures s == Orcid <==> StartsWith(slug, "orcid-")
    ensures s == OpenReview <==> !StartsWith(slug, "orcid-") && StartsWith(slug, "openreview-")
  {
    if StartsWith(slug, "orcid-") then Orcid
    else if StartsWith(slug, "openreview-") then OpenReview
    else Manual
  }

  function SourceName(s: Source): string {
    match s
    case Manual => "manual"
    case Orcid => "orcid"
    case OpenReview => "openreview"
  }

  /** The query parameters; `q`, `tag` and `source` are "" when absent. */
  datatype SearchQuery = SearchQuery(q: string, tag: string, source: string, limit: Option<nat>, offset: Option<nat>)

  /** Math.min(limit || 20, 100). */
  function SearchLimit(p: SearchQuery): (n: nat)
    ensures n <= 100
    ensures p.limit.None? ==> n == 20
    ensures p.limit.Some? ==> n == if p.limit.value < 100 then p.limit.value else 100
  {
    var l := p.limit.GetOr(20);
    if l < 100 then l else 100
  }

  datatype Highlights = Highlights(title: seq<string>, description: seq<string>, tags: seq<string>)

  datatype SearchResult = SearchResult(
    slug: string,
    target: string,
    title: Option<string>,
    description: Option<string>,
    tags: seq<string>,
    source: Source,
    score: nat,
    highlights: Highlights)

  /** The tags of a search entry: every comma-separated piece, trimmed (blank pieces kept). */
  function SearchTags(h: Hash): seq<string> {
    TrimAll(TagsOf(h))
  }

  function TargetOf(db: Db, slug: string): string {
    if slug in db.link then db.link[slug] else ""
  }

  /** The score of a key's entry: its relevance with a query, 1 without. */
  function EntryScore(h: Hash, q: string): nat {
    if q != "" then Score(q, FieldOrEmpty(h, "title"), FieldOrEmpty(h, "description"), SearchTags(h)) else 1
  }

  /** The `continue` conditions of the loop, negated. */
  predicate Kept(db: Db, slug: string, p: SearchQuery) {
    var h := MetaOf(db, slug);
    && TargetOf(db, slug) != ""
    && (p.source == "" || SourceName(SourceOf(slug)) == p.source)
    && (p.tag == "" || p.tag in SearchTags(h))
    && (p.q == "" || EntryScore(h, p.q) != 0)
  }

  /** The result object pushed for a kept key. */
  function EntryFor(db: Db, slug: string, p: SearchQuery): SearchResult {
    var h := MetaOf(db, slug);
    var title := FieldOrEmpty(h, "title");
    var description := FieldOrEmpty(h, "description");
    var tags := SearchTags(h);
    var highlights :=
      if p.q != "" then Highlights(HighlightText(title, p.q), HighlightText(description, p.q), Filter(tags, TagMatchFn(p.q)))
      else Highlights([], [], []);
    SearchResult(slug, TargetOf(db, slug), NonEmpty(title), NonEmpty(description), tags, SourceOf(slug), EntryScore(h, p.q), highlights)
  }

  /** The entry a key contributes, or None when it is skipped. */
  function Hit(db: Db, slug: string, p: SearchQuery): Option<SearchResult> {
    if Kept(db, slug, p) then Some(EntryFor(db, slug, p)) else None
  }

  /** Which keys are kept: a target, the source and tag filters, and with a query, some field containing it. */
  lemma KeptIff(db: Db, slug: string, p: SearchQuery)
    ensures var h := MetaOf(db, slug);
      var tags := SearchTags(h);
      Kept(db, slug, p) <==>
        && slug in db.link && db.link[slug] != ""
        && (p.source == "" || SourceName(SourceOf(slug)) == p.source)
        && (p.tag == "" || p.tag in tags)
        && (p.q == "" || ContainsCI(FieldOrEmpty(h, "title"), p.q) || ContainsCI(FieldOrEmpty(h, "description"), p.q)
            || exists t :: t in tags && ContainsCI(t, p.q))
  {
    var h := MetaOf(db, slug);
    var title, description, tags := FieldOrEmpty(h, "title"), FieldOrEmpty(h, "description"), SearchTags(h);
    if p.q != "" {
      ScoreZeroIff(p.q, title, description, tags);
      assert Lower(p.q) != "";
      if title == "" {
        ContainsEmpty(Lower(p.q));
      }
      if description == "" {
        ContainsEmpty(Lower(p.q));
      }
    }
  }

  /** A kept entry carries its key, target and score; tag highlights are exactly its matching tags. */
  lemma EntryForFacts(db: Db, slug: string, p: SearchQuery)
    requires Kept(db, slug, p)
    ensures var r := EntryFor(db, slug, p);
      && r.slug == slug && r.target == db.link[slug]
      && (p.q == "" ==> r.score == 1 && r.highlights == Highlights([], [], []))
      && (p.q != "" ==> r.score > 0 && forall t :: t in r.highlights.tags <==> t in r.tags && ContainsCI(t, p.q))
  {
  }

  /** The entries of the scanned keys, in scan order. */
  function Hits(db: Db, keys: seq<string>, p: SearchQuery): (r: seq<SearchResult>)
    ensures |r| <= |keys|
    decreases |keys|
  {
    if keys == [] then []
    else
      var init := Hits(db, keys[..|keys| - 1], p);
      match Hit(db, keys[|keys| - 1], p)
      case None => init
      case Some(e) => init + [e]
  }

  /** Every entry is the hit of one scanned key, and every scanned key that is kept has its entry. */
  lemma {:induction false} HitsIff(db: Db, keys: seq<string>, p: SearchQuery, e: SearchResult)
    ensures e in Hits(db, keys, p) <==> exists k :: k in keys && Hit(db, k, p) == Some(e)
    decreases |keys|
  {
    if keys != [] {
      var init := keys[..|keys| - 1];
      HitsIff(db, init, p, e);
      assert keys == init + [keys[|keys| - 1]];
    }
  }

  function ScoreKey(): SearchResult -> int {
    (r: SearchResult) => r.score as int
  }

  datatype SearchResponse =
    | SearchBadRequest(error: string)
    | SearchResults(query: Option<string>, tag: string, source: string,
                    results: seq<SearchResult>, total: nat, limit: nat, offset: nat, hasMore: bool)

  /** The response to GET /api/search over the link keys. */
  function SearchSpec(db: Db, keys: seq<string>, p: SearchQuery): (r: SearchResponse)
    ensures r.SearchBadRequest? <==> p.q == "" && p.tag == "" && p.source == ""
    ensures r.SearchResults? ==>
              && r.total == |Hits(db, keys, p)|
              && r.limit <= 100
              && |r.results| <= r.limit
              && (r.hasMore <==> r.offset + r.limit < r.total)
  {
    if p.q == "" && p.tag == "" && p.source == "" then
      SearchBadRequest("At least one search parameter required: q (query), tag, or source")
    else
      var results := Hits(db, keys, p);
      var limit := SearchLimit(p);
      var offset := p.offset.GetOr(0);
      SearchResults(NonEmpty(p.q), p.tag, p.source, Page(Sort(results, ByKeyDesc(ScoreKey())), offset, limit),
                    |results|, limit, offset, offset + limit < |results|)
  }

  /** The page holds kept entries only, best score first. */
  lemma SearchOrdered(db: Db, keys: seq<string>, p: SearchQuery)
    requires SearchSpec(db, keys, p).SearchResults?
    ensures var r := SearchSpec(db, keys, p).results;
      && (forall i, j :: 0 <= i < j < |r| ==> r[i].score >= r[j].score)
      && (forall x :: x in r ==> x in Hits(db, keys, p))
  {
    var results := Hits(db, keys, p);
    var sorted := Sort(results, ByKeyDesc(ScoreKey()));
    SortByKeyDesc(results, ScoreKey());
    var r := SearchSpec(db, keys, p).results;
    forall x | x in r ensures x in results {
      assert x in sorted;
      assert x in multiset(sorted);
    }
  }

  /** The loop body for one key: the `continue` checks, then the result object. */
  method ScoreEntry(db: Db, slug: string, p: SearchQuery) returns (r: Option<SearchResult>)
    ensures r == Hit(db, slug, p)
  {
    var target := TargetOf(db, slug);
    var meta := MetaOf(db, slug);
    if target == "" {
      return None;
    }
    var title := FieldOrEmpty(meta, "title");
    var description := FieldOrEmpty(meta, "description");
    var tags := TrimAll(TagsOf(meta));
    var entrySource := SourceOf(slug);
    if p.source != "" && SourceName(entrySource) != p.source {
      return None;
    }
    if p.tag != "" && p.tag !in tags {
      return None;
    }
    var score := 1;
    if p.q != "" {
      score := CalculateRelevance(p.q, title, description, tags);
    }
    assert score == EntryScore(meta, p.q);
    if p.q != "" && score == 0 {
      return None;
    }
    var highlights := Highlights([], [], []);
    if p.q != "" {
      highlights := Highlights(HighlightText(title, p.q), HighlightText(description, p.q), Filter(tags, TagMatchFn(p.q)));
    }
    return Some(SearchResult(slug, target, NonEmpty(title), NonEmpty(description), tags, entrySource, score, highlights));
  }

  /** GET /api/search over the link keys. */
  method Search(st: Store, keys: seq<string>, p: SearchQuery) returns (resp: SearchResponse)
    requires NoDup(keys) && forall s :: s in keys <==> s in st.link
    ensures resp == SearchSpec(st.Snapshot(), keys, p)
  {
    var limit := SearchLimit(p);
    var offset := p.offset.GetOr(0);
    if p.q == "" && p.tag == "" && p.source == "" {
      return SearchBadRequest("At least one search parameter required: q (query), tag, or source");
    }
    var db := st.Snapshot();
    var results: seq<SearchResult> := [];
    var i := 0;
    while i < |keys|
      invariant 0 <= i <= |keys|
      invariant results == Hits(db, keys[..i], p)
    {
      assert keys[..i + 1][..i] == keys[..i];
      var entry := ScoreEntry(db, keys[i], p);
      if entry.Some? {
        results := results + [entry.value];
      }
      i := i + 1;
    }
    assert keys[..|keys|] == keys;
    results := Sort(results, ByKeyDesc(ScoreKey()));
    var total := |results|;
    return SearchResults(NonEmpty(p.q), p.tag, p.source, Page(results, offset, limit), total, limit, offset, offset + limit < total);
  }
}
