/**
  The read side of the tag administration endpoint (GET /api/tags):
  `?action=stats` counts links, clicks, link sources and tag occurrences,
  `?action=suggest&prefix=p` lists the stored tags starting with p.
*/
module TagQueries {
  import opened Strings
  import opened Seqs
  import opened KeyValueStore

  // ---------------------------------------------------------------------------
  // Tag occurrences

  /** The pieces of a split tags field that are non-blank once trimmed, trimmed, in order. */
  function CleanPieces(parts: seq<string>): (r: seq<string>)
    ensures |r| <= |parts|
    ensures forall t :: t in r ==> t != ""
    decreases |parts|
  {
    if parts == [] then []
    else
      var init := parts[..|parts| - 1];
      assert parts == init + [parts[|parts| - 1]];
      var t := Trim(parts[|parts| - 1]);
      CleanPieces(init) + (if t != "" then [t] else [])
  }

  /** A tag is among the cleaned pieces exactly when it is not blank and some piece trims to it. */
  lemma {:induction false} CleanPiecesIff(parts: seq<string>, t: string)
    ensures t in CleanPieces(parts) <==> t != "" && exists p :: p in parts && Trim(p) == t
    decreases |parts|
  {
    if parts != [] {
      var init := parts[..|parts| - 1];
      var last := parts[|parts| - 1];
      CleanPiecesIff(init, t);
      assert parts == init + [last];
      assert t in CleanPieces(parts) <==> t in CleanPieces(init) || (Trim(last) != "" && Trim(last) == t);
      if exists p :: p in parts && Trim(p) == t {
        var p :| p in parts && Trim(p) == t;
        assert p in init || p == last;
      }
      if Trim(last) == t {
        assert last in parts;
      }
      if exists p :: p in init && Trim(p) == t {
        var p :| p in init && Trim(p) == t;
        assert p in parts;
      }
    }
  }

  /** One more piece appends its trimmed text when that is not blank. */
  lemma CleanPiecesSnoc(parts: seq<string>, j: nat, seen: seq<string>)
    requires j < |parts|
    ensures Trim(parts[j]) != "" ==> seen + CleanPieces(parts[..j + 1]) == seen + CleanPieces(parts[..j]) + [Trim(parts[j])]
    ensures Trim(parts[j]) == "" ==> seen + CleanPieces(parts[..j + 1]) == seen + CleanPieces(parts[..j])
  {
    assert parts[..j + 1][..j] == parts[..j];
  }

  /** The tags one link contributes: nothing when its `tags` field is absent or empty. */
  function LinkTags(h: Hash): seq<string> {
    CleanPieces(TagsOf(h))
  }

  /** Every tag occurrence over the links, in key order. */
  function Occurrences(db: Db, keys: seq<string>): (r: seq<string>)
    ensures forall t :: t in r ==> t != ""
    decreases |keys|
  {
    if keys == [] then []
    else
      var init := keys[..|keys| - 1];
      assert keys == init + [keys[|keys| - 1]];
      Occurrences(db, init) + LinkTags(MetaOf(db, keys[|keys| - 1]))
  }

  /** One more key adds that link's tags at the end. */
  lemma OccurrencesSnoc(db: Db, keys: seq<string>, i: nat)
    requires i < |keys|
    ensures Occurrences(db, keys[..i + 1]) == Occurrences(db, keys[..i]) + LinkTags(MetaOf(db, keys[i]))
  {
    assert keys[..i + 1][..i] == keys[..i];
  }

  // ---------------------------------------------------------------------------
  // ?action=stats

  /** One [tag, count] pair of topTags. */
  datatype TagCount = TagCount(tag: string, count: nat)

  // Property order of a plain object

  /** The value of a string of decimal digits. */
  function DigitsValue(s: string): nat
    requires forall i :: 0 <= i < |s| ==> '0' <= s[i] <= '9'
    decreases |s|
  {
    if s == [] then 0 else DigitsValue(s[..|s| - 1]) * 10 + (s[|s| - 1] as int - '0' as int)
  }

  /**
    An array index: the decimal form, without leading zeros, of an integer
    below 2^32 - 1. A plain object lists such keys before all others.
  */
  predicate IsArrayIndex(k: string) {
    && k != ""
    && (forall i :: 0 <= i < |k| ==> '0' <= k[i] <= '9')
    && (k[0] == '0' ==> k == "0")
    && DigitsValue(k) < 0xFFFF_FFFF
  }

  function IsIndexFn(): string -> bool {
    (k: string) => IsArrayIndex(k)
  }

  function IndexValue(k: string): nat {
    if IsArrayIndex(k) then DigitsValue(k) else 0
  }

  /** Ascending numeric order of array indices. */
  function IndexAscending(): (string, string) -> bool {
    (a: string, b: string) => IndexValue(a) <= IndexValue(b)
  }

  /**
    The order Object.keys, Object.entries and JSON.stringify list the keys
    of a plain object in, given the order the keys were added: the array
    indices first, in ascending numeric order, then the other keys in
    insertion order.
  */
  function ObjectKeyOrder(added: seq<string>): (r: seq<string>)
    ensures multiset(r) == multiset(added)
  {
    FilterPartition(added, IsIndexFn());
    Sort(Filter(added, IsIndexFn()), IndexAscending()) + Filter(added, Not(IsIndexFn()))
  }

  /** The listed keys are the added ones; distinct keys stay distinct. */
  lemma ObjectKeyOrderFacts(added: seq<string>)
    ensures |ObjectKeyOrder(added)| == |added|
    ensures forall k :: k in ObjectKeyOrder(added) <==> k in added
    ensures NoDup(added) ==> NoDup(ObjectKeyOrder(added))
  {
    var r := ObjectKeyOrder(added);
    assert |r| == |multiset(r)| == |multiset(added)| == |added|;
    forall k ensures k in r <==> k in added {
      assert k in r <==> k in multiset(r);
      assert k in added <==> k in multiset(added);
    }
    if NoDup(added) {
      PermutationNoDup(added, r);
    }
  }

  /**
    Array indices come first and ascending, and the other keys keep the
    order they were added in.
  */
  lemma ObjectKeyOrderIndicesFirst(added: seq<string>)
    ensures var r := ObjectKeyOrder(added);
      && (forall i, j :: 0 <= i < j < |r| && IsArrayIndex(r[j]) ==> IsArrayIndex(r[i]) && IndexValue(r[i]) <= IndexValue(r[j]))
      && Filter(r, Not(IsIndexFn())) == Filter(added, Not(IsIndexFn()))
  {
    var idx := Sort(Filter(added, IsIndexFn()), IndexAscending());
    var rest := Filter(added, Not(IsIndexFn()));
    assert TotalPreorder(IndexAscending());
    SortFacts(Filter(added, IsIndexFn()), IndexAscending());
    IndicesThenRest(idx, rest);
  }

  /**
    Keys added as a, x, b, y, where x and y are array indices with y below
    x, are listed as y, x, a, b: the later index first, the other keys last.
  */
  lemma ObjectKeyOrderFour(a: string, x: string, b: string, y: string)
    requires !IsArrayIndex(a) && !IsArrayIndex(b) && IsArrayIndex(x) && IsArrayIndex(y)
    requires IndexValue(y) < IndexValue(x)
    ensures ObjectKeyOrder([a, x, b, y]) == [y, x, a, b]
  {
    var p, q := IsIndexFn(), Not(IsIndexFn());
    var s1, s2, s3, s4 := [a], [a, x], [a, x, b], [a, x, b, y];
    assert s2[..1] == s1 && s3[..2] == s2 && s4[..3] == s3 && s1[..0] == [];
    assert Filter(s1, p) == [] && Filter(s1, q) == [a];
    assert Filter(s2, p) == [x] && Filter(s2, q) == [a];
    assert Filter(s3, p) == [x] && Filter(s3, q) == [a, b];
    assert Filter(s4, p) == [x, y] && Filter(s4, q) == [a, b];
    SortTwo(x, y, IndexAscending());
    assert ObjectKeyOrder(s4) == [y, x] + [a, b];
    PairsJoin(y, x, a, b);
  }

  lemma PairsJoin<T>(a: T, b: T, c: T, d: T)
    ensures [a, b] + [c, d] == [a, b, c, d]
  {
  }

  /** Tags added as b, 2024, a, 7 are listed as 7, 2024, b, a. */
  lemma ObjectKeyOrderExample()
    ensures ObjectKeyOrder(["b", "2024", "a", "7"]) == ["7", "2024", "b", "a"]
  {
    ExampleKeys();
    ObjectKeyOrderFour("b", "2024", "a", "7");
  }

  /** Sorting two elements keeps them in place exactly when the first may precede the second. */
  lemma SortTwo<T(!new)>(x: T, y: T, le: (T, T) -> bool)
    ensures Sort([x, y], le) == if le(x, y) then [x, y] else [y, x]
  {
    assert [x, y][1..] == [y];
    assert [y][1..] == [];
  }

  lemma ExampleKeys()
    ensures IsArrayIndex("7") && IndexValue("7") == 7
    ensures IsArrayIndex("2024") && IndexValue("2024") == 2024
    ensures !IsArrayIndex("a") && !IsArrayIndex("b")
  {
    assert "7"[..0] == "";
    assert "2024"[..3] == "202" && "202"[..2] == "20" && "20"[..1] == "2" && "2"[..0] == "";
    assert "a"[0] == 'a' && "b"[0] == 'b';
  }

  /** Sorted array indices followed by other keys: the indices lead, and filtering them out leaves the others. */
  lemma IndicesThenRest(idx: seq<string>, rest: seq<string>)
    requires Sorted(idx, IndexAscending())
    requires forall k :: k in idx ==> IsArrayIndex(k)
    requires forall k :: k in rest ==> !IsArrayIndex(k)
    ensures var r := idx + rest;
      && (forall i, j :: 0 <= i < j < |r| && IsArrayIndex(r[j]) ==> IsArrayIndex(r[i]) && IndexValue(r[i]) <= IndexValue(r[j]))
      && Filter(r, Not(IsIndexFn())) == rest
  {
    var r := idx + rest;
    forall i, j | 0 <= i < j < |r| && IsArrayIndex(r[j])
      ensures IsArrayIndex(r[i]) && IndexValue(r[i]) <= IndexValue(r[j])
    {
      assert r[i] == idx[i] && r[j] == idx[j];
      assert r[i] in idx;
    }
    FilterAppend(idx, rest, Not(IsIndexFn()));
    FilterAll(rest, Not(IsIndexFn()));
    CountZeroIff(idx, Not(IsIndexFn()));
  }

  /**
    Object.entries(tagCounts): each distinct tag once, in the object's key
    order, with its number of occurrences.
  */
  function TagEntries(occ: seq<string>): seq<TagCount> {
    var d := ObjectKeyOrder(Dedupe(occ));
    seq(|d|, i requires 0 <= i < |d| => TagCount(d[i], multiset(occ)[d[i]]))
  }

  function EntryCount(): TagCount -> int {
    (e: TagCount) => e.count as int
  }

  /** Entries sorted by descending count (stable), the first twenty. */
  function TopTags(occ: seq<string>): seq<TagCount> {
    Take(Sort(TagEntries(occ), ByKeyDesc(EntryCount())), 20)
  }

  function IsOrcidSlug(): string -> bool {
    (slug: string) => StartsWith(slug, "orcid-")
  }

  function ClicksFn(db: Db): string -> int {
    (slug: string) => ClicksOf(db, slug) as int
  }

  datatype TagStats = TagStats(
    totalLinks: nat,
    totalClicks: int,
    manual: nat,
    orcid: nat,
    topTags: seq<TagCount>,
    uniqueTags: nat)

  /** The stats response over the link keys. */
  function StatsSpec(db: Db, keys: seq<string>): (r: TagStats)
    ensures r.totalLinks == |keys|
    ensures r.manual + r.orcid == r.totalLinks
    ensures r.totalClicks >= 0
    ensures r.uniqueTags == |set t | t in Occurrences(db, keys)|
  {
    CountComplement(keys, IsOrcidSlug());
    SumOfNonNegative(keys, ClicksFn(db));
    var occ := Occurrences(db, keys);
    UniqueTagsCount(occ);
    TagStats(
      |keys|,
      SumOf(keys, ClicksFn(db)),
      Count(keys, Not(IsOrcidSlug())),
      Count(keys, IsOrcidSlug()),
      TopTags(occ),
      |TagEntries(occ)|)
  }

  /** Each entry names a distinct tag that occurs, with its exact number of occurrences. */
  lemma TagEntriesFacts(occ: seq<string>)
    ensures forall e :: e in TagEntries(occ) <==> e.tag in occ && e.count == multiset(occ)[e.tag]
    ensures NoDup(TagEntries(occ))
  {
    var d := ObjectKeyOrder(Dedupe(occ));
    var es := TagEntries(occ);
    ObjectKeyOrderFacts(Dedupe(occ));
    forall e: TagCount | e.tag in occ && e.count == multiset(occ)[e.tag] ensures e in es {
      var i :| 0 <= i < |d| && d[i] == e.tag;
      assert es[i] == e;
    }
  }

  /** Object.keys(tagCounts).length: one entry per distinct tag. */
  lemma UniqueTagsCount(occ: seq<string>)
    ensures |TagEntries(occ)| == |set t | t in occ|
  {
    NoDupCard(Dedupe(occ));
    assert (set t | t in Dedupe(occ)) == (set t | t in occ);
    ObjectKeyOrderFacts(Dedupe(occ));
  }

  /** The entries in topTags order, before the cut to twenty. */
  lemma SortedEntriesFacts(occ: seq<string>)
    ensures var s := Sort(TagEntries(occ), ByKeyDesc(EntryCount()));
      && Sorted(s, ByKeyDesc(EntryCount()))
      && NoDup(s)
      && forall e :: e in s <==> e.tag in occ && e.count == multiset(occ)[e.tag]
  {
    ByKeyDescTotal(EntryCount());
    TagEntriesFacts(occ);
    SortDistinct(TagEntries(occ), ByKeyDesc(EntryCount()));
  }

  /** topTags: at most twenty distinct tags that occur, with their exact counts, most used first. */
  lemma TopTagsOrdered(occ: seq<string>)
    ensures var r := TopTags(occ);
      && |r| <= 20
      && (forall i :: 0 <= i < |r| ==> r[i].tag in occ && r[i].count == multiset(occ)[r[i].tag])
      && (forall i, j :: 0 <= i < j < |r| ==> r[i].count >= r[j].count && r[i].tag != r[j].tag)
  {
    var s := Sort(TagEntries(occ), ByKeyDesc(EntryCount()));
    var r := TopTags(occ);
    SortedEntriesFacts(occ);
    TakeNoDup(s, 20);
    forall i | 0 <= i < |r| ensures r[i].tag in occ && r[i].count == multiset(occ)[r[i].tag] {
      assert r[i] == s[i];
    }
    forall i, j | 0 <= i < j < |r| ensures r[i].count >= r[j].count && r[i].tag != r[j].tag {
      assert r[i] == s[i] && r[j] == s[j];
      assert ByKeyDesc(EntryCount())(s[i], s[j]);
    }
  }

  /** A tag missing from topTags means the list is full and the tag occurs no more often than the twentieth. */
  lemma TopTagsComplete(occ: seq<string>, t: string)
    requires t in occ
    requires forall i :: 0 <= i < |TopTags(occ)| ==> TopTags(occ)[i].tag != t
    ensures |TopTags(occ)| == 20 && multiset(occ)[t] <= TopTags(occ)[19].count
  {
    var s := Sort(TagEntries(occ), ByKeyDesc(EntryCount()));
    SortedEntriesFacts(occ);
    var r := TopTags(occ);
    var e := TagCount(t, multiset(occ)[t]);
    assert e in s;
    assert e !in r by {
      forall i | 0 <= i < |r| ensures r[i] != e {
        assert r[i].tag != t;
      }
    }
    TakeOmits(s, 20, e, ByKeyDesc(EntryCount()));
  }

  // ---------------------------------------------------------------------------
  // ?action=suggest

  function PrefixFn(prefix: string): string -> bool {
    (t: string) => StartsWithCI(t, prefix)
  }

  /** The distinct matching tags in code-unit order, the first ten. */
  function SuggestSpec(db: Db, keys: seq<string>, prefix: string): seq<string> {
    Take(Sort(Dedupe(Filter(Occurrences(db, keys), PrefixFn(prefix))), StrOrder()), 10)
  }

  /** suggestions: at most ten distinct stored tags, each matching the prefix without regard to case. */
  lemma SuggestFacts(db: Db, keys: seq<string>, prefix: string)
    ensures var r := SuggestSpec(db, keys, prefix);
      var occ := Occurrences(db, keys);
      && |r| <= 10
      && NoDup(r)
      && (forall t :: t in r ==> t in occ && t != "" && StartsWithCI(t, prefix))
  {
    var occ := Occurrences(db, keys);
    var d := Dedupe(Filter(occ, PrefixFn(prefix)));
    var s := Sort(d, StrOrder());
    StrOrderTotal();
    SortDistinct(d, StrOrder());
    TakeNoDup(s, 10);
  }

  /** The suggestions are in code-unit order. */
  lemma SuggestOrdered(db: Db, keys: seq<string>, prefix: string)
    ensures var r := SuggestSpec(db, keys, prefix);
      forall i, j :: 0 <= i < j < |r| ==> StrLe(r[i], r[j])
  {
    var d := Dedupe(Filter(Occurrences(db, keys), PrefixFn(prefix)));
    var s := Sort(d, StrOrder());
    StrOrderTotal();
    SortFacts(d, StrOrder());
    var r := Take(s, 10);
    forall i, j | 0 <= i < j < |r| ensures StrLe(r[i], r[j]) {
      assert r[i] == s[i] && r[j] == s[j];
    }
  }

  /** A matching stored tag left out of the suggestions means ten were found, all sorting before it. */
  lemma SuggestComplete(db: Db, keys: seq<string>, prefix: string, t: string)
    requires t in Occurrences(db, keys) && StartsWithCI(t, prefix)
    requires t !in SuggestSpec(db, keys, prefix)
    ensures var r := SuggestSpec(db, keys, prefix);
      |r| == 10 && StrLe(r[9], t)
  {
    var occ := Occurrences(db, keys);
    var d := Dedupe(Filter(occ, PrefixFn(prefix)));
    var s := Sort(d, StrOrder());
    StrOrderTotal();
    SortFacts(d, StrOrder());
    assert t in d;
    TakeOmits(s, 10, t, StrOrder());
  }

  // ---------------------------------------------------------------------------
  // The handler

  datatype GetReply = Stats(stats: TagStats) | Suggestions(suggestions: seq<string>) | InvalidAction

  /**
    tagCounts as the loop keeps it: `order` is the order its keys were
    added, and each count is the number of occurrences seen so far.
  */
  ghost predicate Tallies(counts: map<string, nat>, order: seq<string>, seen: seq<string>) {
    && order == Dedupe(seen)
    && (forall t :: t in counts <==> t in order)
    && (forall t :: t in counts ==> counts[t] == multiset(seen)[t])
  }

  /** Object.entries of a tally whose keys were added in `order`. */
  function Entries(counts: map<string, nat>, order: seq<string>): seq<TagCount> {
    var ks := ObjectKeyOrder(order);
    seq(|ks|, k requires 0 <= k < |ks| => TagCount(ks[k], if ks[k] in counts then counts[ks[k]] else 0))
  }

  /** Object.entries of the finished tally are the entries of all occurrences. */
  lemma TallyEntries(counts: map<string, nat>, order: seq<string>, occ: seq<string>)
    requires Tallies(counts, order, occ)
    ensures Entries(counts, order) == TagEntries(occ)
  {
    ObjectKeyOrderFacts(order);
  }

  /** tagCounts[t] = (tagCounts[t] || 0) + 1 on a tag already counted keeps the tally. */
  lemma TallyOld(counts: map<string, nat>, order: seq<string>, seen: seq<string>, t: string)
    requires Tallies(counts, order, seen) && t in counts
    ensures Tallies(counts[t := counts[t] + 1], order, seen + [t])
  {
    assert t in seen;
    DedupeSnoc(seen, t);
    var c := counts[t := counts[t] + 1];
    var m := multiset(seen + [t]);
    assert m == multiset(seen) + multiset{t};
    forall x | x in c ensures c[x] == m[x] {
      if x != t {
        assert x in counts;
      }
    }
  }

  /** ... and on a new tag it adds the key last. */
  lemma TallyNew(counts: map<string, nat>, order: seq<string>, seen: seq<string>, t: string)
    requires Tallies(counts, order, seen) && t !in counts
    ensures Tallies(counts[t := 1], order + [t], seen + [t])
  {
    assert t !in seen;
    DedupeSnoc(seen, t);
    TallyNewKeys(counts, order, t);
    TallyNewCounts(counts, seen, t);
  }

  /** A new key is added last to the tally's keys. */
  lemma TallyNewKeys(counts: map<string, nat>, order: seq<string>, t: string)
    requires forall x :: x in counts <==> x in order
    ensures forall x :: x in counts[t := 1] <==> x in order + [t]
  {
    forall x ensures x in counts[t := 1] <==> x in order + [t] {
      assert x in order + [t] <==> x in order || x == t;
    }
  }

  /** A new key starts at one, its number of occurrences once it is seen. */
  lemma TallyNewCounts(counts: map<string, nat>, seen: seq<string>, t: string)
    requires forall x :: x in counts ==> counts[x] == multiset(seen)[x]
    requires t !in seen
    ensures forall x :: x in counts[t := 1] ==> counts[t := 1][x] == multiset(seen + [t])[x]
  {
    var m := multiset(seen + [t]);
    assert m == multiset(seen) + multiset{t};
    forall x | x in counts[t := 1] ensures counts[t := 1][x] == m[x] {
      if x != t {
        assert x in counts;
      }
    }
  }

  /** tagCounts[t] = (tagCounts[t] || 0) + 1. */
  method TallyTag(counts0: map<string, nat>, order0: seq<string>, t: string, ghost seen: seq<string>)
    returns (counts: map<string, nat>, order: seq<string>)
    requires Tallies(counts0, order0, seen)
    ensures Tallies(counts, order, seen + [t])
  {
    if t in counts0 {
      TallyOld(counts0, order0, seen, t);
      counts, order := counts0[t := counts0[t] + 1], order0;
    } else {
      TallyNew(counts0, order0, seen, t);
      counts, order := counts0[t := 1], order0 + [t];
    }
  }

  /** The forEach over one link's tags in the stats loop. */
  method TallyLink(counts0: map<string, nat>, order0: seq<string>, parts: seq<string>, ghost seen: seq<string>)
    returns (counts: map<string, nat>, order: seq<string>)
    requires Tallies(counts0, order0, seen)
    ensures Tallies(counts, order, seen + CleanPieces(parts))
  {
    counts, order := counts0, order0;
    ghost var acc := seen;
    var j := 0;
    assert parts[..0] == [];
    while j < |parts|
      invariant 0 <= j <= |parts|
      invariant acc == seen + CleanPieces(parts[..j])
      invariant Tallies(counts, order, acc)
    {
      var trimmedTag := Trim(parts[j]);
      CleanPiecesSnoc(parts, j, seen);
      if trimmedTag != "" {
        counts, order := TallyTag(counts, order, trimmedTag, acc);
        acc := acc + [trimmedTag];
      }
      j := j + 1;
    }
    assert parts[..|parts|] == parts;
  }

  /** One more key adds its clicks to the total and counts it under exactly one source. */
  lemma StatsStep(db: Db, keys: seq<string>, i: nat)
    requires i < |keys|
    ensures SumOf(keys[..i + 1], ClicksFn(db)) == SumOf(keys[..i], ClicksFn(db)) + ClicksOf(db, keys[i])
    ensures Count(keys[..i + 1], IsOrcidSlug()) == Count(keys[..i], IsOrcidSlug()) + (if StartsWith(keys[i], "orcid-") then 1 else 0)
    ensures Count(keys[..i + 1], Not(IsOrcidSlug())) == Count(keys[..i], Not(IsOrcidSlug())) + (if StartsWith(keys[i], "orcid-") then 0 else 1)
  {
    assert keys[..i + 1][..i] == keys[..i];
  }

  /** The stats loop: link count, click total, sources, and tag counts kept in insertion order. */
  method ComputeStats(st: Store, keys: seq<string>) returns (r: TagStats)
    ensures r == StatsSpec(st.Snapshot(), keys)
  {
    var db := st.Snapshot();
    var counts: map<string, nat> := map[];
    var order: seq<string> := [];
    var totalLinks, totalClicks, orcid, manual := 0, 0, 0, 0;
    var i := 0;
    while i < |keys|
      invariant 0 <= i <= |keys|
      invariant totalLinks == i
      invariant totalClicks == SumOf(keys[..i], ClicksFn(db))
      invariant orcid == Count(keys[..i], IsOrcidSlug())
      invariant manual == Count(keys[..i], Not(IsOrcidSlug()))
      invariant Tallies(counts, order, Occurrences(db, keys[..i]))
    {
      var slug := keys[i];
      StatsStep(db, keys, i);
      OccurrencesSnoc(db, keys, i);
      totalLinks := totalLinks + 1;
      totalClicks := totalClicks + ClicksOf(db, slug);
      counts, order := TallyLink(counts, order, TagsOf(MetaOf(db, slug)), Occurrences(db, keys[..i]));
      if StartsWith(slug, "orcid-") {
        orcid := orcid + 1;
      } else {
        manual := manual + 1;
      }
      i := i + 1;
    }
    assert keys[..|keys|] == keys;
    TallyEntries(counts, order, Occurrences(db, keys));
    ObjectKeyOrderFacts(order);
    var entries := Entries(counts, order);
    var sortedTags := Take(Sort(entries, ByKeyDesc(EntryCount())), 20);
    r := TagStats(totalLinks, totalClicks, manual, orcid, sortedTags, |order|);
  }

  /** tagSet.add(t) for a matching tag keeps the set of matching tags seen, in insertion order. */
  lemma CollectStep(tagSet: seq<string>, seen: seq<string>, t: string, prefix: string)
    requires tagSet == Dedupe(Filter(seen, PrefixFn(prefix)))
    ensures var next := if StartsWithCI(t, prefix) && t !in tagSet then tagSet + [t] else tagSet;
      next == Dedupe(Filter(seen + [t], PrefixFn(prefix)))
  {
    assert (seen + [t])[..|seen|] == seen;
    DedupeSnoc(Filter(seen, PrefixFn(prefix)), t);
  }

  /** The forEach over one link's tags in the suggest loop: matching tags join the set. */
  method CollectMatching(tagSet0: seq<string>, parts: seq<string>, prefix: string, ghost seen: seq<string>)
    returns (tagSet: seq<string>)
    requires tagSet0 == Dedupe(Filter(seen, PrefixFn(prefix)))
    ensures tagSet == Dedupe(Filter(seen + CleanPieces(parts), PrefixFn(prefix)))
  {
    tagSet := tagSet0;
    ghost var acc := seen;
    var j := 0;
    assert parts[..0] == [];
    while j < |parts|
      invariant 0 <= j <= |parts|
      invariant acc == seen + CleanPieces(parts[..j])
      invariant tagSet == Dedupe(Filter(acc, PrefixFn(prefix)))
    {
      var trimmedTag := Trim(parts[j]);
      CleanPiecesSnoc(parts, j, seen);
      if trimmedTag != "" {
        CollectStep(tagSet, acc, trimmedTag, prefix);
        if StartsWith(Lower(trimmedTag), Lower(prefix)) && trimmedTag !in tagSet {
          tagSet := tagSet + [trimmedTag];
        }
        acc := acc + [trimmedTag];
      }
      j := j + 1;
    }
    assert parts[..|parts|] == parts;
  }

  /** The suggest loop: matching trimmed tags collected in a set, then sorted and cut to ten. */
  method ComputeSuggestions(st: Store, keys: seq<string>, prefix: string) returns (r: seq<string>)
    ensures r == SuggestSpec(st.Snapshot(), keys, prefix)
  {
    var db := st.Snapshot();
    var tagSet: seq<string> := [];
    var i := 0;
    while i < |keys|
      invariant 0 <= i <= |keys|
      invariant tagSet == Dedupe(Filter(Occurrences(db, keys[..i]), PrefixFn(prefix)))
    {
      OccurrencesSnoc(db, keys, i);
      tagSet := CollectMatching(tagSet, TagsOf(MetaOf(db, keys[i])), prefix, Occurrences(db, keys[..i]));
      i := i + 1;
    }
    assert keys[..|keys|] == keys;
    r := Take(Sort(tagSet, StrOrder()), 10);
  }

  /** GET /api/tags over the link keys; `action` and `prefix` are "" when absent. */
  method Get(st: Store, keys: seq<string>, action: string, prefix: string) returns (resp: GetReply)
    requires NoDup(keys) && forall s :: s in keys <==> s in st.link
    ensures action == "stats" ==> resp == Stats(StatsSpec(st.Snapshot(), keys))
    ensures action == "suggest" ==> resp == Suggestions(SuggestSpec(st.Snapshot(), keys, prefix))
    ensures action != "stats" && action != "suggest" ==> resp == InvalidAction
  {
    if action == "stats" {
      var stats := ComputeStats(st, keys);
      return Stats(stats);
    } else if action == "suggest" {
      var suggestions := ComputeSuggestions(st, keys, prefix);
      return Suggestions(suggestions);
    }
    return InvalidAction;
  }
}
