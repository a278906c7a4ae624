# Research links: a Dafny model

This project models a personal research-links site. The site stores short
links to papers, projects and talks in Redis. Each link has a redirect target, a
metadata hash (title, description, comma-separated tags, creation date, a
permanence flag), a click counter, and optional membership in named
collections. Papers are ingested from ORCID and OpenReview. An admin dashboard
manages the links, and the public pages list, filter, sort and present them.

The model has three layers:

- **The store** (`KeyValueStore`). The four Redis key families are plain maps:
  `link:`, `meta:`, `count:` and `collection:`. They live in a `Store` class
  whose write operations are the Redis commands the handlers use. A hash write
  merges its fields into the hash, as `hSet` does.
- **The API routes and ingestion helpers.** These are `LinksApi`, `TagsApi` and
  `TagQueries`, `CollectionsApi`, `SearchApi`, `StatsApi`, `ExportApi`,
  `DirectoryApi`, `OpenReview`, `Orcid` and `ConferenceSlides`.
  - Each handler that loops over keys or writes to the store is a method on the
    `Store`.
  - Each such method is proved equal to a specification function on `Db`
    snapshots. Its `ensures` states the response and the new store as that
    function of the old store.
  - The properties the route promises are lemmas about the specification
    function: what it writes and what it leaves alone, filters, orderings,
    paging, round trips and idempotence.
- **The client logic.**
  - Pure derivations are functions with lemmas: card titles and dates, tag
    merging, the filter and sort pipeline, and carousel arithmetic.
  - Component state that event handlers update in place is a class whose
    methods are the handlers. These are the project listing, the collection
    card, the timeline slider, the carousel and the admin dashboard.

Shared building blocks live in `Strings` and `Seqs`:
- JavaScript `trim`, `split`, `join` and `toLowerCase`, on ASCII;
- code-unit string order;
- `filter`;
- first-occurrence deduplication, the way `new Set` behaves;
- the order a plain object lists its keys in: array indices first, ascending, then the other keys in insertion order;
- a stable comparator sort;
- slice paging;
- sums.

Inputs outside the program are parameters:
- the current time, as an ISO string;
- a date parser `timeOf`;
- the list of keys that a `keys("link:*")` scan returns;
- the payloads decoded from the ORCID and OpenReview APIs;
- the entries of the photo-set file;
- confirmation dialogs and fetch outcomes, as booleans.

## Model

| member | source | states |
|---|---|---|
| KeyValueStore.Merge | src/app/api/links/route.ts:46 | an `hSet` merge: the result holds the old fields plus the written ones, written fields take the new value and every other old field survives |
| KeyValueStore.MergeCovering | src/app/api/links/route.ts:222-239 | writing a hash that already holds every stored field (PATCH writes the spread copy) leaves exactly the written hash |
| KeyValueStore.MetaOf | src/app/api/links/route.ts:145 | `hGetAll` of a missing hash is the empty hash |
| KeyValueStore.ClicksOf | src/app/api/links/route.ts:144 | a missing counter reads as 0 |
| KeyValueStore.Field | src/app/api/links/route.ts:153-154 | `meta.f \|\| null`: present exactly when the field is stored and non-empty |
| KeyValueStore.TagsValue | src/app/api/links/route.ts:44 | an array of tags is stored comma-joined, a string as given |
| KeyValueStore.ReadTags | src/app/api/links/route.ts:155 | an empty tags field reads as no tags; otherwise the pieces re-join to the stored text and none holds a comma |
| KeyValueStore.TagsOf | src/app/api/links/route.ts:155 | a hash without a tags field has no tags; otherwise its tags are the split stored text |
| KeyValueStore.ReadJoinTags | src/app/api/links/route.ts:44 | comma-free tags written joined read back as the same list, except the list holding only the empty tag |
| KeyValueStore.Store.constructor | src/lib/redis.ts:11-69 | a fresh store holds no keys |
| KeyValueStore.Store.SetLink | src/app/api/links/route.ts:35 | `set link:k` replaces one target and changes nothing else |
| KeyValueStore.Store.HSetMeta | src/app/api/links/route.ts:46 | `hSet meta:k` merges the given fields into that one hash and changes nothing else |
| KeyValueStore.Store.HSetCollection | src/app/api/collections/route.ts:94 | `hSet collection:id` merges into that one hash and changes nothing else |
| KeyValueStore.Store.DelSlug | src/app/api/links/route.ts:270-272 | deleting `link:`, `count:` and `meta:` of one slug reports 1 for each key that existed and removes exactly those three keys |
| KeyValueStore.Store.DelCollection | src/app/api/collections/route.ts:188 | `del collection:id` removes that key only |
| LinksApi.SlugKey | src/app/api/links/route.ts:34 | the key is the lower-cased slug with one leading "/" dropped, never longer than the slug |
| LinksApi.SlugKeyIdempotent | src/app/api/links/route.ts:34 | normalising a key again changes nothing exactly when the slug does not start with "//" |
| LinksApi.ValidTargetIgnoresCase | src/app/api/links/route.ts:29 | the `/^https?:\/\//i` test judges a target and its lower-cased form alike |
| LinksApi.ValidTargetShape | src/app/api/links/route.ts:29 | an accepted target is at least 7 characters long with its scheme colon at index 4 or 5 |
| LinksApi.TagsToWrite | src/app/api/links/route.ts:44 | tags are written when given as an array (joined) or as non-empty text, and not otherwise |
| LinksApi.Rejection | src/app/api/links/route.ts:25-32 | a link is accepted exactly when slug and target are non-empty and the target starts with http:// or https:// in any case |
| LinksApi.NewMeta | src/app/api/links/route.ts:37-44 | the written hash holds permanent as "1"/"0" and createdAt always, and title, description and tags only when truthy |
| LinksApi.WriteLinkEffect | src/app/api/links/route.ts:34-46 | a valid write replaces the target, adds the meta key, keeps every other hash and every counter, and keeps stored title, description, tags and unknown fields the write omits |
| LinksApi.CreatedResult | src/app/api/links/route.ts:48-55 | the result of a written link names its key, its target and `origin + "/" + key` |
| LinksApi.PostStepFrame | src/app/api/links/route.ts:23-56 | one item is rejected exactly when invalid; otherwise it adds exactly its link and meta key; counters and collections never change |
| LinksApi.PostSpecResults | src/app/api/links/route.ts:23-58 | POST reports one result per input link, in order, rejected exactly where validation fails, keyed by the normalised slug otherwise |
| LinksApi.PostSpecKeys | src/app/api/links/route.ts:23-58 | after POST the link and meta keys are the old ones plus the keys of the valid links; counters and collections are untouched |
| LinksApi.PostSpecStep | src/app/api/links/route.ts:23 | the loop over one more link is the loop so far followed by that link's step |
| LinksApi.PostOne | src/app/api/links/route.ts:24-55 | the store after one loop iteration and its result are that of the specified step |
| LinksApi.Post | src/app/api/links/route.ts:8-59 | a body without a links array gives 400 and no write; otherwise the results and the store are those of the loop specification, each link with its own clock reading |
| LinksApi.Put | src/app/api/links/route.ts:61-102 | an invalid link gives 400 with its message and no write; otherwise exactly the POST write for that link and its result |
| LinksApi.MetaView | src/app/api/links/route.ts:119-125 | the metadata view: permanent iff stored "1", title, description and createdAt only when non-empty, tags split on commas |
| LinksApi.StoredTagsReadBack | src/app/api/links/route.ts:44 | a comma-free tag array written by POST is read back by GET as the same list |
| LinksApi.GetSingle | src/app/api/links/route.ts:110-128 | the single lookup lower-cases the slug, reports the target when stored, the click count (0 when missing) and the metadata exactly when the target is non-empty |
| LinksApi.EntryOf | src/app/api/links/route.ts:142-158 | a listing entry holds the slug, its target, its clicks and the metadata view of its hash |
| LinksApi.Entries | src/app/api/links/route.ts:141-158 | one entry per scanned key, in scan order |
| LinksApi.ListLimit | src/app/api/links/route.ts:134 | the page size is 50 when absent, the given size when at most 200, and 200 above that |
| LinksApi.Selected | src/app/api/links/route.ts:141-177 | the filtered entries are no more than the keys |
| LinksApi.SelectedSnoc | src/app/api/links/route.ts:141-177 | scanning one more key appends its entry exactly when it passes the tag, source and search filters |
| LinksApi.SelectedIff | src/app/api/links/route.ts:160-176 | an entry is listed exactly when its slug is a stored link, it is that slug's entry and it passes every active filter |
| LinksApi.Matching | src/app/api/links/route.ts:179-183 | the sorted list is a permutation of the filtered entries, newest createdAt first with a missing date as time 0 |
| LinksApi.MatchingExactly | src/app/api/links/route.ts:141-183 | the sorted list holds exactly the stored entries that pass every filter |
| LinksApi.ListSpec | src/app/api/links/route.ts:185-196 | the page is the sorted list from offset for at most limit entries, total is the full count, hasMore iff offset + limit < total |
| LinksApi.List | src/app/api/links/route.ts:104-197 | the listing handler's loop returns exactly the specified response and writes nothing |
| LinksApi.Patched | src/app/api/links/route.ts:222-234 | the patched hash sets exactly the defined update fields (tags joined, permanent as "1"/"0") and keeps every other field, createdAt included |
| LinksApi.PatchStepEffect | src/app/api/links/route.ts:214-251 | an absent or empty meta hash gives "not found" and no write; otherwise the hash becomes the patched one, the target changes only for a non-empty new target, counters and collections stay |
| LinksApi.PatchKeepsCreatedAt | src/app/api/links/route.ts:222-239 | PATCH never changes a stored createdAt nor any counter |
| LinksApi.PatchStepFrame | src/app/api/links/route.ts:213-252 | a PATCH step never adds or removes a meta key, touches counters or collections, or changes a target without a new one |
| LinksApi.PatchSpec | src/app/api/links/route.ts:213-252 | one result per slug, in order, keyed by the normalised slug when updated and by the given slug when not found; key sets, counters and collections unchanged |
| LinksApi.PatchOne | src/app/api/links/route.ts:214-251 | one loop iteration does exactly the specified PATCH step |
| LinksApi.Patch | src/app/api/links/route.ts:199-255 | a missing slugs array or updates object gives 400 and no write; otherwise the results and store are those of the specification |
| LinksApi.DeleteKey | src/app/api/links/route.ts:266-286 | deleting one key removes its link, counter and meta, reports whether the link existed and how many link keys went |
| LinksApi.DeleteAll | src/app/api/links/route.ts:292-314 | bulk delete reports one result per key in input order, existed only for the first occurrence of a stored key, and removes exactly those keys from link, count and meta |
| LinksApi.BulkKeys | src/app/api/links/route.ts:288-293 | the bulk keys are the comma-separated pieces, each trimmed and normalised, in order |
| LinksApi.DeleteMany | src/app/api/links/route.ts:292-314 | the bulk loop does exactly the specified bulk delete |
| LinksApi.Delete | src/app/api/links/route.ts:257-323 | neither parameter gives 400 and no write; `slug` takes precedence over `slugs`; each form does its specified delete |
| TagQueries.CleanPieces | src/app/api/tags/route.ts:35-40 | the kept pieces of a tags field are never empty and no more than the pieces |
| TagQueries.CleanPiecesIff | src/app/api/tags/route.ts:35-40 | a tag is counted exactly when it is non-empty and is the trim of some stored piece |
| TagQueries.CleanPiecesSnoc | src/app/api/tags/route.ts:36-40 | the forEach over one more piece appends its trim exactly when that is non-empty |
| TagQueries.Occurrences | src/app/api/tags/route.ts:26-45 | every tag occurrence over all links, none empty |
| TagQueries.OccurrencesSnoc | src/app/api/tags/route.ts:26-45 | scanning one more link adds that link's occurrences at the end |
| TagQueries.StatsSpec | src/app/api/tags/route.ts:26-57 | totalLinks is the number of link keys, manual + orcid = totalLinks, totalClicks is non-negative, uniqueTags is the number of distinct trimmed tags; topTags sorts the tally in the object's key order (see ObjectKeyOrder) |
| TagQueries.ObjectKeyOrder | src/app/api/tags/route.ts:47 | `Object.entries` lists a permutation of the added keys: array-index keys first in ascending order, then the rest in insertion order |
| TagQueries.ObjectKeyOrderFacts | src/app/api/tags/route.ts:47 | the listed keys are exactly the added keys, as many, and distinct when those are |
| TagQueries.ObjectKeyOrderIndicesFirst | src/app/api/tags/route.ts:47 | integer-like keys (array indices) come first in ascending numeric order, and the other keys keep their insertion order |
| TagQueries.IndicesThenRest | src/app/api/tags/route.ts:47 | sorted indices followed by the other keys put every index before every other key |
| TagQueries.ObjectKeyOrderFour | src/app/api/tags/route.ts:47 | keys added as a, x, b, y with array indices y < x are listed y, x, a, b |
| TagQueries.ObjectKeyOrderExample | src/app/api/tags/route.ts:47 | tags first seen as b, 2024, a, 7 are listed as 7, 2024, b, a |
| TagQueries.UniqueTagsCount | src/app/api/tags/route.ts:56 | `Object.keys(tagCounts).length` is the number of distinct trimmed tags |
| TagQueries.TagEntriesFacts | src/app/api/tags/route.ts:39-47 | the tally entries are exactly the distinct occurring tags, each with its number of occurrences |
| TagQueries.SortedEntriesFacts | src/app/api/tags/route.ts:47-48 | sorting the entries by count keeps exactly those entries, distinct, in descending count |
| TagQueries.TopTagsOrdered | src/app/api/tags/route.ts:47-49 | topTags has at most 20 distinct entries with their true counts, in descending count order |
| TagQueries.TopTagsComplete | src/app/api/tags/route.ts:47-49 | a tag left out of topTags occurs no more often than the 20th entry, and there are 20 entries |
| TagQueries.SuggestFacts | src/app/api/tags/route.ts:59-83 | suggest returns at most 10 distinct non-empty occurring tags, each starting with the prefix ignoring case |
| TagQueries.SuggestOrdered | src/app/api/tags/route.ts:82 | the suggestions are in ascending string order |
| TagQueries.SuggestComplete | src/app/api/tags/route.ts:82 | a matching tag left out means 10 suggestions all ordered before it |
| TagQueries.TallyEntries | src/app/api/tags/route.ts:47 | `Object.entries` of the finished tally, listed in the object's key order, are the specified entries |
| TagQueries.TallyOld | src/app/api/tags/route.ts:39 | counting a tag already seen increments it and keeps the tally exact |
| TagQueries.TallyNew | src/app/api/tags/route.ts:39 | counting a new tag sets it to 1, appends it to the key order and keeps the tally exact |
| TagQueries.TallyNewKeys | src/app/api/tags/route.ts:39 | the tally's keys follow a new tag |
| TagQueries.TallyNewCounts | src/app/api/tags/route.ts:39 | the tally's counts follow a new tag |
| TagQueries.TallyTag | src/app/api/tags/route.ts:37-39 | counting one trimmed tag keeps the tally exact for the occurrences seen |
| TagQueries.TallyLink | src/app/api/tags/route.ts:34-41 | counting one link's tags keeps the tally exact for its kept pieces |
| TagQueries.StatsStep | src/app/api/tags/route.ts:29-44 | one more key adds its clicks and exactly one to orcid or manual |
| TagQueries.ComputeStats | src/app/api/tags/route.ts:17-57 | the stats loop returns exactly the specified stats |
| TagQueries.CollectStep | src/app/api/tags/route.ts:70-76 | adding a tag to the Set keeps it the first-occurrence list of the matching tags seen |
| TagQueries.CollectMatching | src/app/api/tags/route.ts:67-78 | the Set after one link's tags is the first-occurrence list of all matching tags so far |
| TagQueries.ComputeSuggestions | src/app/api/tags/route.ts:59-83 | the suggest loop returns exactly the specified suggestions |
| TagQueries.Get | src/app/api/tags/route.ts:8-92 | `stats` and `suggest` give their specified replies; any other action gives the 400 reply |
| TagsApi.ExistingTagsFacts | src/app/api/tags/route.ts:111-113 | the existing tags are the stored pieces, one each, trimmed and comma-free |
| TagsApi.WriteTags | src/app/api/tags/route.ts:117 | writing a tags field changes only that link's tags field |
| TagsApi.EditAll | src/app/api/tags/route.ts:109-120 | the edit loop writes only meta hashes of the given slugs, counts at most one per slug and leaves links, counters and collections alone |
| TagsApi.EditAllStep | src/app/api/tags/route.ts:109 | the loop over one more slug is the loop so far followed by that slug's edit |
| TagsApi.Edited | src/app/api/tags/route.ts:117 | an edit replaces just the tags field, or nothing |
| TagsApi.EditAllDistinct | src/app/api/tags/route.ts:109-120 | over distinct slugs each slug gets its own edit of its original hash and updatedCount is the number of slugs that write |
| TagsApi.ReadBackTrimmed | src/app/api/tags/route.ts:111-117 | a clean list written joined reads back as itself |
| TagsApi.MergedClean | src/app/api/tags/route.ts:114 | the merged list of clean tags is comma-free and trimmed |
| TagsApi.AddIdempotent | src/app/api/tags/route.ts:110-119 | with clean requested tags, repeating the same add writes nothing |
| TagsApi.AddKeepsExistingFirst | src/app/api/tags/route.ts:114 | the new list starts with the existing tags in order and holds every requested tag |
| TagsApi.AddIntendedStoresAll | src/app/api/tags/route.ts:114-117 | with the comparison corrected, every requested tag is stored after the add |
| TagsApi.AddAgreesOnNoDup | src/app/api/tags/route.ts:116 | on a stored list without duplicates, comparing lengths and comparing lists agree |
| TagsApi.AddMissesNewTag | src/app/api/tags/route.ts:116 | on a stored list `[a, a]`, adding a new tag `b` writes nothing |
| TagsApi.AddIntendedWritesNewTag | src/app/api/tags/route.ts:116 | on the same list the corrected comparison does write |
| TagsApi.StoredAA | src/app/api/tags/route.ts:111-113 | the stored text "a,a" reads as `["a", "a"]` |
| TagsApi.TagsAA | src/app/api/tags/route.ts:112 | the text "a,a" splits into `["a", "a"]` |
| TagsApi.TrimAllAA | src/app/api/tags/route.ts:112 | trimming `["a", "a"]` changes nothing |
| TagsApi.SplitAA | src/app/api/tags/route.ts:112 | `"a,a".split(",")` is `["a", "a"]` |
| TagsApi.DedupeRepeat | src/app/api/tags/route.ts:114 | the Set of `[a, a, b]` is `[a, b]` |
| TagsApi.AddToLink | src/app/api/tags/route.ts:110-119 | one iteration performs exactly the add edit of that slug, written when the merged list's length differs from the stored list's (see Findings) |
| TagsApi.AddTags | src/app/api/tags/route.ts:94-129 | missing or non-array slugs or tags give 400 and no write; otherwise the store and count are the add loop's |
| TagsApi.WithoutIsFilter | src/app/api/tags/route.ts:150 | removing the requested tags is the filter that drops exactly them |
| TagsApi.TrimmedFilter | src/app/api/tags/route.ts:150 | filtering clean tags keeps them clean |
| TagsApi.RemoveEffect | src/app/api/tags/route.ts:147-156 | afterwards no requested tag remains; a write happens exactly when one was present; the others keep their order |
| TagsApi.RemoveFromLink | src/app/api/tags/route.ts:147-156 | one iteration performs exactly the remove edit of that slug |
| TagsApi.RemoveTags | src/app/api/tags/route.ts:131-169 | missing or non-array slugs or tags give 400 and no write; otherwise the store and count are the remove loop's |
| TagsApi.Renamed | src/app/api/tags/route.ts:194-196 | each piece whose trim equals trim(oldTag) becomes newTag; every other piece keeps its spacing |
| TagsApi.RenameEdit | src/app/api/tags/route.ts:192-201 | a link without tags is untouched; otherwise it is written exactly when the joined renamed list differs from the stored text |
| TagsApi.RenamedCommaFree | src/app/api/tags/route.ts:194-196 | renaming to a comma-free tag keeps the pieces comma-free |
| TagsApi.RenamedUnchanged | src/app/api/tags/route.ts:194-198 | the renamed list equals the stored one exactly when no piece is actually renamed |
| TagsApi.RenameWritesIff | src/app/api/tags/route.ts:192-201 | with a non-empty comma-free new tag, a link is written exactly when a piece is renamed, and then reads back as the renamed list |
| TagsApi.RenameInLink | src/app/api/tags/route.ts:189-202 | one iteration performs exactly the rename edit of that link |
| TagsApi.RenameTag | src/app/api/tags/route.ts:171-215 | a missing oldTag or newTag gives 400 and no write; otherwise the store and count are the rename loop's over every link |
| TagsApi.DeleteEdit | src/app/api/tags/route.ts:235-242 | the pieces whose trim differs from trim(tag) are written back exactly when some piece went |
| TagsApi.DeleteEffect | src/app/api/tags/route.ts:235-242 | a link is written exactly when it holds the tag, and afterwards none of its pieces trims to it |
| TagsApi.DeleteCountsHolders | src/app/api/tags/route.ts:231-243 | updatedCount is the number of links that held the tag |
| TagsApi.DeleteFromLink | src/app/api/tags/route.ts:232-243 | one iteration performs exactly the delete edit of that link |
| TagsApi.DeleteTag | src/app/api/tags/route.ts:217-256 | a missing tag gives 400 and no write; otherwise the store and count are the delete loop's over every link |
| CollectionsApi.ValidIdChars | src/app/api/collections/route.ts:8-10 | an id is valid exactly when it is non-empty and every character is a letter, a digit, '-' or '_' |
| CollectionsApi.ValidIdSeparatorFree | src/app/api/collections/route.ts:8-10 | a valid id holds neither ',' nor ':' |
| CollectionsApi.ListValue | src/app/api/collections/route.ts:88-89 | an absent list is stored as "", an array comma-joined, text as given |
| CollectionsApi.NewCollection | src/app/api/collections/route.ts:85-92 | a new collection stores exactly name, description, projects, tags, and createdAt and updatedAt from two separate clock readings |
| CollectionsApi.CreateSpec | src/app/api/collections/route.ts:57-96 | missing id or name and an invalid id give 400, an existing id 409, all without a write; otherwise exactly that collection is stored |
| CollectionsApi.Create | src/app/api/collections/route.ts:48-104 | the POST handler does exactly the create specification |
| CollectionsApi.UpdateFields | src/app/api/collections/route.ts:140-150 | the update hash holds exactly the provided fields (lists joined) and always updatedAt |
| CollectionsApi.UpdateSpec | src/app/api/collections/route.ts:115-154 | a missing or invalid id gives 400 and an absent collection 404, all without a write; otherwise the update fields are merged into the stored hash |
| CollectionsApi.UpdateKeepsOthers | src/app/api/collections/route.ts:140-152 | an update refreshes updatedAt, preserves createdAt and every field not provided, and adds only the provided fields |
| CollectionsApi.Update | src/app/api/collections/route.ts:106-162 | the PUT handler does exactly the update specification |
| CollectionsApi.Delete | src/app/api/collections/route.ts:164-197 | a missing or invalid id gives 400 and no write; otherwise `collection:id` is removed and the reply is success even when it was absent |
| CollectionsApi.ParseList | src/app/api/collections/route.ts:28-31 | the parsed list holds only non-empty, comma-free entries |
| CollectionsApi.ParseListJoin | src/app/api/collections/route.ts:28-31 | non-empty comma-free entries stored joined parse back unchanged |
| CollectionsApi.ListCollections | src/app/api/collections/route.ts:20-36 | one collection per key, in scan order, with that id |
| CollectionsApi.CreatedReadsBack | src/app/api/collections/route.ts:85-94 | a created collection with clean list arrays reads back with its id, name, description, lists, and each of its two clock readings as createdAt and updatedAt |
| SearchApi.ScoreZeroIff | src/app/api/search/route.ts:23-48 | the score is 0 exactly when neither a non-empty title, nor a non-empty description, nor any tag contains the query ignoring case |
| SearchApi.TitlePrefixScore | src/app/api/search/route.ts:32-35 | a title starting with a non-empty query scores at least 15 |
| SearchApi.CalculateRelevance | src/app/api/search/route.ts:23-48 | the scoring loop computes 10·[title contains] + 5·[title starts with] + 5·[description contains] + 3 per matching tag |
| SearchApi.MatchesFrom | src/app/api/search/route.ts:53-58 | every match is as long as the query and equals it ignoring case |
| SearchApi.HighlightText | src/app/api/search/route.ts:50-59 | every highlight equals the query ignoring case |
| SearchApi.MatchesFromIff | src/app/api/search/route.ts:53-58 | the scan from an index finds a match exactly when the query occurs, ignoring case, at or after that index |
| SearchApi.HighlightIff | src/app/api/search/route.ts:50-59 | a non-empty query highlights something exactly when the text contains it ignoring case |
| SearchApi.SourceOf | src/app/api/search/route.ts:97-99 | the source is orcid for "orcid-" slugs, openreview for other "openreview-" slugs, manual otherwise |
| SearchApi.SearchLimit | src/app/api/search/route.ts:70 | the page size is 20 by default and capped at 100 |
| SearchApi.KeptIff | src/app/api/search/route.ts:86-108 | a key is kept exactly when it has a non-empty target, passes the source and exact-tag filters and, with a query, some field contains it |
| SearchApi.EntryForFacts | src/app/api/search/route.ts:104-127 | a kept entry names its slug and target; without a query it scores 1 with no highlights; with one it scores above 0 and highlights exactly its matching tags |
| SearchApi.Hits | src/app/api/search/route.ts:86-128 | there are no more hits than keys |
| SearchApi.HitsIff | src/app/api/search/route.ts:86-128 | the hits are exactly the kept entries of the keys |
| SearchApi.SearchSpec | src/app/api/search/route.ts:61-146 | no q, tag nor source gives 400; otherwise total is the number of hits, limit at most 100, the page no longer than limit and hasMore iff offset + limit < total |
| SearchApi.SearchOrdered | src/app/api/search/route.ts:130-132 | the page is in descending score order and holds only hits |
| SearchApi.ScoreEntry | src/app/api/search/route.ts:87-127 | one loop iteration yields exactly that key's hit, if any |
| SearchApi.Search | src/app/api/search/route.ts:61-146 | the search handler returns exactly the specified response and writes nothing |
| StatsApi.CreatedAt | src/app/api/stats/route.ts:56 | a missing or empty createdAt gives no date; otherwise the parsed date |
| StatsApi.ActivityOf | src/app/api/stats/route.ts:74-80 | a link is recent activity exactly when it has a date on or after the period start, with its slug, clicks and that date |
| StatsApi.PerformerOf | src/app/api/stats/route.ts:82-86 | a performer holds the slug, its clicks and a title exactly when one is stored |
| StatsApi.Activities | src/app/api/stats/route.ts:52-87 | there are no more activities than links |
| StatsApi.ActivitiesIff | src/app/api/stats/route.ts:74-80 | the activities are exactly the recent ones among the keys |
| StatsApi.PerformersAt | src/app/api/stats/route.ts:82-86 | one performer per key, in key order |
| StatsApi.AvgCents | src/app/api/stats/route.ts:98-101 | the average in hundredths is clicks·100/links rounded half up, and 0 without links |
| StatsApi.PeriodName | src/app/api/stats/route.ts:14 | the period defaults to "all" and is never empty |
| StatsApi.SourcesPartition | src/app/api/stats/route.ts:61-63 | every link is counted in exactly one of manual, orcid and openreview |
| StatsApi.StatsSpec | src/app/api/stats/route.ts:8-111 | totalLinks is the number of keys and splits into the three sources, uniqueTags counts distinct trimmed tags, at most 10 recent and 10 top entries, no links means no clicks and a 0 average |
| StatsApi.RecentActivityFacts | src/app/api/stats/route.ts:89-93 | at most 10 recent entries, each a true activity of a key since the period start, newest first |
| StatsApi.RecentActivityComplete | src/app/api/stats/route.ts:89-93 | a recent link left out means 10 entries, the 10th no older than it |
| StatsApi.TopPerformersFacts | src/app/api/stats/route.ts:95-96 | at most 10 distinct performers with their true clicks, in descending clicks |
| StatsApi.TopPerformersComplete | src/app/api/stats/route.ts:95-96 | a link left out means 10 performers, the 10th with at least its clicks |
| StatsApi.ScanStep | src/app/api/stats/route.ts:52-87 | scanning one more key adds exactly that key to every total |
| StatsApi.ScanKey | src/app/api/stats/route.ts:53-86 | one loop iteration adds exactly that key |
| StatsApi.ScanLinks | src/app/api/stats/route.ts:52-87 | the loop computes the click sum, the three source counts, an exact tag tally, the activities and the performers |
| StatsApi.GetStats | src/app/api/stats/route.ts:8-111 | the handler returns exactly the specified stats and writes nothing |
| ExportApi.EntryOf | src/app/api/export/route.ts:20-43 | a key is exported exactly when its target is non-empty, with its slug and target, as orcid exactly for "orcid-" slugs and never as openreview |
| ExportApi.Exported | src/app/api/export/route.ts:20-46 | there are no more exported entries than keys |
| ExportApi.ExportedIff | src/app/api/export/route.ts:20-46 | the exported entries are exactly the entries of the keys that pass the source filter |
| ExportApi.RawFields | src/app/api/export/route.ts:69-72 | one raw value per header |
| ExportApi.Escape | src/app/api/export/route.ts:74 | doubling quotes adds and drops no other character |
| ExportApi.QuoteField | src/app/api/export/route.ts:73-76 | quoting keeps every character other than '"' and adds none |
| ExportApi.QuoteAll | src/app/api/export/route.ts:69-77 | each value is quoted on its own |
| ExportApi.CsvRows | src/app/api/export/route.ts:68-79 | one CSV line per entry, each the quoted joined raw values |
| ExportApi.ReadQuoted | src/app/api/export/route.ts:73-75 | reading a quoted cell never grows the remainder |
| ExportApi.FieldEnd | src/app/api/export/route.ts:76 | a plain cell ends within the line |
| ExportApi.ParseRow | src/app/api/export/route.ts:78 | a parsed line has at least one cell |
| ExportApi.ReadEscaped | src/app/api/export/route.ts:74 | reading an escaped value back up to its closing quote gives the value and the rest |
| ExportApi.FieldEndNoComma | src/app/api/export/route.ts:76 | a plain cell runs to the first comma |
| ExportApi.ReadQuotedCell | src/app/api/export/route.ts:73-75 | a value holding ',' or '"' is quoted and reads back unchanged |
| ExportApi.ReadPlainCell | src/app/api/export/route.ts:76 | any other value is written as is and reads back unchanged |
| ExportApi.RowCons | src/app/api/export/route.ts:78 | a line is its first quoted value, a comma and the rest of the line |
| ExportApi.ParseRowRoundTrip | src/app/api/export/route.ts:69-78 | a CSV line parses back into exactly the values written (section 2 of RFC 4180 quoting) |
| ExportApi.RowNoNewline | src/app/api/export/route.ts:69-78 | values without newlines give a line without newlines |
| ExportApi.PlainWord | src/app/api/export/route.ts:55-65 | a plain word is written unquoted |
| ExportApi.HeaderRow | src/app/api/export/route.ts:55-67 | the header names are written unquoted |
| ExportApi.HeadersNoNewline | src/app/api/export/route.ts:55-65 | no header name holds a newline |
| ExportApi.CsvRoundTrip | src/app/api/export/route.ts:66-80 | the CSV text has one line per entry after the header line, and each line parses back into that entry's values |
| ExportApi.ExportSpec | src/app/api/export/route.ts:54-100 | `format=csv` gives the CSV file, anything else the JSON export whose total is its entry count and whose source is the filter or "all" |
| ExportApi.SortedFacts | src/app/api/export/route.ts:48-52 | the sorted rows are a permutation of the exported entries, newest createdAt first |
| ExportApi.OpenReviewExportsNothing | src/app/api/export/route.ts:28-31 | `source=openreview` exports nothing, as no entry is classified openreview |
| ExportApi.ExportStep | src/app/api/export/route.ts:20-46 | one more key appends its entry exactly when it exists and passes the filter |
| ExportApi.Export | src/app/api/export/route.ts:8-101 | the handler returns exactly the specified response and writes nothing |
| DirectoryApi.DirEntryOf | src/app/api/directory/route.ts:14-30 | an entry holds the slug, its target when stored, its clicks, "/" + slug and its split tags |
| DirectoryApi.DirEntries | src/app/api/directory/route.ts:12-32 | one entry per key, in key order |
| DirectoryApi.DirectorySpec | src/app/api/directory/route.ts:4-45 | a failed store call gives the 500 reply; otherwise total is the number of entries, one per key |
| DirectoryApi.ListingFacts | src/app/api/directory/route.ts:12-37 | the listing holds each stored link's entry exactly once, in descending clicks |
| DirectoryApi.GetDirectory | src/app/api/directory/route.ts:4-45 | the handler returns exactly the specified reply and writes nothing |
| OpenReview.ExtractValue | src/lib/openreview.ts:46-51 | a string is itself, a `{value}` wrapper its value, anything else "" |
| OpenReview.ExtractArrayValue | src/lib/openreview.ts:53-65 | an array is itself, a wrapped array its items, anything else empty |
| OpenReview.SubmissionNotes | src/lib/openreview.ts:212-238 | the submissions keep the API order and are exactly the undeleted notes with a submission invitation or submission content |
| OpenReview.NewTarget | src/lib/openreview.ts:270-272 | a new record points at the pdf when the note has one and at the forum otherwise |
| OpenReview.NewTag | src/lib/openreview.ts:287-288 | the tag is the venue text, "OpenReview" when that is empty, never empty |
| OpenReview.NewMetadata | src/lib/openreview.ts:276-291 | a new record stores permanent "0", createdAt, the title text, the abstract only when non-empty, and the tag |
| OpenReview.StrList | src/lib/openreview.ts:262-263 | each stored tag piece becomes one string |
| OpenReview.SyncOne | src/lib/openreview.ts:248-306 | a note with stored metadata writes nothing and is read back, with the raw content fields as fallbacks (see Findings); otherwise exactly its link and meta are written; the item carries the note's slug and short URL |
| OpenReview.SyncAll | src/lib/openreview.ts:246-308 | one item per submission |
| OpenReview.SyncAllStep | src/lib/openreview.ts:246-248 | one more submission is synced against the store the earlier ones left, and its item is appended |
| OpenReview.SubmissionsSpec | src/lib/openreview.ts:110-113 | no user id, or a failed fetch, returns nothing and writes nothing |
| OpenReview.SyncOneThenStored | src/lib/openreview.ts:248-306 | after one sync the note is stored, a second sync writes nothing, and no other key, counter or collection changes |
| OpenReview.StoredTakesPrecedence | src/lib/openreview.ts:252-268 | stored non-empty title, description and tags win over the note, and the clicks are the stored counter |
| OpenReview.NewItemMatchesMeta | src/lib/openreview.ts:270-305 | a freshly written record returns the stored target, title, description and tag |
| OpenReview.NewTagHasNoComma | src/lib/openreview.ts:287-290 | a comma-free venue gives a comma-free tag |
| OpenReview.SubmissionsOrder | src/lib/openreview.ts:246-313 | one item per submission note, in order, with the note's slug |
| OpenReview.SyncAllSlugs | src/lib/openreview.ts:246-248 | the i-th item carries the i-th note's slug |
| OpenReview.SyncNote | src/lib/openreview.ts:247-306 | one note's mapping does exactly the specified sync |
| OpenReview.GetSubmissions | src/lib/openreview.ts:105-318 | the function returns and writes exactly what the specification does |
| OpenReview.StoredTitleMayBeObject | src/lib/openreview.ts:259 | syncing a stored record without a title returns the note's raw `{value}` wrapper as its title |
| OpenReview.StoredItemIntendedIsText | src/lib/openreview.ts:259-264 | with the fallbacks unwrapped, the title, description and tags of a stored record are all plain strings |
| OpenReview.StoredItemAgreesOnPlainFields | src/lib/openreview.ts:259-264 | on notes whose fields are plain strings the corrected and the written fallbacks agree |
| Orcid.FindDoi | src/lib/orcid.ts:107-110 | the DOI id is found exactly when some external id has type "doi", and it is one of them |
| Orcid.FindDoiFirst | src/lib/orcid.ts:108-110 | the DOI id found is the first of its type |
| Orcid.Target | src/lib/orcid.ts:111-113 | the target is the DOI url, else the work url, else the ORCID profile |
| Orcid.Description | src/lib/orcid.ts:123-125 | the description is the short description, else the journal title, and absent only when both are empty |
| Orcid.Tags | src/lib/orcid.ts:127-129 | the tags are the journal title alone, or none |
| Orcid.NewMetadata | src/lib/orcid.ts:117-130 | a new record stores permanent "0", createdAt, the title, a description and tags only when present |
| Orcid.SyncOne | src/lib/orcid.ts:80-145 | a stored work writes nothing and is read back; otherwise exactly its link and meta are written |
| Orcid.SyncAll | src/lib/orcid.ts:78-147 | one item per work |
| Orcid.FirstWorks | src/lib/orcid.ts:79-80 | at most one work per group |
| Orcid.WorksSpec | src/lib/orcid.ts:54-154 | no ORCID id or a failed fetch returns nothing and writes nothing; a group without works makes the call fail and return nothing |
| Orcid.StoredTakesPrecedence | src/lib/orcid.ts:86-105 | stored non-empty title, description and tags win, nothing is written and the clicks are the stored counter |
| Orcid.ResyncShowsSameItem | src/lib/orcid.ts:86-144 | syncing a fresh work again writes nothing and returns the same item except createdAt, which is the stored reading; the items are equal iff the stored and returned readings are |
| Orcid.SyncAllSlugs | src/lib/orcid.ts:79-81 | the i-th item carries the i-th work's slug |
| Orcid.FirstWorksAll | src/lib/orcid.ts:79-80 | with no empty group, the works are the groups' first works, in order |
| Orcid.GroupStep | src/lib/orcid.ts:78-147 | one more group either fails (empty) or appends the sync of its first work |
| Orcid.SyncWork | src/lib/orcid.ts:80-145 | one group's mapping does exactly the specified sync |
| Orcid.GetOrcidWorks | src/lib/orcid.ts:55-154 | the function returns and writes exactly what the specification does |
| ConferenceSlides.SlideKeyMatchesCompare | src/lib/conferenceSlides.ts:38-48 | the sort key's order is exactly the slide comparator's "no later than" |
| ConferenceSlides.SortSlidesFacts | src/lib/conferenceSlides.ts:37-48 | a set's slides are a permutation of its own, dated slides first in ascending date, ties and undated slides by src |
| ConferenceSlides.Normalize | src/lib/conferenceSlides.ts:50-57 | a set's id is its own id or else the lower-cased key, and its slides are the sorted slides |
| ConferenceSlides.LowerKeys | src/lib/conferenceSlides.ts:36 | each key lower-cased, in order |
| ConferenceSlides.PhotoSetsDomain | src/lib/conferenceSlides.ts:34-59 | the sets are keyed by exactly the lower-cased raw keys |
| ConferenceSlides.PhotoSetsLast | src/lib/conferenceSlides.ts:34-59 | where two raw keys lower-case alike, the later entry's set is kept |
| ConferenceSlides.KeysAreLower | src/lib/conferenceSlides.ts:36 | every set key is lower case |
| ConferenceSlides.ProjectSlides | src/lib/conferenceSlides.ts:62-65 | the slides lookup has the same keys, each with that set's slides |
| ConferenceSlides.GetSlidesFor | src/lib/conferenceSlides.ts:70-73 | an empty key finds nothing |
| ConferenceSlides.GetPhotoSet | src/lib/conferenceSlides.ts:78-81 | an empty key finds nothing |
| ConferenceSlides.LookupsIgnoreCase | src/lib/conferenceSlides.ts:70-81 | both lookups ignore case and agree: slides are found exactly when the set is, and are its slides |
| ConferenceSlides.SetKeyMatchesCompare | src/lib/conferenceSlides.ts:88-101 | the sort key's order is exactly the set comparator's "no later than" |
| ConferenceSlides.AllPhotoSetsFacts | src/lib/conferenceSlides.ts:87-102 | all sets, each once, oldest date first (missing as 0), ties by id |
| SearchableProjects.SortItems | src/components/SearchableProjects.tsx:36-73 | sorting returns a permutation of the items |
| SearchableProjects.AlphabeticalOrder | src/components/SearchableProjects.tsx:44-53 | the alphabetical modes order by display name (title or name, else slug), ascending or descending |
| SearchableProjects.DatedOrder | src/components/SearchableProjects.tsx:54-68 | when every item has a date, newest and oldest order by time |
| SearchableProjects.ItemOrderReflexive | src/components/SearchableProjects.tsx:42-72 | every item is in order with itself, in every mode |
| SearchableProjects.NewestNotTransitive | src/components/SearchableProjects.tsx:54-60 | the newest comparator is not transitive when some items lack a date: three links form a cycle |
| SearchableProjects.QueryStepFilters | src/components/SearchableProjects.tsx:96-105 | the query step keeps exactly the links whose slug, target, title, description or a tag contains the query ignoring case |
| SearchableProjects.SourceStepFilters | src/components/SearchableProjects.tsx:107-109 | the source step on top keeps exactly the links that also have the chosen source |
| SearchableProjects.TagStepFilters | src/components/SearchableProjects.tsx:111-115 | the tag step on top keeps exactly the links that pass all three filters |
| SearchableProjects.FilterLinksFacts | src/components/SearchableProjects.tsx:86-117 | the pipeline keeps exactly the links passing every active filter, in order; with no filter it returns all links |
| SearchableProjects.AllTagsIff | src/components/SearchableProjects.tsx:167 | the tag list holds exactly the tags of some link |
| SearchableProjects.CollectionProjectsSource | src/components/SearchableProjects.tsx:141-151 | a collection matching by name, description or tag draws its members from all links under the source and tag filters; any other only from the filtered links |
| SearchableProjects.PairCompareIsItemOrder | src/components/SearchableProjects.tsx:158 | ordering two collections by sorting the pair is the item order by name |
| SearchableProjects.PairCompareTies | src/components/SearchableProjects.tsx:158 | two collections that tie in the item order compare as -1 both ways, so the comparator is inconsistent on ties |
| SearchableProjects.AllRendered | src/components/SearchableProjects.tsx:130-156 | each collection paired with its member list, in order |
| SearchableProjects.RenderedAreNonEmpty | src/components/SearchableProjects.tsx:157 | every rendered collection is a given collection with its own non-empty member list |
| SearchableProjects.NonEmptyAreRendered | src/components/SearchableProjects.tsx:157 | every collection with members is rendered |
| SearchableProjects.ShownSlugsIff | src/components/SearchableProjects.tsx:160-161 | a slug is shown in collections exactly when some rendered collection holds a link with it |
| SearchableProjects.ShownInCollections | src/components/SearchableProjects.tsx:160-161 | the nested forEach collects exactly those slugs |
| SearchableProjects.StandalonePartition | src/components/SearchableProjects.tsx:160-163 | standalone links keep the sorted order, share no slug with a rendered collection, and every sorted link is standalone or shown in a collection |
| SearchableProjects.ProjectsView.constructor | src/components/SearchableProjects.tsx:76-82 | the initial state: no filters, all links, no highlights, alphabetical order |
| SearchableProjects.ProjectsView.PerformSearch | src/components/SearchableProjects.tsx:85-122 | the filtered links become exactly the initial links passing the current filters, highlights are cleared, the filters stay |
| SearchableProjects.ProjectsView.Render | src/components/SearchableProjects.tsx:128-167 | the rendered page is exactly the specified page for the current state |
| ProjectCard.Capitalize | src/components/ProjectCard.tsx:48 | a word keeps its length and its tail, with the first character upper-cased |
| ProjectCard.CapitalizeFacts | src/components/ProjectCard.tsx:48 | capitalising changes a word only in case and adds no space |
| ProjectCard.Capitals | src/components/ProjectCard.tsx:48 | each word capitalised, in order |
| ProjectCard.DisplayTitle | src/components/ProjectCard.tsx:44-49 | a non-empty title is shown as is |
| ProjectCard.DisplayTitleWords | src/components/ProjectCard.tsx:44-49 | without a title, the shown words are the slug's '-'-separated pieces, capitalised, in order, and equal to them ignoring case |
| ProjectCard.DigitPrefix | src/components/ProjectCard.tsx:58 | `parseInt` reads the longest run of leading digits |
| ProjectCard.ParseTwoDigits | src/components/ProjectCard.tsx:58 | two digits read as their decimal value |
| ProjectCard.MonthName | src/components/ProjectCard.tsx:60-61 | a month number from 1 to 12 names one of the twelve months |
| ProjectCard.ExtractYear | src/components/ProjectCard.tsx:51-54 | no date gives no year; otherwise the year is the first four characters (or the whole shorter date) |
| ProjectCard.ExtractMonth | src/components/ProjectCard.tsx:56-62 | a date shorter than 7 characters has no month; any month found is a month name |
| ProjectCard.ExtractMonthIso | src/components/ProjectCard.tsx:56-62 | a digit pair at positions 5-6 gives that month when it is 1 to 12, and no month otherwise |
| ProjectCard.FormatDate | src/components/ProjectCard.tsx:64-71 | a date is formatted exactly when it is non-empty, never as "" |
| ProjectCard.FormatDateCases | src/components/ProjectCard.tsx:64-71 | a date with a month shows "Mon YYYY"; without, the year, or "present" for a range end in the current year |
| ProjectCard.DateDisplay | src/components/ProjectCard.tsx:73-85 | the date suffix is empty exactly when both dates are |
| ProjectCard.DateDisplayCases | src/components/ProjectCard.tsx:76-85 | equal dates show once, two different dates as a range, one date alone, in parentheses |
| ProjectCard.SortedTags | src/components/ProjectCard.tsx:119 | the shown tags are a permutation of the tags |
| ProjectCard.SortedTagsOrder | src/components/ProjectCard.tsx:119 | the shown tags are in case-insensitive ascending order |
| CollectionCard.MergeTagsFacts | src/components/CollectionCard.tsx:42-45 | the merged tags hold no repeats, exactly the project's and the collection's tags, the project's own first in their order |
| CollectionCard.MergeKeepsProjectTagsFirst | src/components/CollectionCard.tsx:43 | a repeat-free project tag list is kept unchanged at the front |
| CollectionCard.CardView | src/components/CollectionCard.tsx:40-100 | a card without projects renders nothing; expanded it shows each project with merged tags; collapsed it shows none |
| CollectionCard.ReadFlag | src/components/CollectionCard.tsx:30-38 | a stored "1" collapses, "0" expands, anything else keeps the state |
| CollectionCard.FlagRoundTrip | src/components/CollectionCard.tsx:30-63 | the stored flag reads back as the state it was written for |
| CollectionCard.CollapseState.constructor | src/components/CollectionCard.tsx:28 | a card starts expanded |
| CollectionCard.CollapseState.Restore | src/components/CollectionCard.tsx:30-38 | on mount the state follows the stored flag and storage is unchanged |
| CollectionCard.CollapseState.Click | src/components/CollectionCard.tsx:55-63 | a click flips the state and stores the flag for the new state, which reads back as it |
| TagDirectory.UniqueTagsFacts | src/components/TagDirectory.tsx:12 | the listed tags are distinct, ascending and exactly the tags given |
| TagDirectory.ClickTag | src/components/TagDirectory.tsx:32 | clicking a tag selects it unless it was selected, which clears the selection |
| TagDirectory.ClickAllTags | src/components/TagDirectory.tsx:18 | "All Tags" clears the selection |
| TagDirectory.ClickTagTwice | src/components/TagDirectory.tsx:32 | from no selection or with this tag selected, clicking the tag twice restores the selection |
| TimelineSlider.StartChange | src/components/TimelineSlider.tsx:30-36 | a new start is taken exactly when it is at most the end |
| TimelineSlider.EndChange | src/components/TimelineSlider.tsx:38-44 | a new end is taken exactly when it is at least the start |
| TimelineSlider.HandlersKeepOrder | src/components/TimelineSlider.tsx:30-44 | both handlers keep start <= end and leave the other bound alone |
| TimelineSlider.Slider.constructor | src/components/TimelineSlider.tsx:22-23 | the local range starts at the given years with no notification |
| TimelineSlider.Slider.Resync | src/components/TimelineSlider.tsx:25-28 | new props replace the local range without notifying |
| TimelineSlider.Slider.HandleStartChange | src/components/TimelineSlider.tsx:30-36 | the range follows the start rule and the parent is notified exactly when the start is taken |
| TimelineSlider.Slider.HandleEndChange | src/components/TimelineSlider.tsx:38-44 | the range follows the end rule and the parent is notified exactly when the end is taken |
| TimelineSlider.Slider.Reset | src/components/TimelineSlider.tsx:120-125 | reset sets the full range, which is ordered exactly when minYear <= maxYear, and notifies both bounds |
| ConferenceCarousel.JsRem | src/components/ConferenceCarousel.tsx:35-47 | JavaScript `%` by zero is NaN; for a non-negative left side it is the remainder |
| ConferenceCarousel.NextStep | src/components/ConferenceCarousel.tsx:47 | next moves one forward, wrapping from the last slide to the first |
| ConferenceCarousel.PrevStep | src/components/ConferenceCarousel.tsx:46 | prev moves one back, wrapping from the first slide to the last |
| ConferenceCarousel.PrevNextInverse | src/components/ConferenceCarousel.tsx:46-47 | prev undoes next and next undoes prev |
| ConferenceCarousel.NoSlidesGivesNaN | src/components/ConferenceCarousel.tsx:46-47 | with no slides both moves make the index NaN |
| ConferenceCarousel.Carousel.constructor | src/components/ConferenceCarousel.tsx:13 | the carousel starts at slide 0 |
| ConferenceCarousel.Carousel.Next | src/components/ConferenceCarousel.tsx:47 | the next button applies the next rule |
| ConferenceCarousel.Carousel.Prev | src/components/ConferenceCarousel.tsx:46 | the prev button applies the prev rule |
| ConferenceCarousel.Carousel.Tick | src/components/ConferenceCarousel.tsx:34-36 | an autoplay tick applies the next rule |
| ConferenceCarousel.Carousel.Dot | src/components/ConferenceCarousel.tsx:106 | a dot jumps to its slide |
| ConferenceCarousel.Carousel.Key | src/components/ConferenceCarousel.tsx:18-21 | ArrowLeft is prev, ArrowRight is next, any other key does nothing |
| AdminPage.Truthy | src/app/admin/page.tsx:133-136 | `x \|\| null`: a missing or empty string becomes null, any other passes through |
| AdminPage.TransformFacts | src/app/admin/page.tsx:128-137 | an API item keeps slug, target and clicks, gets origin + "/" + slug as short URL, and missing metadata gives null title, description and date and no tags |
| AdminPage.TransformAll | src/app/admin/page.tsx:128 | the page's link list is the transform of each item, in order |
| AdminPage.FilteredLinksMember | src/app/admin/page.tsx:378-385 | a link is listed exactly when it matches the query in slug, target, title, description or a tag, ignoring case |
| AdminPage.EmptyQueryKeepsAll | src/app/admin/page.tsx:378-385 | the empty query lists every link, in order |
| AdminPage.TotalClicksCoversEach | src/app/admin/page.tsx:387 | the click total is non-negative and at least each link's clicks |
| AdminPage.FilteredClicksBounded | src/app/admin/page.tsx:378-387 | the clicks of the filtered links never exceed the total over all links |
| AdminPage.ParseTagInputClean | src/app/admin/page.tsx:288 | every parsed tag is non-empty, trimmed and free of "," |
| AdminPage.Toggle | src/app/admin/page.tsx:80-88 | selecting a link flips its membership and leaves every other slug as it was |
| AdminPage.ToggleTwice | src/app/admin/page.tsx:80-88 | selecting the same link twice restores the selection |
| AdminPage.Slugs | src/app/admin/page.tsx:76 | the slugs of the links, in order |
| AdminPage.SelectAll | src/app/admin/page.tsx:72-78 | a selection as large as the filtered list is cleared; otherwise exactly the filtered slugs are selected |
| AdminPage.SelectAllTwice | src/app/admin/page.tsx:72-78 | with distinct slugs and a partial selection, select-all twice clears the selection |
| AdminPage.BulkTagsStepFacts | src/app/admin/page.tsx:285-343 | with no selection or a blank input nothing happens; otherwise one request for the selected slugs with clean parsed tags is sent, and success clears the selection, the action and the input |
| AdminPage.SignedIn | src/app/admin/page.tsx:101-103 | sign-in sets the authenticated flag to "true" and stores the key, leaving other session entries |
| AdminPage.SignedOut | src/app/admin/page.tsx:371-372 | sign-out removes both flags and nothing else |
| AdminPage.SignOutForgetsKey | src/app/admin/page.tsx:370-376 | signing out after signing in leaves the session as signing out alone would |
| AdminPage.Dashboard.constructor | src/app/admin/page.tsx:42-70 | the page starts empty, authenticated exactly when the session flag is "true" |
| AdminPage.Dashboard.LoadLinks | src/app/admin/page.tsx:128-140 | loading replaces the links by the transformed items; only the links may change |
| AdminPage.Dashboard.HandleSelectLink | src/app/admin/page.tsx:80-88 | the selection becomes its toggle by the slug; only the selection may change |
| AdminPage.Dashboard.HandleSelectAll | src/app/admin/page.tsx:72-78 | the selection becomes the select-all of the filtered links; only the selection may change |
| AdminPage.Dashboard.StartBulkDelete | src/app/admin/page.tsx:171-180 | an empty selection, a delete in flight or a refused confirm sends nothing; otherwise one delete of the selected slugs is sent and deleting starts; only the requests and the deleting flag may change |
| AdminPage.Dashboard.StartIndividualDelete | src/app/admin/page.tsx:206-214 | a delete in flight or a refused confirm sends nothing; otherwise one delete of the slug is sent and deleting starts; only the requests and the deleting flag may change |
| AdminPage.Dashboard.FinishDelete | src/app/admin/page.tsx:188-236 | deleting ends, and a successful bulk delete clears the selection; nothing else changes |
| AdminPage.Dashboard.BulkAddTags | src/app/admin/page.tsx:285-313 | the tag-edit state follows the bulk step with an add request |
| AdminPage.Dashboard.BulkRemoveTags | src/app/admin/page.tsx:315-343 | the tag-edit state follows the bulk step with a remove request |
| AdminPage.Dashboard.Login | src/app/admin/page.tsx:90-112 | an accepted key signs the session in with the typed password; a refused one changes nothing; only the session and the signed-in flag may change |
| AdminPage.Dashboard.Logout | src/app/admin/page.tsx:370-376 | the session is signed out, the page is unauthenticated, and the password and links are cleared; nothing else changes |

## Left out

- Connecting to Redis is not modelled: client creation, reconnect and backoff, and the connect-polling loop in `src/lib/redis.ts`. The store is always available. The 500 replies that the routes send when a Redis call throws are modelled only where a handler checks for failure explicitly.
- The admin-key header check and `src/app/api/auth/route.ts` are not modelled. Every handler models the behaviour after the check has passed. The 401 reply is not modelled.
- HTTP requests are not modelled:
  - the ORCID works API;
  - the OpenReview login, profile and notes APIs, and `getAuthToken`;
  - every `fetch` in the admin page.
  The decoded payload arrives as a parameter. `None` stands for a failed request.
- `Promise.all` fan-out runs one key at a time in the order of the array. This assumes that the note ids and put-codes the APIs return are distinct. Then each element writes only its own keys, so the final store is the same. With a repeated id, the second element would take the stored-metadata path in the model, and its item could differ from a concurrent run's.
- Clock and date parsing are parameters, not computations. This covers `new Date()`, `toISOString`, `Date.parse`, the `getTime` comparisons, the current year in project cards, and the start of the statistics period. Every `new Date()` call is its own reading: a collection create takes two, a new ORCID or OpenReview record takes two (the stored and the returned createdAt, as `Readings`), and the links POST loop takes one per link (`clock(i)`). Nothing relates the readings to one another.
- `localeCompare` is modelled as code-unit order, and `toLowerCase`/`toUpperCase` as ASCII case mapping. The model has no Unicode case folding and no locale collation.
- The `limit` and `offset` query parameters are natural numbers, or absent. The model leaves out the `NaN` and negative values that `parseInt` can produce for malformed text.
- Floating point is not modelled: the `avgClicksPerLink` rounding in the statistics route, the average shown on the admin page, and the slider's percentage positions.
- Rendering is not modelled: JSX, CSS, the HTML string that `highlightText` in the project card injects, clipboard and share buttons, and `window.open`.
- Timers and DOM listeners are not modelled: the 300 ms search debounce, the autoplay interval, and key listener registration. The model makes a tick or a key press an explicit method call.
- Browser storage is a map. Its quota and access errors are not modelled. `localStorage` is the collection card's map, and `sessionStorage` is the admin page's session map.
- Reading the photo-set YAML file when the module loads is not modelled. Its entries arrive as a parameter, in the order of the object's keys.
- Logging (`console.log`, `console.error`) and `alert` are not modelled.
- The admin page's link editing (`handleStartEdit`, `handleCancelEdit`, `handleSaveEdit`), its analytics fetch and its export download are not modelled. They only send requests that the route models already cover and copy the replies into state.
- SearchableProjects.SortItems: sortedness is proved for the alphabetical orders, and for the newest and oldest orders only when every item has a date. When some items lack a date, the newest and oldest comparators are not transitive (see `NewestNotTransitive`), so no ordering holds for them in general.
- ConferenceSlides.SetTime: every non-empty photo-set date is taken to parse, since `timeOf` returns an integer. For a date that does not parse, `getTime()` is `NaN` and the comparator of src/lib/conferenceSlides.ts:88-91 returns `NaN`, which `sort` reads as a tie with every set, skipping the id tie-break. The comparator is then inconsistent and ECMAScript leaves the order to the engine, so AllPhotoSetsFacts's order is not promised for such data.
- LinksApi.CreatedTime: every stored createdAt is taken to parse. For one that does not, the comparator of src/app/api/links/route.ts:179-183 returns `NaN`, a tie with every link, and the order of Matching is left to the engine.
- ExportApi.ExportTime: every stored createdAt is taken to parse. For one that does not, the comparator of src/app/api/export/route.ts:48-52 returns `NaN`, a tie with every entry, and the order of ExportRows is left to the engine.
- SearchableProjects.ItemCompare: every createdAt is taken to parse. For one that does not, the newest and oldest comparators of src/components/SearchableProjects.tsx:54-67 return `NaN` for each pair of dated items it is in, a tie, and the order is left to the engine.
- TagQueries.TallyTag: a tag spelled like a property that every object inherits (`constructor`, `toString`, `__proto__` and the like) is counted like any other tag. In the source, `tagCounts[t] || 0` reads the inherited value, and assigning `__proto__` changes the prototype, so such tags are miscounted or lost. The statistics route's tally behaves the same way.
- SearchableProjects.PairCompareIsItemOrder: on ties the comparator answers -1 both ways (see `PairCompareTies`). ECMAScript then leaves the order of `collectionsToRender` to the engine. CollectionsToRender uses the stable `Sort`, which keeps tied collections in input order; an engine may put the later one first.
- ConferenceCarousel.JsRem: the remainder is stated only for a non-negative left operand. The carousel never produces a negative one.

## Findings

| source | as written | input that shows it | evidently intended | confidence | as-written member | corrected member |
|---|---|---|---|---|---|---|
| src/app/api/tags/route.ts:116 | POST writes the merged tag list only when its length differs from the stored list's length | the stored tags are the text `"a,a"`, and POST adds tag `b`: the merged list `[a, b]` has length 2, like `[a, a]`, so `b` is never stored | write whenever the merged list differs from the stored list; every requested tag is then stored | high, not executed | TagsApi.AddMissesNewTag | TagsApi.AddIntendedWritesNewTag |
| src/lib/openreview.ts:259-264 | for a note that already has stored metadata, a missing stored title, description or venue falls back to the raw `note.content` field, which the notes API sends as a `{ value }` wrapper | a stored meta hash `{ createdAt: "2024" }` with the note's title sent as `{ value: "T" }`: the item's title is the object, not `"T"` | apply `extractValue` to the fallbacks, as the new-record path does | medium, not executed | OpenReview.StoredTitleMayBeObject | OpenReview.StoredItemIntendedIsText |
