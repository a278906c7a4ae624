/**
  A collection card: the tags each project card shows (the project's tags
  followed by the collection's, without repeats), the expanded/collapsed
  state and the flag that persists it per collection id. Browser storage is
  a map the card reads and writes; its failures are outside the model.
*/
module CollectionCard {
  import opened Seqs
  import opened Wrappers

  /** getProjectTags: `[...new Set([...projectTags, ...tags])]`. */
  function MergeTags(projectTags: seq<string>, tags: seq<string>): seq<string> {
    Dedupe(projectTags + tags)
  }

  /**
    The merged tags hold no repeats, hold exactly the project's and the
    collection's tags, and begin with the project's own tags in their order.
  */
  lemma MergeTagsFacts(projectTags: seq<string>, tags: seq<string>)
    ensures var m := MergeTags(projectTags, tags);
      && NoDup(m)
      && (forall t :: t in m <==> t in projectTags || t in tags)
      && |Dedupe(projectTags)| <= |m|
      && m[..|Dedupe(projectTags)|] == Dedupe(projectTags)
  {
    DedupePrefix(projectTags, tags);
  }

  /** With no repeats in the project's tags, the merge starts with exactly those tags. */
  lemma MergeKeepsProjectTagsFirst(projectTags: seq<string>, tags: seq<string>)
    requires NoDup(projectTags)
    ensures |projectTags| <= |MergeTags(projectTags, tags)|
    ensures MergeTags(projectTags, tags)[..|projectTags|] == projectTags
  {
    DedupePrefix(projectTags, tags);
    DedupeNoDup(projectTags);
  }

  /** What the card renders: nothing without projects, else each project's merged tags when expanded. */
  function CardView(projectTags: seq<seq<string>>, tags: seq<string>, isExpanded: bool): (r: Option<seq<seq<string>>>)
    ensures r.None? <==> |projectTags| == 0
    ensures r.Some? && isExpanded ==>
      |r.value| == |projectTags| && forall i :: 0 <= i < |projectTags| ==> r.value[i] == MergeTags(projectTags[i], tags)
    ensures r.Some? && !isExpanded ==> r.value == []
  {
    if |projectTags| == 0 then None
    else if !isExpanded then Some([])
    else Some(seq(|projectTags|, i requires 0 <= i < |projectTags| => MergeTags(projectTags[i], tags)))
  }

  // ---------------------------------------------------------------------------
  // The persisted flag

  /** The storage key `collection:collapsed:<id>`. */
  function FlagKey(id: string): string {
    "collection:collapsed:" + id
  }

  /** The flag written for a state: "0" when expanded, "1" when collapsed. */
  function FlagOf(expanded: bool): string {
    if expanded then "0" else "1"
  }

  /** The state after reading a stored flag: "1" collapses, "0" expands, anything else keeps it. */
  function ReadFlag(stored: Option<string>, current: bool): (r: bool)
    ensures stored == Some("1") ==> !r
    ensures stored == Some("0") ==> r
    ensures stored != Some("1") && stored != Some("0") ==> r == current
  {
    if stored == Some("1") then false
    else if stored == Some("0") then true
    else current
  }

  /** Reading back the flag written for a state gives that state, whatever the state before. */
  lemma FlagRoundTrip(expanded: bool, current: bool)
    ensures ReadFlag(Some(FlagOf(expanded)), current) == expanded
  {
  }

  class CollapseState {
    const id: string
    var isExpanded: bool
    var storage: map<string, string>

    /** useState(true): a card starts expanded. */
    constructor(id: string, storage: map<string, string>)
      ensures this.id == id && isExpanded && this.storage == storage
    {
      this.id := id;
      isExpanded := true;
      this.storage := storage;
    }

    function Stored(): Option<string>
      reads this
    {
      if FlagKey(id) in storage then Some(storage[FlagKey(id)]) else None
    }

    /** The mount effect: apply the stored flag, if any. */
    method Restore()
      modifies this
      ensures isExpanded == ReadFlag(old(Stored()), old(isExpanded))
      ensures storage == old(storage)
    {
      var key := FlagKey(id);
      if key in storage && storage[key] == "1" {
        isExpanded := false;
      } else if key in storage && storage[key] == "0" {
        isExpanded := true;
      }
    }

    /** A click on the header: flip the state and store its flag. */
    method Click()
      modifies this
      ensures isExpanded == !old(isExpanded)
      ensures storage == old(storage)[FlagKey(id) := FlagOf(isExpanded)]
      ensures ReadFlag(Stored(), !isExpanded) == isExpanded
    {
      var next := !isExpanded;
      isExpanded := next;
      storage := storage[FlagKey(id) := if next then "0" else "1"];
    }
  }
}
