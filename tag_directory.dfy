/**
  The tag directory: the distinct tags in the default sort order, and the
  selection a click produces (a tag, or null for "All Tags").
*/
module TagDirectory {
  import opened Strings
  import opened Seqs
  import opened Wrappers

  /** `Array.from(new Set(allTags)).sort()`. */
  function UniqueTags(allTags: seq<string>): seq<string> {
    Sort(Dedupe(allTags), StrOrder())
  }

  /** The listed tags are distinct, in ascending order, and exactly the tags given. */
  lemma UniqueTagsFacts(allTags: seq<string>)
    ensures var u := UniqueTags(allTags);
      && NoDup(u)
      && (forall i, j :: 0 <= i < j < |u| ==> StrLe(u[i], u[j]))
      && (forall t :: t in u <==> t in allTags)
  {
    StrOrderTotal();
    SortDistinct(Dedupe(allTags), StrOrder());
  }

  /** A click on a tag button: the selected tag clears the selection, any other tag becomes selected. */
  function ClickTag(selected: Option<string>, tag: string): (r: Option<string>)
    ensures r == Some(tag) <==> selected != Some(tag)
    ensures r.Some? ==> r.value == tag
  {
    if selected == Some(tag) then None else Some(tag)
  }

  /** The "All Tags" button always clears the selection. */
  function ClickAllTags(selected: Option<string>): (r: Option<string>)
    ensures r.None?
  {
    None
  }

  /** Clicking the same tag twice returns to no selection or to that tag, as before. */
  lemma ClickTagTwice(selected: Option<string>, tag: string)
    requires selected.None? || selected == Some(tag)
    ensures ClickTag(ClickTag(selected, tag), tag) == selected
  {
  }
}
