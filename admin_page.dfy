/**
  The admin dashboard's client state: the link list it loads, the search
  over it, the selection set and its toggles, the guards in front of bulk
  and single deletes and bulk tag edits, the tag input parsing, and logout.
  The HTTP calls are recorded as the requests the page sends; their replies
  arrive as method parameters. Confirmation dialogs are boolean parameters.
*/
module AdminPage {
  import opened Strings
  import opened Seqs
  import opened Wrappers

  /** The metadata object of an API item; each field may be absent. */
  datatype ApiMeta = ApiMeta(title: Option<string>, description: Option<string>, tags: Option<seq<string>>, createdAt: Option<string>)

  datatype ApiLinkItem = ApiLinkItem(slug: string, target: string, clicks: nat, metadata: Option<ApiMeta>)

  datatype AdminLink = AdminLink(
    slug: string,
    target: string,
    clicks: nat,
    shortUrl: string,
    title: Option<string>,
    description: Option<string>,
    tags: seq<string>,
    createdAt: Option<string>)

  // ---------------------------------------------------------------------------
  // The API item transform

  /** `x || null` on an optional string. */
  function Truthy(x: Option<string>): (r: Option<string>)
    ensures r.Some? <==> x.Some? && x.value != ""
    ensures r.Some? ==> r.value == x.value
  {
    if x.Some? then NonEmpty(x.value) else None
  }

  /** One fetched item as the page keeps it. */
  function Transform(origin: string, item: ApiLinkItem): AdminLink {
    var m := item.metadata;
    AdminLink(
      item.slug,
      item.target,
      item.clicks,
      origin + "/" + item.slug,
      if m.Some? then Truthy(m.value.title) else None,
      if m.Some? then Truthy(m.value.description) else None,
      if m.Some? && m.value.tags.Some? then m.value.tags.value else [],
      if m.Some? then Truthy(m.value.createdAt) else None)
  }

  /**
    Missing metadata, or a missing or empty field in it, becomes null (tags:
    []); present values pass through, and the short URL is the origin, "/"
    and the slug.
  */
  lemma TransformFacts(origin: string, item: ApiLinkItem)
    ensures var l := Transform(origin, item);
      && l.slug == item.slug && l.target == item.target && l.clicks == item.clicks
      && l.shortUrl == origin + "/" + item.slug
      && (item.metadata.None? ==> l.title.None? && l.description.None? && l.tags == [] && l.createdAt.None?)
      && (item.metadata.Some? ==>
            && l.title == Truthy(item.metadata.value.title)
            && l.description == Truthy(item.metadata.value.description)
            && l.tags == item.metadata.value.tags.GetOr([])
            && l.createdAt == Truthy(item.metadata.value.createdAt))
  {
  }

  function TransformAll(origin: string, items: seq<ApiLinkItem>): (r: seq<AdminLink>)
    ensures |r| == |items| && forall i :: 0 <= i < |items| ==> r[i] == Transform(origin, items[i])
  {
    seq(|items|, i requires 0 <= i < |items| => Transform(origin, items[i]))
  }

  // ---------------------------------------------------------------------------
  // Search and totals

  /** The query occurs, ignoring case, in the slug, target, title, description or a tag. */
  predicate Matches(q: string, l: AdminLink) {
    || ContainsCI(l.slug, q)
    || ContainsCI(l.target, q)
    || (l.title.Some? && ContainsCI(l.title.value, q))
    || (l.description.Some? && ContainsCI(l.description.value, q))
    || exists t :: t in l.tags && ContainsCI(t, q)
  }

  function MatchesFn(q: string): AdminLink -> bool {
    (l: AdminLink) => Matches(q, l)
  }

  /** filteredLinks. */
  function FilteredLinks(links: seq<AdminLink>, q: string): seq<AdminLink> {
    Filter(links, MatchesFn(q))
  }

  /** A link is listed exactly when it is on the page and matches the query. */
  lemma FilteredLinksMember(links: seq<AdminLink>, q: string, l: AdminLink)
    ensures l in FilteredLinks(links, q) <==> l in links && Matches(q, l)
  {
  }

  /** The empty query keeps every link. */
  lemma EmptyQueryKeepsAll(links: seq<AdminLink>)
    ensures FilteredLinks(links, "") == links
  {
    forall l | l in links ensures Matches("", l) {
      ContainsEmpty(Lower(l.slug));
    }
    FilterAll(links, MatchesFn(""));
  }

  function ClicksFn(): AdminLink -> int {
    (l: AdminLink) => l.clicks as int
  }

  /** totalClicks: `links.reduce((sum, link) => sum + link.clicks, 0)`. */
  function TotalClicks(links: seq<AdminLink>): int {
    SumOf(links, ClicksFn())
  }

  /** Every link's clicks are part of the total, which is never negative. */
  lemma {:induction false} TotalClicksCoversEach(links: seq<AdminLink>)
    ensures forall l :: l in links ==> l.clicks <= TotalClicks(links)
    ensures TotalClicks(links) >= 0
    decreases |links|
  {
    if links != [] {
      var init := links[..|links| - 1];
      var last := links[|links| - 1];
      TotalClicksCoversEach(init);
      assert TotalClicks(links) == TotalClicks(init) + last.clicks;
      forall l | l in links ensures l.clicks <= TotalClicks(links) {
        if l != last {
          assert l in init by {
            assert links == init + [last];
          }
        }
      }
    }
  }

  /** The total over the filtered links lies between zero and the total over all of them. */
  lemma {:induction false} FilteredClicksBounded(links: seq<AdminLink>, q: string)
    ensures 0 <= TotalClicks(FilteredLinks(links, q)) <= TotalClicks(links)
    decreases |links|
  {
    if links != [] {
      var init := links[..|links| - 1];
      var last := links[|links| - 1];
      FilteredClicksBounded(init, q);
      var f := FilteredLinks(init, q);
      assert FilteredLinks(links, q) == if Matches(q, last) then f + [last] else f;
      assert (f + [last])[..|f|] == f;
      assert TotalClicks(links) == TotalClicks(init) + last.clicks;
    }
  }

  // ---------------------------------------------------------------------------
  // Tag input

  function NonEmptyFn(): string -> bool {
    (t: string) => t != ""
  }

  /** `input.split(",").map(t => t.trim()).filter(t => t)`. */
  function ParseTagInput(input: string): seq<string> {
    Filter(TrimAll(Split(input, ',')), NonEmptyFn())
  }

  /** Every parsed tag is non-empty, trimmed and free of commas. */
  lemma ParseTagInputClean(input: string)
    ensures forall t :: t in ParseTagInput(input) ==> t != "" && IsTrimmed(t) && ',' !in t
  {
    var pieces := Split(input, ',');
    var xs := TrimAll(pieces);
    TrimAllFacts(pieces, ',');
    forall t | t in ParseTagInput(input) ensures t != "" && IsTrimmed(t) && ',' !in t {
      assert t in xs;
      var i :| 0 <= i < |xs| && xs[i] == t;
      TrimIsTrimmed(pieces[i]);
    }
  }

  // ---------------------------------------------------------------------------
  // Selection

  /** handleSelectLink on the set alone. */
  function Toggle(selected: set<string>, slug: string): (r: set<string>)
    ensures slug in r <==> slug !in selected
    ensures forall s :: s != slug ==> (s in r <==> s in selected)
  {
    if slug in selected then selected - {slug} else selected + {slug}
  }

  /** Toggling the same slug twice restores the selection. */
  lemma ToggleTwice(selected: set<string>, slug: string)
    ensures Toggle(Toggle(selected, slug), slug) == selected
  {
  }

  function Slugs(links: seq<AdminLink>): (r: seq<string>)
    ensures |r| == |links| && forall i :: 0 <= i < |links| ==> r[i] == links[i].slug
  {
    seq(|links|, i requires 0 <= i < |links| => links[i].slug)
  }

  /** handleSelectAll: clear when the selection's size equals the filtered count, else select every filtered slug. */
  function SelectAll(selected: set<string>, filtered: seq<AdminLink>): (r: set<string>)
    ensures |selected| == |filtered| ==> r == {}
    ensures |selected| != |filtered| ==> forall s :: s in r <==> exists l :: l in filtered && l.slug == s
  {
    if |selected| == |filtered| then {}
    else
      var r := set s | s in Slugs(filtered);
      assert forall s :: s in r <==> exists l :: l in filtered && l.slug == s by {
        forall s ensures s in r <==> exists l :: l in filtered && l.slug == s {
          if exists l :: l in filtered && l.slug == s {
            var l :| l in filtered && l.slug == s;
            var i :| 0 <= i < |filtered| && filtered[i] == l;
            assert Slugs(filtered)[i] == s;
          }
        }
      }
      r
  }

  /** With distinct filtered slugs, select-all after a select-all that selected them clears the selection. */
  lemma SelectAllTwice(selected: set<string>, filtered: seq<AdminLink>)
    requires NoDup(Slugs(filtered)) && |selected| != |filtered|
    ensures SelectAll(SelectAll(selected, filtered), filtered) == {}
  {
    NoDupCard(Slugs(filtered));
    assert SelectAll(selected, filtered) == set s | s in Slugs(filtered);
  }

  // ---------------------------------------------------------------------------
  // The page

  /** A request the page sends. */
  datatype Request =
    | DeleteMany(slugs: set<string>)
    | DeleteOne(slug: string)
    | AddTags(slugs: set<string>, tags: seq<string>)
    | RemoveTags(slugs: set<string>, tags: seq<string>)

  /** The bulk action picked in the toolbar ("delete", "addTags", "removeTags"). */
  datatype BulkAction = DeleteAction | AddTagsAction | RemoveTagsAction

  /** The shared guard of the bulk tag handlers: a selection and a non-blank input. */
  predicate CanEditTags(selected: set<string>, input: string) {
    |selected| > 0 && Trim(input) != ""
  }

  /** The selection, the chosen bulk action, the tag input and the requests sent. */
  datatype TagEdit = TagEdit(selected: set<string>, action: Option<BulkAction>, input: string, requests: seq<Request>)

  /**
    handleBulkAddTags / handleBulkRemoveTags: nothing without a selection
    or with a blank input; otherwise the parsed tags are sent for the
    selection, and a successful reply clears the selection, the action and
    the input.
  */
  function BulkTagsStep(add: bool, ok: bool, s: TagEdit): TagEdit {
    if !CanEditTags(s.selected, s.input) then s
    else
      var sent := s.requests + [if add then AddTags(s.selected, ParseTagInput(s.input)) else RemoveTags(s.selected, ParseTagInput(s.input))];
      if ok then TagEdit({}, None, "", sent) else s.(requests := sent)
  }

  /**
    A blank input or an empty selection changes nothing; otherwise exactly
    one request goes out, for the whole selection, carrying only clean tags
    (non-empty, trimmed, comma-free), and the form resets exactly when the
    reply is ok.
  */
  lemma BulkTagsStepFacts(add: bool, ok: bool, s: TagEdit)
    ensures var r := BulkTagsStep(add, ok, s);
      && (!CanEditTags(s.selected, s.input) ==> r == s)
      && (CanEditTags(s.selected, s.input) ==>
            && |r.requests| == |s.requests| + 1
            && r.requests[..|s.requests|] == s.requests
            && r.requests[|s.requests|].slugs == s.selected
            && (r.requests[|s.requests|].AddTags? <==> add)
            && (forall t :: t in r.requests[|s.requests|].tags ==> t != "" && IsTrimmed(t) && ',' !in t)
            && (ok ==> r.selected == {} && r.action == None && r.input == "")
            && (!ok ==> r.selected == s.selected && r.action == s.action && r.input == s.input))
  {
    ParseTagInputClean(s.input);
    if CanEditTags(s.selected, s.input) {
      var tags := ParseTagInput(s.input);
      var req := if add then AddTags(s.selected, tags) else RemoveTags(s.selected, tags);
      var sent := s.requests + [req];
      assert sent[..|s.requests|] == s.requests;
      assert sent[|s.requests|] == req;
    }
  }

  const AuthFlag := "admin_authenticated"
  const KeyFlag := "admin_key"

  /** The session after a successful sign-in with the given key. */
  function SignedIn(session: map<string, string>, key: string): (r: map<string, string>)
    ensures AuthFlag in r && r[AuthFlag] == "true" && KeyFlag in r && r[KeyFlag] == key
    ensures forall k :: k in session && k != AuthFlag && k != KeyFlag ==> k in r && r[k] == session[k]
  {
    session[AuthFlag := "true"][KeyFlag := key]
  }

  /** The session after logout. */
  function SignedOut(session: map<string, string>): (r: map<string, string>)
    ensures AuthFlag !in r && KeyFlag !in r
    ensures forall k :: k != AuthFlag && k != KeyFlag ==> (k in r <==> k in session) && (k in r ==> r[k] == session[k])
  {
    session - {AuthFlag, KeyFlag}
  }

  /** Logging out after signing in leaves the session as logging out alone would, whatever the key. */
  lemma SignOutForgetsKey(session: map<string, string>, key: string)
    ensures SignedOut(SignedIn(session, key)) == SignedOut(session)
  {
    var a := SignedOut(SignedIn(session, key));
    var b := SignedOut(session);
    assert forall k :: k in a <==> k in b;
  }

  class Dashboard {
    var isAuthenticated: bool
    var password: string
    var links: seq<AdminLink>
    var searchQuery: string
    var selectedLinks: set<string>
    var bulkAction: Option<BulkAction>
    var bulkTagInput: string
    var isDeleting: bool
    /** sessionStorage. */
    var session: map<string, string>
    /** The requests sent so far, oldest first. */
    var requests: seq<Request>

    function Filtered(): seq<AdminLink>
      reads this
    {
      FilteredLinks(links, searchQuery)
    }

    /** The first render, including the mount effect that restores a signed-in session. */
    constructor(session: map<string, string>)
      ensures isAuthenticated <==> AuthFlag in session && session[AuthFlag] == "true"
      ensures password == "" && links == [] && searchQuery == ""
      ensures selectedLinks == {} && bulkAction == None && bulkTagInput == "" && !isDeleting
      ensures this.session == session && requests == []
    {
      isAuthenticated := AuthFlag in session && session[AuthFlag] == "true";
      password := "";
      links := [];
      searchQuery := "";
      selectedLinks := {};
      bulkAction := None;
      bulkTagInput := "";
      isDeleting := false;
      this.session := session;
      requests := [];
    }

    /** fetchLinks after a successful reply: the transformed items replace the list. */
    method LoadLinks(origin: string, items: seq<ApiLinkItem>)
      modifies this`links
      ensures links == TransformAll(origin, items)
    {
      links := TransformAll(origin, items);
    }

    method HandleSelectLink(slug: string)
      modifies this`selectedLinks
      ensures selectedLinks == Toggle(old(selectedLinks), slug)
    {
      var newSelected := selectedLinks;
      if slug in newSelected {
        newSelected := newSelected - {slug};
      } else {
        newSelected := newSelected + {slug};
      }
      selectedLinks := newSelected;
    }

    method HandleSelectAll()
      modifies this`selectedLinks
      ensures selectedLinks == SelectAll(old(selectedLinks), old(Filtered()))
    {
      selectedLinks := SelectAll(selectedLinks, Filtered());
    }

    /**
      handleBulkDelete up to the request: nothing happens with an empty
      selection, while a delete is in flight, or when the dialog is
      declined; otherwise the selected slugs are sent and a delete is in
      flight.
    */
    method StartBulkDelete(confirmed: bool)
      modifies this`requests, this`isDeleting
      ensures |old(selectedLinks)| == 0 || old(isDeleting) || !confirmed ==>
        requests == old(requests) && isDeleting == old(isDeleting)
      ensures !(|old(selectedLinks)| == 0 || old(isDeleting) || !confirmed) ==>
        requests == old(requests) + [DeleteMany(old(selectedLinks))] && isDeleting
    {
      if |selectedLinks| == 0 || isDeleting {
        return;
      }
      if !confirmed {
        return;
      }
      isDeleting := true;
      requests := requests + [DeleteMany(selectedLinks)];
    }

    /** handleIndividualDelete up to the request: ignored while a delete is in flight or when declined. */
    method StartIndividualDelete(slug: string, confirmed: bool)
      modifies this`requests, this`isDeleting
      ensures old(isDeleting) || !confirmed ==> requests == old(requests) && isDeleting == old(isDeleting)
      ensures !(old(isDeleting) || !confirmed) ==> requests == old(requests) + [DeleteOne(slug)] && isDeleting
    {
      if isDeleting {
        return;
      }
      if !confirmed {
        return;
      }
      isDeleting := true;
      requests := requests + [DeleteOne(slug)];
    }

    /** The reply to a delete: a successful bulk delete clears the selection; either way the delete is over. */
    method FinishDelete(bulk: bool, ok: bool)
      modifies this`isDeleting, this`selectedLinks
      ensures !isDeleting
      ensures selectedLinks == if bulk && ok then {} else old(selectedLinks)
    {
      if bulk && ok {
        selectedLinks := {};
      }
      isDeleting := false;
    }

    /** The part of the page the bulk tag handlers touch. */
    function TagState(): TagEdit
      reads this
    {
      TagEdit(selectedLinks, bulkAction, bulkTagInput, requests)
    }

    /** Records one bulk tag request; a successful reply resets the form. */
    method SendTags(r: Request, ok: bool)
      modifies this`selectedLinks, this`bulkAction, this`bulkTagInput, this`requests
      ensures ok ==> TagState() == TagEdit({}, None, "", old(requests) + [r])
      ensures !ok ==> TagState() == old(TagState()).(requests := old(requests) + [r])
    {
      requests := requests + [r];
      if ok {
        selectedLinks := {};
        bulkAction := None;
        bulkTagInput := "";
      }
    }

    /** handleBulkAddTags. */
    method BulkAddTags(ok: bool)
      modifies this`selectedLinks, this`bulkAction, this`bulkTagInput, this`requests
      ensures TagState() == BulkTagsStep(true, ok, old(TagState()))
    {
      if !CanEditTags(selectedLinks, bulkTagInput) {
        return;
      }
      var tags := ParseTagInput(bulkTagInput);
      SendTags(AddTags(selectedLinks, tags), ok);
    }

    /** handleBulkRemoveTags. */
    method BulkRemoveTags(ok: bool)
      modifies this`selectedLinks, this`bulkAction, this`bulkTagInput, this`requests
      ensures TagState() == BulkTagsStep(false, ok, old(TagState()))
    {
      if !CanEditTags(selectedLinks, bulkTagInput) {
        return;
      }
      var tags := ParseTagInput(bulkTagInput);
      SendTags(RemoveTags(selectedLinks, tags), ok);
    }

    /**
      handleAuth given whether the key check accepted the password: on
      success both session entries are written and the page is signed in;
      otherwise nothing but the error message changes.
    */
    method Login(ok: bool)
      modifies this`session, this`isAuthenticated
      ensures ok ==> session == SignedIn(old(session), password) && isAuthenticated
      ensures !ok ==> session == old(session) && isAuthenticated == old(isAuthenticated)
    {
      if ok {
        session := session[AuthFlag := "true"];
        session := session[KeyFlag := password];
        isAuthenticated := true;
      }
    }

    /** handleLogout: both session entries go, and the page forgets the password and the links. */
    method Logout()
      modifies this`session, this`isAuthenticated, this`password, this`links
      ensures session == SignedOut(old(session))
      ensures !isAuthenticated && password == "" && links == []
    {
      session := session - {AuthFlag, KeyFlag};
      isAuthenticated := false;
      password := "";
      links := [];
    }
  }
}
