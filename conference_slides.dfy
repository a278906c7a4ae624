/**
  Conference photo sets: the sets read from the photo-set file are keyed by
  their lower-cased key, each set's slides sorted (dated slides first, oldest
  first, then by file name), and looked up without regard to case. The file
  itself is outside the model: its entries arrive as a parameter, in the
  order of the object's keys.
*/
module ConferenceSlides {
  import opened Strings
  import opened Seqs
  import opened Wrappers

  /** A slide; date is "" when absent. */
  datatype Slide = Slide(src: string, alt: Option<string>, caption: Option<string>, date: string)

  /** A set as the file gives it; id and date are "" when absent, slides None when absent. */
  datatype RawSet = RawSet(
    id: string,
    title: Option<string>,
    description: Option<string>,
    date: string,
    tags: Option<seq<string>>,
    slides: Option<seq<Slide>>)

  /** One key of the file and its set. */
  datatype RawEntry = RawEntry(key: string, item: RawSet)

  datatype PhotoSet = PhotoSet(
    id: string,
    title: Option<string>,
    description: Option<string>,
    date: string,
    tags: Option<seq<string>>,
    slides: seq<Slide>)

  // ---------------------------------------------------------------------------
  // Slide order

  /** `a.date ? Date.parse(a.date) : NaN`; None stands for NaN. */
  function SlideTime(parse: string -> Option<int>, s: Slide): Option<int> {
    if s.date != "" then parse(s.date) else None
  }

  /** The slide comparator as written: a negative result puts a first. */
  function SlideCompare(parse: string -> Option<int>, a: Slide, b: Slide): int {
    var da := SlideTime(parse, a);
    var db := SlideTime(parse, b);
    if da.Some? && db.Some? && da.value != db.value then da.value - db.value
    else if da.Some? && db.None? then -1
    else if da.None? && db.Some? then 1
    else StrCmp(a.src, b.src)
  }

  /** Dated slides (rank 0) by time, undated ones (rank 1) after them, then by file name. */
  function SlideKey(parse: string -> Option<int>): Slide -> SortKey {
    (s: Slide) =>
      var t := SlideTime(parse, s);
      SortKey(if t.Some? then 0 else 1, if t.Some? then t.value else 0, s.src, "")
  }

  /** The key order is exactly the comparator's "no later than". */
  lemma SlideKeyMatchesCompare(parse: string -> Option<int>, a: Slide, b: Slide)
    ensures ByKey(SlideKey(parse))(a, b) <==> SlideCompare(parse, a, b) <= 0
  {
    var ka := SlideKey(parse)(a);
    var kb := SlideKey(parse)(b);
    assert ByKey(SlideKey(parse))(a, b) == KeyLe(ka, kb);
    StrLeRefl("");
    var c := StrCmp(a.src, b.src);
  }

  /** `(slides || []).slice().sort(...)`: a sorted copy. */
  function SortSlides(parse: string -> Option<int>, slides: Option<seq<Slide>>): seq<Slide> {
    Sort(slides.GetOr([]), ByKey(SlideKey(parse)))
  }

  /**
    A set's slides are its own slides, each as often as before, with dated
    slides first in ascending date order and name order breaking ties.
  */
  lemma SortSlidesFacts(parse: string -> Option<int>, slides: seq<Slide>)
    ensures var r := SortSlides(parse, Some(slides));
      && multiset(r) == multiset(slides)
      && forall i, j :: 0 <= i < j < |r| ==>
           var ti := SlideTime(parse, r[i]);
           var tj := SlideTime(parse, r[j]);
           && (tj.Some? ==> ti.Some? && ti.value <= tj.value)
           && ((ti.Some? && tj.Some? && ti.value == tj.value) || (ti.None? && tj.None?) ==> StrLe(r[i].src, r[j].src))
  {
    var r := SortSlides(parse, Some(slides));
    ByKeyTotal(SlideKey(parse));
    SortSorted(slides, ByKey(SlideKey(parse)));
    forall i, j | 0 <= i < j < |r|
      ensures var ti := SlideTime(parse, r[i]);
        var tj := SlideTime(parse, r[j]);
        && (tj.Some? ==> ti.Some? && ti.value <= tj.value)
        && ((ti.Some? && tj.Some? && ti.value == tj.value) || (ti.None? && tj.None?) ==> StrLe(r[i].src, r[j].src))
    {
      assert ByKey(SlideKey(parse))(r[i], r[j]);
      StrLeRefl(r[i].src);
    }
  }

  // ---------------------------------------------------------------------------
  // The sets

  /** The normalised set: id defaults to the lower-cased key, slides sorted. */
  function Normalize(parse: string -> Option<int>, e: RawEntry): (p: PhotoSet)
    ensures e.item.id == "" ==> p.id == Lower(e.key)
    ensures e.item.id != "" ==> p.id == e.item.id
    ensures p.slides == SortSlides(parse, e.item.slides)
  {
    PhotoSet(
      if e.item.id != "" then e.item.id else Lower(e.key),
      e.item.title, e.item.description, e.item.date, e.item.tags,
      SortSlides(parse, e.item.slides))
  }

  /** photoSets: the reduce over the file's keys; a later key with the same lower case wins. */
  function PhotoSets(parse: string -> Option<int>, raw: seq<RawEntry>): (m: map<string, PhotoSet>)
    decreases |raw|
  {
    if raw == [] then map[]
    else
      var e := raw[|raw| - 1];
      PhotoSets(parse, raw[..|raw| - 1])[Lower(e.key) := Normalize(parse, e)]
  }

  /** The file's keys, lower-cased, in file order. */
  function LowerKeys(raw: seq<RawEntry>): (ks: seq<string>)
    ensures |ks| == |raw| && forall i :: 0 <= i < |raw| ==> ks[i] == Lower(raw[i].key)
  {
    seq(|raw|, i requires 0 <= i < |raw| => Lower(raw[i].key))
  }

  /** The sets are keyed by exactly the lower-cased file keys. */
  lemma {:induction false} PhotoSetsDomain(parse: string -> Option<int>, raw: seq<RawEntry>)
    ensures PhotoSets(parse, raw).Keys == set k | k in LowerKeys(raw)
    decreases |raw|
  {
    if raw != [] {
      var n := |raw| - 1;
      PhotoSetsDomain(parse, raw[..n]);
      assert LowerKeys(raw) == LowerKeys(raw[..n]) + [Lower(raw[n].key)];
    }
  }

  /** A key holds the set of the last file entry with that lower case. */
  lemma {:induction false} PhotoSetsLast(parse: string -> Option<int>, raw: seq<RawEntry>, i: nat)
    requires i < |raw|
    requires forall j :: i < j < |raw| ==> Lower(raw[j].key) != Lower(raw[i].key)
    ensures Lower(raw[i].key) in PhotoSets(parse, raw)
    ensures PhotoSets(parse, raw)[Lower(raw[i].key)] == Normalize(parse, raw[i])
    decreases |raw|
  {
    var n := |raw| - 1;
    if i < n {
      forall j | i < j < n ensures Lower(raw[..n][j].key) != Lower(raw[..n][i].key) {
        assert raw[..n][j] == raw[j];
      }
      PhotoSetsLast(parse, raw[..n], i);
      assert raw[..n][i] == raw[i];
    }
  }

  /** Every key is lower case. */
  lemma KeysAreLower(parse: string -> Option<int>, raw: seq<RawEntry>, k: string)
    requires k in PhotoSets(parse, raw)
    ensures Lower(k) == k
  {
    PhotoSetsDomain(parse, raw);
    var i :| 0 <= i < |raw| && LowerKeys(raw)[i] == k;
    LowerIdempotent(raw[i].key);
  }

  /** projectSlides: the slides of every set under the same key (`k.toLowerCase()` keeps a lower-case key). */
  function ProjectSlides(sets: map<string, PhotoSet>): (m: map<string, seq<Slide>>)
    ensures m.Keys == sets.Keys
    ensures forall k :: k in m ==> m[k] == sets[k].slides
  {
    map k | k in sets :: sets[k].slides
  }

  /** getSlidesFor: undefined for a missing or empty key, else the lower-cased key's slides. */
  function GetSlidesFor(sets: map<string, PhotoSet>, key: string): (r: Option<seq<Slide>>)
    ensures key == "" ==> r.None?
  {
    if key == "" then None
    else
      var slides := ProjectSlides(sets);
      if Lower(key) in slides then Some(slides[Lower(key)]) else None
  }

  /** getPhotoSet: undefined for a missing or empty key, else the lower-cased key's set. */
  function GetPhotoSet(sets: map<string, PhotoSet>, key: string): (r: Option<PhotoSet>)
    ensures key == "" ==> r.None?
  {
    if key == "" then None
    else if Lower(key) in sets then Some(sets[Lower(key)]) else None
  }

  /** Both lookups ignore case and agree: a key's slides are its set's slides. */
  lemma LookupsIgnoreCase(sets: map<string, PhotoSet>, key: string)
    ensures GetSlidesFor(sets, key) == GetSlidesFor(sets, Lower(key))
    ensures GetPhotoSet(sets, key) == GetPhotoSet(sets, Lower(key))
    ensures GetPhotoSet(sets, key).Some? <==> GetSlidesFor(sets, key).Some?
    ensures GetPhotoSet(sets, key).Some? ==> GetSlidesFor(sets, key).value == GetPhotoSet(sets, key).value.slides
  {
    LowerIdempotent(key);
    assert key == "" <==> Lower(key) == "";
  }

  // ---------------------------------------------------------------------------
  // getAllPhotoSets

  /** `a.date ? new Date(a.date).getTime() : 0`. */
  function SetTime(timeOf: string -> int, p: PhotoSet): int {
    if p.date != "" then timeOf(p.date) else 0
  }

  function FirstSrc(p: PhotoSet): string {
    if |p.slides| > 0 then p.slides[0].src else ""
  }

  /** The set comparator as written. */
  function SetCompare(timeOf: string -> int, a: PhotoSet, b: PhotoSet): int {
    var dateA := SetTime(timeOf, a);
    var dateB := SetTime(timeOf, b);
    if dateA != dateB then dateA - dateB
    else
      var idCmp := StrCmp(a.id, b.id);
      if idCmp != 0 then idCmp
      else StrCmp(FirstSrc(a), FirstSrc(b))
  }

  function SetKey(timeOf: string -> int): PhotoSet -> SortKey {
    (p: PhotoSet) => SortKey(SetTime(timeOf, p), 0, p.id, FirstSrc(p))
  }

  lemma SetKeyMatchesCompare(timeOf: string -> int, a: PhotoSet, b: PhotoSet)
    ensures ByKey(SetKey(timeOf))(a, b) <==> SetCompare(timeOf, a, b) <= 0
  {
    var ka := SetKey(timeOf)(a);
    var kb := SetKey(timeOf)(b);
    assert ByKey(SetKey(timeOf))(a, b) == KeyLe(ka, kb);
    var c1 := StrCmp(a.id, b.id);
    var c2 := StrCmp(FirstSrc(a), FirstSrc(b));
  }

  /** Object.values(photoSets): each key once, in the order it was first added. */
  function SetValues(parse: string -> Option<int>, raw: seq<RawEntry>): (r: seq<PhotoSet>) {
    var sets := PhotoSets(parse, raw);
    var keys := Dedupe(LowerKeys(raw));
    PhotoSetsDomain(parse, raw);
    seq(|keys|, i requires 0 <= i < |keys| => sets[keys[i]])
  }

  function AllPhotoSets(parse: string -> Option<int>, timeOf: string -> int, raw: seq<RawEntry>): seq<PhotoSet> {
    Sort(SetValues(parse, raw), ByKey(SetKey(timeOf)))
  }

  /** getAllPhotoSets: every set, oldest first, then by id, then by first slide. */
  lemma AllPhotoSetsFacts(parse: string -> Option<int>, timeOf: string -> int, raw: seq<RawEntry>)
    ensures var r := AllPhotoSets(parse, timeOf, raw);
      && multiset(r) == multiset(SetValues(parse, raw))
      && (forall p :: p in r <==> p in PhotoSets(parse, raw).Values)
      && forall i, j :: 0 <= i < j < |r| ==>
           && SetTime(timeOf, r[i]) <= SetTime(timeOf, r[j])
           && (SetTime(timeOf, r[i]) == SetTime(timeOf, r[j]) ==> StrLe(r[i].id, r[j].id))
  {
    var r := AllPhotoSets(parse, timeOf, raw);
    var vs := SetValues(parse, raw);
    var sets := PhotoSets(parse, raw);
    var keys := Dedupe(LowerKeys(raw));
    PhotoSetsDomain(parse, raw);
    ByKeyTotal(SetKey(timeOf));
    SortFacts(vs, ByKey(SetKey(timeOf)));
    forall p ensures p in vs <==> p in sets.Values {
      if p in sets.Values {
        var k :| k in sets && sets[k] == p;
        var j :| 0 <= j < |keys| && keys[j] == k;
        assert vs[j] == p;
      }
    }
    forall i, j | 0 <= i < j < |r|
      ensures && SetTime(timeOf, r[i]) <= SetTime(timeOf, r[j])
              && (SetTime(timeOf, r[i]) == SetTime(timeOf, r[j]) ==> StrLe(r[i].id, r[j].id))
    {
      assert ByKey(SetKey(timeOf))(r[i], r[j]);
      StrLeRefl(r[i].id);
    }
  }
}
