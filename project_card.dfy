/**
  The project card's derived text: the display title (the title, or the slug
  turned into capitalised words), the year and month read from an ISO-style
  date, the formatted start and end dates and the date suffix chosen from
  them, and the tags shown in case-insensitive order. The current year is a
  parameter (`new Date().getFullYear()`).
*/
module ProjectCard {
  import opened Strings
  import opened Seqs
  import opened Wrappers

  // ---------------------------------------------------------------------------
  // Display title

  /** `word.charAt(0).toUpperCase() + word.slice(1)`. */
  function Capitalize(w: string): (r: string)
    ensures |r| == |w|
    ensures |w| > 0 ==> r[0] == UpperChar(w[0]) && r[1..] == w[1..]
  {
    if w == [] then [] else [UpperChar(w[0])] + w[1..]
  }

  /** Capitalising changes nothing but case, and adds no space. */
  lemma CapitalizeFacts(w: string)
    ensures Lower(Capitalize(w)) == Lower(w)
    ensures ' ' !in w ==> ' ' !in Capitalize(w)
  {
    var r := Capitalize(w);
    forall i | 0 <= i < |w| ensures Lower(r)[i] == Lower(w)[i] && (w[i] != ' ' ==> r[i] != ' ') {
      if i == 0 {
        LowerOfUpperChar(w[0]);
      } else {
        assert r[i] == r[1..][i - 1] == w[1..][i - 1] == w[i];
      }
    }
  }

  function Capitals(ws: seq<string>): (r: seq<string>)
    ensures |r| == |ws| && forall i :: 0 <= i < |ws| ==> r[i] == Capitalize(ws[i])
  {
    seq(|ws|, i requires 0 <= i < |ws| => Capitalize(ws[i]))
  }

  /** The title when non-empty, else the slug's dash-separated words capitalised and joined by spaces. */
  function DisplayTitle(title: Option<string>, slug: string): (r: string)
    ensures title.Some? && title.value != "" ==> r == title.value
  {
    if title.Some? && title.value != "" then title.value
    else Join(Capitals(Split(slug, '-')), ' ')
  }

  /**
    Without a title, the display title splits on spaces into exactly the
    slug's dash-separated words, each capitalised and otherwise unchanged,
    so lower-casing each word gives the slug's words back (for slugs
    without spaces).
  */
  lemma DisplayTitleWords(slug: string)
    requires ' ' !in slug
    ensures var pieces := Split(slug, '-');
      var ws := Split(DisplayTitle(None, slug), ' ');
      && ws == Capitals(pieces)
      && forall i :: 0 <= i < |ws| ==> Lower(ws[i]) == Lower(pieces[i])
  {
    var pieces := Split(slug, '-');
    JoinSplit(slug, '-');
    SplitNoChar(slug, '-', ' ');
    var caps := Capitals(pieces);
    forall w | w in caps ensures ' ' !in w {
      var i :| 0 <= i < |caps| && caps[i] == w;
      assert pieces[i] in pieces;
      CapitalizeFacts(pieces[i]);
    }
    SplitJoin(caps, ' ');
    forall i | 0 <= i < |caps| ensures Lower(caps[i]) == Lower(pieces[i]) {
      CapitalizeFacts(pieces[i]);
    }
  }

  // ---------------------------------------------------------------------------
  // parseInt

  predicate IsDigit(c: char) {
    '0' <= c <= '9'
  }

  function DigitValue(c: char): int {
    c as int - '0' as int
  }

  /** The longest prefix of decimal digits. */
  function DigitPrefix(s: string): (r: string)
    ensures |r| <= |s| && r == s[..|r|]
    ensures forall c :: c in r ==> IsDigit(c)
    ensures |r| < |s| ==> !IsDigit(s[|r|])
  {
    if |s| > 0 && IsDigit(s[0]) then
      var rest := DigitPrefix(s[1..]);
      assert [s[0]] + rest == s[..|rest| + 1];
      [s[0]] + rest
    else []
  }

  function DigitsValue(d: string): nat
    decreases |d|
  {
    if d == [] then 0
    else 10 * DigitsValue(d[..|d| - 1]) + (if IsDigit(d[|d| - 1]) then DigitValue(d[|d| - 1]) else 0)
  }

  /**
    `parseInt(s, 10)`: leading white space, an optional sign, then the
    longest run of digits; None (NaN) when there are no digits.
  */
  function ParseInt(s: string): Option<int> {
    var t := TrimStart(s);
    var signed := |t| > 0 && (t[0] == '-' || t[0] == '+');
    var rest := if signed then t[1..] else t;
    var digits := DigitPrefix(rest);
    if digits == [] then None
    else if signed && t[0] == '-' then Some(-(DigitsValue(digits) as int))
    else Some(DigitsValue(digits))
  }

  /** Two digits read as their decimal value. */
  lemma ParseTwoDigits(s: string)
    requires |s| == 2 && IsDigit(s[0]) && IsDigit(s[1])
    ensures ParseInt(s) == Some(10 * DigitValue(s[0]) + DigitValue(s[1]))
  {
    assert !IsSpace(s[0]);
    assert TrimStart(s) == s;
    assert DigitPrefix(s[1..]) == s[1..] by {
      assert s[1..][1..] == [];
    }
    assert DigitPrefix(s) == s;
    assert s[..1] == [s[0]] && s[..1][..0] == [];
    assert DigitsValue(s[..1]) == DigitValue(s[0]);
    assert DigitsValue(s) == 10 * DigitsValue(s[..1]) + DigitValue(s[1]);
  }

  // ---------------------------------------------------------------------------
  // Dates

  const Months: seq<string> := ["Jan", "Feb", "Mar", "Apr", "May", "Jun", "Jul", "Aug", "Sep", "Oct", "Nov", "Dec"]

  function MonthName(m: int): (r: string)
    requires 1 <= m <= 12
    ensures r in Months
  {
    Months[m - 1]
  }

  /** The first four characters (fewer for a shorter text); None for a missing or empty date. */
  function ExtractYear(d: string): (r: Option<string>)
    ensures d == "" <==> r.None?
    ensures r.Some? ==> r.value != "" && StartsWith(d, r.value) && |r.value| == if |d| < 4 then |d| else 4
  {
    if d == "" then None else Some(d[..if |d| < 4 then |d| else 4])
  }

  /** The month abbreviation for characters 5-6 when they parse to 1..12. */
  function ExtractMonth(d: string): (r: Option<string>)
    ensures |d| < 7 ==> r.None?
    ensures r.Some? ==> r.value in Months
  {
    if d == "" || |d| < 7 then None
    else
      var m := ParseInt(d[5..7]);
      if m.None? || m.value < 1 || m.value > 12 then None
      else Some(MonthName(m.value))
  }

  /** The two digits at positions 5-6 read as a number. */
  function MonthDigits(d: string): int
    requires |d| >= 7
  {
    10 * DigitValue(d[5]) + DigitValue(d[6])
  }

  /** An ISO-style "YYYY-MM..." date with month 01..12 gives that month's name, any other month none. */
  lemma ExtractMonthIso(d: string)
    requires |d| >= 7 && IsDigit(d[5]) && IsDigit(d[6])
    ensures 1 <= MonthDigits(d) <= 12 ==> ExtractMonth(d) == Some(MonthName(MonthDigits(d)))
    ensures !(1 <= MonthDigits(d) <= 12) ==> ExtractMonth(d) == None
  {
    var t := d[5..7];
    assert t[0] == d[5] && t[1] == d[6];
    ParseTwoDigits(t);
  }

  /**
    formatDate: "Mon YYYY" when there is a month, else the year, which is
    "present" for a range end point in the current year.
  */
  function FormatDate(d: string, isRange: bool, currentYear: string): (r: Option<string>)
    ensures d == "" <==> r.None?
    ensures r.Some? ==> r.value != ""
  {
    if d == "" then None
    else
      var year := ExtractYear(d);
      var month := ExtractMonth(d);
      var showPresent := isRange && year == Some(currentYear) && month.None?;
      var formattedYear := if year.Some? && year.value != "" then Some(if showPresent then "present" else year.value) else None;
      if month.Some? && formattedYear.Some? then Some(month.value + " " + formattedYear.value)
      else formattedYear
  }

  /** The two shapes of a formatted date, and when "present" appears. */
  lemma FormatDateCases(d: string, isRange: bool, currentYear: string)
    requires d != ""
    ensures var year := ExtractYear(d).value;
      var month := ExtractMonth(d);
      var r := FormatDate(d, isRange, currentYear).value;
      && (month.Some? ==> r == month.value + " " + year)
      && (month.None? ==> r == if isRange && year == currentYear then "present" else year)
  {
  }

  /** The title suffix built from the start and end dates. */
  function DateDisplay(startDate: string, endDate: string, currentYear: string): (r: string)
    ensures r == "" <==> startDate == "" && endDate == ""
  {
    var s := FormatDate(startDate, false, currentYear);
    var e := FormatDate(endDate, false, currentYear);
    if s.Some? && e.Some? && s == e then " (" + s.value + ")"
    else if s.Some? && e.Some? then
      " (" + FormatDate(startDate, true, currentYear).value + "-" + FormatDate(endDate, true, currentYear).value + ")"
    else if s.Some? then " (" + s.value + ")"
    else if e.Some? then " (" + e.value + ")"
    else ""
  }

  /** A single value for equal formatted dates, a range when both differ, else the side present. */
  lemma DateDisplayCases(startDate: string, endDate: string, currentYear: string)
    ensures var s := FormatDate(startDate, false, currentYear);
      var e := FormatDate(endDate, false, currentYear);
      var r := DateDisplay(startDate, endDate, currentYear);
      && (s.Some? && e.Some? && s == e ==> r == " (" + s.value + ")")
      && (s.Some? && e.Some? && s != e ==>
            r == " (" + FormatDate(startDate, true, currentYear).value + "-" + FormatDate(endDate, true, currentYear).value + ")")
      && (s.Some? && e.None? ==> r == " (" + s.value + ")")
      && (s.None? && e.Some? ==> r == " (" + e.value + ")")
  {
  }

  // ---------------------------------------------------------------------------
  // Tag order

  /** `a.toLowerCase().localeCompare(b.toLowerCase())`. */
  function TagOrder(): (string, string) -> bool {
    (a: string, b: string) => StrCmp(Lower(a), Lower(b)) <= 0
  }

  /** `[...tags].sort(...)`: a copy of the tags, each as often, in case-insensitive order. */
  function SortedTags(tags: seq<string>): (r: seq<string>)
    ensures multiset(r) == multiset(tags)
  {
    Sort(tags, TagOrder())
  }

  lemma SortedTagsOrder(tags: seq<string>)
    ensures var r := SortedTags(tags);
      forall i, j :: 0 <= i < j < |r| ==> StrLe(Lower(r[i]), Lower(r[j]))
  {
    var le := TagOrder();
    forall a, b ensures le(a, b) || le(b, a) {
      StrLeTotal(Lower(a), Lower(b));
    }
    forall a, b, c | le(a, b) && le(b, c) ensures le(a, c) {
      StrLeTrans(Lower(a), Lower(b), Lower(c));
    }
    SortSorted(tags, le);
  }
}
