/**
  The admin export endpoint (GET /api/export): every link with a target,
  optionally only those of one source, newest first, as JSON or as CSV. The
  CSV has a header line and one line per link; a field holding a comma or a
  double quote is wrapped in double quotes with its quotes doubled.
*/
module ExportApi {
  import opened Strings
  import opened Seqs
  import opened Wrappers
  import opened KeyValueStore
  import opened SearchApi

  /** One exported link. Only the "orcid-" prefix is told apart; every other link is manual. */
  datatype ExportEntry = ExportEntry(
    slug: string,
    target: string,
    title: string,
    description: string,
    tags: string,
    source: Source,
    clicks: nat,
    permanent: bool,
    createdAt: string)

  /** The entry of a key, or None when its target is missing or empty (`if (!target) continue`). */
  function EntryOf(db: Db, slug: string): (r: Option<ExportEntry>)
    ensures r.None? <==> TargetOf(db, slug) == ""
    ensures r.Some? ==> r.value.slug == slug && r.value.target == TargetOf(db, slug)
    ensures r.Some? ==> r.value.source != OpenReview && (r.value.source == Orcid <==> StartsWith(slug, "orcid-"))
  {
    var target := TargetOf(db, slug);
    var meta := MetaOf(db, slug);
    if target == "" then None
    else
      Some(ExportEntry(
        slug,
        target,
        FieldOrEmpty(meta, "title"),
        FieldOrEmpty(meta, "description"),
        FieldOrEmpty(meta, "tags"),
        if StartsWith(slug, "orcid-") then Orcid else Manual,
        ClicksOf(db, slug),
        FieldOrEmpty(meta, "permanent") == "1",
        FieldOrEmpty(meta, "createdAt")))
  }

  /** `source && entrySource !== source`: an empty source filter keeps everything. */
  predicate PassesSource(e: ExportEntry, source: string) {
    source == "" || SourceName(e.source) == source
  }

  /** exportData before sorting: the kept entries in key order. */
  function Exported(db: Db, keys: seq<string>, source: string): (r: seq<ExportEntry>)
    ensures |r| <= |keys|
    decreases |keys|
  {
    if keys == [] then []
    else
      var init := keys[..|keys| - 1];
      Exported(db, init, source)
        + match EntryOf(db, keys[|keys| - 1])
          case Some(e) => if PassesSource(e, source) then [e] else []
          case None => []
  }

  /** An entry is exported exactly when it is some key's entry and passes the source filter. */
  lemma {:induction false} ExportedIff(db: Db, keys: seq<string>, source: string, e: ExportEntry)
    ensures e in Exported(db, keys, source) <==>
              PassesSource(e, source) && exists k :: k in keys && EntryOf(db, k) == Some(e)
    decreases |keys|
  {
    if keys != [] {
      var init := keys[..|keys| - 1];
      var last := keys[|keys| - 1];
      ExportedIff(db, init, source, e);
      assert keys == init + [last];
      if e in Exported(db, keys, source) && e !in Exported(db, init, source) {
        assert EntryOf(db, last) == Some(e);
      }
    }
  }

  /** `new Date(createdAt || 0).getTime()`: an empty creation date counts as the epoch. */
  function ExportTime(timeOf: string -> int): ExportEntry -> int {
    (e: ExportEntry) => if e.createdAt == "" then 0 else timeOf(e.createdAt)
  }

  /** The sorted export, newest first. */
  function ExportRows(db: Db, keys: seq<string>, source: string, timeOf: string -> int): seq<ExportEntry> {
    Sort(Exported(db, keys, source), ByKeyDesc(ExportTime(timeOf)))
  }

  // ---------------------------------------------------------------------------
  // CSV

  const Headers: seq<string> := ["slug", "target", "title", "description", "tags", "source", "clicks", "permanent", "createdAt"]

  /** `row[header] || ""` for each header: zero clicks and a non-permanent link give empty cells. */
  function RawFields(e: ExportEntry): (r: seq<string>)
    ensures |r| == |Headers|
  {
    [e.slug, e.target, e.title, e.description, e.tags, SourceName(e.source),
     if e.clicks == 0 then "" else NatToString(e.clicks),
     if e.permanent then "true" else "",
     e.createdAt]
  }

  /** `replace(/"/g, '""')`. */
  function Escape(v: string): (r: string)
    ensures forall c :: c in r <==> c in v
    decreases |v|
  {
    if v == [] then []
    else (if v[0] == '"' then "\"\"" else [v[0]]) + Escape(v[1..])
  }

  /** A cell as written: quoted when it holds a comma or a double quote. */
  function QuoteField(v: string): (r: string)
    ensures forall c :: c != '"' ==> (c in r <==> c in v)
  {
    if ',' in v || '"' in v then "\"" + Escape(v) + "\"" else v
  }

  function QuoteAll(vs: seq<string>): (r: seq<string>)
    ensures |r| == |vs| && forall i :: 0 <= i < |vs| ==> r[i] == QuoteField(vs[i])
  {
    seq(|vs|, i requires 0 <= i < |vs| => QuoteField(vs[i]))
  }

  function Row(vs: seq<string>): string {
    Join(QuoteAll(vs), ',')
  }

  function CsvRows(rows: seq<ExportEntry>): (r: seq<string>)
    ensures |r| == |rows| && forall i :: 0 <= i < |rows| ==> r[i] == Row(RawFields(rows[i]))
  {
    seq(|rows|, i requires 0 <= i < |rows| => Row(RawFields(rows[i])))
  }

  /** The header line and the rows, one per line. */
  function Csv(rows: seq<ExportEntry>): string {
    Join([Join(Headers, ',')] + CsvRows(rows), '\n')
  }

  // ---------------------------------------------------------------------------
  // Reading a CSV line back (the partner of QuoteField and Row)

  /**
    Reads the inside of a quoted cell: a doubled quote stands for one quote,
    a lone quote ends the cell. Returns the text and what follows the closing quote.
  */
  function ReadQuoted(s: string): (r: (string, string))
    ensures |r.1| <= |s|
    decreases |s|
  {
    if s == [] then ("", "")
    else if s[0] == '"' then
      if |s| >= 2 && s[1] == '"' then
        var (f, rest) := ReadQuoted(s[2..]);
        (['"'] + f, rest)
      else ("", s[1..])
    else
      var (f, rest) := ReadQuoted(s[1..]);
      ([s[0]] + f, rest)
  }

  /** The length of the leading run without a comma. */
  function FieldEnd(s: string): (i: nat)
    ensures i <= |s|
    decreases |s|
  {
    if s == [] || s[0] == ',' then 0 else 1 + FieldEnd(s[1..])
  }

  /** The cells of one CSV line. */
  function ParseRow(line: string): (r: seq<string>)
    ensures |r| >= 1
    decreases |line|
  {
    if |line| > 0 && line[0] == '"' then
      var (f, rest) := ReadQuoted(line[1..]);
      if |rest| > 0 && rest[0] == ',' then [f] + ParseRow(rest[1..]) else [f]
    else
      var i := FieldEnd(line);
      if i < |line| then [line[..i]] + ParseRow(line[i + 1..]) else [line]
  }

  /** The text of an escaped cell reads back up to its closing quote. */
  lemma {:induction false} ReadEscaped(v: string, tail: string)
    requires tail == [] || tail[0] != '"'
    ensures ReadQuoted(Escape(v) + "\"" + tail) == (v, tail)
    decreases |v|
  {
    var s := Escape(v) + "\"" + tail;
    if v == [] {
      assert s == "\"" + tail;
      assert s[1..] == tail;
    } else {
      ReadEscaped(v[1..], tail);
      var rest := Escape(v[1..]) + "\"" + tail;
      if v[0] == '"' {
        assert s == "\"\"" + rest;
        assert s[2..] == rest;
      } else {
        assert s == [v[0]] + rest;
        assert s[1..] == rest;
      }
      assert v == [v[0]] + v[1..];
    }
  }

  lemma {:induction false} FieldEndNoComma(a: string, b: string)
    requires ',' !in a
    ensures FieldEnd(a + b) == |a| + FieldEnd(b)
    decreases |a|
  {
    if a != [] {
      FieldEndNoComma(a[1..], b);
      assert (a + b)[1..] == a[1..] + b;
    } else {
      assert a + b == b;
    }
  }

  /** A quoted cell followed by `tail` reads back as its value, leaving `tail`. */
  lemma ReadQuotedCell(v: string, tail: string)
    requires ',' in v || '"' in v
    requires tail == [] || tail[0] == ','
    ensures QuoteField(v) + tail == "\"" + (Escape(v) + "\"" + tail)
    ensures ReadQuoted(Escape(v) + "\"" + tail) == (v, tail)
  {
    ReadEscaped(v, tail);
  }

  /** A plain cell followed by `tail` does not start with a quote and ends where `tail` begins. */
  lemma ReadPlainCell(v: string, tail: string)
    requires ',' !in v && '"' !in v
    requires tail == [] || tail[0] == ','
    ensures QuoteField(v) == v
    ensures |v + tail| == 0 || (v + tail)[0] != '"'
    ensures FieldEnd(v + tail) == |v|
  {
    FieldEndNoComma(v, tail);
    if v != [] {
      assert (v + tail)[0] == v[0] && v[0] in v;
    } else {
      assert v + tail == tail;
    }
  }

  /** The first cell of a row and the rest: the cell, a comma, then the remaining cells. */
  lemma RowCons(vs: seq<string>)
    requires |vs| > 1
    ensures Row(vs) == QuoteField(vs[0]) + ([','] + Row(vs[1..]))
  {
    assert QuoteAll(vs)[1..] == QuoteAll(vs[1..]);
  }

  /** Rule-by-rule round trip of one line: reading a written row gives its cells back. */
  lemma {:induction false} ParseRowRoundTrip(vs: seq<string>)
    requires |vs| > 0
    ensures ParseRow(Row(vs)) == vs
    decreases |vs|
  {
    var v := vs[0];
    var tail: string;
    if |vs| == 1 {
      tail := "";
      assert Row(vs) == QuoteField(v) + tail;
    } else {
      ParseRowRoundTrip(vs[1..]);
      tail := [','] + Row(vs[1..]);
      RowCons(vs);
      assert tail[1..] == Row(vs[1..]);
    }
    var line := Row(vs);
    if ',' in v || '"' in v {
      ReadQuotedCell(v, tail);
      assert line[1..] == Escape(v) + "\"" + tail;
    } else {
      ReadPlainCell(v, tail);
      if tail != "" {
        assert line[..|v|] == v && line[|v| + 1..] == tail[1..];
      } else {
        assert line == v;
      }
    }
    assert vs == [v] + vs[1..];
  }

  /** Written cells hold a line break only when their values do. */
  lemma RowNoNewline(vs: seq<string>)
    requires NoneContains(vs, '\n')
    ensures '\n' !in Row(vs)
  {
    JoinNoSep(QuoteAll(vs), ',', '\n');
  }

  /** A word of letters is written as it is. */
  lemma PlainWord(w: string)
    requires forall i :: 0 <= i < |w| ==> 'a' <= w[i] <= 'z' || 'A' <= w[i] <= 'Z'
    ensures QuoteField(w) == w && '\n' !in w
  {
  }

  /** No header needs quoting, so the header line is the headers joined by commas. */
  lemma HeaderRow()
    ensures QuoteAll(Headers) == Headers
  {
    var q := QuoteAll(Headers);
    PlainWord("slug");
    PlainWord("target");
    PlainWord("title");
    PlainWord("description");
    PlainWord("tags");
    PlainWord("source");
    PlainWord("clicks");
    PlainWord("permanent");
    PlainWord("createdAt");
    assert q == Headers;
  }

  lemma HeadersNoNewline()
    ensures NoneContains(Headers, '\n')
  {
    forall i | 0 <= i < |Headers| ensures '\n' !in Headers[i] {
      PlainWord(Headers[i]);
    }
  }

  /**
    When no value holds a line break, the CSV has exactly one line more than
    there are rows, the first line reads back as the headers and each further
    line as its row's cells.
  */
  lemma CsvRoundTrip(rows: seq<ExportEntry>)
    requires forall e :: e in rows ==> NoneContains(RawFields(e), '\n')
    ensures var lines := Split(Csv(rows), '\n');
      && |lines| == |rows| + 1
      && ParseRow(lines[0]) == Headers
      && forall i :: 0 <= i < |rows| ==> ParseRow(lines[i + 1]) == RawFields(rows[i])
  {
    var header := Join(Headers, ',');
    var body := CsvRows(rows);
    var all := [header] + body;
    HeaderRow();
    assert Row(Headers) == header;
    HeadersNoNewline();
    assert NoneContains(all, '\n') by {
      RowNoNewline(Headers);
      forall i | 0 <= i < |rows| ensures '\n' !in body[i] {
        assert rows[i] in rows;
        RowNoNewline(RawFields(rows[i]));
      }
    }
    SplitJoin(all, '\n');
    ParseRowRoundTrip(Headers);
    forall i | 0 <= i < |rows| ensures ParseRow(all[i + 1]) == RawFields(rows[i]) {
      ParseRowRoundTrip(RawFields(rows[i]));
    }
  }

  // ---------------------------------------------------------------------------
  // The response

  datatype ExportResponse =
    | CsvFile(content: string)
    | JsonExport(entries: seq<ExportEntry>, total: nat, source: string)

  /** `format || "json"`, then CSV only for exactly "csv"; metadata.source is `source || "all"`. */
  function ExportSpec(db: Db, keys: seq<string>, format: string, source: string, timeOf: string -> int): (r: ExportResponse)
    ensures r.CsvFile? <==> format == "csv"
    ensures r.JsonExport? ==> r.total == |r.entries| && r.source == (if source == "" then "all" else source)
  {
    var rows := ExportRows(db, keys, source, timeOf);
    if format == "csv" then CsvFile(Csv(rows))
    else JsonExport(rows, |rows|, if source == "" then "all" else source)
  }

  /**
    The export holds exactly the entries of the keys with a target that pass
    the source filter, each as often as before sorting, newest first.
  */
  lemma SortedFacts(db: Db, keys: seq<string>, source: string, timeOf: string -> int)
    ensures var r := ExportRows(db, keys, source, timeOf);
      && multiset(r) == multiset(Exported(db, keys, source))
      && (forall e :: e in r <==> PassesSource(e, source) && exists k :: k in keys && EntryOf(db, k) == Some(e))
      && (forall i, j :: 0 <= i < j < |r| ==> ExportTime(timeOf)(r[i]) >= ExportTime(timeOf)(r[j]))
  {
    var all := Exported(db, keys, source);
    var r := ExportRows(db, keys, source, timeOf);
    ByKeyDescTotal(ExportTime(timeOf));
    SortFacts(all, ByKeyDesc(ExportTime(timeOf)));
    forall e ensures e in r <==> PassesSource(e, source) && exists k :: k in keys && EntryOf(db, k) == Some(e) {
      ExportedIff(db, keys, source, e);
    }
    forall i, j | 0 <= i < j < |r| ensures ExportTime(timeOf)(r[i]) >= ExportTime(timeOf)(r[j]) {
      assert ByKeyDesc(ExportTime(timeOf))(r[i], r[j]);
    }
  }

  /** Asking for source=openreview exports nothing: export labels such links manual. */
  lemma {:induction false} OpenReviewExportsNothing(db: Db, keys: seq<string>)
    ensures Exported(db, keys, "openreview") == []
    decreases |keys|
  {
    if keys != [] {
      OpenReviewExportsNothing(db, keys[..|keys| - 1]);
    }
  }

  /** One more key adds its entry when it has a target and passes the source filter. */
  lemma ExportStep(db: Db, keys: seq<string>, i: nat, source: string)
    requires i < |keys|
    ensures Exported(db, keys[..i + 1], source) == Exported(db, keys[..i], source)
              + match EntryOf(db, keys[i])
                case Some(e) => if PassesSource(e, source) then [e] else []
                case None => []
  {
    assert keys[..i + 1][..i] == keys[..i];
  }

  /** GET /api/export for an authorised caller. */
  method Export(st: Store, keys: seq<string>, format: string, source: string, timeOf: string -> int)
    returns (resp: ExportResponse)
    ensures resp == ExportSpec(st.Snapshot(), keys, format, source, timeOf)
  {
    var db := st.Snapshot();
    var exportData: seq<ExportEntry> := [];
    var i := 0;
    while i < |keys|
      invariant 0 <= i <= |keys|
      invariant exportData == Exported(db, keys[..i], source)
    {
      var slug := keys[i];
      ExportStep(db, keys, i, source);
      var target := TargetOf(db, slug);
      if target != "" {
        var meta := MetaOf(db, slug);
        var entrySource := if StartsWith(slug, "orcid-") then Orcid else Manual;
        if source == "" || SourceName(entrySource) == source {
          exportData := exportData + [ExportEntry(
            slug, target,
            FieldOrEmpty(meta, "title"), FieldOrEmpty(meta, "description"), FieldOrEmpty(meta, "tags"),
            entrySource, ClicksOf(db, slug),
            FieldOrEmpty(meta, "permanent") == "1", FieldOrEmpty(meta, "createdAt"))];
        }
      }
      i := i + 1;
    }
    assert keys[..|keys|] == keys;
    exportData := Sort(exportData, ByKeyDesc(ExportTime(timeOf)));
    if format == "csv" {
      resp := CsvFile(Csv(exportData));
    } else {
      resp := JsonExport(exportData, |exportData|, if source == "" then "all" else source);
    }
  }
}
