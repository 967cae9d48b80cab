/** The CSV export of commits, and a reader for it. */
module CsvExport {
  import opened Common
  import opened CommitCache

  // ---------- the writer ----------

  function DoubleQuotes(value: string): string {
    if value == [] then []
    else (if value[0] == '"' then "\"\"" else [value[0]]) + DoubleQuotes(value[1..])
  }

  function EscapeCsv(value: string): string {
    if ',' in value || '"' in value || '\n' in value then "\"" + DoubleQuotes(value) + "\"" else value
  }

  function EscapeAll(fields: seq<string>): seq<string> {
    seq(|fields|, i requires 0 <= i < |fields| => EscapeCsv(fields[i]))
  }

  function RenderRow(fields: seq<string>): string {
    Join(EscapeAll(fields), ",")
  }

  function RenderRows(rows: seq<seq<string>>): seq<string> {
    seq(|rows|, i requires 0 <= i < |rows| => RenderRow(rows[i]))
  }

  /** The file: one line per row, each ended by a line feed. */
  function Render(rows: seq<seq<string>>): string {
    Join(RenderRows(rows), "\n") + "\n"
  }

  // ---------- a reader (section 2 of RFC 4180, with LF line ends) ----------

  /** The rest of a quoted field after its opening quote: the value and what follows. */
  function ReadQuoted(s: string): (r: Option<(string, string)>)
    ensures r.Some? ==> |r.value.1| < |s|
  {
    if s == [] then None
    else if s[0] != '"' then
      var r := ReadQuoted(s[1..]);
      if r.None? then None else Some(([s[0]] + r.value.0, r.value.1))
    else if |s| > 1 && s[1] == '"' then
      var r := ReadQuoted(s[2..]);
      if r.None? then None else Some(("\"" + r.value.0, r.value.1))
    else Some(("", s[1..]))
  }

  /** A field without quotes runs to the next comma or line feed. */
  function ReadBare(s: string): (r: Option<(string, string)>)
    ensures r.Some? ==> |r.value.1| <= |s|
  {
    if s == [] || s[0] == ',' || s[0] == '\n' then Some(("", s))
    else if s[0] == '"' then None
    else
      var r := ReadBare(s[1..]);
      if r.None? then None else Some(([s[0]] + r.value.0, r.value.1))
  }

  function ReadField(s: string): (r: Option<(string, string)>)
    ensures r.Some? ==> |r.value.1| <= |s|
  {
    if s != [] && s[0] == '"' then ReadQuoted(s[1..]) else ReadBare(s)
  }

  function ReadRow(s: string): (r: Option<(seq<string>, string)>)
    ensures r.Some? ==> |r.value.1| < |s|
    decreases |s|
  {
    var field := ReadField(s);
    if field.None? || field.value.1 == [] then None
    else
      var (value, rest) := field.value;
      if rest[0] == '\n' then Some(([value], rest[1..]))
      else if rest[0] == ',' then
        var more := ReadRow(rest[1..]);
        if more.None? then None else Some(([value] + more.value.0, more.value.1))
      else None
  }

  function ReadTable(s: string): Option<seq<seq<string>>>
    decreases |s|
  {
    if s == [] then Some([])
    else
      var row := ReadRow(s);
      if row.None? then None
      else
        var more := ReadTable(row.value.1);
        if more.None? then None else Some([row.value.0] + more.value)
  }

  // ---------- reading back ----------

  lemma {:induction false} QuotedReadsBack(value: string, tail: string)
    requires tail != [] && tail[0] != '"'
    ensures ReadQuoted(DoubleQuotes(value) + "\"" + tail) == Some((value, tail))
  {
    var s := DoubleQuotes(value) + "\"" + tail;
    if value == [] {
      assert s == "\"" + tail;
    } else {
      QuotedReadsBack(value[1..], tail);
      var rest := DoubleQuotes(value[1..]) + "\"" + tail;
      if value[0] == '"' {
        assert s == "\"\"" + rest;
        assert s[2..] == rest;
      } else {
        assert s == [value[0]] + rest;
        assert s[1..] == rest;
      }
      assert value == [value[0]] + value[1..];
    }
  }

  lemma {:induction false} BareReadsBack(value: string, tail: string)
    requires ',' !in value && '"' !in value && '\n' !in value
    requires tail != [] && tail[0] in ",\n"
    ensures ReadBare(value + tail) == Some((value, tail))
  {
    if value == [] {
      assert value + tail == tail;
    } else {
      assert (value + tail)[1..] == value[1..] + tail;
      BareReadsBack(value[1..], tail);
      assert value == [value[0]] + value[1..];
    }
  }

  lemma FieldReadsBack(value: string, tail: string)
    requires tail != [] && tail[0] in ",\n"
    ensures ReadField(EscapeCsv(value) + tail) == Some((value, tail))
  {
    var s := EscapeCsv(value) + tail;
    if ',' in value || '"' in value || '\n' in value {
      assert s == "\"" + (DoubleQuotes(value) + "\"" + tail);
      assert s[1..] == DoubleQuotes(value) + "\"" + tail;
      QuotedReadsBack(value, tail);
    } else {
      assert s[0] == (if value == [] then tail[0] else value[0]);
      BareReadsBack(value, tail);
    }
  }

  lemma {:induction false} RowReadsBack(fields: seq<string>, tail: string)
    requires fields != []
    ensures ReadRow(RenderRow(fields) + "\n" + tail) == Some((fields, tail))
    decreases |fields|
  {
    if |fields| == 1 {
      OneFieldReadsBack(fields, tail);
    } else {
      RowReadsBack(fields[1..], tail);
      MoreFieldsReadBack(fields, tail);
    }
  }

  lemma OneFieldReadsBack(fields: seq<string>, tail: string)
    requires |fields| == 1
    ensures ReadRow(RenderRow(fields) + "\n" + tail) == Some((fields, tail))
  {
    FieldReadsBack(fields[0], "\n" + tail);
    assert RenderRow(fields) + "\n" + tail == EscapeCsv(fields[0]) + ("\n" + tail);
    assert ("\n" + tail)[1..] == tail;
    assert fields == [fields[0]];
  }

  lemma FieldThenRow(value: string, s: string, fields: seq<string>, tail: string)
    requires ReadRow(s) == Some((fields, tail))
    ensures ReadRow(EscapeCsv(value) + ("," + s)) == Some(([value] + fields, tail))
  {
    FieldReadsBack(value, "," + s);
    assert ("," + s)[1..] == s;
  }

  lemma MoreFieldsReadBack(fields: seq<string>, tail: string)
    requires |fields| > 1
    requires ReadRow(RenderRow(fields[1..]) + "\n" + tail) == Some((fields[1..], tail))
    ensures ReadRow(RenderRow(fields) + "\n" + tail) == Some((fields, tail))
  {
    var s := RenderRow(fields[1..]) + "\n" + tail;
    FieldThenRow(fields[0], s, fields[1..], tail);
    RowFromFront(fields);
    assert RenderRow(fields) + "\n" + tail == EscapeCsv(fields[0]) + ("," + s);
    assert fields == [fields[0]] + fields[1..];
  }

  lemma RowFromFront(fields: seq<string>)
    requires |fields| > 1
    ensures RenderRow(fields) == EscapeCsv(fields[0]) + "," + RenderRow(fields[1..])
  {
    JoinFromFront(EscapeAll(fields), ",");
    assert EscapeAll(fields)[1..] == EscapeAll(fields[1..]);
  }

  lemma RenderFromFront(rows: seq<seq<string>>)
    requires rows != []
    ensures Render(rows) == RenderRow(rows[0]) + "\n" + (if |rows| == 1 then "" else Render(rows[1..]))
  {
    if |rows| > 1 {
      JoinFromFront(RenderRows(rows), "\n");
      assert RenderRows(rows)[1..] == RenderRows(rows[1..]);
    }
  }

  /** Whatever the fields hold - commas, quotes, line feeds, nothing - the reader
      returns exactly the rows that were written. */
  lemma {:induction false} TableReadsBack(rows: seq<seq<string>>)
    requires rows != [] && forall k :: 0 <= k < |rows| ==> rows[k] != []
    ensures ReadTable(Render(rows)) == Some(rows)
  {
    RenderFromFront(rows);
    var rest := if |rows| == 1 then "" else Render(rows[1..]);
    if |rows| > 1 {
      TableReadsBack(rows[1..]);
    }
    RowReadsBack(rows[0], rest);
    assert |rows| == 1 ==> rows[1..] == [];
    assert ReadTable(rest) == Some(rows[1..]);
    assert rows == [rows[0]] + rows[1..];
  }

  // ---------- the export ----------

  const HEADER: seq<string> := [
    "committedAt", "repository", "repositoryUrl", "sha", "commitUrl", "authorLogin", "authorName", "authorEmail",
    "contributors", "additions", "deletions", "totalChanges"]

  function OrEmpty(s: Option<string>): string {
    if s.Some? then s.value else ""
  }

  function ContributorNames(contributors: seq<Contributor>): seq<string> {
    seq(|contributors|, i requires 0 <= i < |contributors| =>
      if contributors[i].login.Some? then contributors[i].login.value else contributors[i].displayName)
  }

  function ExportRow(commit: Commit, stats: Option<Stats>): seq<string> {
    var numbers := if stats.Some? then stats.value else Stats(0, 0, 0);
    [OrEmpty(commit.committedAt), commit.repositoryFullName, commit.repositoryUrl, commit.sha, commit.htmlUrl,
     OrEmpty(commit.authorLogin), OrEmpty(commit.authorName), OrEmpty(commit.authorEmail),
     Join(ContributorNames(commit.contributors), " | "),
     Decimal(numbers.additions), Decimal(numbers.deletions), Decimal(numbers.total)]
  }

  /** Under each column name stands the value of the commit, or of its statistics, that it names:
      nothing for a missing value, and zeros without statistics. */
  lemma ColumnsShow(commit: Commit, stats: Option<Stats>)
    ensures var row := ExportRow(commit, stats);
      && |row| == |HEADER|
      && Under(row, "committedAt", OrEmpty(commit.committedAt))
      && Under(row, "repository", commit.repositoryFullName) && Under(row, "repositoryUrl", commit.repositoryUrl)
      && Under(row, "sha", commit.sha) && Under(row, "commitUrl", commit.htmlUrl)
      && Under(row, "authorLogin", OrEmpty(commit.authorLogin)) && Under(row, "authorName", OrEmpty(commit.authorName))
      && Under(row, "authorEmail", OrEmpty(commit.authorEmail))
      && Under(row, "additions", Decimal(if stats.Some? then stats.value.additions else 0))
      && Under(row, "deletions", Decimal(if stats.Some? then stats.value.deletions else 0))
      && Under(row, "totalChanges", Decimal(if stats.Some? then stats.value.total else 0))
  {
    var row := ExportRow(commit, stats);
    IsUnder(row, 0);
    IsUnder(row, 1);
    IsUnder(row, 2);
    IsUnder(row, 3);
    IsUnder(row, 4);
    IsUnder(row, 5);
    IsUnder(row, 6);
    IsUnder(row, 7);
    IsUnder(row, 9);
    IsUnder(row, 10);
    IsUnder(row, 11);
  }

  /** The value stands in the column of this name. */
  predicate Under(row: seq<string>, column: string, value: string) {
    exists k :: 0 <= k < |row| && k < |HEADER| && HEADER[k] == column && row[k] == value
  }

  lemma IsUnder(row: seq<string>, k: nat)
    requires k < |row| && k < |HEADER|
    ensures Under(row, HEADER[k], row[k])
  {
  }

  /** No column name stands twice. */
  lemma ColumnsAreDistinct()
    ensures NoDuplicates(HEADER)
  {
    assert forall k :: 0 <= k < |HEADER| ==> |HEADER[k]| == [11, 10, 13, 3, 9, 11, 10, 11, 12, 9, 9, 12][k];
    assert "committedAt"[0] == 'c' && "authorLogin"[6] == 'L' && "authorEmail"[6] == 'E';
    assert "commitUrl"[0] == 'c' && "additions"[0] == 'a' && "deletions"[0] == 'd';
    assert "contributors"[0] == 'c' && "totalChanges"[0] == 't' && "repository"[0] == 'r' && "authorName"[0] == 'a';
  }

  /** A commit found by the search, exported: its own fields under their columns. */
  lemma FoundCommitIsShown(x: Item, c: Commit, stats: Option<Stats>)
    requires IsRecordOf(c, x)
    ensures var row := ExportRow(c, stats);
      && Under(row, "sha", x.sha) && Under(row, "committedAt", OrEmpty(x.date)) && Under(row, "commitUrl", x.htmlUrl)
      && Under(row, "repository", x.repositoryFullName) && Under(row, "repositoryUrl", x.repositoryUrl)
      && Under(row, "authorLogin", OrEmpty(x.authorLogin)) && Under(row, "authorName", OrEmpty(x.authorName))
      && Under(row, "authorEmail", OrEmpty(x.authorEmail))
  {
    ColumnsShow(c, stats);
  }

  /** The contributors, in order, by login or else by name. */
  lemma ContributorsShow(commit: Commit, stats: Option<Stats>)
    ensures var names := ContributorNames(commit.contributors);
      && Under(ExportRow(commit, stats), "contributors", Join(names, " | "))
      && |names| == |commit.contributors|
      && forall k :: 0 <= k < |names| ==>
           names[k] == (match commit.contributors[k].login case Some(login) => login case None => commit.contributors[k].displayName)
  {
    IsUnder(ExportRow(commit, stats), 8);
  }

  function StatsFor(stats: map<string, Stats>, sha: string): Option<Stats> {
    if sha in stats then Some(stats[sha]) else None
  }

  function ExportRows(commits: map<string, Commit>, stats: map<string, Stats>, shas: seq<string>): seq<seq<string>>
    requires forall sha :: sha in shas ==> sha in commits
  {
    seq(|shas|, i requires 0 <= i < |shas| => ExportRow(commits[shas[i]], StatsFor(stats, shas[i])))
  }

  predicate IsPlain(s: string) {
    forall i :: 0 <= i < |s| ==> 'A' <= s[i] <= 'z'
  }

  lemma PlainIsKept(s: string)
    requires IsPlain(s)
    ensures EscapeCsv(s) == s
  {
  }

  /** The source joins the header without escaping it; it needs none. */
  lemma HeaderIsPlain()
    ensures RenderRow(HEADER) == Join(HEADER, ",")
  {
    PlainNames();
    var escaped := EscapeAll(HEADER);
    assert |escaped| == |HEADER| == 12;
    assert escaped == HEADER;
  }

  lemma PlainNames()
    ensures forall k :: 0 <= k < |HEADER| ==> EscapeCsv(HEADER[k]) == HEADER[k]
  {
    assert IsPlain("committedAt") && IsPlain("repository") && IsPlain("repositoryUrl") && IsPlain("sha");
    assert IsPlain("commitUrl") && IsPlain("authorLogin") && IsPlain("authorName") && IsPlain("authorEmail");
    assert IsPlain("contributors") && IsPlain("additions") && IsPlain("deletions") && IsPlain("totalChanges");
    forall k | 0 <= k < |HEADER| ensures EscapeCsv(HEADER[k]) == HEADER[k] {
      PlainIsKept(HEADER[k]);
    }
  }

  /** The export fails exactly when a sha has no cached commit; otherwise the file
      reads back as the header and one row per sha, in order. */
  method WriteExport(commits: map<string, Commit>, stats: map<string, Stats>, shas: seq<string>) returns (r: Result<string, string>)
    ensures r.Ok? <==> forall sha :: sha in shas ==> sha in commits
    ensures r.Err? ==> r.error in shas && r.error !in commits
    ensures r.Ok? ==> ReadTable(r.value) == Some([HEADER] + ExportRows(commits, stats, shas))
  {
    var rows := [Join(HEADER, ",")];
    HeaderIsPlain();
    ghost var written := [HEADER];
    assert RenderRows(written) == rows;
    var i := 0;
    while i < |shas|
      invariant 0 <= i <= |shas|
      invariant forall sha :: sha in shas[..i] ==> sha in commits
      invariant written == [HEADER] + ExportRows(commits, stats, shas[..i])
      invariant rows == RenderRows(written)
    {
      var sha := shas[i];
      if sha !in commits {
        return Err(sha);
      }
      var row := ExportRow(commits[sha], StatsFor(stats, sha));
      assert shas[..i + 1] == shas[..i] + [sha];
      assert RenderRows(written + [row]) == rows + [RenderRow(row)];
      rows := rows + [RenderRow(row)];
      written := written + [row];
      i := i + 1;
    }
    assert shas[..i] == shas;
    TableReadsBack(written);
    return Ok(Join(rows, "\n") + "\n");
  }
}
