/** The worktree's environment file: writing entries and reading them back. */
module EnvFile {
  import opened Common

  /** An object's properties in insertion order. */
  datatype Entry = Entry(key: string, value: string)

  /** White space as JavaScript's trim and \s see it. */
  predicate IsJsSpace(c: char) {
    || c in " \t\n\r" || c == '\U{000B}' || c == '\U{000C}' || c == '\U{00A0}' || c == '\U{1680}'
    || '\U{2000}' <= c <= '\U{200A}' || c == '\U{2028}' || c == '\U{2029}' || c == '\U{202F}' || c == '\U{205F}'
    || c == '\U{3000}' || c == '\U{FEFF}'
  }

  /** What a dot in a pattern does not match. */
  predicate IsLineTerminator(c: char) {
    c == '\n' || c == '\r' || c == '\U{2028}' || c == '\U{2029}'
  }

  predicate IsKeyStart(c: char) {
    'A' <= c <= 'Z' || 'a' <= c <= 'z' || c == '_'
  }

  predicate IsKeyChar(c: char) {
    IsKeyStart(c) || '0' <= c <= '9'
  }

  predicate IsKey(s: string) {
    s != [] && IsKeyStart(s[0]) && forall i :: 0 <= i < |s| ==> IsKeyChar(s[i])
  }

  // ---------- reading ----------

  function SkipSpace(s: string): string {
    if s != [] && IsJsSpace(s[0]) then SkipSpace(s[1..]) else s
  }

  function DropSpace(s: string): string {
    if s != [] && IsJsSpace(s[|s| - 1]) then DropSpace(s[..|s| - 1]) else s
  }

  function Trim(s: string): string {
    DropSpace(SkipSpace(s))
  }

  /** The longest prefix of key characters. */
  function KeyPrefix(s: string): (r: string)
    ensures r <= s
  {
    if s != [] && IsKeyChar(s[0]) then [s[0]] + KeyPrefix(s[1..]) else []
  }

  /** The longest prefix without line terminators. */
  function DotPrefix(s: string): (r: string)
    ensures r <= s
  {
    if s != [] && !IsLineTerminator(s[0]) then [s[0]] + DotPrefix(s[1..]) else []
  }

  /** Cuts a comment: the first white space that is followed by a hash sign. */
  function CutComment(s: string): string {
    if s == [] then []
    else if IsJsSpace(s[0]) && SkipSpace(s) != [] && SkipSpace(s)[0] == '#' then []
    else [s[0]] + CutComment(s[1..])
  }

  predicate IsQuoted(v: string, quote: char) {
    v != [] && v[0] == quote && v[|v| - 1] == quote
  }

  /** slice(1, -1) */
  function Inner(v: string): string {
    if |v| >= 2 then v[1..|v| - 1] else ""
  }

  function ReadValue(rawValue: string): string {
    var value := Trim(rawValue);
    if IsQuoted(value, '"') || IsQuoted(value, '\'') then Inner(value)
    else Trim(CutComment(value))
  }

  /** key, white space, equals sign, white space, value, white space. */
  function MatchAssignment(s: string): Option<Entry> {
    var key := KeyPrefix(s);
    var afterKey := SkipSpace(s[|key|..]);
    if !IsKey(key) || afterKey == [] || afterKey[0] != '=' then None
    else
      var rest := SkipSpace(afterKey[1..]);
      var raw := DotPrefix(rest);
      if SkipSpace(rest[|raw|..]) == [] then Some(Entry(key, ReadValue(raw))) else None
  }

  function MatchLine(rawLine: string): Option<Entry> {
    var line := SkipSpace(rawLine);
    var exported := if "export" <= line && |line| > 6 && IsJsSpace(line[6]) then MatchAssignment(SkipSpace(line[6..])) else None;
    if exported.Some? then exported else MatchAssignment(line)
  }

  function ParseLine(rawLine: string): Option<Entry> {
    var line := Trim(rawLine);
    if line == [] || line[0] == '#' then None else MatchLine(rawLine)
  }

  /** Setting a property: in place when it exists, at the end otherwise. */
  function Put(entries: seq<Entry>, e: Entry): seq<Entry> {
    if entries == [] then [e]
    else if entries[0].key == e.key then [e] + entries[1..]
    else [entries[0]] + Put(entries[1..], e)
  }

  function ParseLines(lines: seq<string>): seq<Entry> {
    if lines == [] then []
    else
      var before := ParseLines(lines[..|lines| - 1]);
      var e := ParseLine(lines[|lines| - 1]);
      if e.Some? then Put(before, e.value) else before
  }

  function StripReturn(s: string): string {
    if s != [] && s[|s| - 1] == '\r' then s[..|s| - 1] else s
  }

  lemma {:induction false} UpToIsPrefix(s: string, c: char)
    ensures UpTo(s, c) <= s && c !in UpTo(s, c)
    ensures |UpTo(s, c)| < |s| ==> s[|UpTo(s, c)|] == c
  {
    if s != [] && s[0] != c {
      UpToIsPrefix(s[1..], c);
    }
  }

  /** split(/\r?\n/) */
  function SplitLines(s: string): seq<string>
    decreases |s|
  {
    UpToIsPrefix(s, '\n');
    var first := UpTo(s, '\n');
    if |first| == |s| then [s] else [StripReturn(first)] + SplitLines(s[|first| + 1..])
  }

  method ParseEnvFile(contents: string) returns (entries: seq<Entry>)
    ensures entries == ParseLines(SplitLines(contents))
  {
    var lines := SplitLines(contents);
    entries := [];
    var i := 0;
    while i < |lines|
      invariant 0 <= i <= |lines|
      invariant entries == ParseLines(lines[..i])
    {
      assert lines[..i + 1][..i] == lines[..i];
      var e := ParseLine(lines[i]);
      if e.Some? {
        entries := Put(entries, e.value);
      }
      i := i + 1;
    }
    assert lines[..i] == lines;
  }

  // ---------- writing ----------

  /** One character as JSON.stringify writes it. */
  function EscapeChar(c: char): (r: string)
    ensures r == [c] || |r| >= 2
  {
    if c == '"' then "\\\"" else if c == '\\' then "\\\\"
    else if c == '\n' then "\\n" else if c == '\r' then "\\r" else if c == '\t' then "\\t"
    else if c == '\U{0008}' then "\\b" else if c == '\U{000C}' then "\\f"
    else if c < ' ' then "\\u00" + [HexDigit(c as int / 16), HexDigit(c as int % 16)]
    else [c]
  }

  function HexDigit(n: nat): char
    requires n < 16
  {
    "0123456789abcdef"[n]
  }

  function EscapeString(s: string): string {
    if s == [] then [] else EscapeChar(s[0]) + EscapeString(s[1..])
  }

  function FormatEntry(e: Entry): string {
    e.key + "=\"" + EscapeString(e.value) + "\""
  }

  const HEADER: seq<string> := ["# Paperclip environment variables", "# Generated by Paperclip worktree repair"]

  function EntryLines(entries: seq<Entry>): seq<string> {
    if entries == [] then HEADER else EntryLines(entries[..|entries| - 1]) + [FormatEntry(entries[|entries| - 1])]
  }

  function FormatEnvEntries(entries: seq<Entry>): string {
    Join(EntryLines(entries) + [""], "\n")
  }

  // ---------- reading back ----------

  /** A value that is written as it is and that a line can hold. */
  predicate IsPlain(value: string) {
    forall i :: 0 <= i < |value| ==> EscapeChar(value[i]) == [value[i]] && !IsLineTerminator(value[i])
  }

  lemma {:induction false} EscapeLength(s: string)
    ensures |EscapeString(s)| >= |s|
    ensures (forall i :: 0 <= i < |s| ==> EscapeChar(s[i]) == [s[i]]) ==> EscapeString(s) == s
    ensures (exists i :: 0 <= i < |s| && EscapeChar(s[i]) != [s[i]]) ==> |EscapeString(s)| > |s|
  {
    if s != [] {
      EscapeLength(s[1..]);
      assert s == [s[0]] + s[1..];
      assert forall i :: 1 <= i < |s| ==> s[i] == s[1..][i - 1];
      if exists i :: 0 <= i < |s| && EscapeChar(s[i]) != [s[i]] {
        var i :| 0 <= i < |s| && EscapeChar(s[i]) != [s[i]];
        assert i > 0 ==> s[1..][i - 1] == s[i];
      }
    }
  }

  predicate AllKeys(entries: seq<Entry>) {
    forall k :: 0 <= k < |entries| ==> IsKey(entries[k].key)
  }

  predicate AllPlain(entries: seq<Entry>) {
    forall k :: 0 <= k < |entries| ==> IsPlain(entries[k].value)
  }

  predicate HasTerminator(s: string) {
    exists i :: 0 <= i < |s| && IsLineTerminator(s[i])
  }

  /** Plain values are exactly those that their own line gives back. */
  lemma PlainMeansVerbatim(value: string)
    ensures IsPlain(value) <==> EscapeString(value) == value && !HasTerminator(EscapeString(value))
  {
    EscapeLength(value);
  }

  lemma KeyIsFound(key: string, rest: string)
    requires IsKey(key) && rest != [] && !IsKeyChar(rest[0])
    ensures KeyPrefix(key + rest) == key
  {
    KeyCharsAreFound(key, rest);
  }

  lemma {:induction false} KeyCharsAreFound(key: string, rest: string)
    requires (forall i :: 0 <= i < |key| ==> IsKeyChar(key[i])) && rest != [] && !IsKeyChar(rest[0])
    ensures KeyPrefix(key + rest) == key
  {
    if key == [] {
      assert key + rest == rest;
    } else {
      assert (key + rest)[1..] == key[1..] + rest;
      KeyCharsAreFound(key[1..], rest);
    }
  }

  lemma {:induction false} DotPrefixIs(s: string)
    ensures !HasTerminator(s) ==> DotPrefix(s) == s
    ensures HasTerminator(s) ==> |DotPrefix(s)| < |s|
  {
    if s != [] {
      DotPrefixIs(s[1..]);
      assert forall i :: 1 <= i < |s| ==> s[i] == s[1..][i - 1];
      if !IsLineTerminator(s[0]) {
        assert HasTerminator(s) <==> HasTerminator(s[1..]) by {
          if HasTerminator(s) {
            var i :| 0 <= i < |s| && IsLineTerminator(s[i]);
            assert s[1..][i - 1] == s[i];
          }
        }
      }
    }
  }

  lemma {:induction false} NonSpaceRemains(s: string)
    requires s != [] && !IsJsSpace(s[|s| - 1])
    ensures SkipSpace(s) != []
  {
    if IsJsSpace(s[0]) {
      NonSpaceRemains(s[1..]);
    }
  }

  /** The quoted part of a line, read as a value. */
  lemma QuotedValue(j: string)
    ensures var q := "\"" + j + "\"";
            && SkipSpace(q) == q
            && (HasTerminator(j) ==> SkipSpace(q[|DotPrefix(q)|..]) != [])
            && (!HasTerminator(j) ==> DotPrefix(q) == q && ReadValue(q) == j)
  {
    var q := "\"" + j + "\"";
    DotPrefixIs(q);
    if HasTerminator(j) {
      var i :| 0 <= i < |j| && IsLineTerminator(j[i]);
      assert q[i + 1] == j[i];
      var rest := q[|DotPrefix(q)|..];
      assert rest[|rest| - 1] == q[|q| - 1] == '"';
      NonSpaceRemains(rest);
    } else {
      forall i | 0 <= i < |q| ensures !IsLineTerminator(q[i]) {
        assert 0 < i < |q| - 1 ==> q[i] == j[i - 1];
      }
      assert DropSpace(q) == q;
      assert q[1..|q| - 1] == j;
    }
  }

  /** No key makes a line look like an export statement. */
  lemma NotAnExport(e: Entry)
    requires IsKey(e.key)
    ensures var line := FormatEntry(e); !("export" <= line && |line| > 6 && IsJsSpace(line[6]))
  {
    var line := FormatEntry(e);
    if |e.key| > 6 {
      assert line[6] == e.key[6] && IsKeyChar(e.key[6]);
    } else {
      assert line[|e.key|] == '=';
    }
  }

  /** An assignment is a key, an equals sign and a value that fills the line. */
  lemma MatchAfterKey(key: string, q: string)
    requires IsKey(key) && SkipSpace(q) == q
    ensures MatchAssignment(key + ("=" + q))
         == if SkipSpace(q[|DotPrefix(q)|..]) == [] then Some(Entry(key, ReadValue(DotPrefix(q)))) else None
  {
    KeyIsFound(key, "=" + q);
    assert (key + ("=" + q))[|key|..] == "=" + q;
    assert ("=" + q)[1..] == q;
  }

  lemma AssignmentReadsBack(key: string, j: string)
    requires IsKey(key)
    ensures MatchAssignment(key + ("=" + ("\"" + j + "\""))) == if HasTerminator(j) then None else Some(Entry(key, j))
  {
    var q := "\"" + j + "\"";
    QuotedValue(j);
    MatchAfterKey(key, q);
    assert SkipSpace(q[|q|..]) == [];
  }

  lemma TrimmedAlready(s: string)
    requires s != [] && !IsJsSpace(s[0]) && !IsJsSpace(s[|s| - 1])
    ensures SkipSpace(s) == s && Trim(s) == s
  {
  }

  lemma UntrimmedLine(line: string)
    requires line != [] && !IsJsSpace(line[0]) && !IsJsSpace(line[|line| - 1]) && line[0] != '#'
    requires !("export" <= line && |line| > 6 && IsJsSpace(line[6]))
    ensures ParseLine(line) == MatchAssignment(line)
  {
    TrimmedAlready(line);
  }

  /** Reading a written line gives the key with the escaped value, or nothing when a
      line terminator stands in it. */
  lemma LineReadsBack(e: Entry)
    requires IsKey(e.key)
    ensures ParseLine(FormatEntry(e)) ==
            if HasTerminator(EscapeString(e.value)) then None else Some(Entry(e.key, EscapeString(e.value)))
  {
    var j := EscapeString(e.value);
    var line := FormatEntry(e);
    LineIs(e);
    NotAnExport(e);
    UntrimmedLine(line);
    AssignmentReadsBack(e.key, j);
  }

  lemma LineIs(e: Entry)
    requires IsKey(e.key)
    ensures var line := FormatEntry(e);
      && line == e.key + ("=" + ("\"" + EscapeString(e.value) + "\""))
      && line != [] && line[0] == e.key[0] && line[|line| - 1] == '"'
  {
  }

  // ---------- a whole file ----------

  lemma {:induction false} EscapedHasNoLineFeed(s: string)
    ensures '\n' !in EscapeString(s)
  {
    if s != [] {
      EscapedHasNoLineFeed(s[1..]);
    }
  }

  predicate IsCleanLine(line: string) {
    '\n' !in line && StripReturn(line) == line
  }

  /** Lines without line feeds that do not end in a return come apart again. */
  lemma {:induction false} SplitUndoesJoin(lines: seq<string>)
    requires lines != [] && forall line :: line in lines ==> IsCleanLine(line)
    ensures SplitLines(Join(lines, "\n")) == lines
  {
    var s := Join(lines, "\n");
    assert lines[0] in lines && IsCleanLine(lines[0]);
    if |lines| == 1 {
      UpToAll(s, '\n');
    } else {
      var rest := Join(lines[1..], "\n");
      JoinFromFront(lines, "\n");
      UpToSeparator(lines[0], '\n', rest);
      assert s == lines[0] + ['\n'] + rest;
      assert s[|lines[0]| + 1..] == rest;
      SplitUndoesJoin(lines[1..]);
      assert lines == [lines[0]] + lines[1..];
    }
  }

  lemma {:induction false} LinesAreClean(entries: seq<Entry>)
    requires AllKeys(entries)
    ensures forall line :: line in EntryLines(entries) ==> IsCleanLine(line)
  {
    if entries == [] {
      assert IsCleanLine(HEADER[0]) && IsCleanLine(HEADER[1]);
    } else {
      var last := entries[|entries| - 1];
      LinesAreClean(entries[..|entries| - 1]);
      EscapedHasNoLineFeed(last.value);
      assert FormatEntry(last)[|FormatEntry(last)| - 1] == '"';
    }
  }

  lemma FileSplits(entries: seq<Entry>)
    requires AllKeys(entries)
    ensures SplitLines(FormatEnvEntries(entries)) == EntryLines(entries) + [""]
  {
    LinesAreClean(entries);
    var lines := EntryLines(entries) + [""];
    assert IsCleanLine("");
    SplitUndoesJoin(lines);
  }

  /** What the entry lines alone are read as. */
  function ReadBack(entries: seq<Entry>): seq<Entry> {
    if entries == [] then []
    else
      var last := entries[|entries| - 1];
      var before := ReadBack(entries[..|entries| - 1]);
      if HasTerminator(EscapeString(last.value)) then before else Put(before, Entry(last.key, EscapeString(last.value)))
  }

  lemma HeaderIsSkipped()
    ensures ParseLines(HEADER) == []
    ensures ParseLine("").None?
  {
    TrimmedAlready(HEADER[0]);
    TrimmedAlready(HEADER[1]);
    assert HEADER[..1] == [HEADER[0]] && [HEADER[0]][..0] == [];
    assert ParseLines(HEADER[..1]) == [];
  }

  lemma NextLine(init: seq<string>, last: string)
    ensures ParseLines(init + [last]) ==
            var e := ParseLine(last); if e.Some? then Put(ParseLines(init), e.value) else ParseLines(init)
  {
    assert (init + [last])[..|init|] == init;
  }

  lemma {:induction false} EntriesReadBack(entries: seq<Entry>)
    requires AllKeys(entries)
    ensures ParseLines(EntryLines(entries)) == ReadBack(entries)
  {
    if entries == [] {
      HeaderIsSkipped();
    } else {
      var init, last := entries[..|entries| - 1], entries[|entries| - 1];
      EntriesReadBack(init);
      LineReadsBack(last);
      NextLine(EntryLines(init), FormatEntry(last));
    }
  }

  /** Reading back a written file. */
  lemma FileReadsBack(entries: seq<Entry>)
    requires AllKeys(entries)
    ensures ParseLines(SplitLines(FormatEnvEntries(entries))) == ReadBack(entries)
  {
    FileSplits(entries);
    EntriesReadBack(entries);
    HeaderIsSkipped();
    NextLine(EntryLines(entries), "");
  }

  predicate DistinctKeys(entries: seq<Entry>) {
    forall i, j :: 0 <= i < j < |entries| ==> entries[i].key != entries[j].key
  }

  lemma {:induction false} PutMembers(entries: seq<Entry>, e: Entry)
    ensures forall x :: x in Put(entries, e) ==> x == e || x in entries
    ensures (forall x :: x in entries ==> x.key != e.key) ==> Put(entries, e) == entries + [e]
  {
    if entries != [] {
      PutMembers(entries[1..], e);
    }
  }

  /** An entry that a written one was read as. */
  predicate ComesFrom(entries: seq<Entry>, x: Entry) {
    exists k :: 0 <= k < |entries| && x == Entry(entries[k].key, EscapeString(entries[k].value)) && !HasTerminator(x.value)
  }

  lemma {:induction false} ReadBackMembers(entries: seq<Entry>)
    ensures forall x :: x in ReadBack(entries) ==> ComesFrom(entries, x)
  {
    if entries != [] {
      var init, last := entries[..|entries| - 1], entries[|entries| - 1];
      var e := Entry(last.key, EscapeString(last.value));
      ReadBackMembers(init);
      PutMembers(ReadBack(init), e);
      forall x | x in ReadBack(entries) ensures ComesFrom(entries, x) {
        if x in ReadBack(init) {
          assert ComesFrom(init, x);
          var k :| 0 <= k < |init| && x == Entry(init[k].key, EscapeString(init[k].value)) && !HasTerminator(x.value);
          assert entries[k] == init[k];
        } else {
          assert x == e && entries[|entries| - 1] == last;
        }
      }
    }
  }

  lemma {:induction false} PlainReadsBack(entries: seq<Entry>)
    requires DistinctKeys(entries) && AllPlain(entries)
    ensures ReadBack(entries) == entries
  {
    if entries != [] {
      var init, last := entries[..|entries| - 1], entries[|entries| - 1];
      PlainReadsBack(init);
      PlainMeansVerbatim(last.value);
      PutMembers(init, last);
      assert entries == init + [last];
    }
  }

  /** Only plain entries can come back as they are. */
  lemma ReadBackIsPlain(entries: seq<Entry>)
    requires DistinctKeys(entries) && ReadBack(entries) == entries
    ensures AllPlain(entries)
  {
    ReadBackMembers(entries);
    forall k | 0 <= k < |entries| ensures IsPlain(entries[k].value) {
      assert entries[k] in ReadBack(entries);
      assert ComesFrom(entries, entries[k]);
      PlainMeansVerbatim(entries[k].value);
    }
  }

  /** Writing entries and reading the file gives the same entries exactly when every
      value is plain: no quote, backslash or control character, which JSON escapes
      and the reader does not unescape, and no other line terminator. */
  lemma RoundTripIff(entries: seq<Entry>)
    requires DistinctKeys(entries) && AllKeys(entries)
    ensures ParseLines(SplitLines(FormatEnvEntries(entries))) == entries <==> AllPlain(entries)
  {
    FileReadsBack(entries);
    if AllPlain(entries) {
      PlainReadsBack(entries);
    } else if ReadBack(entries) == entries {
      ReadBackIsPlain(entries);
    }
  }

  // ---------- repairing the file at every start ----------

  function Lookup(entries: seq<Entry>, key: string): Option<string> {
    if entries == [] then None
    else if entries[|entries| - 1].key == key then Some(entries[|entries| - 1].value)
    else Lookup(entries[..|entries| - 1], key)
  }

  /** The existing entries with the worktree's own settings put in. */
  function Desired(existing: seq<Entry>, settings: seq<Entry>): seq<Entry> {
    if settings == [] then existing
    else Put(Desired(existing, settings[..|settings| - 1]), settings[|settings| - 1])
  }

  /** The file is rewritten when some setting is not what the file says; all other
      desired entries come from the file itself. */
  predicate NeedsRewrite(existing: seq<Entry>, settings: seq<Entry>) {
    exists k :: 0 <= k < |settings| && Lookup(existing, settings[k].key) != Some(settings[k].value)
  }

  lemma {:induction false} PutKeepsShape(entries: seq<Entry>, e: Entry)
    requires DistinctKeys(entries) && AllKeys(entries) && IsKey(e.key)
    ensures DistinctKeys(Put(entries, e)) && AllKeys(Put(entries, e))
  {
    if entries != [] {
      var first, rest := entries[0], entries[1..];
      PutKeepsShape(rest, e);
      PutMembers(rest, e);
      if first.key != e.key {
        var after := Put(rest, e);
        forall j | 0 <= j < |after| ensures after[j].key != first.key {
          assert after[j] in after;
          assert after[j] != e ==> after[j] in rest;
        }
      }
    }
  }

  lemma {:induction false} LookupFromFront(entries: seq<Entry>, key: string)
    requires DistinctKeys(entries) && entries != []
    ensures Lookup(entries, key) == if entries[0].key == key then Some(entries[0].value) else Lookup(entries[1..], key)
  {
    if |entries| > 1 {
      LookupFromFront(entries[..|entries| - 1], key);
      assert entries[..|entries| - 1][1..] == entries[1..][..|entries| - 2];
    }
  }

  lemma {:induction false} LookupPut(entries: seq<Entry>, e: Entry, key: string)
    requires DistinctKeys(entries) && AllKeys(entries) && IsKey(e.key)
    ensures Lookup(Put(entries, e), key) == if key == e.key then Some(e.value) else Lookup(entries, key)
  {
    PutKeepsShape(entries, e);
    LookupFromFront(Put(entries, e), key);
    if entries != [] {
      LookupFromFront(entries, key);
      if entries[0].key != e.key {
        LookupPut(entries[1..], e, key);
        assert Put(entries, e)[1..] == Put(entries[1..], e);
      } else {
        assert Put(entries, e)[1..] == entries[1..];
      }
    }
  }

  lemma {:induction false} DesiredHoldsSettings(existing: seq<Entry>, settings: seq<Entry>)
    requires DistinctKeys(existing) && AllKeys(existing) && DistinctKeys(settings) && AllKeys(settings)
    ensures DistinctKeys(Desired(existing, settings)) && AllKeys(Desired(existing, settings))
    ensures forall k :: 0 <= k < |settings| ==> Lookup(Desired(existing, settings), settings[k].key) == Some(settings[k].value)
  {
    if settings != [] {
      var init, last := settings[..|settings| - 1], settings[|settings| - 1];
      DesiredHoldsSettings(existing, init);
      PutKeepsShape(Desired(existing, init), last);
      forall k | 0 <= k < |settings| ensures Lookup(Desired(existing, settings), settings[k].key) == Some(settings[k].value) {
        LookupPut(Desired(existing, init), last, settings[k].key);
        assert k < |init| ==> settings[k] == init[k];
      }
    }
  }

  lemma {:induction false} ReadBackShape(entries: seq<Entry>)
    requires DistinctKeys(entries) && AllKeys(entries)
    ensures DistinctKeys(ReadBack(entries)) && AllKeys(ReadBack(entries))
  {
    if entries != [] {
      var last := entries[|entries| - 1];
      ReadBackShape(entries[..|entries| - 1]);
      PutKeepsShape(ReadBack(entries[..|entries| - 1]), Entry(last.key, EscapeString(last.value)));
    }
  }

  lemma {:induction false} LookupReadBack(entries: seq<Entry>, key: string, value: string)
    requires DistinctKeys(entries) && AllKeys(entries) && Lookup(entries, key) == Some(value)
    ensures Lookup(ReadBack(entries), key) == Some(value) <==> IsPlain(value)
  {
    var init, last := entries[..|entries| - 1], entries[|entries| - 1];
    var e := Entry(last.key, EscapeString(last.value));
    ReadBackShape(init);
    LookupPut(ReadBack(init), e, key);
    if last.key == key {
      PlainMeansVerbatim(value);
      ReadBackMembers(init);
      AbsentKey(ReadBack(init), init, key);
    } else {
      LookupReadBack(init, key, value);
    }
  }

  lemma {:induction false} AbsentKey(found: seq<Entry>, entries: seq<Entry>, key: string)
    requires forall x :: x in found ==> ComesFrom(entries, x)
    requires forall k :: 0 <= k < |entries| ==> entries[k].key != key
    ensures Lookup(found, key).None?
  {
    if found != [] {
      assert found[|found| - 1] in found;
      AbsentKey(found[..|found| - 1], entries, key);
    }
  }

  /** One rewrite settles the environment file exactly when every setting is plain;
      otherwise - a path with a backslash, say - every start rewrites it again. */
  lemma RewriteSettlesIff(existing: seq<Entry>, settings: seq<Entry>)
    requires DistinctKeys(existing) && AllKeys(existing) && DistinctKeys(settings) && AllKeys(settings)
    ensures var file := FormatEnvEntries(Desired(existing, settings));
            !NeedsRewrite(ParseLines(SplitLines(file)), settings) <==> AllPlain(settings)
  {
    var desired := Desired(existing, settings);
    DesiredHoldsSettings(existing, settings);
    FileReadsBack(desired);
    forall k | 0 <= k < |settings|
      ensures Lookup(ReadBack(desired), settings[k].key) == Some(settings[k].value) <==> IsPlain(settings[k].value)
    {
      LookupReadBack(desired, settings[k].key, settings[k].value);
    }
  }

  /** A path with a backslash comes back with two: the reader takes the quotes off and leaves the escapes. */
  lemma BackslashDoesNotReadBack()
    ensures var entries := [Entry("PAPERCLIP_CONFIG", "C:\\x")];
      && ParseLines(SplitLines(FormatEnvEntries(entries))) == [Entry("PAPERCLIP_CONFIG", "C:\\\\x")]
      && NeedsRewrite(ParseLines(SplitLines(FormatEnvEntries(Desired([], entries)))), entries)
  {
    var key, value := "PAPERCLIP_CONFIG", "C:\\x";
    var e := Entry(key, value);
    assert IsKey(key);
    assert [e][..0] == [] && Desired([], [e]) == [e];
    FileReadsBack([e]);
    EscapedPath();
    assert ReadBack([e]) == Put([], Entry(key, "C:\\\\x"));
    RewriteSettlesIff([], [e]);
    assert EscapeChar(value[2]) != [value[2]];
  }

  lemma EscapedPath()
    ensures EscapeString("C:\\x") == "C:\\\\x"
  {
    var s := "C:\\x";
    assert s[1..] == ":\\x" && s[1..][1..] == "\\x" && s[1..][1..][1..] == "x" && s[1..][1..][1..][1..] == "";
    assert EscapeString("x") == "x";
    assert EscapeString("\\x") == "\\\\x";
    assert EscapeString(":\\x") == ":\\\\x";
  }
}
