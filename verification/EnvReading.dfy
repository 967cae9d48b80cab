/** How single lines of a hand-written environment file are read. */
module EnvReading {
  import opened Common
  import opened EnvFile

  /** A value that stands by itself: no quote, hash sign or white space in it. */
  predicate IsWord(value: string) {
    value != [] && forall i :: 0 <= i < |value| ==> !IsJsSpace(value[i]) && !IsLineTerminator(value[i]) && value[i] !in "\"'#"
  }

  lemma {:induction false} NoCommentInside(s: string)
    requires forall i :: 0 <= i < |s| ==> s[i] != '#'
    ensures CutComment(s) == s
  {
    if s != [] {
      if IsJsSpace(s[0]) {
        SkippedIsSuffix(s);
      }
      NoCommentInside(s[1..]);
    }
  }

  lemma {:induction false} SkippedIsSuffix(s: string)
    ensures |SkipSpace(s)| <= |s| && SkipSpace(s) == s[|s| - |SkipSpace(s)|..]
  {
    if s != [] && IsJsSpace(s[0]) {
      SkippedIsSuffix(s[1..]);
    }
  }

  /** A word is read as it is. */
  lemma WordIsRead(value: string)
    requires IsWord(value)
    ensures ReadValue(value) == value && SkipSpace(value) == value && DotPrefix(value) == value
  {
    NoCommentInside(value);
    DotPrefixIs(value);
    assert Trim(value) == value;
  }

  lemma {:induction false} CommentIsCut(value: string, comment: string)
    requires IsWord(value) || value == []
    ensures CutComment(value + (" #" + comment)) == value
  {
    var s := value + (" #" + comment);
    if value == [] {
      assert s == " #" + comment && s[1..] == "#" + comment;
      assert SkipSpace(s) == SkipSpace(s[1..]) == s[1..];
    } else {
      assert s[1..] == value[1..] + (" #" + comment);
      assert forall i :: 0 <= i < |value[1..]| ==> value[1..][i] == value[i + 1];
      CommentIsCut(value[1..], comment);
      assert !IsJsSpace(s[0]);
    }
  }

  /** What stands behind a space and a hash sign is no part of an unquoted value. */
  lemma CommentedWordIsRead(value: string, comment: string)
    requires IsWord(value) && comment != [] && !IsJsSpace(comment[|comment| - 1])
    ensures ReadValue(value + (" #" + comment)) == value
  {
    var s := value + (" #" + comment);
    assert s[0] == value[0] && s[|s| - 1] == comment[|comment| - 1];
    TrimmedAlready(s);
    CommentIsCut(value, comment);
    WordIsRead(value);
    assert !IsQuoted(s, '"') && !IsQuoted(s, '\'');
  }

  /** Quotes of one kind around a value are taken off, and nothing else is changed in between. */
  lemma QuotedIsRead(value: string, quote: char)
    requires quote == '"' || quote == '\''
    ensures ReadValue([quote] + value + [quote]) == value
  {
    var s := [quote] + value + [quote];
    assert s[0] == quote && s[|s| - 1] == quote;
    TrimmedAlready(s);
    assert s[1..|s| - 1] == value;
  }

  /** An assignment of a word. */
  lemma AssignmentOfWord(key: string, value: string)
    requires IsKey(key) && IsWord(value)
    ensures MatchAssignment(key + ("=" + value)) == Some(Entry(key, value))
  {
    WordIsRead(value);
    MatchAfterKey(key, value);
    assert value[|value|..] == [];
  }

  /** A line that starts with "export" and a space is read as what follows. */
  lemma ExportedLine(rest: string)
    requires rest != [] && !IsJsSpace(rest[0]) && !IsJsSpace(rest[|rest| - 1]) && MatchAssignment(rest).Some?
    ensures ParseLine("export" + ([' '] + rest)) == MatchAssignment(rest)
  {
    var line := "export" + ([' '] + rest);
    assert line[0] == 'e' && line[|line| - 1] == rest[|rest| - 1];
    TrimmedAlready(line);
    assert ParseLine(line) == MatchLine(line);
    assert line[6] == ' ' && line[6..] == [' '] + rest && ([' '] + rest)[1..] == rest;
    assert SkipSpace(line[6..]) == SkipSpace(rest) == rest;
  }

  lemma AssignmentEnds(key: string, value: string)
    requires IsKey(key) && IsWord(value)
    ensures var a := key + ("=" + value); a != [] && !IsJsSpace(a[0]) && !IsJsSpace(a[|a| - 1])
  {
    var a := key + ("=" + value);
    assert a[0] == key[0] && a[|a| - 1] == value[|value| - 1];
  }

  /** "export" before an assignment makes no difference. */
  lemma ExportMakesNoDifference(key: string, value: string, assignment: string)
    requires IsKey(key) && IsWord(value) && assignment == key + ("=" + value)
    ensures ParseLine("export" + ([' '] + assignment)) == Some(Entry(key, value))
  {
    AssignmentOfWord(key, value);
    AssignmentEnds(key, value);
    ExportedLine(assignment);
  }

  /** Comments and blank lines say nothing. */
  lemma CommentSaysNothing(comment: string, blank: string)
    requires forall i :: 0 <= i < |blank| ==> IsJsSpace(blank[i])
    ensures ParseLine("#" + comment) == None && ParseLine(blank) == None
  {
    BlankIsSkipped(blank);
    var s := "#" + comment;
    assert SkipSpace(s) == s;
    DropKeepsFirst(s);
  }

  lemma {:induction false} BlankIsSkipped(blank: string)
    requires forall i :: 0 <= i < |blank| ==> IsJsSpace(blank[i])
    ensures SkipSpace(blank) == []
  {
    if blank != [] {
      BlankIsSkipped(blank[1..]);
    }
  }

  lemma {:induction false} DropKeepsFirst(s: string)
    requires s != [] && !IsJsSpace(s[0])
    ensures DropSpace(s) != [] && DropSpace(s)[0] == s[0]
  {
    if IsJsSpace(s[|s| - 1]) {
      DropKeepsFirst(s[..|s| - 1]);
    }
  }

  // ---------- what is written ----------

  /** The values that survive: no quote, backslash, control character or line separator. */
  lemma PlainIff(value: string)
    ensures IsPlain(value) <==> forall i :: 0 <= i < |value| ==>
      value[i] != '"' && value[i] != '\\' && value[i] >= ' ' && value[i] != '\U{2028}' && value[i] != '\U{2029}'
  {
    forall i | 0 <= i < |value|
      ensures EscapeChar(value[i]) == [value[i]] && !IsLineTerminator(value[i]) <==>
        value[i] != '"' && value[i] != '\\' && value[i] >= ' ' && value[i] != '\U{2028}' && value[i] != '\U{2029}'
    {
      EscapesIff(value[i]);
    }
  }

  lemma EscapesIff(c: char)
    ensures EscapeChar(c) == [c] <==> c != '"' && c != '\\' && c >= ' '
    ensures EscapeChar(c) != [c] ==> EscapeChar(c)[0] == '\\'
  {
  }

  function HexValue(c: char): int {
    if '0' <= c <= '9' then c as int - '0' as int else c as int - 'a' as int + 10
  }

  /** A JSON reader takes an escape for the character it was written for. */
  lemma EscapesReadBack(c: char)
    requires EscapeChar(c) != [c]
    ensures var e := EscapeChar(c);
      || (|e| == 2 && c == (match e[1]
            case 'n' => '\n' case 'r' => '\r' case 't' => '\t'
            case 'b' => '\U{0008}' case 'f' => '\U{000C}' case other => other))
      || (|e| == 6 && e[1] == 'u' && e[2] == '0' && e[3] == '0' && c as int == 16 * HexValue(e[4]) + HexValue(e[5]))
  {
    EscapesIff(c);
    if |EscapeChar(c)| > 2 {
      HexReadsBack(c as int / 16);
      HexReadsBack(c as int % 16);
      var e := EscapeChar(c);
      assert e == "\\u00" + [HexDigit(c as int / 16), HexDigit(c as int % 16)];
      assert e[1] == 'u' && e[2] == '0' && e[3] == '0' && e[4] == HexDigit(c as int / 16) && e[5] == HexDigit(c as int % 16);
    }
  }

  lemma HexReadsBack(n: nat)
    requires n < 16
    ensures HexValue(HexDigit(n)) == n
  {
    assert n in [0, 1, 2, 3, 4, 5, 6, 7, 8, 9, 10, 11, 12, 13, 14, 15];
  }

  // ---------- several lines ----------

  function Lookup(entries: seq<Entry>, key: string): Option<string> {
    if entries == [] then None
    else if entries[0].key == key then Some(entries[0].value)
    else Lookup(entries[1..], key)
  }

  /** The last line that sets a key decides, and leaves all other keys alone. */
  lemma {:induction false} LastSettingDecides(entries: seq<Entry>, e: Entry, key: string)
    ensures Lookup(Put(entries, e), key) == if key == e.key then Some(e.value) else Lookup(entries, key)
  {
    if entries != [] && entries[0].key != e.key {
      LastSettingDecides(entries[1..], e, key);
      assert Put(entries, e)[1..] == Put(entries[1..], e);
    } else if entries != [] {
      assert Put(entries, e)[1..] == entries[1..];
    }
  }
}
