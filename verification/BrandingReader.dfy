/** A reader for the generated tags: what a browser finds in a branded block. */
module BrandingReader {
  import opened Common
  import opened Branding

  datatype Element = Element(kind: string, attributes: seq<Attribute>)

  // ---------- entities ----------

  function Unescape(s: string): string {
    if s == [] then []
    else if "&amp;" <= s then "&" + Unescape(s[5..])
    else if "&quot;" <= s then "\"" + Unescape(s[6..])
    else if "&lt;" <= s then "<" + Unescape(s[4..])
    else if "&gt;" <= s then ">" + Unescape(s[4..])
    else [s[0]] + Unescape(s[1..])
  }

  function Entity(c: char): string {
    match c
    case '&' => "&amp;"
    case '"' => "&quot;"
    case '<' => "&lt;"
    case '>' => "&gt;"
    case _ => [c]
  }

  lemma {:induction false} ReplaceConcat(s: string, t: string, c: char, entity: string)
    ensures ReplaceChar(s + t, c, entity) == ReplaceChar(s, c, entity) + ReplaceChar(t, c, entity)
  {
    if s == [] {
      assert s + t == t;
    } else {
      assert (s + t)[1..] == s[1..] + t;
      ReplaceConcat(s[1..], t, c, entity);
    }
  }

  lemma {:induction false} ReplaceNone(s: string, c: char, entity: string)
    requires c !in s
    ensures ReplaceChar(s, c, entity) == s
  {
    if s != [] {
      ReplaceNone(s[1..], c, entity);
    }
  }

  lemma EscapeConcat(s: string, t: string)
    ensures EscapeHtmlAttribute(s + t) == EscapeHtmlAttribute(s) + EscapeHtmlAttribute(t)
  {
    var s1, t1 := ReplaceChar(s, '&', "&amp;"), ReplaceChar(t, '&', "&amp;");
    var s2, t2 := ReplaceChar(s1, '"', "&quot;"), ReplaceChar(t1, '"', "&quot;");
    var s3, t3 := ReplaceChar(s2, '<', "&lt;"), ReplaceChar(t2, '<', "&lt;");
    ReplaceConcat(s, t, '&', "&amp;");
    ReplaceConcat(s1, t1, '"', "&quot;");
    ReplaceConcat(s2, t2, '<', "&lt;");
    ReplaceConcat(s3, t3, '>', "&gt;");
  }

  lemma ReplaceOne(c: char, d: char, entity: string)
    ensures ReplaceChar([c], d, entity) == if c == d then entity else [c]
  {
    assert [c][1..] == [];
  }

  lemma EscapeOne(c: char)
    ensures EscapeHtmlAttribute([c]) == Entity(c)
  {
    match c
    case '&' => EscapeAmpersand();
    case '"' => EscapeQuote();
    case '<' => EscapeLess();
    case '>' => EscapeGreater();
    case _ => PlainEscapes([c]);
  }

  lemma LaterSteps(s: string)
    requires '"' !in s && '<' !in s && '>' !in s
    ensures ReplaceChar(s, '"', "&quot;") == s && ReplaceChar(s, '<', "&lt;") == s && ReplaceChar(s, '>', "&gt;") == s
  {
    ReplaceNone(s, '"', "&quot;");
    ReplaceNone(s, '<', "&lt;");
    ReplaceNone(s, '>', "&gt;");
  }

  lemma EscapeChain(s: string, a: string, b: string, c: string, d: string)
    requires ReplaceChar(s, '&', "&amp;") == a && ReplaceChar(a, '"', "&quot;") == b
    requires ReplaceChar(b, '<', "&lt;") == c && ReplaceChar(c, '>', "&gt;") == d
    ensures EscapeHtmlAttribute(s) == d
  {
  }

  lemma EscapeAmpersand()
    ensures EscapeHtmlAttribute(['&']) == "&amp;"
  {
    ReplaceOne('&', '&', "&amp;");
    LaterSteps("&amp;");
    EscapeChain(['&'], "&amp;", "&amp;", "&amp;", "&amp;");
  }

  lemma EscapeQuote()
    ensures EscapeHtmlAttribute(['"']) == "&quot;"
  {
    ReplaceOne('"', '&', "&amp;");
    ReplaceOne('"', '"', "&quot;");
    LaterSteps("&quot;");
    EscapeChain(['"'], ['"'], "&quot;", "&quot;", "&quot;");
  }

  lemma EscapeLess()
    ensures EscapeHtmlAttribute(['<']) == "&lt;"
  {
    ReplaceOne('<', '&', "&amp;");
    ReplaceOne('<', '"', "&quot;");
    ReplaceOne('<', '<', "&lt;");
    LaterSteps("&lt;");
    EscapeChain(['<'], ['<'], ['<'], "&lt;", "&lt;");
  }

  lemma EscapeGreater()
    ensures EscapeHtmlAttribute(['>']) == "&gt;"
  {
    ReplaceOne('>', '&', "&amp;");
    ReplaceOne('>', '"', "&quot;");
    ReplaceOne('>', '<', "&lt;");
    ReplaceOne('>', '>', "&gt;");
    EscapeChain(['>'], ['>'], ['>'], ['>'], "&gt;");
  }

  lemma EscapeFromFront(s: string)
    requires s != []
    ensures EscapeHtmlAttribute(s) == Entity(s[0]) + EscapeHtmlAttribute(s[1..])
  {
    assert s == [s[0]] + s[1..];
    EscapeConcat([s[0]], s[1..]);
    EscapeOne(s[0]);
  }

  lemma UnescapeEntity(c: char, rest: string)
    ensures Unescape(Entity(c) + rest) == [c] + Unescape(rest)
  {
    var s := Entity(c) + rest;
    assert s[|Entity(c)|..] == rest;
    assert c != '&' && c != '"' && c != '<' && c != '>' ==> s[0] != '&';
    assert c == '"' ==> s[1] == 'q';
    assert c == '<' ==> s[1] == 'l';
    assert c == '>' ==> s[1] == 'g';
  }

  /** Escaping loses nothing. */
  lemma {:induction false} EscapedReadsBack(value: string)
    ensures Unescape(EscapeHtmlAttribute(value)) == value
  {
    if value != [] {
      EscapeFromFront(value);
      EscapedReadsBack(value[1..]);
      UnescapeEntity(value[0], EscapeHtmlAttribute(value[1..]));
    }
  }

  lemma {:induction false} PlainReadsBack(s: string)
    requires '&' !in s
    ensures Unescape(s) == s
  {
    if s != [] {
      PlainReadsBack(s[1..]);
      assert s[0] in s;
    }
  }

  // ---------- indentation ----------

  lemma {:induction false} IndentConcat(s: string, t: string)
    ensures IndentRest(s + t) == IndentRest(s) + IndentRest(t)
  {
    if s == [] {
      assert s + t == t;
    } else {
      assert (s + t)[1..] == s[1..] + t;
      IndentConcat(s[1..], t);
    }
  }

  /** Exactly a text with a line feed is changed by the indentation. */
  lemma {:induction false} IndentKeepsIff(s: string)
    ensures |IndentRest(s)| >= |s|
    ensures IndentRest(s) == s <==> '\n' !in s
  {
    if s != [] {
      IndentKeepsIff(s[1..]);
      if s[0] == '\n' {
        assert |IndentRest(s)| > |s|;
      } else {
        assert IndentRest(s)[1..] == IndentRest(s[1..]);
      }
    }
  }

  lemma IndentEntity(c: char)
    ensures IndentRest(Entity(c)) == if c == '\n' then "\n    " else Entity(c)
  {
    if c == '\n' {
      assert Entity(c) == [c] && [c][1..] == [];
    } else {
      IndentKeepsIff(Entity(c));
    }
  }

  lemma {:induction false} IndentEscaped(value: string)
    ensures IndentRest(EscapeHtmlAttribute(value)) == EscapeHtmlAttribute(IndentRest(value))
  {
    if value != [] {
      EscapeFromFront(value);
      IndentConcat(Entity(value[0]), EscapeHtmlAttribute(value[1..]));
      IndentEntity(value[0]);
      IndentEscaped(value[1..]);
      var head := if value[0] == '\n' then "\n    " else [value[0]];
      EscapeConcat(head, IndentRest(value[1..]));
      if value[0] == '\n' {
        PlainEscapes("\n    ");
      } else {
        EscapeOne(value[0]);
      }
    }
  }

  lemma PlainEscapes(s: string)
    requires '&' !in s && '"' !in s && '<' !in s && '>' !in s
    ensures EscapeHtmlAttribute(s) == s
  {
    ReplaceNone(s, '&', "&amp;");
    ReplaceNone(s, '"', "&quot;");
    ReplaceNone(s, '<', "&lt;");
    ReplaceNone(s, '>', "&gt;");
  }

  // ---------- attributes ----------

  function ReadAttributes(s: string): (r: Option<(seq<Attribute>, string)>)
    ensures r.Some? ==> |r.value.1| < |s|
    decreases |s|
  {
    if |s| < 3 || s[0] != ' ' then None
    else if s[1] == '/' && s[2] == '>' then Some(([], s[3..]))
    else
      var name := UpTo(s[1..], '=');
      if 3 + |name| > |s| || s[1 + |name|] != '=' || s[2 + |name|] != '"' then None
      else
        var rest := s[3 + |name|..];
        var value := UpTo(rest, '"');
        if |value| >= |rest| then None
        else
          match ReadAttributes(rest[|value| + 1..])
          case None => None
          case Some((more, tail)) => Some(([Attribute(name, Unescape(value))] + more, tail))
  }

  predicate IsName(s: string) {
    s != [] && s[0] != '/' && '=' !in s && '\n' !in s
  }

  predicate AreReadable(attributes: seq<Attribute>) {
    forall x :: x in attributes ==> IsName(x.name) && '"' !in x.value
  }

  function Rendered(x: Attribute): string {
    " " + x.name + "=\"" + x.value + "\""
  }

  lemma AttributesLast(init: seq<Attribute>, last: Attribute)
    ensures Attributes(init + [last]) == Attributes(init) + Rendered(last)
  {
    assert (init + [last])[..|init|] == init;
  }

  lemma {:induction false} AttributesFromFront(attributes: seq<Attribute>)
    requires attributes != []
    ensures Attributes(attributes) == Rendered(attributes[0]) + Attributes(attributes[1..])
  {
    var n := |attributes| - 1;
    var init, last := attributes[..n], attributes[n];
    assert attributes == init + [last];
    AttributesLast(init, last);
    if n > 0 {
      AttributesFromFront(init);
      AttributesLast(init[1..], last);
      assert attributes[1..] == init[1..] + [last] && attributes[0] == init[0];
    } else {
      assert Attributes(init) == "" && attributes[1..] == init;
    }
  }

  function Unescaped(attributes: seq<Attribute>): (r: seq<Attribute>)
    ensures |r| == |attributes|
    ensures forall k :: 0 <= k < |r| ==> r[k] == Attribute(attributes[k].name, Unescape(attributes[k].value))
  {
    seq(|attributes|, k requires 0 <= k < |attributes| => Attribute(attributes[k].name, Unescape(attributes[k].value)))
  }

  lemma RenderedThen(x: Attribute, rest: string)
    ensures Rendered(x) + rest == " " + (x.name + ("=\"" + (x.value + ("\"" + rest))))
  {
  }

  /** A text that starts like this: where its name ends, and where its value does. */
  lemma AttributeParts(name: string, value: string, rest: string)
    requires '=' !in name && '"' !in value
    ensures var s := " " + (name + ("=\"" + (value + ("\"" + rest))));
      && s[1..] == name + ("=\"" + (value + ("\"" + rest))) && UpTo(s[1..], '=') == name
      && |s| >= 3 + |name| && s[1 + |name|] == '=' && s[2 + |name|] == '"'
      && s[3 + |name|..] == value + ("\"" + rest) && UpTo(s[3 + |name|..], '"') == value
      && s[3 + |name|..][|value| + 1..] == rest
  {
    var s := " " + (name + ("=\"" + (value + ("\"" + rest))));
    var t, u := "\"" + (value + ("\"" + rest)), value + ("\"" + rest);
    assert s[1..] == name + ['='] + t;
    UpToSeparator(name, '=', t);
    assert u == value + ['"'] + rest;
    UpToSeparator(value, '"', rest);
    assert s[3 + |name|..] == u;
  }

  lemma NextAttribute(s: string, name: string, value: string, rest: string, more: seq<Attribute>, tail: string)
    requires |s| >= 3 + |name| && s[0] == ' ' && s[1] != '/' && UpTo(s[1..], '=') == name
    requires s[1 + |name|] == '=' && s[2 + |name|] == '"'
    requires UpTo(s[3 + |name|..], '"') == value && 3 + |name| + |value| < |s| && s[3 + |name|..][|value| + 1..] == rest
    requires ReadAttributes(rest) == Some((more, tail))
    ensures ReadAttributes(s) == Some(([Attribute(name, Unescape(value))] + more, tail))
  {
  }

  lemma OneAttributeReadsBack(x: Attribute, rest: string, more: seq<Attribute>, tail: string)
    requires IsName(x.name) && '"' !in x.value && ReadAttributes(rest) == Some((more, tail))
    ensures ReadAttributes(Rendered(x) + rest) == Some(([Attribute(x.name, Unescape(x.value))] + more, tail))
  {
    RenderedThen(x, rest);
    AttributeParts(x.name, x.value, rest);
    var s := " " + (x.name + ("=\"" + (x.value + ("\"" + rest))));
    assert s[1] == x.name[0];
    NextAttribute(s, x.name, x.value, rest, more, tail);
  }

  lemma TagEnds(tail: string)
    ensures ReadAttributes(" />" + tail) == Some(([], tail))
  {
    assert (" />" + tail)[3..] == tail;
  }

  lemma Regroup(a: string, b: string, c: string)
    ensures a + b + c == a + (b + c)
  {
  }

  lemma RenderedFirst(first: Attribute, others: seq<Attribute>, tail: string)
    ensures Attributes([first] + others) + tail == Rendered(first) + (Attributes(others) + tail)
  {
    AttributesFromFront([first] + others);
    assert ([first] + others)[1..] == others;
    Regroup(Rendered(first), Attributes(others), tail);
  }

  lemma UnescapedFirst(first: Attribute, others: seq<Attribute>)
    ensures Unescaped([first] + others) == [Attribute(first.name, Unescape(first.value))] + Unescaped(others)
  {
  }

  lemma OneMoreReadsBack(first: Attribute, others: seq<Attribute>, tail: string)
    requires IsName(first.name) && '"' !in first.value
    requires ReadAttributes(Attributes(others) + (" />" + tail)) == Some((Unescaped(others), tail))
    ensures ReadAttributes(Attributes([first] + others) + (" />" + tail)) == Some((Unescaped([first] + others), tail))
  {
    RenderedFirst(first, others, " />" + tail);
    UnescapedFirst(first, others);
    OneAttributeReadsBack(first, Attributes(others) + (" />" + tail), Unescaped(others), tail);
  }

  lemma {:induction false} AttributesReadBack(attributes: seq<Attribute>, tail: string)
    requires AreReadable(attributes)
    ensures ReadAttributes(Attributes(attributes) + (" />" + tail)) == Some((Unescaped(attributes), tail))
  {
    if attributes == [] {
      TagEnds(tail);
      assert Attributes(attributes) + (" />" + tail) == " />" + tail;
    } else {
      AttributesReadBack(attributes[1..], tail);
      OneMoreReadsBack(attributes[0], attributes[1..], tail);
      assert [attributes[0]] + attributes[1..] == attributes;
    }
  }

  // ---------- tags ----------

  function ReadTag(s: string): (r: Option<(Element, string)>)
    ensures r.Some? ==> |r.value.1| < |s|
  {
    if s == [] || s[0] != '<' then None
    else
      var kind := UpTo(s[1..], ' ');
      if 1 + |kind| > |s| then None
      else
        match ReadAttributes(s[1 + |kind|..])
        case None => None
        case Some((attributes, rest)) => Some((Element(kind, attributes), rest))
  }

  function SkipBlank(s: string): (r: string)
    ensures |r| <= |s|
  {
    if s != [] && (s[0] == ' ' || s[0] == '\n') then SkipBlank(s[1..]) else s
  }

  /** The tags of a block, with blanks between them. */
  function ReadTags(s: string): Option<seq<Element>>
    decreases |s|
  {
    var t := SkipBlank(s);
    if t == [] then Some([])
    else
      match ReadTag(t)
      case None => None
      case Some((first, rest)) =>
        match ReadTags(rest)
        case None => None
        case Some(more) => Some([first] + more)
  }

  lemma {:induction false} AttributesStart(attributes: seq<Attribute>)
    ensures Attributes(attributes) + " />" != [] && (Attributes(attributes) + " />")[0] == ' '
  {
    if attributes != [] {
      AttributesFromFront(attributes);
    }
  }

  lemma TagReadsBack(kind: string, attributes: seq<Attribute>, tail: string)
    requires ' ' !in kind && AreReadable(attributes)
    ensures ReadTag(Tag(kind, attributes) + tail) == Some((Element(kind, Unescaped(attributes)), tail))
  {
    var rest := Attributes(attributes) + (" />" + tail);
    var s := Tag(kind, attributes) + tail;
    assert s == "<" + (kind + rest);
    AttributesStart(attributes);
    assert rest[0] == ' ';
    assert s[1..] == kind + [' '] + rest[1..];
    UpToSeparator(kind, ' ', rest[1..]);
    assert s[1 + |kind|..] == rest;
    AttributesReadBack(attributes, tail);
  }

  // ---------- a block of tags ----------

  function TagOf(e: Element): string {
    Tag(e.kind, e.attributes)
  }

  function TagsOf(elements: seq<Element>): (r: seq<string>)
    ensures |r| == |elements| && forall k :: 0 <= k < |r| ==> r[k] == TagOf(elements[k])
  {
    seq(|elements|, k requires 0 <= k < |elements| => TagOf(elements[k]))
  }

  /** An element that can be read: its kind is a word, its names are names, its values hold no quote. */
  predicate IsReadable(e: Element) {
    ' ' !in e.kind && '\n' !in e.kind && AreReadable(e.attributes)
  }

  function IndentedAttributes(attributes: seq<Attribute>): (r: seq<Attribute>)
    ensures |r| == |attributes|
    ensures forall k :: 0 <= k < |r| ==> r[k] == Attribute(attributes[k].name, IndentRest(attributes[k].value))
  {
    seq(|attributes|, k requires 0 <= k < |attributes| => Attribute(attributes[k].name, IndentRest(attributes[k].value)))
  }

  lemma RenderedIndents(x: Attribute)
    requires '\n' !in x.name
    ensures IndentRest(Rendered(x)) == Rendered(Attribute(x.name, IndentRest(x.value)))
  {
    IndentConcat(" " + x.name + "=\"" + x.value, "\"");
    IndentConcat(" " + x.name + "=\"", x.value);
    IndentKeepsIff(" " + x.name + "=\"");
    IndentKeepsIff("\"");
  }

  lemma {:induction false} AttributesIndent(attributes: seq<Attribute>)
    requires forall x :: x in attributes ==> '\n' !in x.name
    ensures IndentRest(Attributes(attributes)) == Attributes(IndentedAttributes(attributes))
  {
    if attributes != [] {
      AttributesFromFront(attributes);
      RenderedIndents(attributes[0]);
      IndentConcat(Rendered(attributes[0]), Attributes(attributes[1..]));
      AttributesIndent(attributes[1..]);
      var indented := IndentedAttributes(attributes);
      AttributesFromFront(indented);
      assert indented[1..] == IndentedAttributes(attributes[1..]);
    }
  }

  lemma TagIndents(e: Element)
    requires IsReadable(e)
    ensures IndentRest(TagOf(e)) == TagOf(Element(e.kind, IndentedAttributes(e.attributes)))
  {
    IndentConcat("<" + e.kind + Attributes(e.attributes), " />");
    IndentConcat("<" + e.kind, Attributes(e.attributes));
    IndentKeepsIff("<" + e.kind);
    IndentKeepsIff(" />");
    AttributesIndent(e.attributes);
  }

  lemma {:induction false} QuotesStayOut(s: string)
    requires '"' !in s
    ensures '"' !in IndentRest(s)
  {
    if s != [] {
      QuotesStayOut(s[1..]);
      assert s[0] in s;
    }
  }

  lemma IndentedIsReadable(attributes: seq<Attribute>)
    requires AreReadable(attributes)
    ensures AreReadable(IndentedAttributes(attributes))
  {
    var indented := IndentedAttributes(attributes);
    forall x | x in indented ensures IsName(x.name) && '"' !in x.value {
      var k :| 0 <= k < |indented| && indented[k] == x;
      assert attributes[k] in attributes;
      QuotesStayOut(attributes[k].value);
    }
  }

  /** What a reader finds of an element in an indented block. */
  function Found(e: Element): Element {
    Element(e.kind, Unescaped(IndentedAttributes(e.attributes)))
  }

  function AllFound(elements: seq<Element>): (r: seq<Element>)
    ensures |r| == |elements| && forall k :: 0 <= k < |r| ==> r[k] == Found(elements[k])
  {
    seq(|elements|, k requires 0 <= k < |elements| => Found(elements[k]))
  }

  lemma SkipOne(c: char, t: string)
    requires c == ' ' || c == '\n'
    ensures SkipBlank([c] + t) == SkipBlank(t)
  {
    assert ([c] + t)[1..] == t;
  }

  lemma SkipIndentation(t: string)
    ensures SkipBlank("\n    " + t) == SkipBlank(t)
  {
    SkipOne(' ', t);
    SkipOne(' ', [' '] + t);
    SkipOne(' ', [' '] + ([' '] + t));
    SkipOne(' ', [' '] + ([' '] + ([' '] + t)));
    SkipOne('\n', [' '] + ([' '] + ([' '] + ([' '] + t))));
    assert "\n    " + t == ['\n'] + ([' '] + ([' '] + ([' '] + ([' '] + t))));
  }

  lemma FirstTagIsFound(e: Element, rest: string, more: seq<Element>)
    requires IsReadable(e) && ReadTags(rest) == Some(more)
    ensures ReadTags("\n    " + (IndentRest(TagOf(e)) + rest)) == Some([Found(e)] + more)
  {
    TagIndents(e);
    IndentedIsReadable(e.attributes);
    var tag := TagOf(Element(e.kind, IndentedAttributes(e.attributes)));
    TagReadsBack(e.kind, IndentedAttributes(e.attributes), rest);
    assert (tag + rest)[0] == '<';
    SkipIndentation(tag + rest);
    assert SkipBlank(tag + rest) == tag + rest;
  }

  lemma BlankIsNoTag()
    ensures ReadTags("\n    ") == Some([])
  {
    SkipIndentation("");
    assert "\n    " + "" == "\n    ";
  }

  lemma IndentedFirst(first: string, others: seq<string>)
    requires others != []
    ensures IndentRest(Join([first] + others, "\n")) == IndentRest(first) + "\n    " + IndentRest(Join(others, "\n"))
  {
    var all := [first] + others;
    JoinFromFront(all, "\n");
    assert all[1..] == others;
    IndentConcat(first + "\n", Join(others, "\n"));
    IndentConcat(first, "\n");
    assert "\n"[1..] == "" && IndentRest("\n") == "\n    ";
  }

  lemma Nest(x: string, a: string, b: string)
    ensures x + (a + x + b) + x == x + (a + (x + b + x))
  {
  }

  lemma IndentedJoin(first: string, others: seq<string>)
    requires others != []
    ensures "\n    " + IndentRest(Join([first] + others, "\n")) + "\n    "
         == "\n    " + (IndentRest(first) + ("\n    " + IndentRest(Join(others, "\n")) + "\n    "))
  {
    IndentedFirst(first, others);
    Nest("\n    ", IndentRest(first), IndentRest(Join(others, "\n")));
  }

  /** An indented block of these lines. */
  function Block(lines: seq<string>): string {
    "\n    " + IndentRest(Join(lines, "\n")) + "\n    "
  }

  lemma LoneTagIsFound(e: Element)
    requires IsReadable(e)
    ensures ReadTags(Block([TagOf(e)])) == Some([Found(e)])
  {
    BlankIsNoTag();
    FirstTagIsFound(e, "\n    ", []);
    assert Block([TagOf(e)]) == "\n    " + (IndentRest(TagOf(e)) + "\n    ");
    assert [Found(e)] + [] == [Found(e)];
  }

  lemma TagsFirst(e: Element, others: seq<Element>)
    ensures TagsOf([e] + others) == [TagOf(e)] + TagsOf(others)
  {
    var all := [e] + others;
    forall k | 0 <= k < |all| ensures TagsOf(all)[k] == ([TagOf(e)] + TagsOf(others))[k] {
      assert k > 0 ==> all[k] == others[k - 1];
    }
  }

  lemma FoundFirst(e: Element, others: seq<Element>)
    ensures AllFound([e] + others) == [Found(e)] + AllFound(others)
  {
    var all := [e] + others;
    forall k | 0 <= k < |all| ensures AllFound(all)[k] == ([Found(e)] + AllFound(others))[k] {
      assert k > 0 ==> all[k] == others[k - 1];
    }
  }

  lemma OneMoreIsFound(e: Element, others: seq<Element>)
    requires IsReadable(e) && others != [] && ReadTags(Block(TagsOf(others))) == Some(AllFound(others))
    ensures ReadTags(Block(TagsOf([e] + others))) == Some(AllFound([e] + others))
  {
    IndentedJoin(TagOf(e), TagsOf(others));
    FirstTagIsFound(e, Block(TagsOf(others)), AllFound(others));
    TagsFirst(e, others);
    FoundFirst(e, others);
  }

  predicate AreAllReadable(elements: seq<Element>) {
    elements == [] || (IsReadable(elements[0]) && AreAllReadable(elements[1..]))
  }

  /** A reader finds in an indented block exactly its tags, in order, with their values unescaped -
      and with every line feed inside a value indented as well. */
  lemma {:induction false} BlockReadsBack(elements: seq<Element>)
    requires elements != [] && AreAllReadable(elements)
    ensures ReadTags(Block(TagsOf(elements))) == Some(AllFound(elements))
  {
    var first, others := elements[0], elements[1..];
    assert elements == [first] + others;
    if others == [] {
      LoneTagIsFound(first);
      TagsFirst(first, others);
      FoundFirst(first, others);
      assert [TagOf(first)] + TagsOf(others) == [TagOf(first)] && [Found(first)] + AllFound(others) == [Found(first)];
    } else {
      BlockReadsBack(others);
      OneMoreIsFound(first, others);
    }
  }

  // ---------- what a branded page shows ----------

  function Meta(name: string, content: string): Element {
    Element("meta", [Attribute("name", name), Attribute("content", content)])
  }

  /** A name without a character that has a meaning in a tag. */
  predicate IsPlain(name: string) {
    '&' !in name && '"' !in name && '\n' !in name
  }

  lemma MetaIsReadable(name: string, value: string)
    requires IsPlain(name)
    ensures IsReadable(Meta(name, EscapeHtmlAttribute(value)))
  {
    EscapedIsHarmless(value);
  }

  /** A reader of a generated meta tag finds its name and its value, in which line feeds are indented. */
  lemma MetaIsFound(name: string, value: string)
    requires IsPlain(name)
    ensures Found(Meta(name, EscapeHtmlAttribute(value))) == Meta(name, IndentRest(value))
  {
    IndentKeepsIff(name);
    PlainReadsBack(name);
    IndentEscaped(value);
    EscapedReadsBack(IndentRest(value));
    var indented := IndentedAttributes(Meta(name, EscapeHtmlAttribute(value)).attributes);
    assert Unescaped(indented) == [Attribute("name", name), Attribute("content", IndentRest(value))];
  }

  lemma FourAreReadable(a: Element, b: Element, c: Element, d: Element)
    requires IsReadable(a) && IsReadable(b) && IsReadable(c) && IsReadable(d)
    ensures AreAllReadable([a, b, c, d])
    ensures TagsOf([a, b, c, d]) == [TagOf(a), TagOf(b), TagOf(c), TagOf(d)]
    ensures AllFound([a, b, c, d]) == [Found(a), Found(b), Found(c), Found(d)]
  {
    assert [a, b, c, d][1..] == [b, c, d] && [b, c, d][1..] == [c, d] && [c, d][1..] == [d] && [d][1..] == [];
    assert AreAllReadable([d]) && AreAllReadable([c, d]);
  }

  /** A reader finds this value in a tag that was written with that one. */
  predicate IsShownAs(name: string, written: string, value: string) {
    IsReadable(Meta(name, written)) && Found(Meta(name, written)) == Meta(name, value)
  }

  lemma EscapedIsShown(name: string, value: string)
    requires IsPlain(name)
    ensures IsShownAs(name, EscapeHtmlAttribute(value), IndentRest(value))
  {
    MetaIsReadable(name, value);
    MetaIsFound(name, value);
  }

  /** Four of them in a block. */
  lemma FourAreFound(n: string, e: string, v: string, n1: string, e1: string, v1: string,
                     n2: string, e2: string, v2: string, n3: string, e3: string, v3: string)
    requires IsShownAs(n, e, v) && IsShownAs(n1, e1, v1) && IsShownAs(n2, e2, v2) && IsShownAs(n3, e3, v3)
    ensures ReadTags(Block([MetaTag(n, e), MetaTag(n1, e1), MetaTag(n2, e2), MetaTag(n3, e3)]))
         == Some([Meta(n, v), Meta(n1, v1), Meta(n2, v2), Meta(n3, v3)])
  {
    FourAreReadable(Meta(n, e), Meta(n1, e1), Meta(n2, e2), Meta(n3, e3));
    BlockReadsBack([Meta(n, e), Meta(n1, e1), Meta(n2, e2), Meta(n3, e3)]);
  }

  const ENABLED := "paperclip-worktree-enabled"
  const NAME := "paperclip-worktree-name"
  const COLOR := "paperclip-worktree-color"
  const TEXT_COLOR := "paperclip-worktree-text-color"

  lemma NamesArePlain()
    ensures IsPlain(ENABLED) && IsPlain(NAME) && IsPlain(COLOR) && IsPlain(TEXT_COLOR)
  {
  }

  predicate IsBranded(b: Branding) {
    b.enabled && IsSet(b.name) && IsSet(b.color) && IsSet(b.textColor)
  }

  lemma AllAreShown(name: string, color: string, textColor: string)
    ensures IsShownAs(ENABLED, "true", "true") && IsShownAs(NAME, EscapeHtmlAttribute(name), IndentRest(name))
    ensures IsShownAs(COLOR, EscapeHtmlAttribute(color), IndentRest(color))
    ensures IsShownAs(TEXT_COLOR, EscapeHtmlAttribute(textColor), IndentRest(textColor))
  {
    NamesArePlain();
    EscapedIsShown(NAME, name);
    EscapedIsShown(COLOR, color);
    EscapedIsShown(TEXT_COLOR, textColor);
    PlainIsShown(ENABLED, "true");
  }

  lemma PlainIsShown(name: string, value: string)
    requires IsPlain(name) && '&' !in value && '"' !in value && '<' !in value && '>' !in value && '\n' !in value
    ensures IsShownAs(name, value, value)
  {
    EscapedIsShown(name, value);
    PlainEscapes(value);
    IndentKeepsIff(value);
  }

  lemma BrandedBlock(b: Branding)
    requires IsBranded(b)
    ensures ReadTags(Indented(RenderRuntimeBrandingMeta(b))) == Some([
      Meta(ENABLED, "true"), Meta(NAME, IndentRest(b.name.value)),
      Meta(COLOR, IndentRest(b.color.value)), Meta(TEXT_COLOR, IndentRest(b.textColor.value))])
  {
    var name, color, textColor := b.name.value, b.color.value, b.textColor.value;
    AllAreShown(name, color, textColor);
    FourAreFound(ENABLED, "true", "true", NAME, EscapeHtmlAttribute(name), IndentRest(name),
                 COLOR, EscapeHtmlAttribute(color), IndentRest(color),
                 TEXT_COLOR, EscapeHtmlAttribute(textColor), IndentRest(textColor));
    BlockOfMeta(b);
  }

  lemma BlockOfMeta(b: Branding)
    requires IsBranded(b)
    ensures Indented(RenderRuntimeBrandingMeta(b)) == Block([
      MetaTag(ENABLED, "true"), MetaTag(NAME, EscapeHtmlAttribute(b.name.value)),
      MetaTag(COLOR, EscapeHtmlAttribute(b.color.value)), MetaTag(TEXT_COLOR, EscapeHtmlAttribute(b.textColor.value))])
  {
  }

  /** In the block of a branded page a reader finds that it is a worktree, its name, its color and its
      text color, each under its own name; without one of them the block is empty. */
  lemma MetaReadsBack(b: Branding)
    ensures ReadTags(Indented(RenderRuntimeBrandingMeta(b))) == Some(
      if b.enabled && IsSet(b.name) && IsSet(b.color) && IsSet(b.textColor) then [
        Meta("paperclip-worktree-enabled", "true"),
        Meta("paperclip-worktree-name", IndentRest(b.name.value)),
        Meta("paperclip-worktree-color", IndentRest(b.color.value)),
        Meta("paperclip-worktree-text-color", IndentRest(b.textColor.value))]
      else [])
  {
    if IsBranded(b) {
      BrandedBlock(b);
    } else {
      BlankIsNoTag();
    }
  }

  // ---------- the page ----------

  /** A page with the markers in order shows the branding between them, and is otherwise as the icon
      block left it. */
  lemma PageShowsBranding(html: string, b: Branding) returns (before: string, gap: string, after: string)
    requires var page := ReplaceMarkedBlock(html, FAVICON_START, FAVICON_END, RenderFaviconLinks(b));
      0 <= IndexOf(page, RUNTIME_START) <= IndexOf(page, RUNTIME_END)
    ensures ReplaceMarkedBlock(html, FAVICON_START, FAVICON_END, RenderFaviconLinks(b)) == before + gap + after
    ensures var page, block := ApplyUiBranding(html, b), Indented(RenderRuntimeBrandingMeta(b));
      && page == before + block + after
      && IndexOf(page, RUNTIME_START) == |before| - |RUNTIME_START| && IndexOf(page, RUNTIME_END) == |before| + |block|
      && ReadTags(block).Some?
  {
    BlocksAreSeparate();
    MetaIsHarmless(b);
    before, gap, after := ReplacedBlock(
      ReplaceMarkedBlock(html, FAVICON_START, FAVICON_END, RenderFaviconLinks(b)),
      RUNTIME_START, RUNTIME_END, RenderRuntimeBrandingMeta(b));
    MetaReadsBack(b);
  }
}
