/** Worktree branding of the served HTML page: two marked blocks are replaced by
    generated content. */
module Branding {
  import opened Common

  const FAVICON_START := "<!-- PAPERCLIP_FAVICON_START -->"
  const FAVICON_END := "<!-- PAPERCLIP_FAVICON_END -->"
  const RUNTIME_START := "<!-- PAPERCLIP_RUNTIME_BRANDING_START -->"
  const RUNTIME_END := "<!-- PAPERCLIP_RUNTIME_BRANDING_END -->"

  // ---------- searching ----------

  predicate At(s: string, m: string, i: int) {
    0 <= i && i + |m| <= |s| && s[i..i + |m|] == m
  }

  function IndexFrom(s: string, m: string, from: nat): (r: int)
    requires from <= |s|
    ensures r == -1 || (from <= r && At(s, m, r))
    ensures forall i :: from <= i && At(s, m, i) ==> r != -1 && r <= i
    decreases |s| - from
  {
    if At(s, m, from) then from
    else if from == |s| then -1
    else IndexFrom(s, m, from + 1)
  }

  /** The first occurrence, or -1. */
  function IndexOf(s: string, m: string): (r: int)
    ensures r == -1 || At(s, m, r)
    ensures forall i :: At(s, m, i) ==> r != -1 && r <= i
  {
    IndexFrom(s, m, 0)
  }

  // ---------- the content ----------

  function ReplaceChar(s: string, c: char, entity: string): string {
    if s == [] then [] else (if s[0] == c then entity else [s[0]]) + ReplaceChar(s[1..], c, entity)
  }

  function EscapeHtmlAttribute(value: string): string {
    ReplaceChar(ReplaceChar(ReplaceChar(ReplaceChar(value, '&', "&amp;"), '"', "&quot;"), '<', "&lt;"), '>', "&gt;")
  }

  datatype Branding = Branding(
    enabled: bool, name: Option<string>, color: Option<string>, textColor: Option<string>, faviconHref: Option<string>)

  datatype Attribute = Attribute(name: string, value: string)

  /** The generated tags, attribute by attribute: `<kind name="value" ... />`. */
  function Attributes(attributes: seq<Attribute>): string {
    if attributes == [] then ""
    else
      var last := attributes[|attributes| - 1];
      Attributes(attributes[..|attributes| - 1]) + " " + last.name + "=\"" + last.value + "\""
  }

  function Tag(kind: string, attributes: seq<Attribute>): string {
    "<" + kind + Attributes(attributes) + " />"
  }

  const SVG := Attribute("type", "image/svg+xml")
  const PNG := Attribute("type", "image/png")
  const ICON := Attribute("rel", "icon")

  function DefaultFaviconLinks(): seq<string> {
    [Tag("link", [ICON, Attribute("href", "/favicon.ico"), Attribute("sizes", "48x48")]),
     Tag("link", [ICON, Attribute("href", "/favicon.svg"), SVG]),
     Tag("link", [ICON, PNG, Attribute("sizes", "32x32"), Attribute("href", "/favicon-32x32.png")]),
     Tag("link", [ICON, PNG, Attribute("sizes", "16x16"), Attribute("href", "/favicon-16x16.png")])]
  }

  predicate IsSet(s: Option<string>) {
    s.Some? && s.value != ""
  }

  function RenderFaviconLinks(b: Branding): string {
    if !b.enabled || !IsSet(b.faviconHref) then Join(DefaultFaviconLinks(), "\n")
    else
      var href := Attribute("href", EscapeHtmlAttribute(b.faviconHref.value));
      Join([Tag("link", [ICON, href, SVG, Attribute("sizes", "any")]),
            Tag("link", [Attribute("rel", "shortcut icon"), href, SVG])], "\n")
  }

  function MetaTag(name: string, content: string): string {
    Tag("meta", [Attribute("name", name), Attribute("content", content)])
  }

  function RenderRuntimeBrandingMeta(b: Branding): string {
    if !b.enabled || !IsSet(b.name) || !IsSet(b.color) || !IsSet(b.textColor) then ""
    else
      Join([MetaTag("paperclip-worktree-enabled", "true"),
            MetaTag("paperclip-worktree-name", EscapeHtmlAttribute(b.name.value)),
            MetaTag("paperclip-worktree-color", EscapeHtmlAttribute(b.color.value)),
            MetaTag("paperclip-worktree-text-color", EscapeHtmlAttribute(b.textColor.value))], "\n")
  }

  /** Four spaces before every line. */
  function IndentRest(s: string): string {
    if s == [] then [] else (if s[0] == '\n' then "\n    " else [s[0]]) + IndentRest(s[1..])
  }

  function Indented(content: string): string {
    if content == "" then "\n    " else "\n    " + IndentRest(content) + "\n    "
  }

  // ---------- replacing ----------

  function ReplaceMarkedBlock(html: string, startMarker: string, endMarker: string, content: string): string {
    var start, end := IndexOf(html, startMarker), IndexOf(html, endMarker);
    if start == -1 || end == -1 || end < start then html
    else html[..start + |startMarker|] + Indented(content) + html[end..]
  }

  function ApplyUiBranding(html: string, b: Branding): string {
    var withFavicon := ReplaceMarkedBlock(html, FAVICON_START, FAVICON_END, RenderFaviconLinks(b));
    ReplaceMarkedBlock(withFavicon, RUNTIME_START, RUNTIME_END, RenderRuntimeBrandingMeta(b))
  }

  // ---------- markers and content cannot mix ----------

  /** A comment opener that holds no other angle bracket. */
  predicate IsMarker(m: string) {
    |m| >= 2 && m[0] == '<' && m[1] == '!' && forall i :: 0 < i < |m| ==> m[i] != '<'
  }

  /** Different markers differ at some place they both have. */
  predicate Differ(m: string, n: string) {
    exists k :: 0 <= k < |m| && k < |n| && m[k] != n[k]
  }

  /** No comment opens in here, and none is half open at the end. */
  predicate Harmless(s: string) {
    (forall i :: 0 <= i < |s| - 1 ==> !(s[i] == '<' && s[i + 1] == '!')) && (s != [] ==> s[|s| - 1] != '<')
  }

  /** Two markers in one text are the same or do not overlap. */
  lemma MarkersDoNotOverlap(s: string, m: string, i: int, n: string, j: int)
    requires IsMarker(m) && IsMarker(n) && At(s, m, i) && At(s, n, j)
    requires m == n || Differ(m, n)
    ensures i + |m| <= j || j + |n| <= i || (i == j && m == n)
  {
    MarkerBrackets(s, m, i);
    MarkerBrackets(s, n, j);
    if m != n {
      DifferentPlaces(s, m, n, i);
    }
  }

  lemma MarkerBrackets(s: string, m: string, i: int)
    requires IsMarker(m) && At(s, m, i)
    ensures s[i] == '<' && forall p :: i < p < i + |m| ==> s[p] != '<'
  {
    assert s[i..i + |m|][0] == s[i];
    forall p | i < p < i + |m| ensures s[p] != '<' {
      assert s[i..i + |m|][p - i] == s[p];
    }
  }

  lemma DifferentPlaces(s: string, m: string, n: string, i: int)
    requires Differ(m, n)
    ensures !(At(s, m, i) && At(s, n, i))
  {
    var k :| 0 <= k < |m| && k < |n| && m[k] != n[k];
    assert At(s, m, i) ==> s[i..i + |m|][k] == s[i + k];
    assert At(s, n, i) ==> s[i..i + |n|][k] == s[i + k];
  }

  lemma NoMarkerInside(a: string, mid: string, b: string, m: string, i: int)
    requires IsMarker(m) && Harmless(mid) && |a| <= i < |a| + |mid|
    ensures !At(a + mid + b, m, i)
  {
    var s := a + mid + b;
    var k := i - |a|;
    if At(s, m, i) {
      MarkerStarts(s, m, i);
    }
    assert s[i] == mid[k];
    assert k + 1 < |mid| ==> s[i + 1] == mid[k + 1];
  }

  lemma NoMarkerInSlice(s: string, from: nat, to: nat, m: string, i: int)
    requires from <= to <= |s| && Harmless(s[from..to]) && IsMarker(m)
    ensures from <= i < to ==> !At(s, m, i)
  {
    var slice := s[from..to];
    assert forall p :: from <= p < to ==> slice[p - from] == s[p];
    if At(s, m, i) {
      MarkerStarts(s, m, i);
    }
  }

  lemma MarkerStarts(s: string, m: string, i: int)
    requires IsMarker(m) && At(s, m, i)
    ensures i + 1 < |s| && s[i] == '<' && s[i + 1] == '!'
  {
    assert s[i..i + |m|][0] == s[i] && s[i..i + |m|][1] == s[i + 1];
  }

  /** In A + M + B, where A ends with a marker and M is harmless, every marker lies
      wholly in A or wholly in B. */
  lemma MarkersStayOutside(a: string, mid: string, b: string, last: string, m: string, i: int)
    requires IsMarker(last) && IsMarker(m) && (m == last || Differ(m, last)) && Harmless(mid)
    requires |last| <= |a| && a[|a| - |last|..] == last
    requires At(a + mid + b, m, i)
    ensures i + |m| <= |a| || |a| + |mid| <= i
  {
    var s := a + mid + b;
    assert s[|a| - |last|..|a|] == last;
    MarkersDoNotOverlap(s, m, i, last, |a| - |last|);
    assert !(|a| <= i < |a| + |mid|) by {
      if |a| <= i < |a| + |mid| {
        NoMarkerInside(a, mid, b, m, i);
      }
    }
  }

  /** Positions before and after a replaced middle part. */
  function Shift(i: int, a: nat, mid: nat, mid': nat): int {
    if i < a then i else i - mid + mid'
  }

  lemma SamePlaces(a: string, mid: string, mid': string, b: string, m: string, i: int)
    requires i + |m| <= |a| || |a| + |mid| <= i
    requires m != []
    ensures At(a + mid + b, m, i) <==> At(a + mid' + b, m, Shift(i, |a|, |mid|, |mid'|))
  {
    var s, s', j := a + mid + b, a + mid' + b, Shift(i, |a|, |mid|, |mid'|);
    if 0 <= i && i + |m| <= |a| {
      assert s[i..i + |m|] == a[i..i + |m|];
      assert s'[j..j + |m|] == a[i..i + |m|];
    } else if |a| + |mid| <= i && i + |m| <= |s| {
      var k := i - |a| - |mid|;
      assert s[i..i + |m|] == b[k..k + |m|];
      assert s'[j..j + |m|] == b[k..k + |m|];
    }
  }

  // ---------- the generated content is harmless ----------

  lemma HarmlessConcat(s: string, t: string)
    requires Harmless(s) && Harmless(t)
    ensures Harmless(s + t)
  {
    forall i | 0 <= i < |s + t| - 1 ensures !((s + t)[i] == '<' && (s + t)[i + 1] == '!') {
      if i < |s| - 1 {
        assert (s + t)[i] == s[i] && (s + t)[i + 1] == s[i + 1];
      } else if i >= |s| {
        assert (s + t)[i] == t[i - |s|] && (s + t)[i + 1] == t[i + 1 - |s|];
      }
    }
  }

  lemma {:induction false} IndentIsHarmless(s: string)
    requires Harmless(s)
    ensures Harmless(IndentRest(s))
  {
    if s != [] {
      assert forall i :: 0 <= i < |s| - 1 ==> s[1..][i] == s[i + 1];
      assert Harmless(s[1..]);
      IndentIsHarmless(s[1..]);
      var rest := IndentRest(s[1..]);
      if s[0] == '\n' {
        HarmlessConcat("\n    ", rest);
      } else if |s| > 1 {
        assert rest[0] == (if s[1] == '\n' then '\n' else s[1]);
        forall i | 0 <= i < |[s[0]] + rest| - 1 ensures !(([s[0]] + rest)[i] == '<' && ([s[0]] + rest)[i + 1] == '!') {
          if i > 0 {
            assert ([s[0]] + rest)[i] == rest[i - 1] && ([s[0]] + rest)[i + 1] == rest[i];
          }
        }
      }
    }
  }

  lemma IndentedIsHarmless(content: string)
    requires Harmless(content)
    ensures Harmless(Indented(content))
  {
    IndentIsHarmless(content);
    HarmlessConcat("\n    ", IndentRest(content));
    HarmlessConcat("\n    " + IndentRest(content), "\n    ");
  }

  lemma {:induction false} ReplaceKeepsOut(s: string, c: char, entity: string, d: char)
    requires d !in entity
    ensures d !in s || d == c ==> d !in ReplaceChar(s, c, entity)
  {
    if s != [] {
      ReplaceKeepsOut(s[1..], c, entity, d);
    }
  }

  /** An escaped value holds no angle bracket and no quote. */
  lemma EscapedIsHarmless(value: string)
    ensures forall c :: c in "<>\"" ==> c !in EscapeHtmlAttribute(value)
    ensures Harmless(EscapeHtmlAttribute(value))
  {
    var a := ReplaceChar(value, '&', "&amp;");
    var b := ReplaceChar(a, '"', "&quot;");
    var c := ReplaceChar(b, '<', "&lt;");
    ReplaceKeepsOut(a, '"', "&quot;", '"');
    ReplaceKeepsOut(b, '<', "&lt;", '"');
    ReplaceKeepsOut(b, '<', "&lt;", '<');
    ReplaceKeepsOut(c, '>', "&gt;", '"');
    ReplaceKeepsOut(c, '>', "&gt;", '<');
    ReplaceKeepsOut(c, '>', "&gt;", '>');
  }

  lemma {:induction false} LinesAreHarmless(lines: seq<string>)
    requires forall line :: line in lines ==> Harmless(line)
    ensures Harmless(Join(lines, "\n"))
  {
    if |lines| == 1 {
      assert lines[0] in lines;
    } else if |lines| > 1 {
      var init := lines[..|lines| - 1];
      LinesAreHarmless(init);
      HarmlessConcat(Join(init, "\n"), "\n");
      HarmlessConcat(Join(init, "\n") + "\n", lines[|lines| - 1]);
    }
  }

  /** Text of our own without an exclamation mark. */
  lemma QuietIsHarmless(s: string)
    requires forall i :: 0 <= i < |s| ==> s[i] != '!'
    requires s != [] ==> s[|s| - 1] != '<'
    ensures Harmless(s)
  {
  }

  lemma {:induction false} AttributesAreHarmless(attributes: seq<Attribute>)
    requires forall x :: x in attributes ==> Harmless(x.name) && Harmless(x.value)
    ensures Harmless(Attributes(attributes))
  {
    if attributes != [] {
      var init, last := attributes[..|attributes| - 1], attributes[|attributes| - 1];
      AttributesAreHarmless(init);
      assert last in attributes;
      HarmlessConcat(Attributes(init), " ");
      HarmlessConcat(Attributes(init) + " ", last.name);
      HarmlessConcat(Attributes(init) + " " + last.name, "=\"");
      HarmlessConcat(Attributes(init) + " " + last.name + "=\"", last.value);
      HarmlessConcat(Attributes(init) + " " + last.name + "=\"" + last.value, "\"");
    }
  }

  lemma TagIsHarmless(kind: string, attributes: seq<Attribute>)
    requires kind in {"link", "meta"}
    requires forall x :: x in attributes ==> Harmless(x.name) && Harmless(x.value)
    ensures Harmless(Tag(kind, attributes))
  {
    AttributesAreHarmless(attributes);
    QuietIsHarmless("<" + kind);
    HarmlessConcat("<" + kind, Attributes(attributes));
    HarmlessConcat("<" + kind + Attributes(attributes), " />");
  }

  lemma MetaTagIsHarmless(name: string, content: string)
    requires Harmless(name) && Harmless(content)
    ensures Harmless(MetaTag(name, content))
  {
    QuietIsHarmless("name");
    QuietIsHarmless("content");
    TagIsHarmless("meta", [Attribute("name", name), Attribute("content", content)]);
  }

  /** The generated meta tags never open a comment, whatever the environment says. */
  lemma MetaIsHarmless(b: Branding)
    ensures Harmless(RenderRuntimeBrandingMeta(b))
  {
    if b.enabled && IsSet(b.name) && IsSet(b.color) && IsSet(b.textColor) {
      var name, color, textColor :=
        EscapeHtmlAttribute(b.name.value), EscapeHtmlAttribute(b.color.value), EscapeHtmlAttribute(b.textColor.value);
      EscapedIsHarmless(b.name.value);
      EscapedIsHarmless(b.color.value);
      EscapedIsHarmless(b.textColor.value);
      MetaNamesAreHarmless();
      MetaTagIsHarmless("paperclip-worktree-enabled", "true");
      MetaTagIsHarmless("paperclip-worktree-name", name);
      MetaTagIsHarmless("paperclip-worktree-color", color);
      MetaTagIsHarmless("paperclip-worktree-text-color", textColor);
      LinesAreHarmless([
        MetaTag("paperclip-worktree-enabled", "true"), MetaTag("paperclip-worktree-name", name),
        MetaTag("paperclip-worktree-color", color), MetaTag("paperclip-worktree-text-color", textColor)]);
    }
  }

  lemma MetaNamesAreHarmless()
    ensures Harmless("paperclip-worktree-enabled") && Harmless("true") && Harmless("paperclip-worktree-name")
    ensures Harmless("paperclip-worktree-color") && Harmless("paperclip-worktree-text-color")
  {
    QuietIsHarmless("paperclip-worktree-enabled");
    QuietIsHarmless("true");
    QuietIsHarmless("paperclip-worktree-name");
    QuietIsHarmless("paperclip-worktree-color");
    QuietIsHarmless("paperclip-worktree-text-color");
  }

  lemma LinkPartsAreHarmless()
    ensures forall x :: x in [SVG, PNG, ICON, Attribute("sizes", "any"), Attribute("rel", "shortcut icon")] ==> Harmless(x.name) && Harmless(x.value)
    ensures Harmless("href") && Harmless("sizes")
  {
    QuietIsHarmless("type");
    QuietIsHarmless("image/svg+xml");
    QuietIsHarmless("image/png");
    QuietIsHarmless("rel");
    QuietIsHarmless("icon");
    QuietIsHarmless("shortcut icon");
    QuietIsHarmless("sizes");
    QuietIsHarmless("any");
    QuietIsHarmless("href");
  }

  lemma DefaultPartsAreHarmless()
    ensures Harmless("/favicon.ico") && Harmless("/favicon.svg") && Harmless("48x48")
    ensures Harmless("/favicon-32x32.png") && Harmless("/favicon-16x16.png") && Harmless("32x32") && Harmless("16x16")
  {
    QuietIsHarmless("/favicon.ico");
    QuietIsHarmless("/favicon.svg");
    QuietIsHarmless("48x48");
    QuietIsHarmless("/favicon-32x32.png");
    QuietIsHarmless("/favicon-16x16.png");
    QuietIsHarmless("32x32");
    QuietIsHarmless("16x16");
  }

  lemma DefaultLinksAreHarmless()
    ensures forall line :: line in DefaultFaviconLinks() ==> Harmless(line)
  {
    LinkPartsAreHarmless();
    DefaultPartsAreHarmless();
    TagIsHarmless("link", [ICON, Attribute("href", "/favicon.ico"), Attribute("sizes", "48x48")]);
    TagIsHarmless("link", [ICON, Attribute("href", "/favicon.svg"), SVG]);
    TagIsHarmless("link", [ICON, PNG, Attribute("sizes", "32x32"), Attribute("href", "/favicon-32x32.png")]);
    TagIsHarmless("link", [ICON, PNG, Attribute("sizes", "16x16"), Attribute("href", "/favicon-16x16.png")]);
  }

  lemma LinksAreHarmless(b: Branding)
    ensures Harmless(RenderFaviconLinks(b))
  {
    if !b.enabled || !IsSet(b.faviconHref) {
      DefaultLinksAreHarmless();
      LinesAreHarmless(DefaultFaviconLinks());
    } else {
      LinkPartsAreHarmless();
      EscapedIsHarmless(b.faviconHref.value);
      var href := Attribute("href", EscapeHtmlAttribute(b.faviconHref.value));
      var first, second := [ICON, href, SVG, Attribute("sizes", "any")], [Attribute("rel", "shortcut icon"), href, SVG];
      TagIsHarmless("link", first);
      TagIsHarmless("link", second);
      LinesAreHarmless([Tag("link", first), Tag("link", second)]);
    }
  }

  // ---------- replacing twice ----------

  /** A pair of different markers and content that cannot be taken for one. */
  predicate IsBlock(start: string, end: string, content: string) {
    IsMarker(start) && IsMarker(end) && Differ(start, end) && Differ(end, start) && Harmless(content)
  }

  /** A marker found first in A + gap + B, wholly in A or wholly in B, is found first
      at the matching place of A + mid + B. */
  lemma FirstMoves(a: string, gap: string, mid: string, b: string, last: string, m: string, first: nat)
    requires IsMarker(last) && IsMarker(m) && (m == last || Differ(m, last)) && Harmless(mid)
    requires |last| <= |a| && a[|a| - |last|..] == last
    requires IndexOf(a + gap + b, m) == first && (first + |m| <= |a| || |a| + |gap| <= first)
    ensures IndexOf(a + mid + b, m) == Shift(first, |a|, |gap|, |mid|)
  {
    SamePlaces(a, gap, mid, b, m, first);
    forall i | At(a + mid + b, m, i) ensures Shift(first, |a|, |gap|, |mid|) <= i {
      MarkersStayOutside(a, mid, b, last, m, i);
      SamePlaces(a, mid, gap, b, m, i);
    }
  }

  lemma ThreeParts(s: string, i: nat, j: nat)
    requires i <= j <= |s|
    ensures s == s[..i] + s[i..j] + s[j..]
  {
  }

  lemma SliceOfPrefix(s: string, i: nat, j: nat)
    requires i <= j <= |s|
    ensures s[..j][i..] == s[i..j]
  {
  }

  /** The parts of a text around a block: up to the start marker, inside, from the end marker. */
  lemma BlockParts(html: string, start: string, end: string) returns (a: string, gap: string, b: string)
    requires IsMarker(start) && IsMarker(end) && Differ(start, end)
    requires 0 <= IndexOf(html, start) <= IndexOf(html, end)
    ensures html == a + gap + b && |start| <= |a| && a[|a| - |start|..] == start
    ensures IndexOf(html, start) == |a| - |start| && IndexOf(html, end) == |a| + |gap|
    ensures a == html[..|a|] && b == html[|a| + |gap|..]
  {
    var s, e := IndexOf(html, start), IndexOf(html, end);
    MarkersDoNotOverlap(html, start, s, end, e);
    a, gap, b := html[..s + |start|], html[s + |start|..e], html[e..];
    ThreeParts(html, s + |start|, e);
    SliceOfPrefix(html, s, s + |start|);
  }

  lemma Middle(a: string, gap: string, b: string)
    ensures (a + gap + b)[..|a|] == a && (a + gap + b)[|a| + |gap|..] == b
  {
  }

  lemma ReplaceIs(html: string, start: string, end: string, content: string, a: string, gap: string, b: string)
    requires html == a + gap + b && |start| <= |a|
    requires IndexOf(html, start) == |a| - |start| && IndexOf(html, end) == |a| + |gap|
    ensures ReplaceMarkedBlock(html, start, end, content) == a + Indented(content) + b
  {
    ReplaceAt(html, start, end, content, |a|, |a| + |gap|);
    Middle(a, gap, b);
  }

  /** Where the markers of a replaced block are. */
  lemma ReplacedBlock(html: string, start: string, end: string, content: string) returns (a: string, gap: string, b: string)
    requires IsBlock(start, end, content)
    requires 0 <= IndexOf(html, start) <= IndexOf(html, end)
    ensures html == a + gap + b && |start| <= |a| && a[|a| - |start|..] == start
    ensures IndexOf(html, start) == |a| - |start| && IndexOf(html, end) == |a| + |gap|
    ensures ReplaceMarkedBlock(html, start, end, content) == a + Indented(content) + b
    ensures IndexOf(a + Indented(content) + b, start) == |a| - |start|
    ensures IndexOf(a + Indented(content) + b, end) == |a| + |Indented(content)|
  {
    a, gap, b := BlockParts(html, start, end);
    ReplaceIs(html, start, end, content, a, gap, b);
    IndentedIsHarmless(content);
    FirstMoves(a, gap, Indented(content), b, start, start, |a| - |start|);
    FirstMoves(a, gap, Indented(content), b, start, end, |a| + |gap|);
  }

  /** Replacing a block twice by the same content is the same as replacing it once,
      on every text. */
  lemma ReplaceTwice(html: string, start: string, end: string, content: string)
    requires IsBlock(start, end, content)
    ensures var once := ReplaceMarkedBlock(html, start, end, content);
            ReplaceMarkedBlock(once, start, end, content) == once
  {
    if 0 <= IndexOf(html, start) <= IndexOf(html, end) {
      var a, gap, b := ReplacedBlock(html, start, end, content);
      ReplaceIs(a + Indented(content) + b, start, end, content, a, Indented(content), b);
    }
  }

  // ---------- the whole page ----------

  ghost predicate AtMostOnce(s: string, m: string) {
    forall i, j :: At(s, m, i) && At(s, m, j) ==> i == j
  }

  lemma BlocksAreSeparate()
    ensures IsMarker(FAVICON_START) && IsMarker(FAVICON_END) && IsMarker(RUNTIME_START) && IsMarker(RUNTIME_END)
    ensures Differ(FAVICON_START, FAVICON_END) && Differ(FAVICON_END, FAVICON_START)
    ensures Differ(RUNTIME_START, RUNTIME_END) && Differ(RUNTIME_END, RUNTIME_START)
    ensures Differ(FAVICON_START, RUNTIME_START) && Differ(FAVICON_END, RUNTIME_START)
  {
    assert FAVICON_START[23] != FAVICON_END[23];
    assert RUNTIME_START[32] != RUNTIME_END[32];
    assert FAVICON_START[15] != RUNTIME_START[15];
    assert FAVICON_END[15] != RUNTIME_START[15];
  }

  /** Replacing a block does not multiply its markers. */
  lemma StillAtMostOnce(html: string, start: string, end: string, content: string, m: string)
    requires IsBlock(start, end, content) && IsMarker(m) && (m == start || Differ(m, start))
    requires AtMostOnce(html, m)
    ensures AtMostOnce(ReplaceMarkedBlock(html, start, end, content), m)
  {
    if 0 <= IndexOf(html, start) <= IndexOf(html, end) {
      var a, gap, b := ReplacedBlock(html, start, end, content);
      var mid := Indented(content);
      IndentedIsHarmless(content);
      forall i, j | At(a + mid + b, m, i) && At(a + mid + b, m, j) ensures i == j {
        MarkersStayOutside(a, mid, b, start, m, i);
        MarkersStayOutside(a, mid, b, start, m, j);
        SamePlaces(a, mid, gap, b, m, i);
        SamePlaces(a, mid, gap, b, m, j);
      }
    }
  }

  /** A block that already holds its content: what stands between its markers. */
  lemma FilledBlock(html: string, start: string, end: string, content: string)
    requires IsBlock(start, end, content) && 0 <= IndexOf(html, start) <= IndexOf(html, end)
    requires ReplaceMarkedBlock(html, start, end, content) == html
    ensures var s, e := IndexOf(html, start), IndexOf(html, end);
            s + |start| <= e && html[s + |start|..e] == Indented(content)
  {
    var a, gap, b := ReplacedBlock(html, start, end, content);
    var mid := Indented(content);
    assert a + gap + b == a + mid + b;
    assert |gap| == |mid|;
    assert html[|a|..|a| + |mid|] == mid;
  }

  lemma ReplaceAt(html: string, start: string, end: string, content: string, i: nat, e: nat)
    requires i <= |html| && IndexOf(html, start) == i - |start| && IndexOf(html, end) == e && 0 <= i - |start| <= e
    ensures ReplaceMarkedBlock(html, start, end, content) == html[..i] + Indented(content) + html[e..]
  {
  }

  lemma Refilled(s: string, r: string, mid: string, i: nat, j: nat)
    requires i <= j <= |s| && s[i..j] == mid && r == s[..i] + mid + s[j..]
    ensures r == s
  {
  }

  lemma AlreadyFilled(html: string, start: string, end: string, content: string)
    requires var s, e := IndexOf(html, start), IndexOf(html, end);
             0 <= s && s + |start| <= e && html[s + |start|..e] == Indented(content)
    ensures ReplaceMarkedBlock(html, start, end, content) == html
  {
    var s, e := IndexOf(html, start), IndexOf(html, end);
    ReplaceAt(html, start, end, content, s + |start|, e);
    Refilled(html, ReplaceMarkedBlock(html, start, end, content), Indented(content), s + |start|, e);
  }

  lemma OnlyPlace(p: string, gap: string, mid: string, q: string, last: string, m: string)
    requires IsMarker(last) && IsMarker(m) && Differ(m, last) && Harmless(mid)
    requires |last| <= |p| && p[|p| - |last|..] == last
    requires AtMostOnce(p + gap + q, m) && IndexOf(p + mid + q, m) >= 0
    ensures var i := IndexOf(p + mid + q, m);
            && (i + |m| <= |p| || |p| + |mid| <= i)
            && IndexOf(p + gap + q, m) == Shift(i, |p|, |mid|, |gap|)
  {
    var i := IndexOf(p + mid + q, m);
    MarkersStayOutside(p, mid, q, last, m, i);
    SamePlaces(p, mid, gap, q, m, i);
  }

  /** Exchanging the runtime block does not disturb a filled favicon block. */
  lemma StaysFilled(p: string, gap: string, mid: string, q: string, start: string, end: string, content: string, last: string)
    requires IsBlock(start, end, content) && IsMarker(last) && Differ(start, last) && Differ(end, last) && Harmless(mid)
    requires |last| <= |p| && p[|p| - |last|..] == last
    requires AtMostOnce(p + gap + q, start) && AtMostOnce(p + gap + q, end)
    requires ReplaceMarkedBlock(p + gap + q, start, end, content) == p + gap + q
    ensures ReplaceMarkedBlock(p + mid + q, start, end, content) == p + mid + q
  {
    if 0 <= IndexOf(p + mid + q, start) <= IndexOf(p + mid + q, end) {
      OnlyPlace(p, gap, mid, q, last, start);
      OnlyPlace(p, gap, mid, q, last, end);
      var filled := p + gap + q;
      assert p <= filled;
      FilledAside(filled, p, last, start, end, content);
      MovesFilled(p, gap, mid, q, start, end, content);
    }
  }

  lemma MovesFilled(p: string, gap: string, mid: string, q: string, start: string, end: string, content: string)
    requires var f, g := IndexOf(p + mid + q, start), IndexOf(p + mid + q, end);
             var f', g' := IndexOf(p + gap + q, start), IndexOf(p + gap + q, end);
             && 0 <= f <= g && 0 <= f' && f' + |start| <= g'
             && (p + gap + q)[f' + |start|..g'] == Indented(content)
             && (if g < |p| then f + |start| <= |p| && f' == f && g' == g
                 else |p| + |mid| <= f && f' == f - |mid| + |gap| && g' == g - |mid| + |gap|)
    ensures ReplaceMarkedBlock(p + mid + q, start, end, content) == p + mid + q
  {
    SameInside(p, mid, gap, q, IndexOf(p + mid + q, start) + |start|, IndexOf(p + mid + q, end));
    AlreadyFilled(p + mid + q, start, end, content);
  }

  /** A stretch before or after the exchanged part is not changed. */
  lemma SameInside(p: string, x: string, y: string, q: string, i: int, j: int)
    requires 0 <= i <= j <= |p + x + q| && (j <= |p| || |p| + |x| <= i)
    ensures var d := if j <= |p| then 0 else |y| - |x|;
            j + d <= |p + y + q| && (p + x + q)[i..j] == (p + y + q)[i + d..j + d]
  {
    if j <= |p| {
      assert (p + x + q)[i..j] == p[i..j] == (p + y + q)[i..j];
    } else {
      var n, d := |p| + |x|, |y| - |x|;
      assert (p + x + q)[i..j] == q[i - n..j - n] == (p + y + q)[i + d..j + d];
    }
  }

  /** A filled block does not reach across another marker. */
  lemma NotAcross(html: string, p: string, last: string, start: string, end: string, content: string)
    requires IsBlock(start, end, content) && IsMarker(last) && Differ(start, last)
    requires p <= html && |last| <= |p| && p[|p| - |last|..] == last
    requires var s, e := IndexOf(html, start), IndexOf(html, end);
             0 <= s && s + |start| <= e && html[s + |start|..e] == Indented(content)
    ensures !(IndexOf(html, start) + |start| <= |p| <= IndexOf(html, end))
  {
    var s, e := IndexOf(html, start), IndexOf(html, end);
    var at := |p| - |last|;
    assert html[at..|p|] == last;
    MarkersDoNotOverlap(html, start, s, last, at);
    IndentedIsHarmless(content);
    NoMarkerInSlice(html, s + |start|, e, last, at);
  }

  lemma FilledAside(html: string, p: string, last: string, start: string, end: string, content: string)
    requires IsBlock(start, end, content) && IsMarker(last) && Differ(start, last)
    requires p <= html && |last| <= |p| && p[|p| - |last|..] == last
    requires 0 <= IndexOf(html, start) <= IndexOf(html, end)
    requires ReplaceMarkedBlock(html, start, end, content) == html
    ensures var s, e := IndexOf(html, start), IndexOf(html, end);
            && s + |start| <= e && html[s + |start|..e] == Indented(content)
            && !(s + |start| <= |p| <= e)
  {
    FilledBlock(html, start, end, content);
    NotAcross(html, p, last, start, end, content);
  }

  lemma BothTwice(html: string, fs: string, fe: string, links: string, rs: string, re: string, meta: string)
    requires IsBlock(fs, fe, links) && IsBlock(rs, re, meta) && Differ(fs, rs) && Differ(fe, rs)
    requires AtMostOnce(html, fs) && AtMostOnce(html, fe)
    ensures var page := ReplaceMarkedBlock(ReplaceMarkedBlock(html, fs, fe, links), rs, re, meta);
            ReplaceMarkedBlock(ReplaceMarkedBlock(page, fs, fe, links), rs, re, meta) == page
  {
    var withFavicon := ReplaceMarkedBlock(html, fs, fe, links);
    ReplaceTwice(html, fs, fe, links);
    ReplaceTwice(withFavicon, rs, re, meta);
    StillAtMostOnce(html, fs, fe, links, fs);
    StillAtMostOnce(html, fs, fe, links, fe);
    if 0 <= IndexOf(withFavicon, rs) <= IndexOf(withFavicon, re) {
      var p, gap, q := ReplacedBlock(withFavicon, rs, re, meta);
      IndentedIsHarmless(meta);
      StaysFilled(p, gap, Indented(meta), q, fs, fe, links, rs);
    }
  }

  /** Branding a page twice is the same as branding it once, for every environment
      and every page that holds each favicon marker at most once. */
  lemma ApplyTwice(html: string, b: Branding)
    requires AtMostOnce(html, FAVICON_START) && AtMostOnce(html, FAVICON_END)
    ensures ApplyUiBranding(ApplyUiBranding(html, b), b) == ApplyUiBranding(html, b)
  {
    BlocksAreSeparate();
    LinksAreHarmless(b);
    MetaIsHarmless(b);
    BothTwice(html, FAVICON_START, FAVICON_END, RenderFaviconLinks(b), RUNTIME_START, RUNTIME_END, RenderRuntimeBrandingMeta(b));
  }
}
