/** The commit search: a time window is answered from the cache, or page by page, or
    by splitting it in two until each part has few enough hits. */
module WindowSearch {
  import opened Common
  import opened CommitCache

  const SEARCH_WINDOW_LIMIT := 900
  const MIN_WINDOW_MS := 60_000
  const PER_PAGE := 100

  datatype Window = Window(start: int, end: int)

  datatype WindowEntry = WindowEntry(shas: set<string>, totalCount: nat)

  datatype SearchError = Incomplete(window: Window, page: nat) | TooMany(window: Window, total: nat)

  datatype Response = Response(incomplete: bool, totalCount: nat, items: seq<Item>)

  /** The search service: what it holds, in its own order, and when it gives up early. */
  datatype Service = Service(index: seq<Item>, givesUp: (int, int, nat) -> bool)

  /** Queries carry whole seconds: milliseconds are cut off (rounded down). */
  function QuerySecond(ms: int): int {
    ms / 1000
  }

  /** The hits of a query, bounds included. */
  function Hits(index: seq<Item>, lo: int, hi: int): seq<Item> {
    if index == [] then []
    else
      var last := index[|index| - 1];
      Hits(index[..|index| - 1], lo, hi) + (if lo <= last.second <= hi then [last] else [])
  }

  function ShasOf(items: seq<Item>): set<string> {
    set i | 0 <= i < |items| :: items[i].sha
  }

  /** The commits of a window, whichever way they are found. */
  function Wanted(s: Service, w: Window): set<string> {
    ShasOf(Hits(s.index, QuerySecond(w.start), QuerySecond(w.end)))
  }

  function Min(a: int, b: int): int {
    if a < b then a else b
  }

  /** How many of n hits the first pages hold. */
  function PagesEnd(n: nat, pages: nat): nat {
    Min(pages * PER_PAGE, n)
  }

  /** One page, counted from 1. */
  function SearchPage(s: Service, w: Window, page: nat): Response
    requires page >= 1
  {
    var lo, hi := QuerySecond(w.start), QuerySecond(w.end);
    var hits := Hits(s.index, lo, hi);
    Response(s.givesUp(lo, hi, page), |hits|, hits[PagesEnd(|hits|, page - 1)..PagesEnd(|hits|, page)])
  }

  /** From the start to the midpoint, and from one millisecond later to the end. */
  function Left(w: Window): Window {
    Window(w.start, w.start + (w.end - w.start) / 2)
  }

  function Right(w: Window): Window {
    Window(w.start + (w.end - w.start) / 2 + 1, w.end)
  }

  // ---------- facts about hits ----------

  lemma {:induction false} HitsMembers(index: seq<Item>, lo: int, hi: int)
    ensures forall x :: x in Hits(index, lo, hi) <==> x in index && lo <= x.second <= hi
  {
    if index != [] {
      HitsMembers(index[..|index| - 1], lo, hi);
    }
  }

  lemma ShasMembers(items: seq<Item>)
    ensures forall sha :: sha in ShasOf(items) <==> exists x :: x in items && x.sha == sha
  {
    forall x | x in items ensures x.sha in ShasOf(items) {
      var i :| 0 <= i < |items| && items[i] == x;
    }
  }

  /** The two halves overlap in at most one second and miss none, so together they
      want exactly what the whole window wants. */
  lemma SplitIsExact(s: Service, w: Window)
    requires w.end - w.start > MIN_WINDOW_MS
    ensures Wanted(s, Left(w)) + Wanted(s, Right(w)) == Wanted(s, w)
  {
    var lo, mid, hi := QuerySecond(w.start), QuerySecond(Left(w).end), QuerySecond(w.end);
    var next := QuerySecond(Right(w).start);
    assert lo <= mid <= next <= mid + 1 && next <= hi;
    HitsMembers(s.index, lo, mid);
    HitsMembers(s.index, next, hi);
    HitsMembers(s.index, lo, hi);
    ShasMembers(Hits(s.index, lo, mid));
    ShasMembers(Hits(s.index, next, hi));
    ShasMembers(Hits(s.index, lo, hi));
  }

  lemma {:induction false} HitsMonotone(index: seq<Item>, lo: int, hi: int, lo': int, hi': int)
    requires lo' <= lo && hi <= hi'
    ensures |Hits(index, lo, hi)| <= |Hits(index, lo', hi')|
  {
    if index != [] {
      HitsMonotone(index[..|index| - 1], lo, hi, lo', hi');
    }
  }

  lemma {:induction false} ShasAreFew(items: seq<Item>)
    ensures |ShasOf(items)| <= |items|
  {
    if items != [] {
      var init := items[..|items| - 1];
      ShasAreFew(init);
      ShasAppend(init, items[|items| - 1]);
      assert items == init + [items[|items| - 1]];
    }
  }

  lemma ShasAppend(items: seq<Item>, x: Item)
    ensures ShasOf(items + [x]) == ShasOf(items) + {x.sha}
  {
    ShasMembers(items);
    ShasMembers(items + [x]);
  }

  // ---------- when splitting succeeds ----------

  /** Splitting ends in windows with few enough hits before they get too short. */
  predicate Splittable(s: Service, w: Window)
    decreases if w.end > w.start then w.end - w.start else 0
  {
    || |Hits(s.index, QuerySecond(w.start), QuerySecond(w.end))| <= SEARCH_WINDOW_LIMIT
    || (w.end - w.start > MIN_WINDOW_MS && Splittable(s, Left(w)) && Splittable(s, Right(w)))
  }

  /** The hits of the 61 consecutive seconds from t on. */
  function Burst(s: Service, t: int): nat {
    |Hits(s.index, t, t + 60)|
  }

  /** It does when no 61 consecutive seconds hold more hits than the limit. */
  lemma {:induction false} SparseIsSplittable(s: Service, w: Window)
    requires forall t :: Burst(s, t) <= SEARCH_WINDOW_LIMIT
    ensures Splittable(s, w)
    decreases if w.end > w.start then w.end - w.start else 0
  {
    if w.end - w.start > MIN_WINDOW_MS {
      SparseIsSplittable(s, Left(w));
      SparseIsSplittable(s, Right(w));
    } else {
      var t := QuerySecond(w.start);
      HitsMonotone(s.index, t, QuerySecond(w.end), t, t + 60);
      assert Burst(s, t) <= SEARCH_WINDOW_LIMIT;
    }
  }

  /** The record is that of a commit of the service with this sha. */
  predicate IsCommitOf(s: Service, sha: string, c: Commit) {
    exists x :: x in s.index && x.sha == sha && IsRecordOf(c, x)
  }

  predicate AllRecorded(s: Service, commits: map<string, Commit>) {
    forall sha :: sha in commits ==> IsCommitOf(s, sha, commits[sha])
  }

  lemma RecordedToo(s: Service, commits: map<string, Commit>, x: Item)
    requires AllRecorded(s, commits) && x in s.index
    ensures AllRecorded(s, commits[x.sha := RecordOf(x)])
  {
    assert x.sha == x.sha && IsRecordOf(RecordOf(x), x);
  }

  /** The cache after a page: every item's record under its sha. */
  function Ingested(commits: map<string, Commit>, items: seq<Item>): map<string, Commit> {
    if items == [] then commits
    else
      var last := items[|items| - 1];
      Ingested(commits, items[..|items| - 1])[last.sha := RecordOf(last)]
  }

  lemma {:induction false} IngestedIsRecorded(s: Service, commits: map<string, Commit>, items: seq<Item>)
    requires AllRecorded(s, commits) && forall x :: x in items ==> x in s.index
    ensures AllRecorded(s, Ingested(commits, items)) && Ingested(commits, items).Keys == commits.Keys + ShasOf(items)
  {
    if items != [] {
      var init, last := items[..|items| - 1], items[|items| - 1];
      IngestedIsRecorded(s, commits, init);
      ShasAppend(init, last);
      assert items == init + [last] && last in items;
      RecordedToo(s, Ingested(commits, init), last);
    }
  }

  /** Under each sha stands the record of the last item with it, and elsewhere what stood there. */
  lemma {:induction false} IngestedLast(commits: map<string, Commit>, items: seq<Item>, sha: string)
    ensures var r := Ingested(commits, items);
      && (sha in r <==> sha in commits || sha in ShasOf(items))
      && (sha !in ShasOf(items) && sha in commits ==> r[sha] == commits[sha])
      && (sha in ShasOf(items) ==>
            exists k :: 0 <= k < |items| && items[k].sha == sha && IsRecordOf(r[sha], items[k])
              && forall j :: k < j < |items| ==> items[j].sha != sha)
  {
    if items != [] {
      var init, last := items[..|items| - 1], items[|items| - 1];
      IngestedLast(commits, init, sha);
      ShasAppend(init, last);
      assert items == init + [last];
      if last.sha == sha {
        assert items[|items| - 1].sha == sha && IsRecordOf(RecordOf(last), last);
      } else if sha in ShasOf(init) {
        var r := Ingested(commits, items);
        var k :| 0 <= k < |init| && init[k].sha == sha && IsRecordOf(r[sha], init[k]) && forall j :: k < j < |init| ==> init[j].sha != sha;
        assert items[k] == init[k] && IsRecordOf(r[sha], items[k]);
      }
    }
  }

  /** What an error says is so: the service gave up on that page, or a window too short to split
      still has that many hits, which is more than the limit. */
  predicate IsTrueError(s: Service, e: SearchError) {
    match e
    case Incomplete(w, page) => s.givesUp(QuerySecond(w.start), QuerySecond(w.end), page)
    case TooMany(w, total) =>
      w.end - w.start <= MIN_WINDOW_MS && total == |Hits(s.index, QuerySecond(w.start), QuerySecond(w.end))| > SEARCH_WINDOW_LIMIT
  }

  lemma PageIsOfIndex(s: Service, w: Window, page: nat)
    requires page >= 1
    ensures forall x :: x in SearchPage(s, w, page).items ==> x in s.index
  {
    HitsMembers(s.index, QuerySecond(w.start), QuerySecond(w.end));
  }

  ghost predicate NeverGivesUp(s: Service) {
    forall lo, hi, page :: !s.givesUp(lo, hi, page)
  }

  // ---------- the search over its cache ----------

  class CommitSearch {
    const service: Service
    const refreshSearch: bool
    var windows: map<Window, WindowEntry>
    var commits: map<string, Commit>

    constructor (service: Service, refreshSearch: bool)
      ensures Valid() && windows == map[] && commits == map[]
      ensures this.service == service && this.refreshSearch == refreshSearch
    {
      this.service, this.refreshSearch := service, refreshSearch;
      windows, commits := map[], map[];
    }

    /** Every cached window holds exactly its commits, each with a cached record, and every
        record is that of a commit of the service with its sha. */
    predicate Valid()
      reads this
    {
      && (forall w :: w in windows ==>
            && windows[w].shas == Wanted(service, w)
            && windows[w].shas <= commits.Keys
            && |windows[w].shas| <= windows[w].totalCount <= |Hits(service.index, QuerySecond(w.start), QuerySecond(w.end))|)
      && AllRecorded(service, commits)
    }

    /** Record the items of a page and add their shas to those found so far. */
    method IngestSearchItems(items: seq<Item>, found: set<string>) returns (shas: set<string>)
      requires Valid() && forall x :: x in items ==> x in service.index
      modifies this`commits
      ensures Valid() && commits.Keys == old(commits.Keys) + ShasOf(items)
      ensures commits == Ingested(old(commits), items)
      ensures shas == found + ShasOf(items)
    {
      shas := found;
      var i := 0;
      while i < |items|
        invariant 0 <= i <= |items|
        invariant shas == found + ShasOf(items[..i]) && commits == Ingested(old(commits), items[..i])
      {
        var item := items[i];
        ShasAppend(items[..i], item);
        assert items[..i + 1] == items[..i] + [item] && items[..i + 1][..i] == items[..i];
        shas := shas + {item.sha};
        commits := commits[item.sha := RecordOf(item)];
        i := i + 1;
      }
      assert items[..i] == items;
      IngestedIsRecorded(service, old(commits), items);
    }

    method SearchWindow(w: Window) returns (r: Result<WindowEntry, SearchError>)
      requires Valid()
      modifies this
      ensures Valid()
      ensures old(commits.Keys) <= commits.Keys && old(windows.Keys) <= windows.Keys
      ensures r.Ok? ==> r.value.shas == Wanted(service, w) && r.value.shas <= commits.Keys
      ensures r.Ok? ==> forall sha :: sha in r.value.shas ==> IsCommitOf(service, sha, commits[sha])
      ensures r.Err? ==> IsTrueError(service, r.error)
      ensures r.Ok? ==> w in windows && windows[w] == r.value
      ensures NeverGivesUp(service) && Splittable(service, w) ==> r.Ok?
      ensures refreshSearch && r.Ok? ==> Splittable(service, w)
      decreases if w.end > w.start then w.end - w.start else 0, 1
    {
      if !refreshSearch && w in windows {
        return Ok(windows[w]);
      }
      var firstPage := SearchPage(service, w, 1);
      if firstPage.incomplete {
        return Err(Incomplete(w, 1));
      }
      if firstPage.totalCount > SEARCH_WINDOW_LIMIT {
        if w.end - w.start <= MIN_WINDOW_MS {
          return Err(TooMany(w, firstPage.totalCount));
        }
        r := SearchHalves(w);
      } else {
        r := SearchPages(w, firstPage);
      }
    }

    /** A window with too many hits: search both halves and join what they found. */
    method SearchHalves(w: Window) returns (r: Result<WindowEntry, SearchError>)
      requires Valid() && w.end - w.start > MIN_WINDOW_MS
      modifies this
      ensures Valid()
      ensures old(commits.Keys) <= commits.Keys && old(windows.Keys) <= windows.Keys
      ensures r.Ok? ==> r.value.shas == Wanted(service, w) && r.value.shas <= commits.Keys
      ensures r.Err? ==> IsTrueError(service, r.error)
      ensures r.Ok? ==> w in windows && windows[w] == r.value
      ensures NeverGivesUp(service) && Splittable(service, Left(w)) && Splittable(service, Right(w)) ==> r.Ok?
      ensures refreshSearch && r.Ok? ==> Splittable(service, Left(w)) && Splittable(service, Right(w))
      decreases w.end - w.start, 0
    {
      var left := SearchWindow(Left(w));
      if left.Err? {
        return left;
      }
      var right := SearchWindow(Right(w));
      if right.Err? {
        return right;
      }
      SplitIsExact(service, w);
      var shas := left.value.shas + right.value.shas;
      r := Store(w, shas, |shas|);
    }

    method Store(w: Window, shas: set<string>, totalCount: nat) returns (r: Result<WindowEntry, SearchError>)
      requires Valid() && shas == Wanted(service, w) && shas <= commits.Keys
      requires |shas| <= totalCount
      requires totalCount == |shas| || totalCount == |Hits(service.index, QuerySecond(w.start), QuerySecond(w.end))|
      modifies this`windows
      ensures Valid() && windows.Keys == old(windows.Keys) + {w}
      ensures r == Ok(WindowEntry(shas, totalCount)) && windows[w] == r.value
    {
      ShasAreFew(Hits(service.index, QuerySecond(w.start), QuerySecond(w.end)));
      windows := windows[w := WindowEntry(shas, totalCount)];
      return Ok(windows[w]);
    }

    /** A window with few enough hits, page by page. */
    method SearchPages(w: Window, firstPage: Response) returns (r: Result<WindowEntry, SearchError>)
      requires Valid() && firstPage == SearchPage(service, w, 1) && firstPage.totalCount <= SEARCH_WINDOW_LIMIT
      modifies this
      ensures Valid()
      ensures old(commits.Keys) <= commits.Keys && old(windows.Keys) <= windows.Keys
      ensures r.Ok? ==> r.value.shas == Wanted(service, w) && r.value.shas <= commits.Keys
      ensures r.Err? ==> IsTrueError(service, r.error)
      ensures r.Ok? ==> w in windows && windows[w] == r.value
      ensures NeverGivesUp(service) ==> r.Ok?
    {
      ghost var hits := Hits(service.index, QuerySecond(w.start), QuerySecond(w.end));
      var pageCount := (firstPage.totalCount + PER_PAGE - 1) / PER_PAGE;
      PageIsOfIndex(service, w, 1);
      var shas := IngestSearchItems(firstPage.items, {});
      assert firstPage.items == hits[..PagesEnd(|hits|, 1)];
      var more := OtherPages(w, pageCount, shas);
      if more.Err? {
        return Err(more.error);
      }
      ShasAreFew(hits);
      r := Store(w, more.value, firstPage.totalCount);
    }

    /** The loop over the pages after the first. */
    method OtherPages(w: Window, pageCount: nat, found: set<string>) returns (r: Result<set<string>, SearchError>)
      requires Valid() && found <= commits.Keys
      requires var hits := Hits(service.index, QuerySecond(w.start), QuerySecond(w.end));
        found == ShasOf(hits[..PagesEnd(|hits|, 1)]) && pageCount == (|hits| + PER_PAGE - 1) / PER_PAGE
      modifies this`commits
      ensures Valid() && old(commits.Keys) <= commits.Keys
      ensures r.Ok? ==> r.value == Wanted(service, w) && r.value <= commits.Keys
      ensures r.Err? ==> r.error.Incomplete? && IsTrueError(service, r.error)
    {
      ghost var hits := Hits(service.index, QuerySecond(w.start), QuerySecond(w.end));
      var shas := found;
      var page := 2;
      while page <= pageCount
        invariant 2 <= page && (page <= pageCount + 1 || pageCount == 0)
        invariant Valid() && windows == old(windows) && old(commits.Keys) <= commits.Keys
        invariant shas == ShasOf(hits[..PagesEnd(|hits|, page - 1)]) && shas <= commits.Keys
      {
        var response := SearchPage(service, w, page);
        if response.incomplete {
          return Err(Incomplete(w, page));
        }
        NextPage(service, w, page);
        PageIsOfIndex(service, w, page);
        shas := IngestSearchItems(response.items, shas);
        page := page + 1;
      }
      assert hits[..PagesEnd(|hits|, page - 1)] == hits;
      return Ok(shas);
    }
  }

  lemma NextPage(s: Service, w: Window, page: nat)
    requires page >= 2
    ensures var hits := Hits(s.index, QuerySecond(w.start), QuerySecond(w.end));
            ShasOf(hits[..PagesEnd(|hits|, page)])
            == ShasOf(hits[..PagesEnd(|hits|, page - 1)]) + ShasOf(SearchPage(s, w, page).items)
  {
    var hits := Hits(s.index, QuerySecond(w.start), QuerySecond(w.end));
    var items := SearchPage(s, w, page).items;
    ShasConcat(hits[..PagesEnd(|hits|, page - 1)], items);
    assert hits[..PagesEnd(|hits|, page)] == hits[..PagesEnd(|hits|, page - 1)] + items;
  }

  lemma ShasConcat(a: seq<Item>, b: seq<Item>)
    ensures ShasOf(a + b) == ShasOf(a) + ShasOf(b)
  {
    ShasMembers(a);
    ShasMembers(b);
    ShasMembers(a + b);
  }
}
