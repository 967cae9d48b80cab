/** The Pi model list: how a listing is read, and how the models found in it are
    deduplicated and sorted. */
module ModelListing {
  import opened Common

  datatype Model = Model(id: string, caption: string)

  // ---------- byte order on texts ----------

  /** Go's < on strings. */
  predicate Less(a: string, b: string) {
    b != [] && (a == [] || a[0] < b[0] || (a[0] == b[0] && Less(a[1..], b[1..])))
  }

  /** The first difference decides, and a text comes after its own beginnings. */
  lemma {:induction false} LessIff(a: string, b: string)
    ensures Less(a, b) <==>
      exists k :: 0 <= k <= |a| && k < |b| && a[..k] == b[..k] && (k == |a| || a[k] < b[k])
  {
    if a == [] || b == [] || a[0] != b[0] {
      assert b != [] ==> a[..0] == b[..0];
    } else {
      LessIff(a[1..], b[1..]);
      if k :| 0 <= k <= |a| && k < |b| && a[..k] == b[..k] && (k == |a| || a[k] < b[k]) {
        assert k > 0;
        assert a[1..][..k - 1] == a[..k][1..] && b[1..][..k - 1] == b[..k][1..];
      }
      if k :| 0 <= k <= |a[1..]| && k < |b[1..]| && a[1..][..k] == b[1..][..k] && (k == |a[1..]| || a[1..][k] < b[1..][k]) {
        assert a[..k + 1] == [a[0]] + a[1..][..k] && b[..k + 1] == [b[0]] + b[1..][..k];
      }
    }
  }

  lemma {:induction false} LessTransitive(a: string, b: string, c: string)
    requires Less(a, b) && Less(b, c)
    ensures Less(a, c)
  {
    if a != [] && a[0] == b[0] && b[0] == c[0] {
      LessTransitive(a[1..], b[1..], c[1..]);
    }
  }

  lemma {:induction false} LessAsymmetric(a: string, b: string)
    requires Less(a, b)
    ensures !Less(b, a)
  {
    if a != [] && a[0] == b[0] {
      LessAsymmetric(a[1..], b[1..]);
    }
  }

  lemma {:induction false} LessTotal(a: string, b: string)
    ensures a == b || Less(a, b) || Less(b, a)
  {
    if a != [] && b != [] && a[0] == b[0] {
      LessTotal(a[1..], b[1..]);
      assert a == [a[0]] + a[1..] && b == [b[0]] + b[1..];
    }
  }

  // ---------- sorting ----------

  predicate Sorted<T>(xs: seq<T>, key: T -> string) {
    forall i, j :: 0 <= i < j < |xs| ==> !Less(key(xs[j]), key(xs[i]))
  }

  function Insert<T>(xs: seq<T>, x: T, key: T -> string): seq<T> {
    if xs == [] || Less(key(x), key(xs[0])) then [x] + xs else [xs[0]] + Insert(xs[1..], x, key)
  }

  /** Stands for sort.Slice: some permutation in ascending order of the key. */
  function SortBy<T>(xs: seq<T>, key: T -> string): seq<T> {
    if xs == [] then [] else Insert(SortBy(xs[..|xs| - 1], key), xs[|xs| - 1], key)
  }

  lemma {:induction false} InsertSorts<T>(xs: seq<T>, x: T, key: T -> string)
    requires Sorted(xs, key)
    ensures Sorted(Insert(xs, x, key), key)
    ensures multiset(Insert(xs, x, key)) == multiset(xs) + multiset{x}
  {
    var r := Insert(xs, x, key);
    if xs == [] {
    } else if Less(key(x), key(xs[0])) {
      forall j | 0 <= j < |xs| ensures !Less(key(xs[j]), key(x)) {
        if Less(key(xs[j]), key(x)) {
          LessTransitive(key(xs[j]), key(x), key(xs[0]));
          LessAsymmetric(key(x), key(xs[0]));
        }
      }
    } else {
      var rest := Insert(xs[1..], x, key);
      InsertSorts(xs[1..], x, key);
      assert xs == [xs[0]] + xs[1..];
      forall j | 0 <= j < |rest| ensures !Less(key(rest[j]), key(xs[0])) {
        assert rest[j] in multiset(rest);
        assert rest[j] in multiset(xs[1..]) || rest[j] == x;
      }
    }
  }

  lemma {:induction false} SortBySorts<T>(xs: seq<T>, key: T -> string)
    ensures Sorted(SortBy(xs, key), key)
    ensures multiset(SortBy(xs, key)) == multiset(xs)
  {
    if xs != [] {
      var n := |xs| - 1;
      SortBySorts(xs[..n], key);
      InsertSorts(SortBy(xs[..n], key), xs[n], key);
      assert xs == xs[..n] + [xs[n]];
    }
  }

  // ---------- deduplication ----------

  function IdsOf(models: seq<Model>): (ids: seq<string>)
    ensures |ids| == |models| && forall k :: 0 <= k < |ids| ==> ids[k] == models[k].id
  {
    seq(|models|, k requires 0 <= k < |models| => models[k].id)
  }

  function Cleaned(m: Model): Model {
    var id, caption := TrimSpace(m.id), TrimSpace(m.caption);
    Model(id, if caption == "" then id else caption)
  }

  /** The id is trimmed, and so is the label, for which the id stands in. */
  lemma CleanedShows(m: Model)
    ensures Cleaned(m).id == TrimSpace(m.id)
    ensures Cleaned(m).caption == TrimSpace(if IsBlank(m.caption) then m.id else m.caption)
  {
  }

  function CleanIds(models: seq<Model>): (ids: seq<string>)
    ensures |ids| == |models| && forall k :: 0 <= k < |ids| ==> ids[k] == TrimSpace(models[k].id)
  {
    seq(|models|, k requires 0 <= k < |models| => TrimSpace(models[k].id))
  }

  /** A model with an id that no earlier one has. */
  predicate IsFirst(models: seq<Model>, k: nat)
    requires k < |models|
  {
    TrimSpace(models[k].id) != "" && TrimSpace(models[k].id) !in CleanIds(models[..k])
  }

  ghost predicate ComesFrom(models: seq<Model>, n: nat, m: Model)
    requires n <= |models|
  {
    exists k :: 0 <= k < n && IsFirst(models, k) && m == Cleaned(models[k])
  }

  /** Every id of the first n models once, each as its first appearance gave it. */
  ghost predicate IsDeduped(models: seq<Model>, n: nat, r: seq<Model>)
    requires n <= |models|
  {
    && NoDuplicates(IdsOf(r))
    && (forall m :: m in r ==> ComesFrom(models, n, m))
    && (forall k :: 0 <= k < n && IsFirst(models, k) ==> Cleaned(models[k]) in r)
  }

  lemma OriginIsSeen(models: seq<Model>, i: nat, m: Model)
    requires i <= |models| && ComesFrom(models, i, m)
    ensures m.id in CleanIds(models[..i])
  {
    var k :| 0 <= k < i && IsFirst(models, k) && m == Cleaned(models[k]);
    assert CleanIds(models[..i])[k] == m.id;
  }

  lemma AddFirst(models: seq<Model>, r: seq<Model>, i: nat)
    requires i < |models| && IsDeduped(models, i, r) && IsFirst(models, i)
    ensures IsDeduped(models, i + 1, r + [Cleaned(models[i])])
  {
    var r' := r + [Cleaned(models[i])];
    forall m | m in r' ensures ComesFrom(models, i + 1, m) {
      if m in r {
        assert ComesFrom(models, i, m);
      }
    }
    forall j | 0 <= j < |r| ensures r[j].id != TrimSpace(models[i].id) {
      OriginIsSeen(models, i, r[j]);
    }
  }

  lemma KeepSeen(models: seq<Model>, r: seq<Model>, i: nat)
    requires i < |models| && IsDeduped(models, i, r) && !IsFirst(models, i)
    ensures IsDeduped(models, i + 1, r)
  {
    forall m | m in r ensures ComesFrom(models, i + 1, m) {
      assert ComesFrom(models, i, m);
    }
  }

  lemma CleanIdsGrow(models: seq<Model>, i: nat)
    requires i < |models|
    ensures CleanIds(models[..i + 1]) == CleanIds(models[..i]) + [TrimSpace(models[i].id)]
  {
  }

  method DedupeModels(models: seq<Model>) returns (r: seq<Model>)
    ensures IsDeduped(models, |models|, r)
  {
    var seen: set<string> := {};
    r := [];
    var i := 0;
    while i < |models|
      invariant 0 <= i <= |models|
      invariant IsDeduped(models, i, r)
      invariant forall id :: id in seen <==> id != "" && id in CleanIds(models[..i])
    {
      var id := TrimSpace(models[i].id);
      CleanIdsGrow(models, i);
      if id == "" || id in seen {
        KeepSeen(models, r, i);
      } else {
        seen := seen + {id};
        var caption := TrimSpace(models[i].caption);
        if caption == "" {
          caption := id;
        }
        AddFirst(models, r, i);
        r := r + [Model(id, caption)];
      }
      i := i + 1;
    }
  }

  // ---------- what a discovery returns ----------

  /** Ascending by lower-cased id, and no id twice. */
  ghost predicate Presentable(models: seq<Model>, lower: string -> string) {
    Sorted(models, (m: Model) => lower(m.id)) && NoDuplicates(IdsOf(models))
  }

  lemma SortingKeepsDistinct(xs: seq<Model>, ys: seq<Model>)
    requires multiset(xs) == multiset(ys) && NoDuplicates(IdsOf(xs))
    ensures NoDuplicates(IdsOf(ys))
  {
    forall i, j | 0 <= i < j < |ys| ensures ys[i].id != ys[j].id {
      if ys[i].id == ys[j].id {
        assert ys[i] in multiset(ys) && ys[j] in multiset(ys);
        var a :| 0 <= a < |xs| && xs[a] == ys[i];
        var b :| 0 <= b < |xs| && xs[b] == ys[j];
        assert a == b by {
          assert IdsOf(xs)[a] == IdsOf(xs)[b];
        }
        CountedTwice(ys, i, j);
        CountedOnce(xs, a);
      }
    }
  }

  lemma CountedTwice<T>(ys: seq<T>, i: nat, j: nat)
    requires i < j < |ys| && ys[i] == ys[j]
    ensures multiset(ys)[ys[i]] >= 2
  {
    assert ys == ys[..j] + [ys[j]] + ys[j + 1..];
    assert ys[i] in ys[..j];
  }

  lemma CountedOnce(xs: seq<Model>, a: nat)
    requires a < |xs| && NoDuplicates(IdsOf(xs))
    ensures multiset(xs)[xs[a]] == 1
  {
    assert xs == xs[..a] + [xs[a]] + xs[a + 1..];
    assert xs[a] !in xs[..a] by {
      forall k | 0 <= k < a ensures xs[k] != xs[a] {
        assert IdsOf(xs)[k] != IdsOf(xs)[a];
      }
    }
    assert xs[a] !in xs[a + 1..] by {
      forall k | a < k < |xs| ensures xs[k] != xs[a] {
        assert IdsOf(xs)[k] != IdsOf(xs)[a];
      }
    }
  }

  /** Deduplicate, then sort. */
  method Discover(parsed: seq<Model>, lower: string -> string) returns (models: seq<Model>)
    ensures Presentable(models, lower)
    ensures forall m :: m in models ==> ComesFrom(parsed, |parsed|, m)
    ensures forall k :: 0 <= k < |parsed| && IsFirst(parsed, k) ==> Cleaned(parsed[k]) in models
  {
    var unique := DedupeModels(parsed);
    var key := (m: Model) => lower(m.id);
    models := SortBy(unique, key);
    SortBySorts(unique, key);
    SortingKeepsDistinct(unique, models);
    assert forall m :: m in unique <==> m in multiset(unique);
    assert forall m :: m in models <==> m in multiset(models);
  }

  // ---------- reading the listing ----------

  function Spaces(s: string): (n: nat)
    ensures n <= |s| && (forall k :: 0 <= k < n ==> s[k] == ' ') && (n < |s| ==> s[n] != ' ')
  {
    if s != [] && s[0] == ' ' then 1 + Spaces(s[1..]) else 0
  }

  /** The columns of what is left of a line, cur being the column under way. */
  function Columns(cur: string, s: string): seq<string>
    decreases |s|
  {
    if s == [] then (if cur == "" then [] else [cur])
    else if s[0] != ' ' then Columns(cur + [s[0]], s[1..])
    else if Spaces(s) >= 2 then [cur] + Columns("", s[Spaces(s)..])
    else Columns(cur + [' '], s[1..])
  }

  lemma SpacesAre(s: string, n: nat)
    requires n <= |s| && (forall k :: 0 <= k < n ==> s[k] == ' ') && (n < |s| ==> s[n] != ' ')
    ensures Spaces(s) == n
  {
  }

  /** A run of spaces from i to j ends the column, unless it is a single one. */
  lemma RunOfSpaces(s: string, i: nat, j: nat, cur: string)
    requires i < j <= |s| && (forall k :: i <= k < j ==> s[k] == ' ') && (j < |s| ==> s[j] != ' ')
    ensures Columns(cur, s[i..]) == if j - i >= 2 then [cur] + Columns("", s[j..]) else Columns(cur + [' '], s[j..])
  {
    var rest := s[i..];
    SpacesAre(rest, j - i);
    assert rest[j - i..] == s[j..] && rest[1..] == s[i + 1..];
  }

  method SplitByDoubleSpace(s: string) returns (parts: seq<string>)
    ensures parts == Columns("", s)
  {
    parts := [];
    var cur := "";
    var i := 0;
    while i < |s|
      invariant 0 <= i <= |s|
      invariant parts + Columns(cur, s[i..]) == Columns("", s)
    {
      if s[i] == ' ' {
        var j := i;
        while j < |s| && s[j] == ' '
          invariant i <= j <= |s|
          invariant forall k :: i <= k < j ==> s[k] == ' '
        {
          j := j + 1;
        }
        RunOfSpaces(s, i, j, cur);
        if j - i >= 2 {
          assert parts + ([cur] + Columns("", s[j..])) == parts + [cur] + Columns("", s[j..]);
          parts := parts + [cur];
          cur := "";
        } else {
          cur := cur + [s[i]];
        }
        i := j;
      } else {
        assert s[i..][1..] == s[i + 1..];
        cur := cur + [s[i]];
        i := i + 1;
      }
    }
    if |cur| > 0 {
      parts := parts + [cur];
    }
  }

  /** A column's text: not empty, no space at either end, no two together. */
  predicate IsCell(c: string) {
    c != "" && c[0] != ' ' && c[|c| - 1] != ' ' && forall k :: 0 <= k < |c| - 1 ==> c[k] != ' ' || c[k + 1] != ' '
  }

  predicate IsGap(g: string) {
    |g| >= 2 && forall k :: 0 <= k < |g| ==> g[k] == ' '
  }

  /** A row as the program lays it out: cells with a gap between neighbours. */
  function Row(cells: seq<string>, gaps: seq<string>): (row: string)
    requires |cells| == |gaps| + 1
    ensures cells[0] <= row
  {
    if gaps == [] then cells[0] else cells[0] + gaps[0] + Row(cells[1..], gaps[1..])
  }

  lemma {:induction false} CellPasses(cell: string, i: nat, rest: string)
    requires IsCell(cell) && i <= |cell|
    ensures Columns(cell[..i], cell[i..] + rest) == Columns(cell, rest)
    decreases |cell| - i
  {
    if i == |cell| {
      assert cell[i..] + rest == rest && cell[..i] == cell;
    } else {
      var s := cell[i..] + rest;
      if s[0] == ' ' {
        assert s[1] == cell[i + 1];
        SpacesAre(s, 1);
      }
      assert s[1..] == cell[i + 1..] + rest;
      assert cell[..i] + [s[0]] == cell[..i + 1];
      CellPasses(cell, i + 1, rest);
    }
  }

  /** However wide the gaps are, a row is read back as its cells. */
  lemma {:induction false} RowReadsBack(cells: seq<string>, gaps: seq<string>)
    requires |cells| == |gaps| + 1
    requires (forall c :: c in cells ==> IsCell(c)) && forall g :: g in gaps ==> IsGap(g)
    ensures Columns("", Row(cells, gaps)) == cells
    decreases |gaps|
  {
    var cell := cells[0];
    assert cell in cells;
    assert cell[..0] == "" && cell[0..] == cell;
    if gaps == [] {
      CellPasses(cell, 0, "");
      assert cell + "" == cell;
    } else {
      var gap, rest := gaps[0], Row(cells[1..], gaps[1..]);
      assert gap in gaps;
      CellPasses(cell, 0, gap + rest);
      assert cell + (gap + rest) == Row(cells, gaps);
      RowReadsBack(cells[1..], gaps[1..]);
      assert cells[1] in cells && cells[1] <= rest;
      assert forall k :: 0 <= k < |gap| ==> (gap + rest)[k] == gap[k];
      SpacesAre(gap + rest, |gap|);
      assert (gap + rest)[|gap|..] == rest;
    }
  }
}
