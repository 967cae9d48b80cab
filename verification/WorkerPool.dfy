/** The commit-stats worker pool: workers that share one index into the list of
    pending shas.  Between two awaits a worker runs alone, so an interleaving is a
    sequence of claims, finished fetches and failed fetches. */
module WorkerPool {
  import opened Common
  import opened CommitCache

  /** A worker remembers the index it holds, failed on or stopped at. */
  datatype Worker = Idle | Fetching(index: nat) | Failed(index: nat) | Done(index: nat)

  /** writes logs every store into the stats cache, in order. */
  datatype Pool = Pool(
    pending: seq<string>, commits: set<string>, nextIndex: nat, fetched: nat,
    stats: map<string, Stats>, writes: seq<string>, workers: seq<Worker>)

  datatype Event = Claim(worker: nat) | Finish(worker: nat, stats: Stats) | Fail(worker: nat)

  // ---------- the start ----------

  function Wanted(shas: seq<string>, stats: set<string>, refreshStats: bool): seq<string> {
    if shas == [] then []
    else
      var last := shas[|shas| - 1];
      Wanted(shas[..|shas| - 1], stats, refreshStats) + (if refreshStats || last !in stats then [last] else [])
  }

  function Take(xs: seq<string>, limit: nat): seq<string> {
    if |xs| <= limit then xs else xs[..limit]
  }

  function Start(shas: seq<string>, commits: set<string>, stats: map<string, Stats>, refreshStats: bool, limit: nat, concurrency: nat): Pool {
    var pending := Take(Wanted(shas, stats.Keys, refreshStats), limit);
    var size := if concurrency < |pending| then concurrency else |pending|;
    Pool(pending, commits, 0, 0, stats, [], seq(size, _ => Idle))
  }

  // ---------- steps ----------

  /** A sha whose stats the pool is to fetch. */
  predicate Eligible(p: Pool, i: nat)
    requires i < |p.pending|
  {
    p.pending[i] != "" && p.pending[i] in p.commits
  }

  function Next(p: Pool, e: Event): Option<Pool> {
    if e.worker >= |p.workers| then None
    else
      var me := p.workers[e.worker];
      match e
      case Claim(k) =>
        if me != Idle then None
        else
          var i := p.nextIndex;
          var mine :=
            if i >= |p.pending| || p.pending[i] == "" then Done(i)
            else if p.pending[i] !in p.commits then Idle
            else Fetching(i);
          Some(p.(nextIndex := i + 1, workers := p.workers[k := mine]))
      case Finish(k, stats) =>
        if !me.Fetching? || me.index >= |p.pending| then None
        else
          var sha := p.pending[me.index];
          Some(p.(stats := p.stats[sha := stats], writes := p.writes + [sha], fetched := p.fetched + 1,
                  workers := p.workers[k := Idle]))
      case Fail(k) =>
        if !me.Fetching? then None else Some(p.(workers := p.workers[k := Failed(me.index)]))
  }

  function Run(p: Pool, events: seq<Event>): Option<Pool> {
    if events == [] then Some(p)
    else
      var before := Run(p, events[..|events| - 1]);
      if before.None? then None else Next(before.value, events[|events| - 1])
  }

  /** Promise.all resolves: every worker has returned without an error. */
  predicate Finished(p: Pool) {
    forall k :: 0 <= k < |p.workers| ==> p.workers[k].Done?
  }

  // ---------- invariant ----------

  /** The index this worker was given last, if it still stands for it. */
  predicate Holds(w: Worker, i: nat) {
    (w.Fetching? || w.Failed? || w.Done?) && w.index == i
  }

  predicate WorkerOk(p: Pool, w: Worker) {
    match w
    case Idle => true
    case Done(i) => i < p.nextIndex && (i >= |p.pending| || p.pending[i] == "")
    case _ => w.index < p.nextIndex && w.index < |p.pending| && Eligible(p, w.index) && p.pending[w.index] !in p.writes
  }

  predicate IsHeld(p: Pool, i: nat) {
    exists k :: 0 <= k < |p.workers| && Holds(p.workers[k], i)
  }

  /** A claimed eligible sha has been written or is with a worker, and a claimed
      empty one has stopped a worker. */
  predicate Covered(p: Pool, i: nat)
    requires i < |p.pending|
  {
    && (Eligible(p, i) ==> p.pending[i] in p.writes || IsHeld(p, i))
    && (p.pending[i] == "" ==> IsHeld(p, i))
  }

  predicate IsWrite(p: Pool, sha: string) {
    exists i :: 0 <= i < |p.pending| && i < p.nextIndex && p.pending[i] == sha && Eligible(p, i)
  }

  predicate Inv(p: Pool) {
    && NoDuplicates(p.pending)
    && NoDuplicates(p.writes)
    && p.fetched == |p.writes|
    && (forall sha :: sha in p.writes ==> IsWrite(p, sha) && sha in p.stats)
    && (forall k :: 0 <= k < |p.workers| ==> WorkerOk(p, p.workers[k]))
    && (forall j, k :: 0 <= j < k < |p.workers| && p.workers[j] != Idle && p.workers[k] != Idle ==> p.workers[j].index != p.workers[k].index)
    && (forall i :: 0 <= i < p.nextIndex && i < |p.pending| ==> Covered(p, i))
    && (|p.workers| == 1 && p.workers[0].Done? ==> p.nextIndex == p.workers[0].index + 1)
  }

  lemma {:induction false} WantedIsDistinct(shas: seq<string>, stats: set<string>, refreshStats: bool)
    requires NoDuplicates(shas)
    ensures NoDuplicates(Wanted(shas, stats, refreshStats))
    ensures forall sha :: sha in Wanted(shas, stats, refreshStats) ==> sha in shas
  {
    if shas != [] {
      var init := shas[..|shas| - 1];
      WantedIsDistinct(init, stats, refreshStats);
      assert shas[|shas| - 1] !in init;
      assert shas[|shas| - 1] !in Wanted(init, stats, refreshStats);
    }
  }

  lemma StartOk(shas: seq<string>, commits: set<string>, stats: map<string, Stats>, refreshStats: bool, limit: nat, concurrency: nat)
    requires NoDuplicates(shas)
    ensures Inv(Start(shas, commits, stats, refreshStats, limit, concurrency))
  {
    WantedIsDistinct(shas, stats.Keys, refreshStats);
  }

  lemma NextCovers(p: Pool, e: Event)
    requires Inv(p) && Next(p, e).Some?
    ensures var p' := Next(p, e).value; forall i :: 0 <= i < p'.nextIndex && i < |p'.pending| ==> Covered(p', i)
  {
    var p' := Next(p, e).value;
    forall i | 0 <= i < p'.nextIndex && i < |p'.pending| ensures Covered(p', i) {
      if i < p.nextIndex {
        assert Covered(p, i);
        if IsHeld(p, i) && (p.pending[i] == "" || p.pending[i] !in p'.writes) {
          var k :| 0 <= k < |p.workers| && Holds(p.workers[k], i);
          assert WorkerOk(p, p.workers[k]);
          assert Holds(p'.workers[k], i);
        }
      } else if Eligible(p, i) || p.pending[i] == "" {
        assert Holds(p'.workers[e.worker], i);
      }
    }
  }

  lemma NextWrites(p: Pool, e: Event)
    requires Inv(p) && Next(p, e).Some?
    ensures var p' := Next(p, e).value;
            NoDuplicates(p'.writes) && forall sha :: sha in p'.writes ==> IsWrite(p', sha) && sha in p'.stats
  {
    var p' := Next(p, e).value;
    var me := p.workers[e.worker];
    assert WorkerOk(p, me);
    forall sha | sha in p'.writes ensures IsWrite(p', sha) && sha in p'.stats {
      if sha in p.writes {
        assert IsWrite(p, sha);
        var i :| 0 <= i < |p.pending| && i < p.nextIndex && p.pending[i] == sha && Eligible(p, i);
        assert p'.pending[i] == sha && Eligible(p', i);
      } else {
        assert p'.pending[me.index] == sha && Eligible(p', me.index);
      }
    }
  }

  lemma NextKeepsInv(p: Pool, e: Event)
    requires Inv(p) && Next(p, e).Some?
    ensures Inv(Next(p, e).value)
  {
    var p' := Next(p, e).value;
    NextCovers(p, e);
    NextWrites(p, e);
    forall k | 0 <= k < |p'.workers| ensures WorkerOk(p', p'.workers[k]) {
      assert WorkerOk(p, p.workers[k]);
    }
  }

  lemma {:induction false} RunKeepsInv(p: Pool, events: seq<Event>)
    requires Inv(p) && Run(p, events).Some?
    ensures var p' := Run(p, events).value;
            Inv(p') && p'.pending == p.pending && p'.commits == p.commits && |p'.workers| == |p.workers|
            && p.stats.Keys <= p'.stats.Keys && p'.stats.Keys == p.stats.Keys + (set sha | sha in p'.writes)
  {
    if events != [] {
      RunKeepsInv(p, events[..|events| - 1]);
      NextKeepsInv(Run(p, events[..|events| - 1]).value, events[|events| - 1]);
    }
  }

  // ---------- every scheduling ----------

  /** Every eligible sha of the pending list has been stored. */
  predicate AllFetched(p: Pool) {
    forall i :: 0 <= i < |p.pending| && Eligible(p, i) ==> p.pending[i] in p.writes
  }

  /** An empty sha stands before an eligible one. */
  predicate EmptyInTheWay(p: Pool) {
    exists i, j :: 0 <= i < j < |p.pending| && p.pending[i] == "" && Eligible(p, j)
  }

  /** No index is held by two workers, and no sha is ever stored twice. */
  lemma NothingTwice(shas: seq<string>, commits: set<string>, stats: map<string, Stats>, refreshStats: bool,
                     limit: nat, concurrency: nat, events: seq<Event>)
    requires NoDuplicates(shas)
    requires Run(Start(shas, commits, stats, refreshStats, limit, concurrency), events).Some?
    ensures var p := Run(Start(shas, commits, stats, refreshStats, limit, concurrency), events).value;
            && (forall j, k :: 0 <= j < k < |p.workers| && p.workers[j].Fetching? && p.workers[k].Fetching? ==>
                  p.workers[j].index != p.workers[k].index)
            && NoDuplicates(p.writes)
            && p.fetched == |p.writes| <= |p.pending| <= limit
            && (forall sha :: sha in p.writes ==> sha in p.pending && sha in p.commits && sha != "")
            && p.stats.Keys == stats.Keys + (set sha | sha in p.writes)
  {
    var start := Start(shas, commits, stats, refreshStats, limit, concurrency);
    StartOk(shas, commits, stats, refreshStats, limit, concurrency);
    RunKeepsInv(start, events);
    var p := Run(start, events).value;
    forall sha | sha in p.writes ensures sha in p.pending && sha in p.commits && sha != "" {
      assert IsWrite(p, sha);
    }
    DistinctFit(p.writes, p.pending);
  }

  /** When all workers finish without error, every pending sha with a cached commit
      has been stored - except that a single worker stops at an empty sha and leaves
      what stands behind it. */
  lemma AllFetchedIff(shas: seq<string>, commits: set<string>, stats: map<string, Stats>, refreshStats: bool,
                      limit: nat, concurrency: nat, events: seq<Event>)
    requires NoDuplicates(shas) && concurrency >= 1
    requires Run(Start(shas, commits, stats, refreshStats, limit, concurrency), events).Some?
    requires Finished(Run(Start(shas, commits, stats, refreshStats, limit, concurrency), events).value)
    ensures var start := Start(shas, commits, stats, refreshStats, limit, concurrency);
            AllFetched(Run(start, events).value) <==> !(|start.workers| == 1 && EmptyInTheWay(start))
  {
    var start := Start(shas, commits, stats, refreshStats, limit, concurrency);
    StartOk(shas, commits, stats, refreshStats, limit, concurrency);
    RunKeepsInv(start, events);
    var p := Run(start, events).value;
    if |start.workers| == 1 {
      OneWorker(p);
      assert forall j :: 0 <= j < |p.pending| ==> Eligible(start, j) == Eligible(p, j);
    } else if |start.workers| >= 2 {
      TwoWorkers(p);
    }
  }

  /** All indices up to the end were claimed. */
  lemma ClaimedMeansFetched(p: Pool, n: nat)
    requires Inv(p) && Finished(p) && n <= p.nextIndex && n <= |p.pending|
    ensures forall i :: 0 <= i < n && Eligible(p, i) ==> p.pending[i] in p.writes
  {
    forall i | 0 <= i < n && Eligible(p, i) ensures p.pending[i] in p.writes {
      assert Covered(p, i);
      forall k | 0 <= k < |p.workers| ensures !Holds(p.workers[k], i) {
        assert WorkerOk(p, p.workers[k]);
      }
    }
  }

  /** Two workers cannot both stop at the one empty sha, so one reached the end. */
  lemma TwoWorkers(p: Pool)
    requires Inv(p) && Finished(p) && |p.workers| >= 2
    ensures AllFetched(p)
  {
    var v, w := p.workers[0], p.workers[1];
    assert WorkerOk(p, v) && WorkerOk(p, w);
    assert v.index >= |p.pending| || w.index >= |p.pending|;
    ClaimedMeansFetched(p, |p.pending|);
  }

  lemma OneWorker(p: Pool)
    requires Inv(p) && Finished(p) && |p.workers| == 1
    ensures AllFetched(p) <==> !EmptyInTheWay(p)
  {
    var n := p.workers[0].index;
    assert WorkerOk(p, p.workers[0]);
    ClaimedMeansFetched(p, if n < |p.pending| then n else |p.pending|);
    if EmptyInTheWay(p) {
      var i, j :| 0 <= i < j < |p.pending| && p.pending[i] == "" && Eligible(p, j);
      assert n == i by {
        if i < p.nextIndex {
          assert Covered(p, i);
        }
      }
      assert p.pending[j] in p.writes ==> IsWrite(p, p.pending[j]);
      assert !IsWrite(p, p.pending[j]);
    }
  }

  // ---------- what is pending, and what is stored ----------

  /** Exactly those without statistics, or all of them on a refresh, in order. */
  lemma {:induction false} WantedIff(shas: seq<string>, stats: set<string>, refreshStats: bool)
    ensures forall sha :: sha in Wanted(shas, stats, refreshStats) <==> sha in shas && (refreshStats || sha !in stats)
    ensures |Wanted(shas, stats, refreshStats)| <= |shas|
  {
    if shas != [] {
      WantedIff(shas[..|shas| - 1], stats, refreshStats);
      assert shas == shas[..|shas| - 1] + [shas[|shas| - 1]];
    }
  }

  lemma {:induction false} WantedInOrder(a: seq<string>, b: seq<string>, stats: set<string>, refreshStats: bool)
    ensures Wanted(a + b, stats, refreshStats) == Wanted(a, stats, refreshStats) + Wanted(b, stats, refreshStats)
  {
    if b == [] {
      assert a + b == a;
    } else {
      var n := |b| - 1;
      WantedInOrder(a, b[..n], stats, refreshStats);
      assert (a + b)[..|a| + n] == a + b[..n];
    }
  }

  /** What a finished fetch brings is what the service has for the sha that its worker holds. */
  predicate Brings(p: Pool, e: Event, fetch: string -> Stats) {
    e.Finish? && e.worker < |p.workers| && p.workers[e.worker].Fetching? && p.workers[e.worker].index < |p.pending| ==>
      e.stats == fetch(p.pending[p.workers[e.worker].index])
  }

  predicate AllBring(p: Pool, events: seq<Event>, fetch: string -> Stats) {
    events != [] ==>
      var n := |events| - 1;
      AllBring(p, events[..n], fetch) && (Run(p, events[..n]).Some? ==> Brings(Run(p, events[..n]).value, events[n], fetch))
  }

  /** Under every scheduling each sha that was written holds what its own fetch brought, and all
      other statistics are as they were. */
  lemma {:induction false} StatsAreFetched(p: Pool, events: seq<Event>, fetch: string -> Stats)
    requires p.writes == [] && Run(p, events).Some? && AllBring(p, events, fetch)
    ensures var p' := Run(p, events).value;
      && (forall sha :: sha in p'.writes ==> sha in p'.stats && p'.stats[sha] == fetch(sha))
      && (forall sha :: sha in p.stats && sha !in p'.writes ==> sha in p'.stats && p'.stats[sha] == p.stats[sha])
  {
    if events != [] {
      StatsAreFetched(p, events[..|events| - 1], fetch);
    }
  }

  /** So when the limit allows for all of them and every worker finishes without error, every
      commit has statistics in the end: those that were there, unless they are refreshed, and
      otherwise those that the service has for it. */
  lemma EverybodyHasStats(shas: seq<string>, commits: set<string>, stats: map<string, Stats>, refreshStats: bool,
                          limit: nat, concurrency: nat, events: seq<Event>, fetch: string -> Stats)
    requires NoDuplicates(shas) && concurrency >= 1 && "" !in shas && |shas| <= limit
    requires var start := Start(shas, commits, stats, refreshStats, limit, concurrency);
      Run(start, events).Some? && Finished(Run(start, events).value) && AllBring(start, events, fetch)
    ensures var p := Run(Start(shas, commits, stats, refreshStats, limit, concurrency), events).value;
      forall sha :: sha in shas && sha in commits ==>
        sha in p.stats && p.stats[sha] == if sha in stats && !refreshStats then stats[sha] else fetch(sha)
  {
    var start := Start(shas, commits, stats, refreshStats, limit, concurrency);
    AllNamedAreFetched(shas, commits, stats, refreshStats, limit, concurrency, events);
    NothingTwice(shas, commits, stats, refreshStats, limit, concurrency, events);
    StatsAreFetched(start, events, fetch);
    WantedIff(shas, stats.Keys, refreshStats);
    assert start.pending == Wanted(shas, stats.Keys, refreshStats);
    var p := Run(start, events).value;
    PendingStays(start, events);
    forall sha | sha in shas && sha in commits
      ensures sha in p.stats && p.stats[sha] == if sha in stats && !refreshStats then stats[sha] else fetch(sha)
    {
      if sha in start.pending {
        var i :| 0 <= i < |p.pending| && p.pending[i] == sha;
        assert Eligible(p, i);
      }
    }
  }

  lemma {:induction false} PendingStays(p: Pool, events: seq<Event>)
    requires Run(p, events).Some?
    ensures Run(p, events).value.pending == p.pending && Run(p, events).value.commits == p.commits
  {
    if events != [] {
      PendingStays(p, events[..|events| - 1]);
    }
  }

  // ---------- runs that finish ----------

  lemma RunFirst(p: Pool, e: Event, rest: seq<Event>)
    requires Next(p, e).Some?
    ensures Run(p, [e] + rest) == Run(Next(p, e).value, rest)
  {
    if rest == [] {
      assert ([e] + rest)[..0] == [] && Run(p, []) == Some(p);
      assert [e] + rest == [e];
    } else {
      var n := |rest| - 1;
      RunFirst(p, e, rest[..n]);
      assert ([e] + rest)[..n + 1] == [e] + rest[..n];
    }
  }

  /** The first k workers have stopped, and the others wait for their turn. */
  predicate IsDraining(p: Pool, k: nat) {
    && k <= |p.workers|
    && (forall i :: 0 <= i < k ==> p.workers[i].Done?)
    && (forall i :: k <= i < |p.workers| ==> p.workers[i] == Idle)
  }

  function Left(p: Pool): nat {
    if p.nextIndex < |p.pending| then |p.pending| - p.nextIndex else 0
  }

  /** Workers that take turns, each going on until it stops, finish. */
  lemma {:induction false} Drains(p: Pool, k: nat, stats: Stats) returns (events: seq<Event>)
    requires IsDraining(p, k)
    ensures Run(p, events).Some? && Finished(Run(p, events).value)
    decreases |p.workers| - k, Left(p)
  {
    if k == |p.workers| {
      events := [];
    } else {
      var claimed := Next(p, Claim(k)).value;
      var mine := claimed.workers[k];
      if mine.Done? {
        events := Drains(claimed, k + 1, stats);
      } else if mine == Idle {
        events := Drains(claimed, k, stats);
      } else {
        var stored := Next(claimed, Finish(k, stats)).value;
        events := Drains(stored, k, stats);
        RunFirst(claimed, Finish(k, stats), events);
        events := [Finish(k, stats)] + events;
      }
      RunFirst(p, Claim(k), events);
      events := [Claim(k)] + events;
    }
  }

  /** Every pool can finish, whatever the fetches return. */
  lemma EveryPoolCanFinish(shas: seq<string>, commits: set<string>, stats: map<string, Stats>, refreshStats: bool,
                           limit: nat, concurrency: nat, fetched: Stats) returns (events: seq<Event>)
    ensures var end := Run(Start(shas, commits, stats, refreshStats, limit, concurrency), events);
            end.Some? && Finished(end.value)
  {
    events := Drains(Start(shas, commits, stats, refreshStats, limit, concurrency), 0, fetched);
  }

  /** No sha that the search service returns is empty: when all workers finish without error,
      every pending sha with a cached commit has been stored. */
  lemma AllNamedAreFetched(shas: seq<string>, commits: set<string>, stats: map<string, Stats>, refreshStats: bool,
                           limit: nat, concurrency: nat, events: seq<Event>)
    requires NoDuplicates(shas) && concurrency >= 1 && "" !in shas
    requires Run(Start(shas, commits, stats, refreshStats, limit, concurrency), events).Some?
    requires Finished(Run(Start(shas, commits, stats, refreshStats, limit, concurrency), events).value)
    ensures AllFetched(Run(Start(shas, commits, stats, refreshStats, limit, concurrency), events).value)
  {
    var start := Start(shas, commits, stats, refreshStats, limit, concurrency);
    WantedIsDistinct(shas, stats.Keys, refreshStats);
    assert forall sha :: sha in start.pending ==> sha in Wanted(shas, stats.Keys, refreshStats);
    assert !EmptyInTheWay(start) by {
      assert forall i :: 0 <= i < |start.pending| ==> start.pending[i] in shas;
    }
    AllFetchedIff(shas, commits, stats, refreshStats, limit, concurrency, events);
  }

  /** What the guard for an empty sha would do to a lone worker. */
  lemma EmptyShaStopsLoneWorker()
    ensures var start := Start(["", "a"], {"a"}, map[], false, 2, 1);
            var end := Run(start, [Claim(0)]);
            end.Some? && Finished(end.value) && !AllFetched(end.value)
  {
    var start := Start(["", "a"], {"a"}, map[], false, 2, 1);
    BothArePending();
    LoneWorkerStops(start);
    var end := Run(start, [Claim(0)]).value;
    assert end.pending[1] == "a" && Eligible(end, 1);
  }

  lemma BothArePending()
    ensures Start(["", "a"], {"a"}, map[], false, 2, 1) == Pool(["", "a"], {"a"}, 0, 0, map[], [], [Idle])
  {
    assert ["", "a"][..1] == [""] && [""][..0] == [];
    assert Wanted([""], {}, false) == [""] && Wanted(["", "a"], {}, false) == ["", "a"];
  }

  lemma LoneWorkerStops(p: Pool)
    requires p.workers == [Idle] && p.nextIndex == 0 && |p.pending| > 0 && p.pending[0] == ""
    ensures var end := Run(p, [Claim(0)]);
      end.Some? && Finished(end.value) && end.value.pending == p.pending && end.value.commits == p.commits && end.value.writes == p.writes
  {
    RunFirst(p, Claim(0), []);
    assert [Claim(0)] + [] == [Claim(0)];
  }
}
