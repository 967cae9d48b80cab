/** The org-chart builder: a forest of agents from their reports-to links, which
    may dangle or form cycles. */
module OrgTree {
  import opened Common

  datatype Agent = Agent(slug: string, name: string, role: string, reportsTo: Option<string>)

  datatype OrgNode = OrgNode(id: string, name: string, role: string, status: string, reports: seq<OrgNode>)

  const ROLE_LABELS: map<string, string> := map[
    "ceo" := "Chief Executive", "cto" := "Technology", "cmo" := "Marketing", "cfo" := "Finance",
    "coo" := "Operations", "vp" := "VP", "manager" := "Manager", "engineer" := "Engineer", "agent" := "Agent"]

  function RoleLabel(role: string): string {
    if role in ROLE_LABELS then ROLE_LABELS[role] else role
  }

  predicate DistinctSlugs(agents: seq<Agent>) {
    forall i, j :: 0 <= i < j < |agents| ==> agents[i].slug != agents[j].slug
  }

  predicate IsSlug(agents: seq<Agent>, slug: string) {
    exists i :: 0 <= i < |agents| && agents[i].slug == slug
  }

  /** A manager slug that is set but names no agent. */
  predicate Dangling(agents: seq<Agent>, a: Agent) {
    a.reportsTo.Some? && a.reportsTo.value != "" && !IsSlug(agents, a.reportsTo.value)
  }

  /** Where the forest starts: no manager, or one that is not among the agents.  An empty manager
      slug is neither, as in the source, though the package reader turns one into no manager. */
  predicate IsRoot(agents: seq<Agent>, a: Agent) {
    a.reportsTo.None? || Dangling(agents, a)
  }

  /** The agents with this manager, in input order. */
  function ReportsOf(agents: seq<Agent>, manager: Option<string>): (r: seq<Agent>)
    ensures |r| <= |agents|
    ensures forall a {:trigger a in r} :: a in r <==> a in agents && a.reportsTo == manager
  {
    if agents == [] then []
    else
      var last := agents[|agents| - 1];
      ReportsOf(agents[..|agents| - 1], manager) + (if last.reportsTo == manager then [last] else [])
  }

  /** The agents among the first n whose manager is unknown, in input order. */
  function DanglingAmong(agents: seq<Agent>, n: nat): (r: seq<Agent>)
    requires n <= |agents|
    ensures forall a {:trigger a in r} :: a in r <==> a in agents[..n] && Dangling(agents, a)
  {
    if n == 0 then []
    else DanglingAmong(agents, n - 1) + (if Dangling(agents, agents[n - 1]) then [agents[n - 1]] else [])
  }

  // ---------- manager chains ----------

  /** A chain of agents from a root down: each next one reports to the one before. */
  predicate IsChain(agents: seq<Agent>, chain: seq<Agent>) {
    chain != [] &&
      var n := |chain| - 1;
      && chain[n] in agents
      && if n == 0 then IsRoot(agents, chain[0])
         else IsChain(agents, chain[..n]) && chain[n].reportsTo == Some(chain[n - 1].slug)
  }

  /** So is every chain's beginning, and it starts with a root. */
  lemma {:induction false} ChainPrefix(agents: seq<Agent>, chain: seq<Agent>, k: nat)
    requires IsChain(agents, chain) && 1 <= k <= |chain|
    ensures IsChain(agents, chain[..k]) && chain[k - 1] in agents && IsRoot(agents, chain[0])
    ensures k > 1 ==> chain[k - 1].reportsTo == Some(chain[k - 2].slug)
  {
    var n := |chain| - 1;
    if k <= n {
      ChainPrefix(agents, chain[..n], k);
      assert chain[..n][..k] == chain[..k];
    } else {
      assert chain[..k] == chain;
      if n > 0 {
        ChainPrefix(agents, chain[..n], 1);
      }
    }
  }

  /** Climbing from manager to manager, this agent ends at nobody or at an unknown slug. */
  ghost predicate Grounded(agents: seq<Agent>, slug: string) {
    exists chain: seq<Agent> :: IsChain(agents, chain) && chain[|chain| - 1].slug == slug
  }

  lemma SameAgent(agents: seq<Agent>, a: Agent, b: Agent)
    requires DistinctSlugs(agents) && a in agents && b in agents && a.slug == b.slug
    ensures a == b
  {
    var i :| 0 <= i < |agents| && agents[i] == a;
    var j :| 0 <= j < |agents| && agents[j] == b;
    assert i == j;
  }

  lemma OnlyTheTopIsRoot(agents: seq<Agent>, c: seq<Agent>)
    requires IsChain(agents, c)
    ensures IsRoot(agents, c[|c| - 1]) <==> |c| == 1
  {
    if |c| > 1 {
      assert c[|c| - 2] in agents && c[|c| - 1].reportsTo == Some(c[|c| - 2].slug);
      assert IsSlug(agents, c[|c| - 2].slug);
    }
  }

  lemma {:induction false} ChainIsUnique(agents: seq<Agent>, c: seq<Agent>, d: seq<Agent>)
    requires DistinctSlugs(agents) && IsChain(agents, c) && IsChain(agents, d)
    requires c[|c| - 1].slug == d[|d| - 1].slug
    ensures c == d
    decreases |c| + |d|
  {
    SameAgent(agents, c[|c| - 1], d[|d| - 1]);
    OnlyTheTopIsRoot(agents, c);
    OnlyTheTopIsRoot(agents, d);
    if |c| > 1 {
      ChainIsUnique(agents, c[..|c| - 1], d[..|d| - 1]);
    }
  }

  lemma ChainsEndApart(agents: seq<Agent>, c: seq<Agent>, d: seq<Agent>)
    requires DistinctSlugs(agents) && IsChain(agents, c) && IsChain(agents, d) && |c| != |d|
    ensures c[|c| - 1] != d[|d| - 1]
  {
    if c[|c| - 1] == d[|d| - 1] {
      ChainIsUnique(agents, c, d);
    }
  }

  lemma LastIsNew(agents: seq<Agent>, chain: seq<Agent>, i: nat)
    requires DistinctSlugs(agents) && IsChain(agents, chain) && i < |chain| - 1
    ensures chain[i] != chain[|chain| - 1]
  {
    var c := chain[..i + 1];
    ChainPrefix(agents, chain, i + 1);
    ChainsEndApart(agents, c, chain);
    assert c[|c| - 1] == chain[i];
  }

  lemma {:induction false} ChainNeverRepeats(agents: seq<Agent>, chain: seq<Agent>)
    requires DistinctSlugs(agents) && IsChain(agents, chain)
    ensures NoDuplicates(chain) && forall a :: a in chain ==> a in agents
  {
    var n := |chain| - 1;
    if n > 0 {
      ChainNeverRepeats(agents, chain[..n]);
      forall i | 0 <= i < n ensures chain[i] != chain[n] {
        LastIsNew(agents, chain, i);
      }
      assert chain == chain[..n] + [chain[n]];
    }
  }

  /** Chains never repeat an agent, so none is longer than the list of agents. */
  lemma ChainIsShort(agents: seq<Agent>, chain: seq<Agent>)
    requires DistinctSlugs(agents) && IsChain(agents, chain)
    ensures |chain| <= |agents|
  {
    ChainNeverRepeats(agents, chain);
    DistinctFit(chain, agents);
  }

  // ---------- the forest ----------

  /** These agents may stand right below this path. */
  predicate Below(agents: seq<Agent>, members: seq<Agent>, path: seq<Agent>) {
    forall m {:trigger IsChain(agents, path + [m])} :: m in members ==> IsChain(agents, path + [m])
  }

  lemma ReportsAreBelow(agents: seq<Agent>, path: seq<Agent>)
    requires IsChain(agents, path)
    ensures Below(agents, ReportsOf(agents, Some(path[|path| - 1].slug)), path)
  {
    forall m | m in ReportsOf(agents, Some(path[|path| - 1].slug)) ensures IsChain(agents, path + [m]) {
      assert (path + [m])[..|path|] == path;
    }
  }

  function NodeOf(a: Agent, reports: seq<OrgNode>): OrgNode {
    OrgNode(a.slug, a.name, RoleLabel(a.role), "active", reports)
  }

  /** The nodes of agents that stand below a path.  The recursion ends because every
      path it follows is a chain, whatever cycles the rest of the data holds. */
  function BuildAll(agents: seq<Agent>, members: seq<Agent>, path: seq<Agent>): seq<OrgNode>
    requires DistinctSlugs(agents) && Below(agents, members, path)
    decreases |agents| - |path|, |members|
  {
    if members == [] then []
    else
      var n := |members| - 1;
      var here := path + [members[n]];
      assert IsChain(agents, here);
      ChainIsShort(agents, here);
      ReportsAreBelow(agents, here);
      BuildAll(agents, members[..n], path)
      + [NodeOf(members[n], BuildAll(agents, ReportsOf(agents, Some(members[n].slug)), here))]
  }

  /** The reports of the last agent of a path. */
  function Build(agents: seq<Agent>, path: seq<Agent>): seq<OrgNode>
    requires DistinctSlugs(agents) && IsChain(agents, path)
  {
    ReportsAreBelow(agents, path);
    BuildAll(agents, ReportsOf(agents, Some(path[|path| - 1].slug)), path)
  }

  function Forest(agents: seq<Agent>): seq<OrgNode>
    requires DistinctSlugs(agents)
  {
    BuildAll(agents, ReportsOf(agents, None), []) + BuildAll(agents, DanglingAmong(agents, |agents|), [])
  }

  // ---------- what the forest holds ----------

  /** All ids of a forest, each node before its reports. */
  function Ids(forest: seq<OrgNode>): seq<string>
    decreases forest
  {
    if forest == [] then [] else Ids(forest[..|forest| - 1]) + IdsOf(forest[|forest| - 1])
  }

  function IdsOf(n: OrgNode): seq<string>
    decreases n
  {
    [n.id] + Ids(n.reports)
  }

  /** The node has the agent's slug and name, and the label of its role. */
  predicate Shows(n: OrgNode, a: Agent) {
    n.id == a.slug && n.name == a.name && n.role == RoleLabel(a.role) && n.status == "active"
  }

  /** Nine roles have a label, and any other stands for itself. */
  lemma RoleLabels(role: string)
    ensures RoleLabel("ceo") == "Chief Executive" && RoleLabel("cto") == "Technology" && RoleLabel("cmo") == "Marketing"
    ensures RoleLabel("cfo") == "Finance" && RoleLabel("coo") == "Operations" && RoleLabel("vp") == "VP"
    ensures RoleLabel("manager") == "Manager" && RoleLabel("engineer") == "Engineer" && RoleLabel("agent") == "Agent"
    ensures role !in ["ceo", "cto", "cmo", "cfo", "coo", "vp", "manager", "engineer", "agent"] ==> RoleLabel(role) == role
  {
    assert "ceo" in ROLE_LABELS && "cto" in ROLE_LABELS && "cmo" in ROLE_LABELS && "cfo" in ROLE_LABELS && "coo" in ROLE_LABELS;
    assert "ceo"[1] == 'e' && "cto"[1] == 't' && "cmo"[1] == 'm' && "cfo"[1] == 'f' && "coo"[1] == 'o' && |"vp"| == 2;
    assert |"manager"| == 7 && |"engineer"| == 8 && |"agent"| == 5;
  }

  /** A node shows one of the agents, and its reports are nodes of agents who report to it. */
  predicate WellPlaced(agents: seq<Agent>, n: OrgNode)
    decreases n
  {
    && (exists a :: a in agents && Shows(n, a))
    && forall k :: 0 <= k < |n.reports| ==>
         && WellPlaced(agents, n.reports[k])
         && exists a :: a in agents && a.slug == n.reports[k].id && a.reportsTo == Some(n.id)
  }

  lemma IdsOfLast(f: seq<OrgNode>, n: OrgNode)
    ensures Ids(f + [n]) == Ids(f) + IdsOf(n)
  {
    assert (f + [n])[..|f|] == f;
  }

  lemma {:induction false} IdsAppend(f: seq<OrgNode>, g: seq<OrgNode>)
    ensures Ids(f + g) == Ids(f) + Ids(g)
  {
    if g == [] {
      assert f + g == f;
    } else {
      var init, last := g[..|g| - 1], g[|g| - 1];
      assert g == init + [last] && f + g == (f + init) + [last];
      IdsAppend(f, init);
      IdsOfLast(f + init, last);
      IdsOfLast(init, last);
    }
  }

  lemma LastIsBelow(agents: seq<Agent>, members: seq<Agent>, path: seq<Agent>)
    requires DistinctSlugs(agents) && Below(agents, members, path) && members != []
    ensures var n := |members| - 1;
            var here := path + [members[n]];
            && IsChain(agents, here) && |here| <= |agents|
            && Below(agents, ReportsOf(agents, Some(members[n].slug)), here) && Below(agents, members[..n], path)
  {
    var n := |members| - 1;
    var here := path + [members[n]];
    assert members[n] in members && IsChain(agents, here);
    ChainIsShort(agents, here);
    ReportsAreBelow(agents, here);
  }

  lemma LastMember(agents: seq<Agent>, members: seq<Agent>, path: seq<Agent>)
    requires DistinctSlugs(agents) && Below(agents, members, path) && members != []
    ensures var n := |members| - 1;
            var here, below := path + [members[n]], ReportsOf(agents, Some(members[n].slug));
            && |here| <= |agents| && Below(agents, below, here) && Below(agents, members[..n], path)
            && BuildAll(agents, members, path)
               == BuildAll(agents, members[..n], path) + [NodeOf(members[n], BuildAll(agents, below, here))]
  {
    LastIsBelow(agents, members, path);
  }

  lemma LastIds(agents: seq<Agent>, members: seq<Agent>, path: seq<Agent>)
    requires DistinctSlugs(agents) && Below(agents, members, path) && members != []
    ensures var n := |members| - 1;
            var here, below := path + [members[n]], ReportsOf(agents, Some(members[n].slug));
            && |here| <= |agents| && Below(agents, below, here) && Below(agents, members[..n], path)
            && Ids(BuildAll(agents, members, path))
               == Ids(BuildAll(agents, members[..n], path)) + ([members[n].slug] + Ids(BuildAll(agents, below, here)))
  {
    LastMember(agents, members, path);
    var n := |members| - 1;
    var here, below := path + [members[n]], ReportsOf(agents, Some(members[n].slug));
    var node := NodeOf(members[n], BuildAll(agents, below, here));
    IdsOfLast(BuildAll(agents, members[..n], path), node);
  }

  /** A chain that runs along the path, continues with a member and ends at id. */
  predicate Runs(agents: seq<Agent>, chain: seq<Agent>, path: seq<Agent>, members: seq<Agent>, id: string) {
    && IsChain(agents, chain) && chain[|chain| - 1].slug == id
    && |chain| > |path| && path == chain[..|path|] && chain[|path|] in members
  }

  lemma RunsAbove(agents: seq<Agent>, chain: seq<Agent>, path: seq<Agent>, m: Agent, below: seq<Agent>, members: seq<Agent>, id: string)
    requires Runs(agents, chain, path + [m], below, id) && m in members
    ensures Runs(agents, chain, path, members, id)
  {
    assert path == (path + [m])[..|path|] == chain[..|path|];
    assert chain[|path|] == (path + [m])[|path|];
  }

  /** Some agent below a path has this id. */
  ghost predicate Listed(agents: seq<Agent>, members: seq<Agent>, path: seq<Agent>, id: string)
    requires DistinctSlugs(agents) && Below(agents, members, path)
    decreases |agents| - |path|, |members|
  {
    members != [] &&
      var n := |members| - 1;
      LastIsBelow(agents, members, path);
      (members[n].slug == id
       || Listed(agents, members[..n], path, id)
       || Listed(agents, ReportsOf(agents, Some(members[n].slug)), path + [members[n]], id))
  }

  lemma InEither(x: string, a: seq<string>, y: string, b: seq<string>)
    ensures x in a + ([y] + b) <==> x in a || x == y || x in b
  {
  }

  lemma {:induction false} ListedIff(agents: seq<Agent>, members: seq<Agent>, path: seq<Agent>, id: string)
    requires DistinctSlugs(agents) && Below(agents, members, path)
    ensures Listed(agents, members, path, id) <==> id in Ids(BuildAll(agents, members, path))
    decreases |agents| - |path|, |members|
  {
    if members != [] {
      LastIds(agents, members, path);
      var n := |members| - 1;
      var here, below := path + [members[n]], ReportsOf(agents, Some(members[n].slug));
      ListedIff(agents, members[..n], path, id);
      ListedIff(agents, below, here, id);
      InEither(id, Ids(BuildAll(agents, members[..n], path)), members[n].slug, Ids(BuildAll(agents, below, here)));
    }
  }

  /** Every id below a path belongs to a chain that extends the path by a member. */
  lemma {:induction false} IdsAreBelow(agents: seq<Agent>, members: seq<Agent>, path: seq<Agent>, id: string)
    returns (chain: seq<Agent>)
    requires DistinctSlugs(agents) && Below(agents, members, path) && Listed(agents, members, path, id)
    ensures Runs(agents, chain, path, members, id)
    decreases |agents| - |path|, |members|
  {
    LastIsBelow(agents, members, path);
    var n := |members| - 1;
    var m := members[n];
    var here, below := path + [m], ReportsOf(agents, Some(m.slug));
    if id == m.slug {
      chain := here;
    } else if Listed(agents, below, here, id) {
      chain := IdsAreBelow(agents, below, here, id);
      RunsAbove(agents, chain, path, m, below, members, id);
    } else {
      chain := IdsAreBelow(agents, members[..n], path, id);
    }
  }

  /** Such a chain ends at the last member, goes on with an earlier one, or goes on below the last. */
  lemma RunsInto(agents: seq<Agent>, chain: seq<Agent>, path: seq<Agent>, members: seq<Agent>, id: string)
    requires Runs(agents, chain, path, members, id)
    ensures members != []
    ensures var n := |members| - 1;
            || id == members[n].slug
            || Runs(agents, chain, path, members[..n], id)
            || Runs(agents, chain, path + [members[n]], ReportsOf(agents, Some(members[n].slug)), id)
  {
    var n := |members| - 1;
    assert members == members[..n] + [members[n]];
    if chain[|path|] == members[n] && |chain| > |path| + 1 {
      NextIsReport(agents, chain, path + [members[n]]);
    }
  }

  /** And every chain that extends the path by a member ends in a listed id. */
  lemma {:induction false} ChainsAreListed(agents: seq<Agent>, members: seq<Agent>, path: seq<Agent>, chain: seq<Agent>, id: string)
    requires DistinctSlugs(agents) && Below(agents, members, path) && Runs(agents, chain, path, members, id)
    ensures Listed(agents, members, path, id)
    decreases |agents| - |path|, |members|
  {
    RunsInto(agents, chain, path, members, id);
    LastIsBelow(agents, members, path);
    var n := |members| - 1;
    if Runs(agents, chain, path, members[..n], id) {
      ChainsAreListed(agents, members[..n], path, chain, id);
    } else if id != members[n].slug {
      ChainsAreListed(agents, ReportsOf(agents, Some(members[n].slug)), path + [members[n]], chain, id);
    }
  }

  lemma NextIsReport(agents: seq<Agent>, chain: seq<Agent>, here: seq<Agent>)
    requires IsChain(agents, chain) && here != [] && |chain| > |here|
    requires chain[..|here| - 1] == here[..|here| - 1] && chain[|here| - 1] == here[|here| - 1]
    ensures here == chain[..|here|] && chain[|here|] in ReportsOf(agents, Some(here[|here| - 1].slug))
  {
    ChainPrefix(agents, chain, |here| + 1);
    assert here == here[..|here| - 1] + [here[|here| - 1]];
    assert chain[..|here|] == chain[..|here| - 1] + [chain[|here| - 1]];
  }

  /** The forest holds exactly the grounded agents: no agent on or below a cycle. */
  lemma ForestHoldsTheGrounded(agents: seq<Agent>, slug: string)
    requires DistinctSlugs(agents)
    ensures slug in Ids(Forest(agents)) <==> Grounded(agents, slug)
  {
    var free, dangling := ReportsOf(agents, None), DanglingAmong(agents, |agents|);
    RootsAreBelow(agents);
    IdsAppend(BuildAll(agents, free, []), BuildAll(agents, dangling, []));
    ListedIff(agents, free, [], slug);
    ListedIff(agents, dangling, [], slug);
    if Listed(agents, free, [], slug) {
      var _ := IdsAreBelow(agents, free, [], slug);
    } else if Listed(agents, dangling, [], slug) {
      var _ := IdsAreBelow(agents, dangling, [], slug);
    }
    if Grounded(agents, slug) {
      var chain: seq<Agent> :| IsChain(agents, chain) && chain[|chain| - 1].slug == slug;
      ChainPrefix(agents, chain, 1);
      assert agents[..|agents|] == agents;
      assert chain[0] in if chain[0].reportsTo.None? then free else dangling;
      ChainsAreListed(agents, if chain[0].reportsTo.None? then free else dangling, [], chain, slug);
    }
  }

  lemma DanglingAreBelow(agents: seq<Agent>, n: nat)
    requires n <= |agents|
    ensures Below(agents, DanglingAmong(agents, n), [])
  {
    forall m | m in DanglingAmong(agents, n) ensures IsChain(agents, [] + [m]) {
      assert [] + [m] == [m] && m in agents;
    }
  }

  lemma RootsAreBelow(agents: seq<Agent>)
    ensures Below(agents, ReportsOf(agents, None), []) && Below(agents, DanglingAmong(agents, |agents|), [])
  {
    forall m | m in ReportsOf(agents, None) ensures IsChain(agents, [] + [m]) {
      assert [] + [m] == [m];
    }
    DanglingAreBelow(agents, |agents|);
  }

  lemma LastSlugIsNew(agents: seq<Agent>, n: nat)
    requires DistinctSlugs(agents) && 0 < n <= |agents|
    ensures forall a :: a in agents[..n - 1] ==> a.slug != agents[n - 1].slug
  {
  }

  lemma DistinctGrows(picked: seq<Agent>, from: seq<Agent>, last: Agent)
    requires DistinctSlugs(picked) && forall a :: a in picked ==> a in from
    requires forall a :: a in from ==> a.slug != last.slug
    ensures DistinctSlugs(picked + [last])
  {
    assert forall k :: 0 <= k < |picked| ==> picked[k] in picked;
  }

  lemma {:induction false} ReportsAreDistinct(agents: seq<Agent>, manager: Option<string>)
    requires DistinctSlugs(agents)
    ensures DistinctSlugs(ReportsOf(agents, manager))
  {
    if agents != [] {
      var n := |agents| - 1;
      ReportsAreDistinct(agents[..n], manager);
      LastSlugIsNew(agents, |agents|);
      DistinctGrows(ReportsOf(agents[..n], manager), agents[..n], agents[n]);
      assert ReportsOf(agents[..n], manager) + [] == ReportsOf(agents[..n], manager);
    }
  }

  lemma {:induction false} DanglingAreDistinct(agents: seq<Agent>, n: nat)
    requires DistinctSlugs(agents) && n <= |agents|
    ensures DistinctSlugs(DanglingAmong(agents, n))
  {
    if n > 0 {
      DanglingAreDistinct(agents, n - 1);
      LastSlugIsNew(agents, n);
      DistinctGrows(DanglingAmong(agents, n - 1), agents[..n - 1], agents[n - 1]);
      assert DanglingAmong(agents, n - 1) + [] == DanglingAmong(agents, n - 1);
    }
  }

  /** No two places below a path hold the same agent. */
  lemma {:induction false} NobodyTwice(agents: seq<Agent>, members: seq<Agent>, path: seq<Agent>)
    requires DistinctSlugs(agents) && DistinctSlugs(members) && Below(agents, members, path)
    ensures NoDuplicates(Ids(BuildAll(agents, members, path)))
    decreases |agents| - |path|, |members|
  {
    if members != [] {
      LastIds(agents, members, path);
      var n := |members| - 1;
      var m := members[n];
      var here, below := path + [m], ReportsOf(agents, Some(m.slug));
      var mine, others := Ids(BuildAll(agents, below, here)), Ids(BuildAll(agents, members[..n], path));
      ReportsAreDistinct(agents, Some(m.slug));
      NobodyTwice(agents, below, here);
      NobodyTwice(agents, members[..n], path);
      NotBelowItself(agents, here);
      ListedIff(agents, below, here, m.slug);
      NoDuplicatesConcat([m.slug], mine);
      forall id | id in others ensures id !in [m.slug] + mine {
        ListedIff(agents, members[..n], path, id);
        ListedIff(agents, below, here, id);
        TwoMembers(agents, members, path, id);
      }
      NoDuplicatesConcat(others, [m.slug] + mine);
    }
  }

  lemma NotBelowItself(agents: seq<Agent>, here: seq<Agent>)
    requires DistinctSlugs(agents) && IsChain(agents, here)
    ensures var slug := here[|here| - 1].slug;
            var below := ReportsOf(agents, Some(slug));
            Below(agents, below, here) && !Listed(agents, below, here, slug)
  {
    var slug := here[|here| - 1].slug;
    var below := ReportsOf(agents, Some(slug));
    ReportsAreBelow(agents, here);
    if Listed(agents, below, here, slug) {
      var chain := IdsAreBelow(agents, below, here, slug);
      ChainIsUnique(agents, chain, here);
    }
  }

  /** An id is not below the last member and below an earlier one. */
  lemma TwoMembers(agents: seq<Agent>, members: seq<Agent>, path: seq<Agent>, id: string)
    requires DistinctSlugs(agents) && DistinctSlugs(members) && Below(agents, members, path) && members != []
    requires Listed(agents, members[..|members| - 1], path, id)
    ensures id != members[|members| - 1].slug
    ensures var m := members[|members| - 1];
            var here, below := path + [m], ReportsOf(agents, Some(m.slug));
            Below(agents, below, here) && !Listed(agents, below, here, id)
  {
    var n := |members| - 1;
    var m := members[n];
    var here, below := path + [m], ReportsOf(agents, Some(m.slug));
    LastIsBelow(agents, members, path);
    var other := IdsAreBelow(agents, members[..n], path, id);
    assert other[|path|] != m;
    if id == m.slug {
      ChainIsUnique(agents, other, here);
    }
    if Listed(agents, below, here, id) {
      var chain := IdsAreBelow(agents, below, here, id);
      RunsAbove(agents, chain, path, m, below, members, id);
      assert chain[|path|] == here[|path|];
      ChainIsUnique(agents, other, chain);
    }
  }

  /** The nodes show these agents, in order, and everything below them is in its place. */
  ghost predicate Shown(agents: seq<Agent>, members: seq<Agent>, nodes: seq<OrgNode>) {
    && |nodes| == |members|
    && forall k {:trigger WellPlaced(agents, nodes[k])} :: 0 <= k < |nodes| ==>
      Shows(nodes[k], members[k]) && WellPlaced(agents, nodes[k])
  }

  lemma NodeInPlace(agents: seq<Agent>, m: Agent, below: seq<Agent>, reports: seq<OrgNode>)
    requires m in agents && below == ReportsOf(agents, Some(m.slug)) && Shown(agents, below, reports)
    ensures WellPlaced(agents, NodeOf(m, reports))
  {
    var node := NodeOf(m, reports);
    assert Shows(node, m);
    forall k | 0 <= k < |reports|
      ensures exists a :: a in agents && a.slug == reports[k].id && a.reportsTo == Some(node.id)
    {
      assert below[k] in below && WellPlaced(agents, reports[k]);
      assert below[k] in agents && below[k].slug == reports[k].id && below[k].reportsTo == Some(node.id);
    }
  }

  lemma LastInPlace(agents: seq<Agent>, m: Agent, init: seq<Agent>, nodes: seq<OrgNode>, reports: seq<OrgNode>)
    requires m in agents && Shown(agents, init, nodes) && Shown(agents, ReportsOf(agents, Some(m.slug)), reports)
    ensures Shown(agents, init + [m], nodes + [NodeOf(m, reports)])
  {
    NodeInPlace(agents, m, ReportsOf(agents, Some(m.slug)), reports);
    ShownGrows(agents, init, nodes, m, reports);
  }

  lemma LastIsShown(agents: seq<Agent>, members: seq<Agent>, path: seq<Agent>)
    requires DistinctSlugs(agents) && Below(agents, members, path) && members != []
    ensures var n := |members| - 1;
            var here, below := path + [members[n]], ReportsOf(agents, Some(members[n].slug));
            && |here| <= |agents| && Below(agents, below, here) && Below(agents, members[..n], path)
            && (Shown(agents, below, BuildAll(agents, below, here))
                && Shown(agents, members[..n], BuildAll(agents, members[..n], path))
                ==> Shown(agents, members, BuildAll(agents, members, path)))
  {
    LastMember(agents, members, path);
    LastIsAgent(agents, members, path);
    var n := |members| - 1;
    var m := members[n];
    var reports, nodes := BuildAll(agents, ReportsOf(agents, Some(m.slug)), path + [m]), BuildAll(agents, members[..n], path);
    if Shown(agents, ReportsOf(agents, Some(m.slug)), reports) && Shown(agents, members[..n], nodes) {
      LastInPlace(agents, m, members[..n], nodes, reports);
      assert members[..n] + [m] == members;
    }
  }

  /** Every node is its agent's, under its own manager. */
  lemma {:induction false} EverybodyInPlace(agents: seq<Agent>, members: seq<Agent>, path: seq<Agent>)
    requires DistinctSlugs(agents) && Below(agents, members, path)
    ensures Shown(agents, members, BuildAll(agents, members, path))
    decreases |agents| - |path|, |members|
  {
    if members != [] {
      LastIsShown(agents, members, path);
      var m := members[|members| - 1];
      EverybodyInPlace(agents, ReportsOf(agents, Some(m.slug)), path + [m]);
      EverybodyInPlace(agents, members[..|members| - 1], path);
    }
  }

  lemma LastIsAgent(agents: seq<Agent>, members: seq<Agent>, path: seq<Agent>)
    requires DistinctSlugs(agents) && Below(agents, members, path) && members != []
    ensures members[|members| - 1] in agents
  {
    LastIsBelow(agents, members, path);
  }

  lemma ShownGrows(agents: seq<Agent>, members: seq<Agent>, nodes: seq<OrgNode>, m: Agent, reports: seq<OrgNode>)
    requires Shown(agents, members, nodes) && WellPlaced(agents, NodeOf(m, reports))
    ensures Shown(agents, members + [m], nodes + [NodeOf(m, reports)])
  {
    var more := nodes + [NodeOf(m, reports)];
    forall k | 0 <= k < |more|
      ensures Shows(more[k], (members + [m])[k]) && WellPlaced(agents, more[k])
    {
      assert k < |nodes| ==> WellPlaced(agents, nodes[k]);
    }
  }

  lemma ForestHasNobodyTwice(agents: seq<Agent>)
    requires DistinctSlugs(agents)
    ensures NoDuplicates(Ids(Forest(agents)))
  {
    var free, dangling := ReportsOf(agents, None), DanglingAmong(agents, |agents|);
    ReportsAreDistinct(agents, None);
    DanglingAreDistinct(agents, |agents|);
    NobodyTwice(agents, free, []);
    NobodyTwice(agents, dangling, []);
    var a, b := BuildAll(agents, free, []), BuildAll(agents, dangling, []);
    IdsAppend(a, b);
    forall id | id in Ids(a) ensures id !in Ids(b) {
      ListedIff(agents, free, [], id);
      ListedIff(agents, dangling, [], id);
      if id in Ids(b) {
        var c := IdsAreBelow(agents, free, [], id);
        var d := IdsAreBelow(agents, dangling, [], id);
        ChainIsUnique(agents, c, d);
      }
    }
    NoDuplicatesConcat(Ids(a), Ids(b));
  }

  lemma TopIsInPlace(agents: seq<Agent>, k: nat)
    requires DistinctSlugs(agents) && k < |Forest(agents)|
    ensures WellPlaced(agents, Forest(agents)[k])
    ensures exists r :: r in agents && r.slug == Forest(agents)[k].id && IsRoot(agents, r)
  {
    var free, dangling := ReportsOf(agents, None), DanglingAmong(agents, |agents|);
    EverybodyInPlace(agents, free, []);
    EverybodyInPlace(agents, dangling, []);
    var root := if k < |free| then free[k] else dangling[k - |free|];
    assert root in if k < |free| then free else dangling;
    var a, b := BuildAll(agents, free, []), BuildAll(agents, dangling, []);
    assert if k < |free| then WellPlaced(agents, a[k]) else WellPlaced(agents, b[k - |free|]);
    assert root in agents && root.slug == Forest(agents)[k].id && IsRoot(agents, root);
  }

  /** Reports stand in input order: an agent that comes later stands after those already there. */
  lemma ReportsGrow(agents: seq<Agent>, last: Agent, manager: Option<string>)
    ensures ReportsOf(agents + [last], manager)
         == ReportsOf(agents, manager) + (if last.reportsTo == manager then [last] else [])
  {
    assert (agents + [last])[..|agents|] == agents;
  }

  /** So do those at the top, first the agents without a manager and then those whose manager is unknown. */
  lemma TopInOrder(agents: seq<Agent>)
    requires DistinctSlugs(agents)
    ensures Shown(agents, ReportsOf(agents, None) + DanglingAmong(agents, |agents|), Forest(agents))
  {
    RootsAreBelow(agents);
    TwoInPlace(agents, ReportsOf(agents, None), DanglingAmong(agents, |agents|));
  }

  lemma TwoInPlace(agents: seq<Agent>, a: seq<Agent>, b: seq<Agent>)
    requires DistinctSlugs(agents) && Below(agents, a, []) && Below(agents, b, [])
    ensures Shown(agents, a + b, BuildAll(agents, a, []) + BuildAll(agents, b, []))
  {
    EverybodyInPlace(agents, a, []);
    EverybodyInPlace(agents, b, []);
    ShownTogether(agents, a, BuildAll(agents, a, []), b, BuildAll(agents, b, []));
  }

  lemma ShownTogether(agents: seq<Agent>, a: seq<Agent>, f: seq<OrgNode>, b: seq<Agent>, g: seq<OrgNode>)
    requires Shown(agents, a, f) && Shown(agents, b, g)
    ensures Shown(agents, a + b, f + g)
  {
    forall k | 0 <= k < |f + g| ensures Shows((f + g)[k], (a + b)[k]) && WellPlaced(agents, (f + g)[k]) {
      assert if k < |f| then WellPlaced(agents, f[k]) else WellPlaced(agents, g[k - |f|]);
    }
  }

  /** For any reports-to links over distinct slugs, cycles, self-reports and unknown
      managers included: the forest holds each agent whose chain of managers ends
      exactly once and nobody else, every top node is a root, and every other node
      stands under its own manager. */
  lemma ForestIsRight(agents: seq<Agent>)
    requires DistinctSlugs(agents)
    ensures NoDuplicates(Ids(Forest(agents)))
    ensures forall slug :: slug in Ids(Forest(agents)) <==> Grounded(agents, slug)
    ensures forall k :: 0 <= k < |Forest(agents)| ==>
              && WellPlaced(agents, Forest(agents)[k])
              && exists a :: a in agents && a.slug == Forest(agents)[k].id && IsRoot(agents, a)
  {
    ForestHasNobodyTwice(agents);
    forall slug ensures slug in Ids(Forest(agents)) <==> Grounded(agents, slug) {
      ForestHoldsTheGrounded(agents, slug);
    }
    forall k | 0 <= k < |Forest(agents)|
      ensures WellPlaced(agents, Forest(agents)[k])
      ensures exists a :: a in agents && a.slug == Forest(agents)[k].id && IsRoot(agents, a)
    {
      TopIsInPlace(agents, k);
    }
  }

  // ---------- the builder ----------

  /** The lists kept in the map from managers to agents, the empty list by default. */
  function ListFor(childrenOf: map<Option<string>, seq<Agent>>, manager: Option<string>): seq<Agent> {
    if manager in childrenOf then childrenOf[manager] else []
  }

  /** The map holds every agent under its own manager, in input order. */
  ghost predicate Grouped(agents: seq<Agent>, childrenOf: map<Option<string>, seq<Agent>>) {
    forall manager {:trigger ListFor(childrenOf, manager)} :: ListFor(childrenOf, manager) == ReportsOf(agents, manager)
  }

  lemma GroupedGrows(agents: seq<Agent>, i: nat, childrenOf: map<Option<string>, seq<Agent>>)
    requires i < |agents| && Grouped(agents[..i], childrenOf)
    ensures var parent := agents[i].reportsTo;
      Grouped(agents[..i + 1], childrenOf[parent := ListFor(childrenOf, parent) + [agents[i]]])
  {
    var parent := agents[i].reportsTo;
    var more := childrenOf[parent := ListFor(childrenOf, parent) + [agents[i]]];
    assert agents[..i + 1][..i] == agents[..i];
    forall manager ensures ListFor(more, manager) == ReportsOf(agents[..i + 1], manager) {
      assert ListFor(childrenOf, manager) == ReportsOf(agents[..i], manager);
    }
  }

  method GroupByManager(agents: seq<Agent>) returns (childrenOf: map<Option<string>, seq<Agent>>)
    ensures Grouped(agents, childrenOf)
  {
    childrenOf := map[];
    var i := 0;
    while i < |agents|
      invariant 0 <= i <= |agents|
      invariant Grouped(agents[..i], childrenOf)
    {
      var parent := agents[i].reportsTo;
      GroupedGrows(agents, i, childrenOf);
      childrenOf := childrenOf[parent := ListFor(childrenOf, parent) + [agents[i]]];
      i := i + 1;
    }
    assert agents[..i] == agents;
  }

  /** The inner recursion of the builder over the filled map. */
  method BuildReports(agents: seq<Agent>, childrenOf: map<Option<string>, seq<Agent>>, slug: string, ghost path: seq<Agent>)
    returns (nodes: seq<OrgNode>)
    requires DistinctSlugs(agents) && IsChain(agents, path) && path[|path| - 1].slug == slug
    requires Grouped(agents, childrenOf)
    ensures nodes == Build(agents, path)
    decreases |agents| - |path|, |agents| + 1
  {
    nodes := BuildMembers(agents, childrenOf, ListFor(childrenOf, Some(slug)), path);
  }

  method BuildMembers(agents: seq<Agent>, childrenOf: map<Option<string>, seq<Agent>>, members: seq<Agent>, ghost path: seq<Agent>)
    returns (nodes: seq<OrgNode>)
    requires DistinctSlugs(agents) && Below(agents, members, path)
    requires Grouped(agents, childrenOf)
    ensures nodes == BuildAll(agents, members, path)
    decreases |agents| - |path|, |members|
  {
    nodes := [];
    for k := 0 to |members|
      invariant nodes == BuildAll(agents, members[..k], path)
    {
      ghost var here := path + [members[k]];
      ChainIsShort(agents, here);
      assert members[..k + 1][..k] == members[..k];
      var reports := BuildReports(agents, childrenOf, members[k].slug, here);
      nodes := nodes + [NodeOf(members[k], reports)];
    }
    assert members[..|members|] == members;
  }

  /** The trees of those among the first n agents whose manager is unknown. */
  ghost function LateTrees(agents: seq<Agent>, n: nat): seq<OrgNode>
    requires DistinctSlugs(agents) && n <= |agents|
  {
    DanglingAreBelow(agents, n);
    BuildAll(agents, DanglingAmong(agents, n), [])
  }

  /** The loop over the roots whose manager is unknown.  The source first collects
      all roots and then skips those without a manager. */
  method BuildDangling(agents: seq<Agent>, childrenOf: map<Option<string>, seq<Agent>>) returns (late: seq<OrgNode>)
    requires DistinctSlugs(agents)
    requires Grouped(agents, childrenOf)
    ensures late == LateTrees(agents, |agents|)
  {
    late := [];
    var i := 0;
    while i < |agents|
      invariant 0 <= i <= |agents| && late == LateTrees(agents, i)
    {
      late := PlaceNext(agents, childrenOf, i, late);
      i := i + 1;
    }
  }

  method PlaceNext(agents: seq<Agent>, childrenOf: map<Option<string>, seq<Agent>>, i: nat, late: seq<OrgNode>)
    returns (more: seq<OrgNode>)
    requires DistinctSlugs(agents) && Grouped(agents, childrenOf) && i < |agents| && late == LateTrees(agents, i)
    ensures more == LateTrees(agents, i + 1)
  {
    more := late;
    DanglingGrows(agents, i);
    DanglingAreBelow(agents, i);
    if Dangling(agents, agents[i]) {
      var node := BuildRoot(agents, childrenOf, agents[i], DanglingAmong(agents, i));
      more := late + [node];
    }
  }

  lemma DanglingGrows(agents: seq<Agent>, i: nat)
    requires i < |agents|
    ensures DanglingAmong(agents, i + 1)
        == if Dangling(agents, agents[i]) then DanglingAmong(agents, i) + [agents[i]] else DanglingAmong(agents, i)
  {
  }

  /** The tree under one root, ready to be pushed after those already placed. */
  method BuildRoot(agents: seq<Agent>, childrenOf: map<Option<string>, seq<Agent>>, root: Agent, ghost placed: seq<Agent>)
    returns (node: OrgNode)
    requires DistinctSlugs(agents) && Grouped(agents, childrenOf)
    requires root in agents && IsRoot(agents, root) && Below(agents, placed, [])
    ensures Below(agents, placed + [root], [])
    ensures BuildAll(agents, placed + [root], []) == BuildAll(agents, placed, []) + [node]
  {
    var reports := BuildReports(agents, childrenOf, root.slug, [root]);
    AppendMember(agents, placed, root);
    node := NodeOf(root, reports);
  }

  method BuildOrgTree(agents: seq<Agent>) returns (tree: seq<OrgNode>)
    requires DistinctSlugs(agents)
    ensures tree == Forest(agents)
  {
    var childrenOf := GroupByManager(agents);
    tree := BuildMembers(agents, childrenOf, ListFor(childrenOf, None), []);
    var late := BuildDangling(agents, childrenOf);
    tree := tree + late;
  }

  lemma BelowGrows(agents: seq<Agent>, members: seq<Agent>, root: Agent)
    requires Below(agents, members, []) && IsChain(agents, [root])
    ensures Below(agents, members + [root], [])
  {
    assert [] + [root] == [root];
  }

  lemma AppendMember(agents: seq<Agent>, members: seq<Agent>, root: Agent)
    requires DistinctSlugs(agents) && Below(agents, members, []) && IsChain(agents, [root])
    ensures Below(agents, members + [root], [])
    ensures BuildAll(agents, members + [root], []) == BuildAll(agents, members, []) + [NodeOf(root, Build(agents, [root]))]
  {
    BelowGrows(agents, members, root);
    assert (members + [root])[..|members|] == members && [] + [root] == [root];
  }
}
