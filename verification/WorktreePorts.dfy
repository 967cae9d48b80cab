/** Repair of legacy worktree configurations: every worktree picks ports while
    looking at the configurations of its siblings. */
module WorktreePorts {
  import opened Common
  import opened WorktreeLayout

  /** A public base URL; a text that is no URL, or a host that is not the local machine, is
      left alone.  The host of an IPv6 URL carries brackets, so "::1" is never met. */
  datatype Url = NotAUrl(raw: string) | Url(host: string, port: int, rest: string)

  datatype Database = Embedded(dataDir: Path, port: int, backupDir: Path) | External

  /** publicUrl is set when the base URL mode is explicit and a URL is given. */
  datatype Config = Config(
    serverPort: int, database: Database, logDir: Path, storageDir: Path, keyFile: Path, publicUrl: Option<Url>)

  const DEFAULT_SERVER_PORT := 3100
  const DEFAULT_DATABASE_PORT := 54329

  // ---------- paths ----------

  function DatabaseDir(root: Path): Path { root + ["db"] }
  function BackupDir(root: Path): Path { root + ["data", "backups"] }
  function LogDir(root: Path): Path { root + ["logs"] }
  function StorageDir(root: Path): Path { root + ["data", "storage"] }
  function KeyFile(root: Path): Path { root + ["secrets", "master.key"] }

  predicate PathsInside(c: Config, root: Path) {
    && (c.database.Embedded? ==> IsPathInside(c.database.dataDir, root) && IsPathInside(c.database.backupDir, root))
    && IsPathInside(c.logDir, root) && IsPathInside(c.storageDir, root) && IsPathInside(c.keyFile, root)
  }

  // ---------- ports ----------

  /** The first unclaimed port from here on. */
  function NextUnclaimed(from: int, claimed: set<int>): (port: int)
    ensures port >= from && port !in claimed
    ensures forall p :: from <= p < port ==> p in claimed
    decreases claimed
  {
    if from in claimed then NextUnclaimed(from + 1, claimed - {from}) else from
  }

  function Max(a: int, b: int): int {
    if a > b then a else b
  }

  method FindNextUnclaimedPort(preferred: int, claimed: set<int>) returns (port: int)
    ensures port == NextUnclaimed(Max(1, preferred), claimed)
  {
    port := Max(1, preferred);
    ghost var ahead := set p | p in claimed && p >= port;
    while port in claimed
      invariant port >= Max(1, preferred)
      invariant ahead == (set p | p in claimed && p >= port)
      invariant forall p :: Max(1, preferred) <= p < port ==> p in claimed
      decreases ahead
    {
      ahead := ahead - {port};
      port := port + 1;
    }
    var q := NextUnclaimed(Max(1, preferred), claimed);
    assert !(port < q) && !(q < port);
  }

  // ---------- one repair ----------

  function RewriteLocalUrlPort(u: Option<Url>, port: int): Option<Url> {
    if u.Some? && u.value.Url? && u.value.host in {"127.0.0.1", "localhost", "::1"} then Some(u.value.(port := port)) else u
  }

  /** The configuration moved into its own instance root and onto these ports. */
  function Isolate(c: Config, root: Path, serverPort: int, databasePort: int): Config {
    Config(
      serverPort,
      if c.database.Embedded? then Embedded(DatabaseDir(root), databasePort, BackupDir(root)) else External,
      LogDir(root), StorageDir(root), KeyFile(root), RewriteLocalUrlPort(c.publicUrl, serverPort))
  }

  predicate Collides(c: Config, serverPorts: set<int>, databasePorts: set<int>) {
    c.serverPort in serverPorts || (c.database.Embedded? && c.database.port in databasePorts)
  }

  function PreferredServerPort(c: Config): int {
    if c.serverPort == DEFAULT_SERVER_PORT then DEFAULT_SERVER_PORT + 1 else c.serverPort
  }

  function PreferredDatabasePort(c: Config): int
    requires c.database.Embedded?
  {
    if c.database.port == DEFAULT_DATABASE_PORT then DEFAULT_DATABASE_PORT + 1 else c.database.port
  }

  predicate NeedsRepair(c: Config, root: Path, serverPorts: set<int>, databasePorts: set<int>) {
    !PathsInside(c, root) || Collides(c, serverPorts, databasePorts)
  }

  function Repair(c: Config, root: Path, serverPorts: set<int>, databasePorts: set<int>): Config {
    if !NeedsRepair(c, root, serverPorts, databasePorts) then c
    else
      var serverPort := NextUnclaimed(Max(1, PreferredServerPort(c)), serverPorts);
      var databasePort :=
        if c.database.Embedded? then NextUnclaimed(Max(1, PreferredDatabasePort(c)), databasePorts + {serverPort}) else 0;
      Isolate(c, root, serverPort, databasePort)
  }

  /** The least free port from the wanted one on, which is the wanted one itself if it is free. */
  predicate IsLeastFree(port: int, wanted: int, claimed: set<int>) {
    && port >= 1 && port >= wanted && port !in claimed
    && (forall p :: p >= 1 && wanted <= p < port ==> p in claimed)
    && (wanted >= 1 && wanted !in claimed ==> port == wanted)
  }

  /** A repair keeps a free port that is not the default one, and otherwise takes the least free one
      above; the database keeps clear of the server's new port too. */
  lemma PortsAreLeastFree(c: Config, root: Path, serverPorts: set<int>, databasePorts: set<int>)
    requires NeedsRepair(c, root, serverPorts, databasePorts)
    ensures var r := Repair(c, root, serverPorts, databasePorts);
      && IsLeastFree(r.serverPort, if c.serverPort == 3100 then 3101 else c.serverPort, serverPorts)
      && (c.database.Embedded? ==>
            && r.database.Embedded?
            && IsLeastFree(r.database.port, if c.database.port == 54329 then 54330 else c.database.port, databasePorts + {r.serverPort}))
      && (c.database.External? ==> r.database.External?)
  {
  }

  /** It moves every path to its place under the instance root, and puts the new port into exactly
      the URL of the local machine. */
  lemma PathsAndUrlAreMoved(c: Config, root: Path, serverPorts: set<int>, databasePorts: set<int>)
    requires NeedsRepair(c, root, serverPorts, databasePorts)
    ensures var r := Repair(c, root, serverPorts, databasePorts);
      && r.logDir == root + ["logs"] && r.storageDir == root + ["data", "storage"] && r.keyFile == root + ["secrets", "master.key"]
      && (r.database.Embedded? ==> r.database.dataDir == root + ["db"] && r.database.backupDir == root + ["data", "backups"])
      && (match c.publicUrl
          case Some(Url(host, port, rest)) =>
            r.publicUrl == Some(Url(host, if host == "127.0.0.1" || host == "localhost" || host == "::1" then r.serverPort else port, rest))
          case _ => r.publicUrl == c.publicUrl)
  {
  }

  /** After a repair all paths are inside the instance root and no port collides with
      a sibling; a configuration that was rewritten has its own positive ports, the
      server's different from the database's.  Exactly a configuration that needed it is
      changed, and a second repair against the same siblings changes nothing. */
  lemma RepairIsRight(c: Config, root: Path, serverPorts: set<int>, databasePorts: set<int>)
    ensures var r := Repair(c, root, serverPorts, databasePorts);
            && PathsInside(r, root)
            && !Collides(r, serverPorts, databasePorts)
            && r.database.Embedded? == c.database.Embedded?
            && (r != c ==> r.serverPort >= 1 && (r.database.Embedded? ==> r.database.port >= 1 && r.database.port != r.serverPort))
            && (r != c <==> NeedsRepair(c, root, serverPorts, databasePorts))
            && Repair(r, root, serverPorts, databasePorts) == r
  {
  }

  // ---------- worktrees on one machine ----------

  /** The worktrees by the path of their configuration; other configuration files have none. */
  predicate IsLayout(l: map<Path, Context>) {
    forall i :: i in l ==> l[i].configPath == i
  }

  /** The existing configurations a worktree finds when it looks around. */
  function Siblings(configs: map<Path, Config>, c: Context): set<Path> {
    set p | p in configs && Sees(c, p)
  }

  function SiblingServerPorts(configs: map<Path, Config>, siblings: set<Path>): set<int> {
    set j | j in siblings && j in configs && configs[j].serverPort > 0 :: configs[j].serverPort
  }

  function SiblingDatabasePorts(configs: map<Path, Config>, siblings: set<Path>): set<int> {
    set j | j in siblings && j in configs && configs[j].database.Embedded? && configs[j].database.port > 0
      :: configs[j].database.port
  }

  function ServerPortsSeen(configs: map<Path, Config>, c: Context): set<int> {
    SiblingServerPorts(configs, Siblings(configs, c))
  }

  function DatabasePortsSeen(configs: map<Path, Config>, c: Context): set<int> {
    SiblingDatabasePorts(configs, Siblings(configs, c))
  }

  /** One worktree starts and repairs its own configuration. */
  function RepairOne(configs: map<Path, Config>, c: Context): map<Path, Config> {
    var i := c.configPath;
    if i in configs
    then configs[i := Repair(configs[i], c.InstanceRoot(), ServerPortsSeen(configs, c), DatabasePortsSeen(configs, c))]
    else configs
  }

  /** Worktrees starting one after the other; a path without a worktree starts nothing. */
  function RepairAll(l: map<Path, Context>, configs: map<Path, Config>, order: seq<Path>): (r: map<Path, Config>)
    ensures r.Keys == configs.Keys
  {
    if order == [] then configs
    else
      var before := RepairAll(l, configs, order[..|order| - 1]);
      if order[|order| - 1] in l then RepairOne(before, l[order[|order| - 1]]) else before
  }

  class Home {
    var configs: map<Path, Config>

    constructor (configs: map<Path, Config>)
      ensures this.configs == configs
    {
      this.configs := configs;
    }

    /** Find the configurations around a worktree and collect their ports. */
    method CollectSiblingPorts(c: Context) returns (serverPorts: set<int>, databasePorts: set<int>)
      ensures serverPorts == ServerPortsSeen(configs, c) && databasePorts == DatabasePortsSeen(configs, c)
    {
      var siblings := SiblingConfigPaths(configs.Keys, c);
      assert siblings == Siblings(configs, c);
      serverPorts, databasePorts := {}, {};
      var todo := siblings;
      ghost var seen: set<Path> := {};
      while todo != {}
        invariant todo !! seen && todo + seen == siblings
        invariant serverPorts == SiblingServerPorts(configs, seen)
        invariant databasePorts == SiblingDatabasePorts(configs, seen)
        decreases todo
      {
        var j :| j in todo;
        if configs[j].serverPort > 0 {
          serverPorts := serverPorts + {configs[j].serverPort};
        }
        if configs[j].database.Embedded? && configs[j].database.port > 0 {
          databasePorts := databasePorts + {configs[j].database.port};
        }
        todo, seen := todo - {j}, seen + {j};
      }
      assert seen == siblings;
    }

    /** What a worktree does to its own configuration file when it starts. */
    method MaybeRepair(c: Context) returns (repaired: bool)
      modifies this
      ensures configs == RepairOne(old(configs), c)
      ensures repaired <==> configs != old(configs)
    {
      repaired := false;
      var i := c.configPath;
      if i !in configs {
        return;
      }
      var parsed := configs[i];
      var serverPorts, databasePorts := CollectSiblingPorts(c);
      RepairIsRight(parsed, c.InstanceRoot(), serverPorts, databasePorts);
      if !PathsInside(parsed, c.InstanceRoot()) || Collides(parsed, serverPorts, databasePorts) {
        var serverPort := FindNextUnclaimedPort(PreferredServerPort(parsed), serverPorts);
        var databasePort := 0;
        if parsed.database.Embedded? {
          databasePort := FindNextUnclaimedPort(PreferredDatabasePort(parsed), databasePorts + {serverPort});
        }
        configs := configs[i := Isolate(parsed, c.InstanceRoot(), serverPort, databasePort)];
        repaired := true;
      }
    }
  }

  // ---------- one worktree against another ----------

  /** Two configurations share no usable port. */
  predicate Apart(c: Config, d: Config) {
    && (c.serverPort == d.serverPort ==> c.serverPort <= 0)
    && (c.database.Embedded? && d.database.Embedded? && c.database.port == d.database.port ==> c.database.port <= 0)
  }

  lemma OneIsApart(configs: map<Path, Config>, c: Context, j: Path)
    requires c.configPath in configs && j in configs && j != c.configPath && Sees(c, j)
    ensures Apart(RepairOne(configs, c)[c.configPath], configs[j]) && RepairOne(configs, c)[j] == configs[j]
  {
    RepairIsRight(configs[c.configPath], c.InstanceRoot(), ServerPortsSeen(configs, c), DatabasePortsSeen(configs, c));
  }

  /** j starts before i. */
  predicate Precedes(order: seq<Path>, j: Path, i: Path) {
    exists a, b :: 0 <= a < b < |order| && order[a] == j && order[b] == i
  }

  lemma PrecedesEarlier(order: seq<Path>, j: Path, i: Path)
    requires order != [] && NoDuplicates(order) && Precedes(order, j, i) && order[|order| - 1] != i
    ensures Precedes(order[..|order| - 1], j, i)
  {
    var a, b :| 0 <= a < b < |order| && order[a] == j && order[b] == i;
    assert order[..|order| - 1][a] == j && order[..|order| - 1][b] == i;
  }

  lemma LastPrecedesNobody(order: seq<Path>, i: Path)
    requires order != [] && NoDuplicates(order)
    ensures !Precedes(order, order[|order| - 1], i)
  {
  }

  /** The last of two worktrees to start keeps off the other one's ports, if it sees them. */
  lemma {:induction false} PassSeparates(
    l: map<Path, Context>, configs: map<Path, Config>, order: seq<Path>, i: Path, j: Path)
    requires IsLayout(l) && NoDuplicates(order) && i in l && i in configs && j in configs
    requires i in order && i != j && Sees(l[i], j)
    requires j in order && j in l && !Sees(l[j], i) ==> Precedes(order, j, i)
    ensures Apart(RepairAll(l, configs, order)[i], RepairAll(l, configs, order)[j])
  {
    var n := |order| - 1;
    var init, last := order[..n], order[n];
    assert order == init + [last];
    var before := RepairAll(l, configs, init);
    if last == i {
      OneIsApart(before, l[i], j);
    } else if last == j {
      LastPrecedesNobody(order, i);
      if j in l {
        OneIsApart(before, l[j], i);
      } else {
        PassSeparates(l, configs, init, i, j);
      }
    } else {
      if j in order && j in l && !Sees(l[j], i) {
        PrecedesEarlier(order, j, i);
      }
      PassSeparates(l, configs, init, i, j);
    }
  }

  lemma {:induction false} PassIsolates(l: map<Path, Context>, configs: map<Path, Config>, order: seq<Path>, i: Path)
    requires IsLayout(l) && i in l && i in configs && i in order
    ensures PathsInside(RepairAll(l, configs, order)[i], l[i].InstanceRoot())
  {
    var n := |order| - 1;
    var init, last := order[..n], order[n];
    assert order == init + [last];
    var before := RepairAll(l, configs, init);
    if last == i {
      var c := l[i];
      RepairIsRight(before[i], c.InstanceRoot(), ServerPortsSeen(before, c), DatabasePortsSeen(before, c));
    } else {
      PassIsolates(l, configs, init, i);
    }
  }

  // ---------- when a pass settles everything ----------

  /** A worktree that would repair nothing. */
  predicate IsSettled(configs: map<Path, Config>, c: Context) {
    c.configPath in configs ==>
      !NeedsRepair(configs[c.configPath], c.InstanceRoot(), ServerPortsSeen(configs, c), DatabasePortsSeen(configs, c))
  }

  predicate Settled(l: map<Path, Context>, configs: map<Path, Config>, started: seq<Path>) {
    forall i :: i in started && i in l ==> IsSettled(configs, l[i])
  }

  /** The order lists worktrees that have a configuration, each once. */
  predicate Lists(l: map<Path, Context>, files: set<Path>, order: seq<Path>) {
    IsLayout(l) && NoDuplicates(order) && forall i :: i in order ==> i in l && i in files
  }

  /** Nobody sees its own configuration, and whoever is seen without looking back starts first. */
  predicate InOrder(l: map<Path, Context>, order: seq<Path>) {
    && (forall i :: i in order && i in l ==> !Sees(l[i], i))
    && (forall i, j :: i in order && i in l && j in order && j in l && IsOneWay(l, i, j) ==> Precedes(order, j, i))
  }

  /** i sees j, and j does not look back. */
  predicate IsOneWay(l: map<Path, Context>, i: Path, j: Path)
    requires i in l && j in l
  {
    i != j && Sees(l[i], j) && !Sees(l[j], i)
  }

  /** A start changes something exactly when its worktree is not settled. */
  lemma StartChangesIff(configs: map<Path, Config>, c: Context)
    ensures RepairOne(configs, c) == configs <==> IsSettled(configs, c)
  {
    var i := c.configPath;
    if i in configs {
      RepairIsRight(configs[i], c.InstanceRoot(), ServerPortsSeen(configs, c), DatabasePortsSeen(configs, c));
      assert RepairOne(configs, c) == configs ==> RepairOne(configs, c)[i] == configs[i];
    }
  }

  lemma {:induction false} SettledStays(
    l: map<Path, Context>, configs: map<Path, Config>, started: seq<Path>, order: seq<Path>)
    requires Settled(l, configs, started) && forall i :: i in order ==> i in started
    ensures RepairAll(l, configs, order) == configs
  {
    if order != [] {
      var n := |order| - 1;
      SettledStays(l, configs, started, order[..n]);
      assert order[n] in order;
      if order[n] in l {
        StartChangesIff(configs, l[order[n]]);
      }
    }
  }

  /** In such an order one pass settles every worktree that started. */
  lemma PassSettles(l: map<Path, Context>, configs: map<Path, Config>, order: seq<Path>)
    requires Lists(l, configs.Keys, order) && InOrder(l, order)
    ensures Settled(l, RepairAll(l, configs, order), order)
  {
    var once := RepairAll(l, configs, order);
    forall i | i in order && i in l ensures IsSettled(once, l[i]) {
      PassIsolates(l, configs, order, i);
      forall j | j in Siblings(once, l[i]) ensures Apart(once[i], once[j]) {
        PassSeparates(l, configs, order, i, j);
      }
    }
  }

  // ---------- and when it does not ----------

  /** A configuration that takes no port and is where it should be. */
  function Quiet(root: Path): Config {
    Config(0, External, LogDir(root), StorageDir(root), KeyFile(root), None)
  }

  function QuietConfigs(l: map<Path, Context>, files: set<Path>): map<Path, Config> {
    map p | p in files :: Quiet(if p in l then l[p].InstanceRoot() else [])
  }

  /** A worktree that sees itself is never settled once it has a port. */
  lemma SelfSightNeverSettles(configs: map<Path, Config>, c: Context)
    requires c.configPath in configs && Sees(c, c.configPath) && configs[c.configPath].serverPort > 0
    ensures !IsSettled(configs, c) && !IsSettled(RepairOne(configs, c), c)
  {
    var i, after := c.configPath, RepairOne(configs, c);
    assert i in Siblings(configs, c) && configs[i].serverPort in ServerPortsSeen(configs, c);
    RepairIsRight(configs[i], c.InstanceRoot(), ServerPortsSeen(configs, c), DatabasePortsSeen(configs, c));
    assert i in Siblings(after, c) && after[i].serverPort in ServerPortsSeen(after, c);
  }

  /** Others leave a configuration alone. */
  lemma {:induction false} OnlyOwnStart(l: map<Path, Context>, configs: map<Path, Config>, order: seq<Path>, i: Path)
    requires IsLayout(l) && i in configs && i !in order
    ensures RepairAll(l, configs, order)[i] == configs[i]
  {
    if order != [] {
      var n := |order| - 1;
      assert order == order[..n] + [order[n]];
      OnlyOwnStart(l, configs, order[..n], i);
    }
  }

  /** A pass and the place of one worktree's start in it. */
  lemma {:induction false} SplitAt(
    l: map<Path, Context>, configs: map<Path, Config>, a: seq<Path>, i: Path, b: seq<Path>)
    requires i in l
    ensures RepairAll(l, configs, a + [i] + b) == RepairAll(l, RepairOne(RepairAll(l, configs, a), l[i]), b)
  {
    var whole := a + [i] + b;
    if b == [] {
      assert whole[..|whole| - 1] == a && whole[|whole| - 1] == i;
    } else {
      var n := |b| - 1;
      assert whole[..|whole| - 1] == a + [i] + b[..n] && whole[|whole| - 1] == b[n];
      SplitAt(l, configs, a, i, b[..n]);
    }
  }

  /** A port stays a port. */
  lemma {:induction false} PortStaysPositive(
    l: map<Path, Context>, configs: map<Path, Config>, order: seq<Path>, i: Path)
    requires i in configs && configs[i].serverPort > 0
    ensures RepairAll(l, configs, order)[i].serverPort > 0
  {
    if order != [] {
      var n := |order| - 1;
      PortStaysPositive(l, configs, order[..n], i);
      if order[n] in l && l[order[n]].configPath == i {
        var before, c := RepairAll(l, configs, order[..n]), l[order[n]];
        RepairIsRight(before[i], c.InstanceRoot(), ServerPortsSeen(before, c), DatabasePortsSeen(before, c));
      }
    }
  }

  /** A quiet configuration is settled whatever stands around it. */
  lemma QuietIsSettled(configs: map<Path, Config>, c: Context)
    requires c.configPath in configs && configs[c.configPath] == Quiet(c.InstanceRoot())
    ensures IsSettled(configs, c)
  {
  }

  /** Whoever sees itself, some configurations are not settled by the pass. */
  lemma SelfSightFails(l: map<Path, Context>, files: set<Path>, order: seq<Path>, i: Path) returns (configs: map<Path, Config>)
    requires Lists(l, files, order) && i in order && Sees(l[i], i)
    ensures configs.Keys == files && !Settled(l, RepairAll(l, configs, order), order)
  {
    configs := QuietConfigs(l, files)[i := Quiet([]).(serverPort := DEFAULT_SERVER_PORT)];
    PortStaysPositive(l, configs, order, i);
    var after := RepairAll(l, configs, order);
    SelfSightNeverSettles(after, l[i]);
  }

  /** i stands still on the port that j, outside its instance root, moves to by default. */
  function OneWayConfigs(l: map<Path, Context>, files: set<Path>, i: Path, j: Path): map<Path, Config>
    requires i in l
  {
    var still := Quiet(l[i].InstanceRoot()).(serverPort := DEFAULT_SERVER_PORT + 1);
    var moving := Config(DEFAULT_SERVER_PORT, External, [], [], [], None);
    QuietConfigs(l, files)[i := still][j := moving]
  }

  lemma NobodyElseMoves(l: map<Path, Context>, files: set<Path>, i: Path, j: Path, k: Path)
    requires IsLayout(l) && k in l && k in files && i in l && i in files && j in files && i != j && k != j
    requires !Sees(l[i], i)
    ensures IsSettled(OneWayConfigs(l, files, i, j), l[k])
  {
    var configs := OneWayConfigs(l, files, i, j);
    if k != i {
      QuietIsSettled(configs, l[k]);
    } else {
      assert forall p :: p in Siblings(configs, l[i]) ==> configs[p].serverPort != configs[i].serverPort;
    }
  }

  lemma TheOtherMovesThere(l: map<Path, Context>, files: set<Path>, i: Path, j: Path)
    requires IsLayout(l) && i in l && i in files && j in l && j in files && i != j && !Sees(l[j], i) && !Sees(l[j], j)
    ensures RepairOne(OneWayConfigs(l, files, i, j), l[j])[j].serverPort == DEFAULT_SERVER_PORT + 1
  {
    var configs := OneWayConfigs(l, files, i, j);
    assert ServerPortsSeen(configs, l[j]) == {} by {
      assert forall p :: p in Siblings(configs, l[j]) ==> configs[p].serverPort == 0;
    }
    assert !PathsInside(configs[j], l[j].InstanceRoot());
  }

  /** i sees j and starts before it, j does not look back: some configurations are not settled. */
  lemma OneWayFails(l: map<Path, Context>, files: set<Path>, order: seq<Path>, i: Path, j: Path)
    requires Lists(l, files, order) && i in order && j in order && IsOneWay(l, i, j) && !Precedes(order, j, i)
    requires !Sees(l[i], i) && !Sees(l[j], j)
    ensures !Settled(l, RepairAll(l, OneWayConfigs(l, files, i, j), order), order)
  {
    var configs := OneWayConfigs(l, files, i, j);
    var a, b := Around(order, i, j);
    SplitAt(l, configs, a, j, b);
    forall k | k in a && k in l ensures IsSettled(configs, l[k]) {
      assert k in order;
      NobodyElseMoves(l, files, i, j, k);
    }
    SettledStays(l, configs, a, a);
    TheOtherMovesThere(l, files, i, j);
    SharedPortRemains(l, RepairOne(configs, l[j]), b, i, j);
  }

  /** What starts before j and after it, when j does not come before i. */
  lemma Around(order: seq<Path>, i: Path, j: Path) returns (a: seq<Path>, b: seq<Path>)
    requires NoDuplicates(order) && i in order && j in order && i != j && !Precedes(order, j, i)
    ensures order == a + [j] + b && i in a && i !in b && j !in a && j !in b
  {
    var n :| 0 <= n < |order| && order[n] == j;
    var m :| 0 <= m < |order| && order[m] == i;
    a, b := order[..n], order[n + 1..];
    assert a[m] == i;
  }

  lemma SharedPortRemains(l: map<Path, Context>, configs: map<Path, Config>, b: seq<Path>, i: Path, j: Path)
    requires IsLayout(l) && i in l && i in configs && j in configs && i !in b && j !in b && Sees(l[i], j)
    requires configs[i].serverPort == configs[j].serverPort > 0
    ensures !IsSettled(RepairAll(l, configs, b), l[i])
  {
    OnlyOwnStart(l, configs, b, i);
    OnlyOwnStart(l, configs, b, j);
    var after := RepairAll(l, configs, b);
    assert j in Siblings(after, l[i]) && after[j].serverPort in ServerPortsSeen(after, l[i]);
  }

  // ---------- exactly when ----------

  /** Whatever the files hold, a pass in this order leaves nobody with something to repair. */
  ghost predicate AlwaysSettles(l: map<Path, Context>, files: set<Path>, order: seq<Path>) {
    forall configs: map<Path, Config> :: configs.Keys == files ==> Settled(l, RepairAll(l, configs, order), order)
  }

  /** Whatever the files hold, a second pass in this order changes nothing. */
  ghost predicate AlwaysStable(l: map<Path, Context>, files: set<Path>, order: seq<Path>) {
    forall configs: map<Path, Config> :: configs.Keys == files ==> IsStable(l, RepairAll(l, configs, order), order)
  }

  predicate IsStable(l: map<Path, Context>, configs: map<Path, Config>, order: seq<Path>) {
    RepairAll(l, configs, order) == configs
  }

  /** One pass settles everything, whatever the configurations are, exactly when nobody sees
      itself and whoever is seen without looking back starts first. */
  lemma PassSettlesIff(l: map<Path, Context>, files: set<Path>, order: seq<Path>)
    requires Lists(l, files, order)
    ensures AlwaysSettles(l, files, order) <==> InOrder(l, order)
  {
    if InOrder(l, order) {
      forall configs: map<Path, Config> | configs.Keys == files
        ensures Settled(l, RepairAll(l, configs, order), order)
      {
        PassSettles(l, configs, order);
      }
    } else {
      var configs := SomethingFails(l, files, order);
    }
  }

  lemma SomethingFails(l: map<Path, Context>, files: set<Path>, order: seq<Path>) returns (configs: map<Path, Config>)
    requires Lists(l, files, order) && !InOrder(l, order)
    ensures configs.Keys == files && !Settled(l, RepairAll(l, configs, order), order)
  {
    if i :| i in order && Sees(l[i], i) {
      configs := SelfSightFails(l, files, order, i);
    } else {
      var i, j :| i in order && j in order && IsOneWay(l, i, j) && !Precedes(order, j, i);
      OneWayFails(l, files, order, i, j);
      configs := OneWayConfigs(l, files, i, j);
    }
  }

  lemma LastStartChangesNothing(l: map<Path, Context>, configs: map<Path, Config>, init: seq<Path>, last: Path)
    requires IsLayout(l) && last in l && last in configs && last !in init && IsStable(l, configs, init + [last])
    ensures IsStable(l, configs, init) && RepairOne(configs, l[last]) == configs
  {
    var before := RepairAll(l, configs, init);
    assert (init + [last])[..|init|] == init;
    OnlyOwnStart(l, configs, init, last);
    assert RepairOne(before, l[last]) == configs;
    assert forall k :: k in configs && k != last ==> before[k] == RepairOne(before, l[last])[k];
    assert before == configs;
  }

  /** A pass that changes nothing is one in which no start does. */
  lemma {:induction false} NoStartChanges(l: map<Path, Context>, configs: map<Path, Config>, order: seq<Path>, i: Path)
    requires Lists(l, configs.Keys, order) && i in order && IsStable(l, configs, order)
    ensures RepairOne(configs, l[i]) == configs
  {
    var n := |order| - 1;
    assert order == order[..n] + [order[n]];
    LastStartChangesNothing(l, configs, order[..n], order[n]);
    if i != order[n] {
      NoStartChanges(l, configs, order[..n], i);
    }
  }

  lemma StableIffSettled(l: map<Path, Context>, configs: map<Path, Config>, order: seq<Path>)
    requires Lists(l, configs.Keys, order)
    ensures IsStable(l, configs, order) <==> Settled(l, configs, order)
  {
    if IsStable(l, configs, order) {
      forall i | i in order && i in l ensures IsSettled(configs, l[i]) {
        NoStartChanges(l, configs, order, i);
        StartChangesIff(configs, l[i]);
      }
    } else if Settled(l, configs, order) {
      SettledStays(l, configs, order, order);
    }
  }

  /** So that is also exactly when a second pass changes nothing. */
  lemma SecondPassIff(l: map<Path, Context>, files: set<Path>, order: seq<Path>)
    requires Lists(l, files, order)
    ensures AlwaysStable(l, files, order) <==> InOrder(l, order)
  {
    PassSettlesIff(l, files, order);
    forall configs: map<Path, Config> | configs.Keys == files
      ensures IsStable(l, RepairAll(l, configs, order), order) <==> Settled(l, RepairAll(l, configs, order), order)
    {
      StableIffSettled(l, RepairAll(l, configs, order), order);
    }
  }

  /** In such an order no later start, whichever and how many, changes anything. */
  lemma SecondPassChangesNothing(
    l: map<Path, Context>, configs: map<Path, Config>, order: seq<Path>, order': seq<Path>)
    requires Lists(l, configs.Keys, order) && InOrder(l, order) && forall i :: i in order' ==> i in order
    ensures RepairAll(l, RepairAll(l, configs, order), order') == RepairAll(l, configs, order)
  {
    PassSettles(l, configs, order);
    SettledStays(l, RepairAll(l, configs, order), order, order');
  }

  /** Where everybody who is seen looks back, one pass in any order settles everything: all ports
      of worktrees that see each other are apart, and no later start changes anything. */
  lemma MutualPassSettles(
    l: map<Path, Context>, configs: map<Path, Config>, order: seq<Path>, order': seq<Path>)
    requires Lists(l, configs.Keys, order) && Mutual(l) && forall i :: i in order' ==> i in order
    ensures var once := RepairAll(l, configs, order);
      && RepairAll(l, once, order') == once
      && forall i, j :: i in order && j in order && i != j && Sees(l[i], j) ==> Apart(once[i], once[j])
  {
    SecondPassChangesNothing(l, configs, order, order');
    forall i, j | i in order && j in order && i != j && Sees(l[i], j)
      ensures Apart(RepairAll(l, configs, order)[i], RepairAll(l, configs, order)[j])
    {
      PassSeparates(l, configs, order, i, j);
    }
  }

  /** Worktrees whose configurations all lie at their own instance roots in one home. */
  lemma InstancesSettle(
    l: map<Path, Context>, home: Path, configs: map<Path, Config>, order: seq<Path>, order': seq<Path>)
    requires AllInstances(l, home) && Lists(l, configs.Keys, order)
    requires forall i :: i in order' ==> i in order
    ensures var once := RepairAll(l, configs, order);
      && RepairAll(l, once, order') == once
      && forall i, j :: i in order && j in order && i != j ==> Apart(once[i], once[j])
  {
    InstancesSeeEachOther(l, home);
    MutualPassSettles(l, configs, order, order');
  }

  /** Worktrees of one repository. */
  lemma NeighboursSettle(
    l: map<Path, Context>, root: Path, configs: map<Path, Config>, order: seq<Path>, order': seq<Path>)
    requires AllNeighbours(l, root) && (forall i :: i in l ==> l[i].home != root) && Lists(l, configs.Keys, order)
    requires forall i :: i in order' ==> i in order
    ensures var once := RepairAll(l, configs, order);
      && RepairAll(l, once, order') == once
      && forall i, j :: i in order && j in order && i != j ==> Apart(once[i], once[j])
  {
    NeighboursSeeEachOther(l, root);
    MutualPassSettles(l, configs, order, order');
  }

  // ---------- a layout that does not settle ----------

  const LOCAL: Path := ["repo", ".paperclip", "config.json"]
  const INSTANCE: Path := ["home", "instances", "b", "config.json"]
  const LOCAL_CONTEXT := Context(LOCAL, ["home"], "a")
  const INSTANCE_CONTEXT := Context(INSTANCE, ["home"], "b")

  /** A legacy configuration on a port, with its paths outside every instance root. */
  function Legacy(serverPort: int): Config {
    Config(serverPort, External, [], [], [], None)
  }

  lemma LocalSeesOneWay()
    ensures Sees(LOCAL_CONTEXT, INSTANCE) && !Sees(INSTANCE_CONTEXT, LOCAL)
    ensures !Sees(LOCAL_CONTEXT, LOCAL) && !Sees(INSTANCE_CONTEXT, INSTANCE)
  {
    assert LOCAL_CONTEXT.InstancesDir() == ["home", "instances"] == INSTANCE_CONTEXT.InstancesDir();
    assert INSTANCE[..2] == ["home", "instances"];
    assert RepoWorktreesRoot(Parent(LOCAL)) == None;
    assert RepoWorktreesRoot(Parent(INSTANCE)) == None;
  }

  /** Two legacy configurations on the default port: started first, the repository's own worktree
      moves to the port that the instance, which never looks at it, takes next; and its next
      start moves it again. */
  lemma LocalFirstDoesNotSettle()
    ensures var configs := map[LOCAL := Legacy(3100), INSTANCE := Legacy(3100)];
      var first := RepairOne(configs, LOCAL_CONTEXT);
      var both := RepairOne(first, INSTANCE_CONTEXT);
      && both[LOCAL].serverPort == 3101 && both[INSTANCE].serverPort == 3101
      && RepairOne(both, LOCAL_CONTEXT)[LOCAL].serverPort == 3102
  {
    LocalSeesOneWay();
    assert LOCAL != INSTANCE;
    var configs := map[LOCAL := Legacy(3100), INSTANCE := Legacy(3100)];
    assert Siblings(configs, LOCAL_CONTEXT) == {INSTANCE};
    assert ServerPortsSeen(configs, LOCAL_CONTEXT) == {3100};
    var first := RepairOne(configs, LOCAL_CONTEXT);
    assert first[LOCAL].serverPort == 3101;
    assert Siblings(first, INSTANCE_CONTEXT) == {};
    assert ServerPortsSeen(first, INSTANCE_CONTEXT) == {};
    var both := RepairOne(first, INSTANCE_CONTEXT);
    assert both[INSTANCE].serverPort == 3101;
    assert Siblings(both, LOCAL_CONTEXT) == {INSTANCE};
    assert ServerPortsSeen(both, LOCAL_CONTEXT) == {3101};
    assert NextUnclaimed(3101, {3101}) == 3102;
  }
}
