/** Where the configurations of worktrees lie, and which of them a starting worktree finds. */
module WorktreeLayout {
  import opened Common
  import EnvFile

  /** An absolute, normalized path as its segments. */
  type Path = seq<string>

  predicate IsPathInside(candidate: Path, root: Path) {
    root <= candidate
  }

  /** path.dirname, which stays at the root. */
  function Parent(p: Path): Path {
    if p == [] then [] else p[..|p| - 1]
  }

  function Basename(p: Path): string {
    if p == [] then "" else p[|p| - 1]
  }

  // ---------- the context of a worktree ----------

  /** The home a worktree resolves to, and two settings that may be blank. */
  datatype Env = Env(home: Path, instanceId: string, name: string)

  datatype Context = Context(configPath: Path, home: Path, instanceId: string) {
    function InstancesDir(): Path {
      home + ["instances"]
    }

    function InstanceRoot(): Path {
      InstancesDir() + [instanceId]
    }
  }

  predicate IsWordChar(c: char) {
    'a' <= c <= 'z' || '0' <= c <= '9' || c == '_'
  }

  /** Every run of other characters becomes one dash. */
  function Dashed(s: string): string {
    if s == [] then []
    else
      var rest := Dashed(s[1..]);
      if IsWordChar(s[0]) then [s[0]] + rest
      else if rest != [] && rest[0] == '-' then rest
      else ['-'] + rest
  }

  function StripLeft(s: string): string {
    if s != [] && s[0] in {'-', '_'} then StripLeft(s[1..]) else s
  }

  function StripRight(s: string): string {
    if s != [] && s[|s| - 1] in {'-', '_'} then StripRight(s[..|s| - 1]) else s
  }

  /** lower is toLowerCase. */
  function SanitizeInstanceId(raw: string, lower: string -> string): string {
    var id := StripRight(StripLeft(Dashed(lower(EnvFile.Trim(raw)))));
    if id == "" then "worktree" else id
  }

  predicate IsIdText(s: string) {
    forall i :: 0 <= i < |s| ==> (IsWordChar(s[i]) || s[i] == '-') && !(s[i] == '-' && i + 1 < |s| && s[i + 1] == '-')
  }

  lemma {:induction false} DashedIsIdText(s: string)
    ensures IsIdText(Dashed(s))
  {
    if s != [] {
      DashedIsIdText(s[1..]);
      var rest := Dashed(s[1..]);
      assert IsIdText(rest);
      assert forall i :: 0 < i < |rest| + 1 ==> ([s[0]] + rest)[i] == rest[i - 1] && (['-'] + rest)[i] == rest[i - 1];
    }
  }

  lemma {:induction false} StrippedIsIdText(s: string)
    requires IsIdText(s)
    ensures IsIdText(StripLeft(s)) && (StripLeft(s) != [] ==> StripLeft(s)[0] !in {'-', '_'})
    ensures IsIdText(StripRight(s)) && (StripRight(s) != [] ==> StripRight(s)[|StripRight(s)| - 1] !in {'-', '_'})
    ensures StripRight(s) <= s
  {
    if s != [] {
      assert forall i :: 0 <= i < |s| - 1 ==> s[1..][i] == s[i + 1];
      StrippedIsIdText(s[1..]);
      StrippedIsIdText(s[..|s| - 1]);
    }
  }

  /** A sanitized id is never empty and holds lower-case letters, digits, underscores and single
      dashes only, with a letter or digit at either end. */
  lemma SanitizedIdIsClean(raw: string, lower: string -> string)
    ensures var id := SanitizeInstanceId(raw, lower);
      id != "" && IsIdText(id) && id[0] !in {'-', '_'} && id[|id| - 1] !in {'-', '_'}
  {
    var dashed := Dashed(lower(EnvFile.Trim(raw)));
    DashedIsIdText(lower(EnvFile.Trim(raw)));
    StrippedIsIdText(dashed);
    StrippedIsIdText(StripLeft(dashed));
    assert IsIdText("worktree");
  }

  function ContextOf(configPath: Path, env: Env, lower: string -> string): Context {
    var name := if EnvFile.Trim(env.name) != "" then EnvFile.Trim(env.name) else Basename(Parent(Parent(configPath)));
    var id := if EnvFile.Trim(env.instanceId) != "" then EnvFile.Trim(env.instanceId) else SanitizeInstanceId(name, lower);
    Context(configPath, env.home, id)
  }

  // ---------- who sees whom ----------

  /** From here on the directory runs through .paperclip/worktrees into something. */
  predicate MarkerAt(dir: Path, i: nat) {
    i + 2 < |dir| && dir[i] == ".paperclip" && dir[i + 1] == "worktrees"
  }

  function FirstMarker(dir: Path, from: nat): (i: Option<nat>)
    ensures i.Some? ==> MarkerAt(dir, i.value) && from <= i.value && forall k :: from <= k < i.value ==> !MarkerAt(dir, k)
    ensures i.None? ==> forall k: nat :: from <= k ==> !MarkerAt(dir, k)
    decreases |dir| - from
  {
    if from >= |dir| then None else if MarkerAt(dir, from) then Some(from) else FirstMarker(dir, from + 1)
  }

  /** The directory that holds the worktrees of a repository, for a directory below it. */
  function RepoWorktreesRoot(dir: Path): Option<Path> {
    var i := FirstMarker(dir, 0);
    if i.Some? then Some(dir[..i.value + 2]) else None
  }

  /** The configuration of another instance of the same home. */
  predicate SeesInstance(c: Context, p: Path) {
    var dir := c.InstancesDir();
    |p| == |dir| + 2 && dir <= p && p[|dir|] != c.instanceId && p[|dir| + 1] == "config.json"
  }

  /** The configuration of another worktree of the same repository. */
  predicate SeesNeighbour(c: Context, p: Path) {
    var root := RepoWorktreesRoot(Parent(c.configPath));
    && root.Some?
    && |p| == |root.value| + 3 && root.value <= p
    && p[|root.value| + 1] == ".paperclip" && p[|root.value| + 2] == "config.json"
    && p != c.configPath
  }

  /** A worktree that starts reads this configuration to learn which ports are taken. */
  predicate Sees(c: Context, p: Path) {
    SeesInstance(c, p) || SeesNeighbour(c, p)
  }

  /** The names of the directories in a directory, as far as configuration files lie below them. */
  function Directories(files: set<Path>, dir: Path): set<string> {
    set p | p in files && |p| > |dir| + 1 && dir <= p :: p[|dir|]
  }

  /** The two directory loops that collect the paths of the configurations to read. */
  method SiblingConfigPaths(files: set<Path>, c: Context) returns (found: set<Path>)
    ensures found == set p | p in files && Sees(c, p)
  {
    found := {};
    var instancesDir := c.InstancesDir();
    var todo := Directories(files, instancesDir);
    ghost var listed := todo;
    while todo != {}
      invariant todo <= listed
      invariant found == set p | p in files && SeesInstance(c, p) && p[|instancesDir|] !in todo
    {
      var name :| name in todo;
      todo := todo - {name};
      var sibling := instancesDir + [name, "config.json"];
      if name != c.instanceId && sibling in files {
        found := found + {sibling};
      }
      assert forall p :: p in files && SeesInstance(c, p) && p[|instancesDir|] == name ==> p == sibling;
    }
    var root := RepoWorktreesRoot(Parent(c.configPath));
    if root.Some? {
      var neighbours := CollectNeighbours(files, c, root.value);
      found := found + neighbours;
    }
  }

  method CollectNeighbours(files: set<Path>, c: Context, root: Path) returns (found: set<Path>)
    requires RepoWorktreesRoot(Parent(c.configPath)) == Some(root)
    ensures found == set p | p in files && SeesNeighbour(c, p)
  {
    found := {};
    var todo := Directories(files, root);
    ghost var listed := todo;
    while todo != {}
      invariant todo <= listed
      invariant found == set p | p in files && SeesNeighbour(c, p) && p[|root|] !in todo
    {
      var name :| name in todo;
      todo := todo - {name};
      var sibling := root + [name, ".paperclip", "config.json"];
      if sibling != c.configPath && sibling in files {
        found := found + {sibling};
      }
      assert forall p :: p in files && SeesNeighbour(c, p) && p[|root|] == name ==> p == sibling;
    }
  }

  // ---------- layouts ----------

  /** Nobody looks at its own configuration, and whoever is seen looks back. */
  ghost predicate Mutual(contexts: map<Path, Context>) {
    && (forall i :: i in contexts ==> !Sees(contexts[i], i))
    && (forall i, j :: i in contexts && j in contexts && Sees(contexts[i], j) ==> Sees(contexts[j], i))
  }

  /** Every configuration lies at its own instance root, all in one home. */
  predicate AllInstances(contexts: map<Path, Context>, home: Path) {
    forall i :: i in contexts ==>
      contexts[i].configPath == i && contexts[i].home == home && i == contexts[i].InstanceRoot() + ["config.json"]
  }

  /** Every configuration lies in a worktree below the same directory of one repository. */
  predicate AllNeighbours(contexts: map<Path, Context>, root: Path) {
    forall i :: i in contexts ==>
      && contexts[i].configPath == i && RepoWorktreesRoot(Parent(i)) == Some(root)
      && |i| == |root| + 3 && root <= i && i[|root| + 1] == ".paperclip" && i[|root| + 2] == "config.json"
  }

  lemma InstancesSeeEachOther(contexts: map<Path, Context>, home: Path)
    requires AllInstances(contexts, home)
    ensures Mutual(contexts)
    ensures forall i, j :: i in contexts && j in contexts && i != j ==> Sees(contexts[i], j)
  {
    var dir := home + ["instances"];
    forall i, j | i in contexts && j in contexts ensures Sees(contexts[i], j) <==> i != j {
      assert i == dir + [contexts[i].instanceId, "config.json"] && j == dir + [contexts[j].instanceId, "config.json"];
    }
  }

  lemma NeighboursSeeEachOther(contexts: map<Path, Context>, root: Path)
    requires AllNeighbours(contexts, root) && forall i :: i in contexts ==> contexts[i].home != root
    ensures Mutual(contexts)
    ensures forall i, j :: i in contexts && j in contexts && i != j ==> Sees(contexts[i], j)
  {
    forall i | i in contexts ensures !Sees(contexts[i], i) {
      NotItself(contexts[i], root);
    }
    forall i, j | i in contexts && j in contexts && i != j ensures Sees(contexts[i], j) {
      assert SeesNeighbour(contexts[i], j);
    }
  }

  lemma NotItself(c: Context, root: Path)
    requires |c.configPath| == |root| + 3 && root <= c.configPath && c.home != root
    ensures !Sees(c, c.configPath)
  {
    var p, dir := c.configPath, c.InstancesDir();
    assert root == p[..|root|];
    assert |dir| == |c.home| + 1 && dir[..|c.home|] == c.home;
    assert dir <= p ==> p[..|c.home|] == c.home;
  }

  /** A configuration at its instance's place, started without an id and a name, takes the
      directory of all instances for its worktree: it gets the id "instances" and sees itself. */
  lemma UnnamedInstanceSeesItself(home: Path, id: string, env: Env, lower: string -> string)
    requires env.home == home && id != "instances" && lower("instances") == "instances"
    requires EnvFile.Trim(env.instanceId) == "" && EnvFile.Trim(env.name) == ""
    ensures var p := home + ["instances", id, "config.json"];
      Sees(ContextOf(p, env, lower), p)
  {
    var p := home + ["instances", id, "config.json"];
    assert Parent(p) == home + ["instances", id];
    assert Parent(Parent(p)) == home + ["instances"];
    PlainIdStays("instances", lower);
    var c := ContextOf(p, env, lower);
    assert c.instanceId == "instances";
    assert c.InstancesDir() <= p;
  }

  lemma {:induction false} FirstMarkerIs(dir: Path, from: nat, i: nat)
    requires from <= i && MarkerAt(dir, i) && forall k :: from <= k < i ==> !MarkerAt(dir, k)
    ensures FirstMarker(dir, from) == Some(i)
    decreases i - from
  {
    if from < i {
      FirstMarkerIs(dir, from + 1, i);
    }
  }

  /** Where the worktrees of a repository are, seen from below. */
  lemma RepoRootIsFound(repo: Path, below: Path)
    requires ".paperclip" !in repo && below != []
    ensures RepoWorktreesRoot(repo + [".paperclip", "worktrees"] + below) == Some(repo + [".paperclip", "worktrees"])
  {
    var dir := repo + [".paperclip", "worktrees"] + below;
    assert dir[|repo|] == ".paperclip" && dir[|repo| + 1] == "worktrees";
    forall k | 0 <= k < |repo| ensures !MarkerAt(dir, k) {
      assert dir[k] == repo[k] && repo[k] in repo;
    }
    FirstMarkerIs(dir, 0, |repo|);
    assert dir[..|repo| + 2] == repo + [".paperclip", "worktrees"];
  }

  function WorktreeConfig(repo: Path, name: string): Path {
    repo + [".paperclip", "worktrees"] + [name, ".paperclip", "config.json"]
  }

  /** A worktree of a repository sees the repository's other worktrees. */
  lemma NeighbourIsSeen(repo: Path, a: string, b: string, home: Path, id: string)
    requires ".paperclip" !in repo && a != b
    ensures Sees(Context(WorktreeConfig(repo, a), home, id), WorktreeConfig(repo, b))
  {
    var root, p, q := repo + [".paperclip", "worktrees"], WorktreeConfig(repo, a), WorktreeConfig(repo, b);
    assert Parent(p) == root + [a, ".paperclip"];
    RepoRootIsFound(repo, [a, ".paperclip"]);
    assert p[|root|] == a && q[|root|] == b && q[|root| + 1] == ".paperclip" && q[|root| + 2] == "config.json";
    assert SeesNeighbour(Context(p, home, id), q);
  }

  predicate IsPlainChar(c: char) {
    'a' <= c <= 'z' || '0' <= c <= '9'
  }

  lemma {:induction false} DashedPlain(s: string)
    requires forall i :: 0 <= i < |s| ==> IsPlainChar(s[i])
    ensures Dashed(s) == s
  {
    if s != [] {
      DashedPlain(s[1..]);
      assert s == [s[0]] + s[1..];
    }
  }

  lemma PlainIdStays(s: string, lower: string -> string)
    requires s != "" && (forall i :: 0 <= i < |s| ==> IsPlainChar(s[i])) && lower(s) == s
    ensures SanitizeInstanceId(s, lower) == s
  {
    DashedPlain(s);
    assert EnvFile.SkipSpace(s) == s && EnvFile.DropSpace(s) == s;
    assert IsPlainChar(s[0]) && IsPlainChar(s[|s| - 1]);
    assert StripLeft(s) == s && StripRight(s) == s;
  }
}
