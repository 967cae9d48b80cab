/** The time-bounded cache of Pi model lists: what its key identifies, and what a
    cached answer is worth. */
module ModelsCache {
  import opened Common
  import opened ModelListing

  const MODELS_CACHE_TTL: int := 60_000_000_000 // nanoseconds

  // ---------- the cache key ----------

  datatype Pair = Pair(name: string, digest: string)

  predicate IsVolatile(name: string) {
    || name in {"PWD", "OLDPWD", "SHLVL", "_", "TERM_SESSION_ID"}
    || "PAPERCLIP_" <= name || "npm_" <= name || "NPM_" <= name
  }

  /** Five names and everything with one of three prefixes. */
  lemma VolatileNames(name: string, rest: string)
    ensures IsVolatile("PWD") && IsVolatile("OLDPWD") && IsVolatile("SHLVL") && IsVolatile("_") && IsVolatile("TERM_SESSION_ID")
    ensures IsVolatile("PAPERCLIP_" + rest) && IsVolatile("npm_" + rest) && IsVolatile("NPM_" + rest)
    ensures IsVolatile(name) ==>
      name in ["PWD", "OLDPWD", "SHLVL", "_", "TERM_SESSION_ID"] || "PAPERCLIP_" <= name || "npm_" <= name || "NPM_" <= name
  {
  }

  /** The part of the environment that the key looks at. */
  function Stable(env: map<string, string>): map<string, string> {
    map name | name in env && !IsVolatile(name) :: env[name]
  }

  /** The pairs list some environment, each name once and in ascending order. */
  ghost predicate IsListing(pairs: seq<Pair>, env: map<string, string>, hash: string -> string) {
    && (forall i, j :: 0 <= i < j < |pairs| ==> Less(pairs[i].name, pairs[j].name))
    && (forall p :: p in pairs ==> p.name in env && p.digest == hash(env[p.name]))
    && (forall name :: name in env ==> Pair(name, hash(env[name])) in pairs)
  }

  function RenderPairs(pairs: seq<Pair>): string {
    if pairs == [] then "" else pairs[0].name + "=" + pairs[0].digest + "\n" + RenderPairs(pairs[1..])
  }

  function RenderKey(command: string, cwd: string, pairs: seq<Pair>): string {
    command + "\n" + (cwd + "\n" + RenderPairs(pairs))
  }

  /** The cache key of a request. */
  ghost predicate IsKeyOf(key: string, command: string, cwd: string, env: map<string, string>, hash: string -> string) {
    exists pairs :: IsListing(pairs, Stable(env), hash) && key == RenderKey(command, cwd, pairs)
  }

  /** What a volatile variable holds, or whether there is one, makes no difference to the key. */
  lemma VolatileMakesNoDifference(
    key: string, command: string, cwd: string, env: map<string, string>, name: string, value: string, hash: string -> string)
    requires IsVolatile(name)
    ensures IsKeyOf(key, command, cwd, env[name := value], hash) <==> IsKeyOf(key, command, cwd, env, hash)
  {
    assert Stable(env[name := value]) == Stable(env);
  }

  lemma RenderEnd(pairs: seq<Pair>, p: Pair)
    ensures RenderPairs(pairs + [p]) == RenderPairs(pairs) + (p.name + "=" + p.digest + "\n")
  {
    var line := p.name + "=" + p.digest + "\n";
    if pairs == [] {
      assert [p][1..] == [];
      assert RenderPairs([p]) == line + "";
    } else {
      RenderEnd(pairs[1..], p);
      assert (pairs + [p])[1..] == pairs[1..] + [p];
      assert pairs[0].name + "=" + pairs[0].digest + "\n" + (RenderPairs(pairs[1..]) + line)
          == pairs[0].name + "=" + pairs[0].digest + "\n" + RenderPairs(pairs[1..]) + line;
    }
  }

  /** The pairs collected from part of the environment, in any order. */
  ghost predicate Collected(pairs: seq<Pair>, env: map<string, string>, hash: string -> string) {
    && (forall i, j :: 0 <= i < j < |pairs| ==> pairs[i].name != pairs[j].name)
    && (forall p :: p in pairs ==> p.name in env && p.digest == hash(env[p.name]))
    && (forall name :: name in env ==> Pair(name, hash(env[name])) in pairs)
  }

  method CollectPairs(env: map<string, string>, hash: string -> string) returns (pairs: seq<Pair>)
    ensures Collected(pairs, Stable(env), hash)
  {
    pairs := [];
    var todo := env.Keys;
    while todo != {}
      invariant todo <= env.Keys
      invariant Collected(pairs, Stable(env) - todo, hash)
    {
      ghost var before := Stable(env) - todo;
      var name :| name in todo;
      todo := todo - {name};
      if IsVolatile(name) {
        assert Stable(env) - todo == before;
      } else {
        assert Stable(env) - todo - {name} == before;
        CollectOne(pairs, Stable(env) - todo, name, hash);
        pairs := pairs + [Pair(name, hash(env[name]))];
      }
    }
    assert Stable(env) - {} == Stable(env);
  }

  lemma CollectOne(pairs: seq<Pair>, env: map<string, string>, name: string, hash: string -> string)
    requires name in env && Collected(pairs, env - {name}, hash)
    ensures Collected(pairs + [Pair(name, hash(env[name]))], env, hash)
  {
    var pairs' := pairs + [Pair(name, hash(env[name]))];
    forall i | 0 <= i < |pairs| ensures pairs[i].name != name {
      assert pairs[i] in pairs;
    }
    forall other | other in env ensures Pair(other, hash(env[other])) in pairs' {
      if other == name {
        assert pairs'[|pairs|] == Pair(other, hash(env[other]));
      } else {
        assert other in env - {name};
      }
    }
  }

  lemma SortedPairsAreListing(pairs: seq<Pair>, sorted: seq<Pair>, env: map<string, string>, hash: string -> string)
    requires Collected(pairs, env, hash) && multiset(pairs) == multiset(sorted)
    requires Sorted(sorted, (p: Pair) => p.name)
    ensures IsListing(sorted, env, hash)
  {
    assert forall p :: p in pairs <==> p in multiset(pairs);
    assert forall p :: p in sorted <==> p in multiset(sorted);
    forall i, j | 0 <= i < j < |sorted| ensures Less(sorted[i].name, sorted[j].name) {
      if sorted[i].name == sorted[j].name {
        assert sorted[i] in pairs && sorted[j] in pairs;
        assert sorted[i] == sorted[j];
        CountedTwice(sorted, i, j);
        PairCountedOnce(pairs, sorted[i]);
      }
      LessTotal(sorted[i].name, sorted[j].name);
    }
  }

  lemma PairCountedOnce(pairs: seq<Pair>, p: Pair)
    requires forall i, j :: 0 <= i < j < |pairs| ==> pairs[i].name != pairs[j].name
    requires p in pairs
    ensures multiset(pairs)[p] == 1
  {
    var a :| 0 <= a < |pairs| && pairs[a] == p;
    assert pairs == pairs[..a] + [p] + pairs[a + 1..];
    assert p !in pairs[..a] && p !in pairs[a + 1..];
  }

  method DiscoveryCacheKey(command: string, cwd: string, env: map<string, string>, hash: string -> string)
    returns (key: string)
    ensures IsKeyOf(key, command, cwd, env, hash)
  {
    var pairs := CollectPairs(env, hash);
    var name := (p: Pair) => p.name;
    var sorted := SortBy(pairs, name);
    SortBySorts(pairs, name);
    SortedPairsAreListing(pairs, sorted, Stable(env), hash);
    key := command + "\n" + cwd + "\n";
    assert key == RenderKey(command, cwd, sorted[..0]);
    for i := 0 to |sorted|
      invariant key == RenderKey(command, cwd, sorted[..i])
    {
      KeyGrows(command, cwd, sorted, i);
      key := key + sorted[i].name + "=" + sorted[i].digest + "\n";
    }
    assert sorted[..|sorted|] == sorted;
  }

  lemma KeyGrows(command: string, cwd: string, pairs: seq<Pair>, i: nat)
    requires i < |pairs|
    ensures RenderKey(command, cwd, pairs[..i + 1])
        == RenderKey(command, cwd, pairs[..i]) + pairs[i].name + "=" + pairs[i].digest + "\n"
  {
    var before, line := RenderPairs(pairs[..i]), pairs[i].name + "=" + pairs[i].digest + "\n";
    RenderEnd(pairs[..i], pairs[i]);
    assert pairs[..i] + [pairs[i]] == pairs[..i + 1];
    var head := command + "\n";
    assert head + (cwd + "\n" + (before + line)) == head + (cwd + "\n" + before) + line;
  }

  // ---------- what a key identifies ----------

  /** Texts that the key's own separators cannot be confused with. */
  predicate IsPlainName(name: string) {
    '\n' !in name && '=' !in name
  }

  ghost predicate HashIsClean(hash: string -> string) {
    && (forall v :: '\n' !in hash(v))
    && (forall v, w {:trigger hash(v), hash(w)} :: hash(v) == hash(w) ==> v == w)
  }

  predicate PairsArePlain(pairs: seq<Pair>) {
    forall p :: p in pairs ==> IsPlainName(p.name) && '\n' !in p.digest
  }

  lemma {:induction false} PairsReadBack(a: seq<Pair>, b: seq<Pair>)
    requires PairsArePlain(a) && PairsArePlain(b) && RenderPairs(a) == RenderPairs(b)
    ensures a == b
  {
    if a == [] || b == [] {
      assert a == b;
    } else {
      var restA, restB := RenderPairs(a[1..]), RenderPairs(b[1..]);
      assert a[0] in a && b[0] in b;
      assert a[0].name + "=" + a[0].digest + "\n" + restA == a[0].name + ['='] + (a[0].digest + "\n" + restA);
      assert b[0].name + "=" + b[0].digest + "\n" + restB == b[0].name + ['='] + (b[0].digest + "\n" + restB);
      FirstSeparator(a[0].name, a[0].digest + "\n" + restA, b[0].name, b[0].digest + "\n" + restB, '=');
      FirstSeparator(a[0].digest, restA, b[0].digest, restB, '\n');
      PairsReadBack(a[1..], b[1..]);
    }
  }

  lemma RenderedKeyReadsBack(command: string, cwd: string, a: seq<Pair>, command': string, cwd': string, b: seq<Pair>)
    requires '\n' !in command && '\n' !in cwd && '\n' !in command' && '\n' !in cwd'
    requires PairsArePlain(a) && PairsArePlain(b) && RenderKey(command, cwd, a) == RenderKey(command', cwd', b)
    ensures command == command' && cwd == cwd' && a == b
  {
    FirstSeparator(command, cwd + "\n" + RenderPairs(a), command', cwd' + "\n" + RenderPairs(b), '\n');
    FirstSeparator(cwd, RenderPairs(a), cwd', RenderPairs(b), '\n');
    PairsReadBack(a, b);
  }

  /** An environment is listed in one way only. */
  lemma {:induction false} ListingIsUnique(a: seq<Pair>, b: seq<Pair>, env: map<string, string>, hash: string -> string)
    requires IsListing(a, env, hash) && IsListing(b, env, hash)
    ensures a == b
    decreases |env|
  {
    EmptyListing(a, env, hash);
    EmptyListing(b, env, hash);
    if env != map[] {
      FirstIsLeast(a, b, env, hash);
      FirstIsLeast(b, a, env, hash);
      if a[0].name != b[0].name {
        LessAsymmetric(a[0].name, b[0].name);
      }
      RestIsListing(a, env, hash);
      RestIsListing(b, env, hash);
      ListingIsUnique(a[1..], b[1..], env - {a[0].name}, hash);
    }
  }

  lemma EmptyListing(a: seq<Pair>, env: map<string, string>, hash: string -> string)
    requires IsListing(a, env, hash)
    ensures a == [] <==> env == map[]
  {
    if a != [] {
      assert a[0] in a;
    }
    if env != map[] {
      var name :| name in env;
      assert Pair(name, hash(env[name])) in a;
    }
  }

  lemma FirstIsLeast(a: seq<Pair>, b: seq<Pair>, env: map<string, string>, hash: string -> string)
    requires IsListing(a, env, hash) && IsListing(b, env, hash) && a != [] && b != []
    ensures a[0].name == b[0].name || Less(a[0].name, b[0].name)
  {
    assert b[0] in b;
    var p := Pair(b[0].name, hash(env[b[0].name]));
    assert p in a;
    var k :| 0 <= k < |a| && a[k] == p;
    assert k > 0 ==> Less(a[0].name, a[k].name);
  }

  lemma RestIsListing(a: seq<Pair>, env: map<string, string>, hash: string -> string)
    requires IsListing(a, env, hash) && a != []
    ensures a[0].name in env && a[0].digest == hash(env[a[0].name])
    ensures IsListing(a[1..], env - {a[0].name}, hash)
    ensures |env - {a[0].name}| < |env|
  {
    assert a[0] in a;
    var rest := env - {a[0].name};
    assert rest.Keys == env.Keys - {a[0].name};
    forall p | p in a[1..] ensures p.name in rest {
      assert p in a;
      var k :| 1 <= k < |a| && a[k] == p;
      assert Less(a[0].name, p.name);
      if p.name == a[0].name {
        LessAsymmetric(p.name, p.name);
      }
    }
    forall name | name in rest ensures Pair(name, hash(rest[name])) in a[1..] {
      assert Pair(name, hash(env[name])) in a;
    }
  }

  lemma ListingIsPlain(pairs: seq<Pair>, env: map<string, string>, hash: string -> string)
    requires IsListing(pairs, env, hash) && HashIsClean(hash) && forall name :: name in env ==> IsPlainName(name)
    ensures PairsArePlain(pairs)
  {
  }

  lemma ListingTellsEnvironment(
    pairs: seq<Pair>, env: map<string, string>, env': map<string, string>, hash: string -> string)
    requires IsListing(pairs, env, hash) && IsListing(pairs, env', hash) && HashIsClean(hash)
    ensures env == env'
  {
    forall name | name in env ensures name in env' && env[name] == env'[name] {
      assert Pair(name, hash(env[name])) in pairs;
    }
    forall name | name in env' ensures name in env {
      assert Pair(name, hash(env'[name])) in pairs;
    }
  }

  /** Two requests share a key exactly when command, directory and the stable part of the environment agree. */
  lemma KeysAgreeIff(
    key: string, command: string, cwd: string, env: map<string, string>,
    key': string, command': string, cwd': string, env': map<string, string>, hash: string -> string)
    requires IsKeyOf(key, command, cwd, env, hash) && IsKeyOf(key', command', cwd', env', hash)
    requires '\n' !in command && '\n' !in cwd && '\n' !in command' && '\n' !in cwd'
    requires forall name :: name in env || name in env' ==> IsPlainName(name)
    requires HashIsClean(hash)
    ensures key == key' <==> command == command' && cwd == cwd' && Stable(env) == Stable(env')
  {
    var a :| IsListing(a, Stable(env), hash) && key == RenderKey(command, cwd, a);
    var b :| IsListing(b, Stable(env'), hash) && key' == RenderKey(command', cwd', b);
    ListingIsPlain(a, Stable(env), hash);
    ListingIsPlain(b, Stable(env'), hash);
    if key == key' {
      RenderedKeyReadsBack(command, cwd, a, command', cwd', b);
      ListingTellsEnvironment(a, Stable(env), Stable(env'), hash);
    } else if Stable(env) == Stable(env') {
      ListingIsUnique(a, b, Stable(env), hash);
    }
  }

  // ---------- the cache ----------

  datatype Entry = Entry(expiresAt: int, models: seq<Model>)

  /** One completed discovery and the time its result was put into the cache. */
  datatype Production = Production(key: string, models: seq<Model>, at: int)

  /** The last discovery under a key. */
  ghost function Latest(log: seq<Production>, key: string): Option<Production> {
    if log == [] then None
    else if log[|log| - 1].key == key then Some(log[|log| - 1])
    else Latest(log[..|log| - 1], key)
  }

  /** What a fresh enough discovery under the key gave. */
  ghost function Fresh(log: seq<Production>, key: string, now: int): Option<seq<Model>> {
    match Latest(log, key)
    case Some(p) => if now - p.at < MODELS_CACHE_TTL then Some(p.models) else None
    case None => None
  }

  /** Each method body is one critical section, so any interleaving of callers is some sequence of calls. */
  class Cache {
    const lower: string -> string // strings.ToLower
    var entries: map<string, Entry>
    ghost var log: seq<Production>
    ghost var clock: int

    /** A key is cached as its last discovery gave it, unless that had expired by the last look at the clock. */
    ghost predicate Valid()
      reads this
    {
      && (forall key :: key in entries ==>
        && Latest(log, key).Some?
        && entries[key] == Entry(Latest(log, key).value.at + MODELS_CACHE_TTL, Latest(log, key).value.models))
      && (forall key :: key !in entries && Latest(log, key).Some? ==>
        Latest(log, key).value.at + MODELS_CACHE_TTL <= clock)
      && (forall p :: p in log ==> Presentable(p.models, lower))
    }

    constructor (lower: string -> string)
      ensures Valid() && this.lower == lower && log == [] && entries == map[]
    {
      this.lower := lower;
      entries := map[];
      log := [];
      clock := 0;
    }

    method PruneExpired(now: int)
      modifies `entries
      ensures entries == map key | key in old(entries) && now < old(entries)[key].expiresAt :: old(entries)[key]
    {
      var todo := entries.Keys;
      while todo != {}
        invariant todo <= old(entries).Keys
        invariant entries == map key | key in old(entries) && (key in todo || now < old(entries)[key].expiresAt)
            :: old(entries)[key]
      {
        var key :| key in todo;
        todo := todo - {key};
        if entries[key].expiresAt <= now {
          entries := entries - {key};
        }
      }
    }

    /** The first critical section: prune, then look the key up. */
    method Lookup(key: string, now: int) returns (hit: Option<seq<Model>>)
      requires Valid() && clock <= now
      modifies this
      ensures Valid() && clock == now && log == old(log)
      ensures hit == Fresh(log, key, now)
    {
      clock := now;
      PruneExpired(now);
      if key in entries && now < entries[key].expiresAt {
        return Some(entries[key].models);
      }
      return None;
    }

    /** The second critical section, after a discovery that did not fail. */
    method Remember(key: string, models: seq<Model>, now: int)
      requires Valid() && clock <= now && Presentable(models, lower)
      modifies this
      ensures Valid() && clock == now && log == old(log) + [Production(key, models, now)]
    {
      entries := entries[key := Entry(now + MODELS_CACHE_TTL, models)];
      log := log + [Production(key, models, now)];
      clock := now;
      assert log[..|log| - 1] == old(log);
    }
  }

  /** The n-th discovery is the last one under its key. */
  ghost predicate IsLast(log: seq<Production>, n: nat) {
    n < |log| && forall k :: n < k < |log| ==> log[k].key != log[n].key
  }

  lemma {:induction false} LatestStands(log: seq<Production>, key: string) returns (n: nat)
    requires Latest(log, key).Some?
    ensures IsLast(log, n) && log[n] == Latest(log, key).value && log[n].key == key
  {
    var last := |log| - 1;
    if log[last].key == key {
      n := last;
    } else {
      n := LatestStands(log[..last], key);
      assert forall k :: 0 <= k < last ==> log[k] == log[..last][k];
    }
  }

  /** A cached answer was discovered under the same key less than 60 seconds ago, with nothing
      discovered under it since; and it is as presentable as every discovery is. */
  lemma HitIsRecent(log: seq<Production>, key: string, now: int, lower: string -> string)
    requires forall p :: p in log ==> Presentable(p.models, lower)
    requires Fresh(log, key, now).Some?
    ensures Presentable(Fresh(log, key, now).value, lower)
    ensures exists n: nat ::
      (IsLast(log, n) && log[n].key == key
      && log[n].models == Fresh(log, key, now).value && now - log[n].at < MODELS_CACHE_TTL)
  {
    var n := LatestStands(log, key);
    assert log[n] in log;
  }
}
