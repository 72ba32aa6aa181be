/**
 The sharded scenario registry as it runs (internal/storage/sharded_scenario.go): shards, indexes,
 the global list and the match cache updated in place. Every method is proved to do to its state
 exactly what `RegistryRuns.ShardedStep` does, and Match to give exactly `ShardedIndex.Answer`,
 by search or from the cache.
 */
module ShardedRegistry {
  import opened Basics
  import opened Wrappers
  import opened Scenarios
  import opened LinearRegistry
  import opened ShardedIndex
  import opened RegistryRuns
  import opened CacheKeys
  import opened CachedAnswers
  import MatchCache

  // ---- list loops --------------------------------------------------------------------------

  lemma DropNameSnoc(l: seq<Scenario>, s: Scenario, name: string)
    ensures DropName(l + [s], name) == if s.name == name then DropName(l, name) else DropName(l, name) + [s]
    ensures HasName(l + [s], name) <==> HasName(l, name) || s.name == name
  {
    assert (l + [s])[..|l|] == l;
    if s.name == name {
      assert s in l + [s];
    }
  }

  lemma SplitHead<T>(a: seq<T>, rest: seq<T>)
    requires rest != []
    ensures a + rest == a + [rest[0]] + rest[1..]
    ensures (a + rest)[|a|] == rest[0]
    ensures (a + rest)[..|a|] + (a + rest)[|a| + 1..] == a + rest[1..]
  {
  }

  /** One turn of the removal loop: `kept` is what remains of `seen`, and `rest` is still to be looked at. */
  lemma RemovalTurn(seen: seq<Scenario>, kept: seq<Scenario>, rest: seq<Scenario>, name: string)
    requires kept == DropName(seen, name) && rest != []
    ensures var s, r := rest[0], kept + rest;
      && r[|kept|] == s
      && (if s.name == name then r[..|kept|] + r[|kept| + 1..] == kept + rest[1..]
          else r == kept + [s] + rest[1..])
      && DropName(seen + [s], name) == (if s.name == name then kept else kept + [s])
      && (HasName(seen + [s], name) <==> HasName(seen, name) || s.name == name)
      && seen + rest == seen + [s] + rest[1..]
  {
    var s := rest[0];
    DropNameSnoc(seen, s, name);
    hide DropName, HasName;
    SplitHead(kept, rest);
    SplitHead(seen, rest);
  }

  /** The in-place removal loop over one slice. */
  method RemoveNamed(l: seq<Scenario>, name: string) returns (r: seq<Scenario>, removed: bool)
    ensures r == DropName(l, name)
    ensures removed <==> HasName(l, name)
  {
    r, removed := l, false;
    var i := 0;
    ghost var seen, kept, rest := [], [], l;
    assert kept == DropName(seen, name) && !HasName(seen, name);
    hide DropName, HasName;
    while i < |r|
      invariant l == seen + rest
      invariant kept == DropName(seen, name) && |kept| == i && r == kept + rest
      invariant removed <==> HasName(seen, name)
      decreases |rest|
    {
      RemovalTurn(seen, kept, rest, name);
      if r[i].name == name {
        r := r[..i] + r[i + 1..];
        removed := true;
      } else {
        kept := kept + [rest[0]];
        i := i + 1;
      }
      seen, rest := seen + [rest[0]], rest[1..];
    }
    assert rest == [] && seen == l && r == kept;
  }

  method UniqueScenarioPointers(l: seq<Scenario>) returns (unique: seq<Scenario>)
    ensures unique == Unique(l)
  {
    var seen: set<Scenario> := {};
    var defaultSeen := false;
    unique := [];
    for i := 0 to |l|
      invariant unique == Unique(l[..i])
      invariant seen == Elems(unique)
      invariant defaultSeen == HasName(unique, DEFAULT_NAME)
    {
      assert l[..i + 1][..i] == l[..i];
      var s := l[i];
      if s.name == DEFAULT_NAME {
        if defaultSeen {
          continue;
        }
        defaultSeen := true;
      }
      if s in seen {
        continue;
      }
      seen := seen + {s};
      unique := unique + [s];
    }
    assert l[..|l|] == l;
  }

  method ScanForBest(m: Matcher, cands: seq<Scenario>, req: Request) returns (best: Option<Scenario>)
    ensures best == BestMatch(Hits(m, req), cands, None)
  {
    best := None;
    for i := 0 to |cands|
      invariant best == BestMatch(Hits(m, req), cands[..i], None)
    {
      assert cands[..i + 1][..i] == cands[..i];
      var s := cands[i];
      if MatchesScenario(m, s, req) && (best.None? || Outranks(s, best.value)) {
        best := Some(s);
      }
    }
    assert cands[..|cands|] == cands;
  }

  method BuildSearchKeys(req: Request) returns (keys: seq<string>)
    ensures keys == SearchKeys(req)
  {
    var verb := if req.verb == "" then "*" else req.verb;
    var path := LookupPath(req.uri);
    var first := [Key(verb, path), Key(verb, "*"), Key("*", path), "*:*"];
    keys := first;
    var i := |path| - 1;
    while i > 0
      invariant 0 <= i < |path|
      invariant keys + PrefixKeys(verb, path, i + 1) == first + PrefixKeys(verb, path, |path|)
    {
      NextPrefixKey(keys, verb, path, i);
      hide PrefixKeys, Key;
      if path[i] == '/' {
        keys := keys + [Key(verb, path[..i])];
      }
      i := i - 1;
    }
    assert keys + [] == keys;
  }

  lemma NextPrefixKey(keys: seq<string>, verb: string, path: string, i: nat)
    requires 0 < i < |path|
    ensures keys + PrefixKeys(verb, path, i + 1) ==
            (if path[i] == '/' then keys + [Key(verb, path[..i])] else keys) + PrefixKeys(verb, path, i)
  {
    hide Key;
  }

  /** The prefixes of a scenario's endpoints, one per endpoint. */
  method BuildIndexPrefixes(rule: MatchRule) returns (prefixes: seq<string>)
    ensures Elems(prefixes) == IndexPrefixes(rule)
  {
    hide OrStar, ExtractPathPrefix;
    if rule.paths == [] {
      return if rule.path != "" then [OrStar(ExtractPathPrefix(rule.path))] else ["*"];
    }
    prefixes := [];
    for i := 0 to |rule.paths|
      invariant |prefixes| == i
      invariant forall j | 0 <= j < i :: prefixes[j] == OrStar(ExtractPathPrefix(rule.paths[j]))
    {
      prefixes := prefixes + [OrStar(ExtractPathPrefix(rule.paths[i]))];
    }
    forall p | p in rule.paths ensures OrStar(ExtractPathPrefix(p)) in prefixes {
      var j :| 0 <= j < |rule.paths| && rule.paths[j] == p;
      assert prefixes[j] == OrStar(ExtractPathPrefix(p));
    }
  }

  method BuildIndexKeys(rule: MatchRule) returns (keys: seq<string>)
    ensures Elems(keys) == IndexKeys(rule)
    ensures forall i, j | 0 <= i < j < |keys| :: keys[i] != keys[j]
  {
    var prefixes := BuildIndexPrefixes(rule);
    hide IndexPrefixes;
    var methods := if rule.methods == [] then ["*"] else rule.methods;
    assert Elems(methods) == IndexMethods(rule);
    hide IndexMethods;
    keys := CrossKeys(prefixes, methods);
    assert forall p :: p in prefixes <==> p in Elems(prefixes);
    assert forall v :: v in methods <==> v in Elems(methods);
    assert Elems(keys) == IndexKeys(rule);
  }

  /** One key per prefix and method, each once. */
  method CrossKeys(prefixes: seq<string>, methods: seq<string>) returns (keys: seq<string>)
    ensures Elems(keys) == set p, v | p in prefixes && v in methods :: Key(v, p)
    ensures forall i, j | 0 <= i < j < |keys| :: keys[i] != keys[j]
  {
    keys := [];
    var seen: set<string> := {};
    for i := 0 to |prefixes|
      invariant seen == Elems(keys)
      invariant forall i, j | 0 <= i < j < |keys| :: keys[i] != keys[j]
      invariant seen == set p, v | p in prefixes[..i] && v in methods :: Key(v, p)
    {
      ghost var before := seen;
      var pre := prefixes[i];
      for j := 0 to |methods|
        invariant seen == Elems(keys)
        invariant forall i, j | 0 <= i < j < |keys| :: keys[i] != keys[j]
        invariant seen == before + set v | v in methods[..j] :: Key(v, pre)
      {
        assert methods[..j + 1] == methods[..j] + [methods[j]];
        var k := Key(methods[j], pre);
        if k !in seen {
          seen := seen + {k};
          keys := keys + [k];
        }
      }
      assert methods[..|methods|] == methods;
      assert prefixes[..i + 1] == prefixes[..i] + [pre];
    }
    assert prefixes[..|prefixes|] == prefixes;
  }

  /** Drop a name from every entry of an index; an emptied entry is deleted. */
  method RemoveFromIndex(index: map<string, seq<Scenario>>, name: string)
    returns (r: map<string, seq<Scenario>>, removed: bool)
    ensures r == RemoveFromShard(Shard(index, []), name).index
    ensures removed <==> exists k | k in index :: HasName(index[k], name)
  {
    hide DropName;
    r, removed := index, false;
    var todo := index.Keys;
    while todo != {}
      invariant todo <= index.Keys
      invariant forall k :: k in r <==> k in index && (k in todo || index[k] == [] || DropName(index[k], name) != [])
      invariant forall k | k in r :: r[k] == if k in todo then index[k] else DropName(index[k], name)
      invariant removed <==> exists k | k in index && k !in todo :: HasName(index[k], name)
    {
      var k :| k in todo;
      var kept, hit := RemoveNamed(r[k], name);
      if hit {
        if kept == [] {
          r := r - {k};
        } else {
          r := r[k := kept];
        }
        removed := true;
      }
      todo := todo - {k};
    }
  }

  lemma UniqueSnoc(l: seq<Scenario>, s: Scenario)
    ensures Unique(l + [s]) == if s in Unique(l) || (s.name == DEFAULT_NAME && HasName(Unique(l), DEFAULT_NAME))
                               then Unique(l) else Unique(l) + [s]
  {
    assert (l + [s])[..|l|] == l;
  }

  lemma OneMoreName(l: seq<Scenario>, s: Scenario, name: string)
    ensures HasName(l + [s], name) <==> HasName(l, name) || s.name == name
    ensures Elems(l + [s]) == Elems(l) + {s}
  {
    assert s in l + [s] && forall x | x in l :: x in l + [s];
  }

  // ---- one shard ---------------------------------------------------------------------------

  class ScenarioShard {
    var index: map<string, seq<Scenario>>
    var scenarios: seq<Scenario>

    function Contents(): Shard
      reads this
    {
      Shard(index, scenarios)
    }

    constructor ()
      ensures Contents() == FreshShard
    {
      index, scenarios := map[], [DefaultScenario];
    }

    method Reset()
      modifies this
      ensures Contents() == Shard(map[], [])
    {
      scenarios, index := [], map[];
    }

    /** Append `s` to the list and to the index entry of each key. */
    method Append(s: Scenario, keys: seq<string>)
      requires keys != [] && forall i, j | 0 <= i < j < |keys| :: keys[i] != keys[j]
      modifies this
      ensures Contents() == AddToShard(old(Contents()), s, Elems(keys))
    {
      scenarios := scenarios + [s];
      for j := 0 to |keys|
        invariant scenarios == old(scenarios) + [s]
        invariant index.Keys == old(index.Keys) + Elems(keys[..j])
        invariant forall k | k in index :: index[k] == Lookup(old(index), k) + if k in keys[..j] then [s] else []
      {
        var k := keys[j];
        assert keys[..j + 1] == keys[..j] + [k];
        index := index[k := Lookup(index, k) + [s]];
      }
      assert keys[..|keys|] == keys && keys[0] in Elems(keys);
      assert index == AddToShard(old(Contents()), s, Elems(keys)).index;
    }

    /** Take `name` out of the list and of every index entry; an emptied entry is deleted. */
    method RemoveName(name: string) returns (removed: bool)
      modifies this
      ensures Contents() == RemoveFromShard(old(Contents()), name)
      ensures removed <==> ShardHolds(old(Contents()), name)
    {
      var hit;
      scenarios, removed := RemoveNamed(scenarios, name);
      index, hit := RemoveFromIndex(index, name);
      removed := removed || hit;
    }
  }

  // ---- the registry ------------------------------------------------------------------------

  /** Contents of a list of shards. */
  ghost function ShardContents(shards: seq<ScenarioShard>): (r: seq<Shard>)
    reads shards
    ensures |r| == |shards|
    ensures forall i | 0 <= i < |shards| :: r[i] == shards[i].Contents()
  {
    seq(|shards|, i requires 0 <= i < |shards| reads shards => shards[i].Contents())
  }

  class ShardedScenarioRegistry {
    const cfg: Config
    const shards: seq<ScenarioShard>
    const cache: MatchCache.ScenarioMatchCache?
    var globalScenarios: seq<Scenario>
    var cacheDisabled: bool
    var filePath: string
    /** Odd while a mutation runs, even when the contents are stable. */
    var generation: nat
    /** Every request Match was ever called with. */
    ghost var served: set<Request>

    ghost predicate Shape() {
      |shards| == cfg.shardCount && forall i, j | 0 <= i < j < |shards| :: shards[i] != shards[j]
    }

    ghost function Contents(): (c: Contents)
      reads `globalScenarios, `cacheDisabled, shards
      ensures Shape() ==> |c.shards| == cfg.shardCount
    {
      ShardedIndex.Contents(ShardContents(shards), globalScenarios, cacheDisabled)
    }

    ghost function State(): ShardedState
      reads `globalScenarios, `cacheDisabled, `filePath, shards
    {
      ShardedState(Contents(), filePath)
    }

    /** An entry of the current generation is the answer to some request served under its key. */
    ghost predicate CacheRight()
      requires Shape()
      reads this, shards, cache, if cache == null then [] else cache.chain
    {
      cache != null ==>
        && cache.Valid()
        && forall e | e in cache.Model() ::
             && e.generation <= generation
             && (e.generation == generation ==>
                   !cacheDisabled &&
                   exists q | q in served :: CacheKey(q) == e.key && Answer(cfg, Contents(), q) == Some(e.scenario))
    }

    /** While a mutation runs, no entry carries the generation in progress. */
    ghost predicate CacheStale()
      reads `generation, cache, if cache == null then [] else cache.chain
    {
      generation % 2 == 1 &&
      (cache != null ==> cache.Valid() && forall e | e in cache.Model() :: e.generation < generation)
    }

    ghost predicate Valid()
      reads this, shards, cache, if cache == null then [] else cache.chain
      ensures Valid() ==> Shape()
    {
      Shape() && generation % 2 == 0 && CacheRight()
    }

    constructor (config: Config, cacheSize: nat, enableCache: bool)
      ensures Valid() && cfg == config && fresh(shards)
      ensures if enableCache then cache != null && fresh(cache) && fresh(cache.chain) else cache == null
      ensures State() == ShardedInit(cfg) && served == {}
    {
      var made: seq<ScenarioShard> := [];
      for i := 0 to config.shardCount
        invariant |made| == i && fresh(made)
        invariant forall j | 0 <= j < i :: made[j].Contents() == FreshShard
        invariant forall j, k | 0 <= j < k < i :: made[j] != made[k]
      {
        var shard := new ScenarioShard();
        made := made + [shard];
      }
      cfg, shards := config, made;
      globalScenarios, cacheDisabled, filePath, generation, served := [], false, "", 0, {};
      if enableCache {
        cache := new MatchCache.ScenarioMatchCache(cacheSize);
      } else {
        cache := null;
      }
      new;
      assert ShardContents(shards) == Fresh(cfg).shards;
    }

    // ---- placing and removing ------------------------------------------------------------

    /** Add one method's endpoints to the entries, unless one is not plain. */
    method AddRouteEntries(was: map<nat, seq<string>>, verb: string, paths: seq<string>, ghost before: set<(nat, string)>)
      returns (entries: map<nat, seq<string>>, ok: bool)
      requires EntriesCover(cfg, was, before)
      ensures ok == AllPlain(paths)
      ensures ok ==> EntriesCover(cfg, entries, before + set p | p in paths :: (HashString(cfg, p), Key(verb, p)))
    {
      hide Key, HashString;
      entries := was;
      for j := 0 to |paths|
        invariant AllPlain(paths[..j])
        invariant EntriesCover(cfg, entries, before + set p | p in paths[..j] :: (HashString(cfg, p), Key(verb, p)))
      {
        var path := paths[j];
        if path == "" || IsRegexEndpoint(path) || '{' in path {
          assert path in paths;
          return map[], false;
        }
        assert paths[..j + 1] == paths[..j] + [path];
        var i := HashString(cfg, path);
        var here := if i in entries then entries[i] else [];
        if Key(verb, path) !in here {
          entries := entries[i := here + [Key(verb, path)]];
        }
      }
      assert paths[..|paths|] == paths;
      ok := true;
    }

    /** The shards and keys of a scenario whose exact routes are all literal. */
    method ExactRouteShardEntries(s: Scenario) returns (entries: map<nat, seq<string>>, ok: bool)
      ensures ok == ExactRoutable(s.rule)
      ensures ok ==> forall i: nat :: i in entries <==> ExactKeys(cfg, s.rule, i) != {}
      ensures ok ==> forall i | i in entries ::
        Elems(entries[i]) == ExactKeys(cfg, s.rule, i) && Distinct(entries[i])
    {
      var rule := s.rule;
      if |rule.routes| == 0 {
        return map[], false;
      }
      entries := map[];
      for m := 0 to |EXACT_ROUTE_METHODS|
        invariant forall v | v in EXACT_ROUTE_METHODS[..m] && v in rule.routes :: AllPlain(rule.routes[v])
        invariant EntriesCover(cfg, entries, RouteKeys(cfg, rule, EXACT_ROUTE_METHODS[..m]))
      {
        var verb := EXACT_ROUTE_METHODS[m];
        ghost var before := RouteKeys(cfg, rule, EXACT_ROUTE_METHODS[..m]);
        RouteKeysOneMore(cfg, rule, m);
        hide EntriesCover, RouteKeys, AllPlain;
        if verb in rule.routes {
          entries, ok := AddRouteEntries(entries, verb, rule.routes[verb], before);
          if !ok {
            return;
          }
        }
        assert EXACT_ROUTE_METHODS[..m + 1] == EXACT_ROUTE_METHODS[..m] + [verb];
      }
      ok := true;
      assert EXACT_ROUTE_METHODS[..|EXACT_ROUTE_METHODS|] == EXACT_ROUTE_METHODS;
      CoverIsExact(cfg, rule, entries);
    }

    /** Put a scenario where it belongs, one locked shard at a time. */
    method IndexScenario(s: Scenario)
      requires Shape()
      modifies `globalScenarios, shards
      ensures Contents() == Place(cfg, old(Contents()), s)
    {
      ghost var before := ShardContents(shards);
      var entries, ok := ExactRouteShardEntries(s);
      if ok {
        AppendEverywhere(s, entries);
        assert Contents() == Place(cfg, old(Contents()), s);
        return;
      }
      var path := ShardSafePath(s.rule);
      if path.None? {
        globalScenarios := globalScenarios + [s];
        assert ShardContents(shards) == Place(cfg, old(Contents()), s).shards;
        return;
      }
      AppendHashed(s, HashString(cfg, path.value));
      assert ShardContents(shards) == Place(cfg, old(Contents()), s).shards;
    }

    method AppendHashed(s: Scenario, i: nat)
      requires Shape() && i < cfg.shardCount
      modifies shards
      ensures forall j | 0 <= j < cfg.shardCount ::
        shards[j].Contents() == (if j == i then AddToShard(old(shards[j].Contents()), s, IndexKeys(s.rule))
                                 else old(shards[j].Contents()))
    {
      hide AddToShard, IndexKeys;
      var keys := BuildIndexKeys(s.rule);
      IndexKeysNonEmpty(s.rule);
      assert keys != [];
      shards[i].Append(s, keys);
    }

    lemma IndexKeysNonEmpty(rule: MatchRule)
      ensures IndexKeys(rule) != {}
    {
      var v := if rule.methods == [] then "*" else rule.methods[0];
      var p := if rule.paths != [] then OrStar(ExtractPathPrefix(rule.paths[0]))
               else if rule.path != "" then OrStar(ExtractPathPrefix(rule.path)) else "*";
      assert p in IndexPrefixes(rule) && v in IndexMethods(rule);
      assert Key(v, p) in IndexKeys(rule);
    }

    method AppendEverywhere(s: Scenario, entries: map<nat, seq<string>>)
      requires Shape()
      requires forall i | i in entries :: i < cfg.shardCount && entries[i] != [] && Distinct(entries[i])
      modifies shards
      ensures forall i | 0 <= i < cfg.shardCount ::
        shards[i].Contents() == AddToShard(old(shards[i].Contents()), s, if i in entries then Elems(entries[i]) else {})
    {
      var todo := entries.Keys;
      while todo != {}
        invariant todo <= entries.Keys
        invariant forall i | 0 <= i < cfg.shardCount ::
          shards[i].Contents() == if i in entries && i !in todo then AddToShard(old(shards[i].Contents()), s, Elems(entries[i]))
                                  else old(shards[i].Contents())
      {
        var i :| i in todo;
        shards[i].Append(s, entries[i]);
        todo := todo - {i};
      }
    }

    /** Take a name out of every shard and every index. */
    method RemoveFromShards(name: string) returns (removed: bool)
      requires Shape()
      modifies shards
      ensures forall i | 0 <= i < cfg.shardCount :: shards[i].Contents() == RemoveFromShard(old(shards[i].Contents()), name)
      ensures removed <==> exists i | 0 <= i < cfg.shardCount :: ShardHolds(old(shards[i].Contents()), name)
    {
      hide RemoveFromShard, ShardHolds;
      removed := false;
      for i := 0 to |shards|
        invariant removed <==> exists j | 0 <= j < i :: ShardHolds(old(shards[j].Contents()), name)
        invariant forall j | 0 <= j < |shards| ::
          shards[j].Contents() == if j < i then RemoveFromShard(old(shards[j].Contents()), name) else old(shards[j].Contents())
      {
        var hit := shards[i].RemoveName(name);
        removed := removed || hit;
      }
    }

    /** Take a name out of every shard, every index and the global list. */
    method RemoveEverywhere(name: string) returns (removed: bool)
      requires Shape()
      modifies `globalScenarios, `cacheDisabled, shards
      ensures Contents() == Removed(old(Contents()), name)
      ensures removed <==> Holds(old(Contents()), name)
    {
      hide RemoveFromShard, ShardHolds, RegistryDisables;
      ghost var before := ShardContents(shards);
      removed := RemoveFromShards(name);
      assert removed <==> exists i | 0 <= i < |before| :: ShardHolds(before[i], name);
      if HasName(globalScenarios, name) {
        globalScenarios := RemoveFirst(globalScenarios, name);
        removed := true;
      } else {
        RemoveFirstAbsent(globalScenarios, name);
      }
      if removed {
        cacheDisabled := RegistryDisablesMatchCache();
        assert ShardContents(shards) == RemoveFrom(old(Contents()), name).shards;
      } else {
        forall j | 0 <= j < |shards| ensures RemoveFromShard(before[j], name) == before[j] {
          NothingRemoved(before[j], name);
        }
        assert ShardContents(shards) == before;
      }
    }

    lemma {:induction false} RemoveFirstAbsent(l: seq<Scenario>, name: string)
      requires !HasName(l, name)
      ensures RemoveFirst(l, name) == l
    {
      if l != [] {
        assert l[0] in l && forall s | s in l[1..] :: s in l;
        RemoveFirstAbsent(l[1..], name);
      }
    }

    lemma NothingRemoved(sh: Shard, name: string)
      requires !ShardHolds(sh, name)
      ensures RemoveFromShard(sh, name) == sh
    {
      forall k | k in sh.index ensures DropName(sh.index[k], name) == sh.index[k] {
        assert !HasName(sh.index[k], name);
      }
    }

    method RegistryDisablesMatchCache() returns (r: bool)
      requires Shape()
      ensures r <==> RegistryDisables(ShardContents(shards), globalScenarios)
    {
      ghost var all := ShardContents(shards);
      for i := 0 to |shards|
        invariant forall j | 0 <= j < i :: !AnyDisables(all[j].scenarios)
      {
        if AnyDisables(shards[i].scenarios) {
          assert all[i] in all;
          return true;
        }
      }
      r := AnyDisables(globalScenarios);
    }

    method BeginMutation()
      requires Valid()
      modifies `generation
      ensures CacheStale()
    {
      generation := generation + 1;
    }

    /** Leave the critical section, dropping the cached results if anything changed. */
    method EndMutation(changed: bool)
      requires Shape() && CacheStale()
      modifies `generation, cache, if cache == null then {} else {cache.head, cache.tail}
      ensures Valid()
    {
      if changed && cache != null {
        cache.Clear();
      }
      generation := generation + 1;
    }

    // ---- the public operations -----------------------------------------------------------

    /** Replace the contents by the scenarios of a ranked list. */
    method LoadContents(l: seq<Scenario>)
      requires Shape()
      modifies `globalScenarios, `cacheDisabled, shards
      ensures Contents() == Loaded(cfg, l)
    {
      cacheDisabled := AnyDisables(l);
      ResetShards();
      globalScenarios := [];
      assert ShardContents(shards) == Empty(cfg, AnyDisables(l)).shards;
      for i := 0 to |l|
        invariant Contents() == PlaceAll(cfg, Empty(cfg, AnyDisables(l)), l[..i])
      {
        assert l[..i + 1][..i] == l[..i];
        IndexScenario(l[i]);
      }
      assert l[..|l|] == l;
    }

    method ResetShards()
      requires Shape()
      modifies shards
      ensures forall i | 0 <= i < |shards| :: shards[i].Contents() == Shard(map[], [])
    {
      for i := 0 to |shards|
        invariant forall j | 0 <= j < i :: shards[j].Contents() == Shard(map[], [])
      {
        shards[i].Reset();
      }
    }

    /** Register a validated scenario in place of its namesake. */
    method AddContents(scenario: Scenario)
      requires Shape()
      modifies `globalScenarios, `cacheDisabled, shards
      ensures Contents() == Added(cfg, old(Contents()), scenario)
    {
      hide Removed, Place, ListOf, OrderForAdd, ShardContents, DisablesMatchCache;
      var all := List();
      var s := scenario.(order := OrderForAdd(all, scenario.name));
      var _ := RemoveEverywhere(s.name);
      IndexScenario(s);
      if DisablesMatchCache(s) {
        cacheDisabled := true;
      }
    }

    /** Copy the contents of another registry. */
    method CopyContents(next: ShardedScenarioRegistry)
      requires Shape() && next.Shape() && next.cfg == cfg
      requires next != this && forall sh | sh in next.shards :: sh !in shards
      modifies `globalScenarios, `cacheDisabled, shards
      ensures Contents() == old(next.Contents())
    {
      for i := 0 to |shards|
        invariant forall j | 0 <= j < i :: shards[j].Contents() == old(next.shards[j].Contents())
      {
        assert next.shards[i] in next.shards;
        shards[i].scenarios := next.shards[i].scenarios;
        shards[i].index := next.shards[i].index;
      }
      globalScenarios := next.globalScenarios;
      cacheDisabled := next.cacheDisabled;
      assert ShardContents(shards) == old(ShardContents(next.shards));
    }

    method Load(path: string, file: ScenarioFile) returns (err: Outcome)
      requires Valid()
      modifies this, shards, cache, if cache == null then {} else {cache.head, cache.tail}
      ensures Valid() && served == old(served)
      ensures (State(), err) == ShardedStep(cfg, old(State()), RegistryRuns.Load(path, file))
    {
      hide Loaded, LoadList, Valid, CacheStale, Contents;
      var loaded := LoadList(cfg.matcher, file);
      if loaded.None? {
        return Some(LoadFailed);
      }
      BeginMutation();
      LoadContents(loaded.value);
      filePath := path;
      EndMutation(true);
      err := None;
    }

    method Add(scenario: Option<Scenario>) returns (err: Outcome)
      requires Valid()
      modifies this, shards, cache, if cache == null then {} else {cache.head, cache.tail}
      ensures Valid() && served == old(served)
      ensures (State(), err) == ShardedStep(cfg, old(State()), RegistryRuns.Add(scenario))
    {
      hide Added, Validates, Valid, CacheStale, Contents;
      if scenario.None? {
        return Some(NilScenario);
      }
      var s := scenario.value;
      BeginMutation();
      if !Validates(cfg.matcher, s) {
        EndMutation(false);
        return Some(Invalid(s.name));
      }
      AddContents(s);
      EndMutation(true);
      err := None;
    }

    method Remove(name: string) returns (err: Outcome)
      requires Valid()
      modifies this, shards, cache, if cache == null then {} else {cache.head, cache.tail}
      ensures Valid() && served == old(served)
      ensures (State(), err) == ShardedStep(cfg, old(State()), RegistryRuns.Remove(name))
    {
      hide RemoveFrom, Holds, Valid, CacheStale, Contents;
      BeginMutation();
      var removed := RemoveEverywhere(name);
      EndMutation(removed);
      err := if removed then None else Some(NoMatch);
    }

    method Reload(file: ScenarioFile) returns (err: Outcome)
      requires Valid()
      modifies this, shards, cache, if cache == null then {} else {cache.head, cache.tail}
      ensures Valid() && served == old(served)
      ensures (State(), err) == ShardedStep(cfg, old(State()), RegistryRuns.Reload(file))
    {
      hide Loaded, LoadList, Valid, CacheStale, Contents, ListOf, TopologyAllows, Fresh;
      if filePath == "" {
        return None;
      }
      var next := new ShardedScenarioRegistry(cfg, 0, false);
      var failed := next.Load(filePath, file);
      if failed.Some? {
        return failed;
      }
      var current := List();
      var coming := next.List();
      if !TopologyAllows(current, coming) {
        return Some(TopologyChange);
      }
      ReplaceValidated(next);
      err := None;
    }

    /** Take over the contents of a freshly loaded registry. */
    method ReplaceValidated(next: ShardedScenarioRegistry)
      requires Valid() && next.Shape() && next.cfg == cfg
      requires next != this && forall sh | sh in next.shards :: sh !in shards
      modifies this, shards, cache, if cache == null then {} else {cache.head, cache.tail}
      ensures Valid() && served == old(served) && filePath == old(filePath)
      ensures Contents() == old(next.Contents())
    {
      hide Valid, CacheStale, Contents;
      BeginMutation();
      CopyContents(next);
      EndMutation(true);
    }

    /** Every registered scenario, once, in rank order. */
    method List() returns (l: seq<Scenario>)
      requires Shape()
      ensures l == ListOf(Contents())
    {
      var all: seq<Scenario> := [];
      ghost var contents := ShardContents(shards);
      for i := 0 to |shards|
        invariant all == AllScenarios(contents[..i])
      {
        assert contents[..i + 1][..i] == contents[..i];
        all := all + shards[i].scenarios;
      }
      assert contents[..|shards|] == contents;
      var unique := UniqueScenarioPointers(all + globalScenarios);
      l := SortByRank(unique);
    }

    // ---- matching ------------------------------------------------------------------------

    method MatchInShard(i: nat, req: Request) returns (best: Option<Scenario>)
      requires Shape() && i < cfg.shardCount
      ensures best == IndexSearch(cfg, Contents().shards[i].index, req)
    {
      var keys := BuildSearchKeys(req);
      var cands: seq<Scenario> := [];
      for j := 0 to |keys|
        invariant cands == Candidates(shards[i].index, keys[..j])
      {
        assert keys[..j + 1][..j] == keys[..j];
        cands := cands + Lookup(shards[i].index, keys[j]);
      }
      assert keys[..|keys|] == keys;
      cands := UniqueScenarioPointers(cands);
      best := ScanForBest(cfg.matcher, cands, req);
    }

    /** What the fallback loop knows after having met the scenarios of `l`. */
    ghost predicate Tried(req: Request, l: seq<Scenario>, seen: set<Scenario>, defaultSeen: bool, best: Option<Scenario>) {
      && seen == Elems(Unique(l))
      && defaultSeen == HasName(Unique(l), DEFAULT_NAME)
      && best == ScanUnique(cfg, l, req)
    }

    lemma TriedNext(req: Request, l: seq<Scenario>, seen: set<Scenario>, defaultSeen: bool, best: Option<Scenario>, s: Scenario)
      requires Tried(req, l, seen, defaultSeen, best)
      ensures if (s.name == DEFAULT_NAME && defaultSeen) || s in seen
        then Tried(req, l + [s], seen, defaultSeen, best) && (s.name == DEFAULT_NAME ==> defaultSeen)
        else Tried(req, l + [s], seen + {s}, defaultSeen || s.name == DEFAULT_NAME, Better(Hits(cfg.matcher, req), best, s))
    {
      UniqueSnoc(l, s);
      hide MatchesScenario, Outranks, Unique, Better;
      var u := Unique(l);
      if !((s.name == DEFAULT_NAME && defaultSeen) || s in seen) {
        assert (u + [s])[..|u|] == u;
        OneMoreName(u, s, DEFAULT_NAME);
      }
    }

    /** One shard of the full scan. */
    method FallbackShard(cands: seq<Scenario>, req: Request, ghost before: seq<Scenario>,
                         seen0: set<Scenario>, defaultSeen0: bool, best0: Option<Scenario>)
      returns (seen: set<Scenario>, defaultSeen: bool, best: Option<Scenario>)
      requires Tried(req, before, seen0, defaultSeen0, best0)
      ensures Tried(req, before + cands, seen, defaultSeen, best)
    {
      hide Tried, MatchesScenario, Outranks;
      seen, defaultSeen, best := seen0, defaultSeen0, best0;
      assert before + cands[..0] == before;
      for j := 0 to |cands|
        invariant Tried(req, before + cands[..j], seen, defaultSeen, best)
      {
        var s := cands[j];
        assert before + cands[..j + 1] == before + cands[..j] + [s];
        TriedNext(req, before + cands[..j], seen, defaultSeen, best, s);
        if s.name == DEFAULT_NAME {
          if defaultSeen {
            continue;
          }
          defaultSeen := true;
        }
        if s in seen {
          continue;
        }
        seen := seen + {s};
        if MatchesScenario(cfg.matcher, s, req) && (best.None? || Outranks(s, best.value)) {
          best := Some(s);
        }
      }
      assert cands[..|cands|] == cands;
    }

    /** The full scan over all shards, remembering across shards what was already tried. */
    method FallbackMatch(req: Request) returns (best: Option<Scenario>)
      requires Shape()
      ensures best == ScanUnique(cfg, AllScenarios(Contents().shards), req)
    {
      ghost var contents := ShardContents(shards);
      var seen: set<Scenario> := {};
      var defaultSeen := false;
      best := None;
      assert Tried(req, [], seen, defaultSeen, best);
      hide Tried;
      for i := 0 to |shards|
        invariant Tried(req, AllScenarios(contents[..i]), seen, defaultSeen, best)
      {
        assert contents[..i + 1][..i] == contents[..i];
        seen, defaultSeen, best :=
          FallbackShard(shards[i].scenarios, req, AllScenarios(contents[..i]), seen, defaultSeen, best);
      }
      assert contents[..|shards|] == contents;
      TriedScan(req, AllScenarios(contents), seen, defaultSeen, best);
    }

    lemma TriedScan(req: Request, l: seq<Scenario>, seen: set<Scenario>, defaultSeen: bool, best: Option<Scenario>)
      requires Tried(req, l, seen, defaultSeen, best)
      ensures best == ScanUnique(cfg, l, req)
    {
    }

    /** The search of a stable registry: index, full scan, global list. */
    method Search(req: Request) returns (found: Option<Scenario>)
      requires Shape()
      ensures found == Answer(cfg, Contents(), req)
    {
      found := MatchInShard(HashString(cfg, LookupPath(req.uri)), req);
      if found.None? {
        found := FallbackMatch(req);
      }
      var global := ScanForBest(cfg.matcher, globalScenarios, req);
      if global.Some? && (found.None? || Outranks(global.value, found.value)) {
        found := global;
      }
    }

    /** A hit in the cache is the answer to a request served under the same key. */
    method CachedMatch(req: Request) returns (cached: Option<Scenario>)
      requires Valid() && cache != null && !cacheDisabled
      modifies cache, cache.chain
      ensures Valid() && forall n | n in cache.chain :: n in old(cache.chain)
      ensures (cached, cache.Model()) == MatchCache.Get(old(cache.Model()), CacheKey(req), generation)
      ensures cached.Some? ==>
        exists q | q in served :: CacheKey(q) == CacheKey(req) && Answer(cfg, Contents(), q) == cached
    {
      hide Answer, CacheKey, Contents, MatchCache.Get;
      ghost var before := cache.Model();
      cached := cache.GetGeneration(CacheKey(req), generation);
      MatchCache.GetOnlyReturnsEntries(before, CacheKey(req), generation);
    }

    method StoreMatchCache(req: Request, scenario: Scenario, ghost nodes: seq<MatchCache.CacheNode>)
      requires Valid() && cache != null && !cacheDisabled && forall n | n in cache.chain :: n in nodes
      requires req in served && Answer(cfg, Contents(), req) == Some(scenario)
      modifies cache, nodes
      ensures Valid() && cache.Model() == MatchCache.Put(old(cache.Model()), CacheKey(req), scenario, generation, cache.cap)
    {
      hide Answer, CacheKey, Contents, MatchCache.Put;
      ghost var before := cache.Model();
      cache.PutGeneration(CacheKey(req), scenario, generation);
      MatchCache.PutOnlyAddsOne(before, CacheKey(req), scenario, generation, cache.cap);
    }

    ghost method Serve(req: Request)
      requires Valid()
      modifies `served
      ensures Valid() && served == old(served) + {req}
    {
      hide Answer, CacheKey, Contents;
      served := served + {req};
    }

    /** Match with no mutation in progress: from the cache if it can, else by search. */
    method Match(req: Request) returns (r: Scenario)
      requires Valid()
      modifies `served, cache, if cache == null then [] else cache.chain
      ensures Valid() && State() == old(State()) && served == old(served) + {req}
      ensures exists q | q in served :: CacheKey(q) == CacheKey(req) && r == OrDefault(Answer(cfg, Contents(), q))
      ensures cache == null ==> r == OrDefault(Answer(cfg, Contents(), req))
      ensures cache != null ==>
        (r, cache.Model()) == MatchOnce(cfg, Contents(), cache.cap, generation, old(cache.Model()), req)
    {
      hide Answer, CacheKey, Contents, CacheRight, MatchOnce;
      Serve(req);
      if cache == null {
        var found := Search(req);
        r := OrDefault(found);
      } else if cacheDisabled {
        var found := Search(req);
        r := OrDefault(found);
        SearchedOnce(req);
      } else {
        r := MatchThroughCache(req);
      }
    }

    lemma SearchedOnce(req: Request)
      requires Valid() && cache != null && cacheDisabled
      ensures MatchOnce(cfg, Contents(), cache.cap, generation, cache.Model(), req) ==
              (OrDefault(Answer(cfg, Contents(), req)), cache.Model())
    {
      hide Answer, CacheKey, MatchCache.Get, MatchCache.Put;
    }

    /** The cached way: look up under the current generation, else search and store. */
    method MatchThroughCache(req: Request) returns (r: Scenario)
      requires Valid() && cache != null && !cacheDisabled && req in served
      modifies cache, cache.chain
      ensures Valid() && State() == old(State())
      ensures exists q | q in served :: CacheKey(q) == CacheKey(req) && r == OrDefault(Answer(cfg, Contents(), q))
      ensures (r, cache.Model()) == MatchOnce(cfg, Contents(), cache.cap, generation, old(cache.Model()), req)
    {
      hide Answer, CacheKey, CacheRight, MatchCache.Get, MatchCache.Put;
      assert Contents().cacheDisabled == cacheDisabled;
      hide Contents;
      var cached := CachedMatch(req);
      if cached.Some? {
        return cached.value;
      }
      var found := Search(req);
      if found.Some? {
        StoreMatchCache(req, found.value, old(cache.chain));
      }
      r := OrDefault(found);
    }
  }

  /** Endpoints that an exact route can be sharded by as they stand. */
  predicate AllPlain(paths: seq<string>) {
    forall p | p in paths :: p != "" && !IsRegexEndpoint(p) && '{' !in p
  }

  /** Shard and key of every pair declared by exact routes for the given methods. */
  function RouteKeys(cfg: Config, rule: MatchRule, verbs: seq<string>): set<(nat, string)> {
    set v, p | v in verbs && v in rule.routes && p in rule.routes[v] :: (HashString(cfg, p), Key(v, p))
  }

  /** The entries list exactly the given keys, each once, under their shards. */
  ghost predicate EntriesCover(cfg: Config, entries: map<nat, seq<string>>, keys: set<(nat, string)>) {
    && (forall i, k :: (i, k) in keys <==> i in entries && k in entries[i])
    && (forall i | i in entries :: entries[i] != [] && Distinct(entries[i]))
  }

  lemma RouteKeysOneMore(cfg: Config, rule: MatchRule, m: nat)
    requires m < |EXACT_ROUTE_METHODS|
    ensures var verb := EXACT_ROUTE_METHODS[m];
      RouteKeys(cfg, rule, EXACT_ROUTE_METHODS[..m + 1]) ==
      RouteKeys(cfg, rule, EXACT_ROUTE_METHODS[..m]) +
      if verb in rule.routes then set p | p in rule.routes[verb] :: (HashString(cfg, p), Key(verb, p)) else {}
  {
    hide Key, HashString;
    assert EXACT_ROUTE_METHODS[..m + 1] == EXACT_ROUTE_METHODS[..m] + [EXACT_ROUTE_METHODS[m]];
  }

  /** Entries that list a scenario's route keys list the keys of each shard. */
  lemma CoverIsExact(cfg: Config, rule: MatchRule, entries: map<nat, seq<string>>)
    requires EntriesCover(cfg, entries, RouteKeys(cfg, rule, EXACT_ROUTE_METHODS))
    ensures forall i: nat :: i in entries <==> ExactKeys(cfg, rule, i) != {}
    ensures forall i | i in entries :: Elems(entries[i]) == ExactKeys(cfg, rule, i) && Distinct(entries[i])
  {
    hide Key, HashString, Distinct;
    var all := RouteKeys(cfg, rule, EXACT_ROUTE_METHODS);
    forall i: nat, k ensures (i, k) in all <==> k in ExactKeys(cfg, rule, i) {
    }
    forall i: nat ensures i in entries <==> ExactKeys(cfg, rule, i) != {} {
      if i in entries {
        assert (i, entries[i][0]) in all;
      }
      if k :| k in ExactKeys(cfg, rule, i) {
        assert (i, k) in all;
      }
    }
    forall i | i in entries ensures Elems(entries[i]) == ExactKeys(cfg, rule, i) {
      forall k ensures k in Elems(entries[i]) <==> k in ExactKeys(cfg, rule, i) {
        assert k in entries[i] <==> (i, k) in all;
      }
    }
  }
}
