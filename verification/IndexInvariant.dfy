/**
 What the sharded contents represent: a set of registered scenarios, each global or present in
 exactly the shards of its literal paths and indexed there under exactly its keys. Every operation
 keeps this, and moves the represented set the way the linear registry moves its list.
 */
module IndexInvariant {
  import opened Wrappers
  import opened Scenarios
  import opened LinearRegistry
  import opened ShardedIndex

  /** The exact routes of a scenario, if any, are valid and covered by its endpoint list. */
  predicate WellFormed(s: Scenario) {
    |s.rule.routes| > 0 ==>
      && ValidRouteMap(s.rule.routes)
      && forall verb | verb in s.rule.routes :: forall e | e in s.rule.routes[verb] :: e in s.rule.paths
  }

  predicate InIndex(sh: Shard, k: string, s: Scenario) {
    k in sh.index && s in sh.index[k]
  }

  predicate ShardResident(cfg: Config, s: Scenario, i: nat) {
    KeysAt(cfg, s, i) != {}
  }

  /** Shard `i` holds exactly the scenarios of `reg` that have keys for it. */
  ghost predicate ShardRepresents(cfg: Config, sh: Shard, i: nat, reg: set<Scenario>, implicit: bool) {
    && (forall s :: s in sh.scenarios <==> (s in reg && ShardResident(cfg, s, i)) || (implicit && s == DefaultScenario))
    && (forall k, s :: InIndex(sh, k, s) <==> s in reg && k in KeysAt(cfg, s, i))
    && (forall k | k in sh.index :: sh.index[k] != [])
  }

  ghost predicate GlobalRepresents(global: seq<Scenario>, reg: set<Scenario>) {
    && (forall s :: s in global <==> s in reg && IsGlobal(s))
    && DistinctNames(global)
  }

  /** All registered scenarios, the unindexed default copies of a fresh registry included. */
  ghost function Full(reg: set<Scenario>, implicit: bool): set<Scenario> {
    reg + if implicit then {DefaultScenario} else {}
  }

  ghost predicate GoodSet(reg: set<Scenario>, implicit: bool) {
    && NamesUnique(Full(reg, implicit))
    && OrdersDistinct(Full(reg, implicit))
    && (implicit ==> DefaultScenario !in reg)
    && forall s | s in reg :: WellFormed(s)
  }

  ghost predicate Represents(cfg: Config, c: Contents, reg: set<Scenario>, implicit: bool) {
    && |c.shards| == cfg.shardCount
    && (forall i | 0 <= i < cfg.shardCount :: ShardRepresents(cfg, c.shards[i], i, reg, implicit))
    && GlobalRepresents(c.global, reg)
    && GoodSet(reg, implicit)
    && (c.cacheDisabled <==> exists s | s in reg :: DisablesMatchCache(s))
  }

  ghost function Without(reg: set<Scenario>, name: string): set<Scenario> {
    set s | s in reg && s.name != name
  }

  // ---- placement ---------------------------------------------------------------------------

  /** A well-formed scenario that is not global has a shard; a global one has none. */
  lemma HomeOf(cfg: Config, s: Scenario) returns (i: nat)
    requires WellFormed(s)
    ensures if IsGlobal(s) then forall j: nat :: !ShardResident(cfg, s, j) else i < cfg.shardCount && ShardResident(cfg, s, i)
  {
    i := 0;
    if ExactRoutable(s.rule) {
      var verb :| verb in s.rule.routes;
      var p := s.rule.routes[verb][0];
      i := HashString(cfg, p);
      assert Key(verb, p) in ExactKeys(cfg, s.rule, i);
    } else if ShardSafePath(s.rule).Some? {
      var p := ShardSafePath(s.rule).value;
      var v := if s.rule.methods == [] then "*" else s.rule.methods[0];
      i := HashString(cfg, p);
      assert OrStar(ExtractPathPrefix(p)) in IndexPrefixes(s.rule) && v in IndexMethods(s.rule);
      assert Key(v, OrStar(ExtractPathPrefix(p))) in IndexKeys(s.rule);
    }
  }

  // ---- adding ------------------------------------------------------------------------------

  lemma AddToShardRepresents(cfg: Config, sh: Shard, i: nat, reg: set<Scenario>, implicit: bool, s: Scenario)
    requires ShardRepresents(cfg, sh, i, reg, implicit) && s !in reg
    ensures ShardRepresents(cfg, AddToShard(sh, s, KeysAt(cfg, s, i)), i, reg + {s}, implicit)
  {
    var keys := KeysAt(cfg, s, i);
    var sh' := AddToShard(sh, s, keys);
    forall k, x ensures InIndex(sh', k, x) <==> x in reg + {s} && k in KeysAt(cfg, x, i) {
      assert InIndex(sh, k, x) <==> x in reg && k in KeysAt(cfg, x, i);
      if keys != {} {
        assert InIndex(sh', k, x) <==> InIndex(sh, k, x) || (k in keys && x == s);
      }
    }
  }

  /** Placing a scenario of a new name and order adds it to the represented set. */
  lemma PlaceRepresents(cfg: Config, c: Contents, reg: set<Scenario>, implicit: bool, s: Scenario)
    requires |c.shards| == cfg.shardCount
    requires forall i | 0 <= i < cfg.shardCount :: ShardRepresents(cfg, c.shards[i], i, reg, implicit)
    requires GlobalRepresents(c.global, reg)
    requires forall x | x in reg :: x.name != s.name
    ensures forall i | 0 <= i < cfg.shardCount :: ShardRepresents(cfg, Place(cfg, c, s).shards[i], i, reg + {s}, implicit)
    ensures GlobalRepresents(Place(cfg, c, s).global, reg + {s})
  {
    forall i | 0 <= i < cfg.shardCount
      ensures ShardRepresents(cfg, Place(cfg, c, s).shards[i], i, reg + {s}, implicit)
    {
      AddToShardRepresents(cfg, c.shards[i], i, reg, implicit, s);
    }
  }

  lemma {:induction false} PlaceAllRepresents(cfg: Config, disabled: bool, l: seq<Scenario>)
    requires DistinctNames(l)
    ensures var c := PlaceAll(cfg, Empty(cfg, disabled), l);
      && (forall i | 0 <= i < cfg.shardCount :: ShardRepresents(cfg, c.shards[i], i, Elems(l), false))
      && GlobalRepresents(c.global, Elems(l))
      && c.cacheDisabled == disabled
  {
    if l != [] {
      var init, last := l[..|l| - 1], l[|l| - 1];
      PlaceAllRepresents(cfg, disabled, init);
      assert l == init + [last];
      assert Elems(l) == Elems(init) + {last};
      PlaceRepresents(cfg, PlaceAll(cfg, Empty(cfg, disabled), init), Elems(init), false, last);
    }
  }

  // ---- removing ----------------------------------------------------------------------------

  lemma RemoveFromShardRepresents(cfg: Config, sh: Shard, i: nat, reg: set<Scenario>, implicit: bool, name: string)
    requires ShardRepresents(cfg, sh, i, reg, implicit)
    ensures ShardRepresents(cfg, RemoveFromShard(sh, name), i, Without(reg, name), implicit && name != DEFAULT_NAME)
  {
    var sh' := RemoveFromShard(sh, name);
    forall k, x ensures InIndex(sh', k, x) <==> x in Without(reg, name) && k in KeysAt(cfg, x, i) {
      assert InIndex(sh, k, x) <==> x in reg && k in KeysAt(cfg, x, i);
      if k in sh.index {
        assert x in DropName(sh.index[k], name) <==> x in sh.index[k] && x.name != name;
      }
    }
  }

  lemma WithoutAbsent(reg: set<Scenario>, name: string)
    requires forall s | s in reg :: s.name != name
    ensures Without(reg, name) == reg
  {
  }

  lemma HeldIsRegistered(cfg: Config, c: Contents, reg: set<Scenario>, implicit: bool, name: string)
    requires Represents(cfg, c, reg, implicit) && Holds(c, name)
    ensures exists s | s in Full(reg, implicit) :: s.name == name
  {
    hide KeysAt, IsGlobal, GoodSet;
    if HasName(c.global, name) {
      var s :| s in c.global && s.name == name;
      assert s in Full(reg, implicit);
    } else {
      var i :| 0 <= i < |c.shards| && ShardHolds(c.shards[i], name);
      assert ShardRepresents(cfg, c.shards[i], i, reg, implicit);
      forall k | k in c.shards[i].index && HasName(c.shards[i].index[k], name)
        ensures HasName(c.shards[i].scenarios, name)
      {
        var s :| s in c.shards[i].index[k] && s.name == name;
        assert InIndex(c.shards[i], k, s);
        assert s in c.shards[i].scenarios;
      }
      var s :| s in c.shards[i].scenarios && s.name == name;
      assert s in Full(reg, implicit);
    }
  }

  lemma RegisteredIsHeld(cfg: Config, c: Contents, reg: set<Scenario>, implicit: bool, s: Scenario)
    requires Represents(cfg, c, reg, implicit) && s in Full(reg, implicit)
    ensures Holds(c, s.name)
  {
    hide KeysAt, IsGlobal, WellFormed;
    var i := 0;
    if s in reg {
      i := HomeOf(cfg, s);
    }
    assert s in c.global || s in c.shards[i].scenarios;
    assert s in c.global || ShardHolds(c.shards[i], s.name);
  }

  lemma DisabledFlagRecomputed(cfg: Config, shards: seq<Shard>, global: seq<Scenario>, reg: set<Scenario>, implicit: bool)
    requires |shards| == cfg.shardCount
    requires forall i | 0 <= i < cfg.shardCount :: ShardRepresents(cfg, shards[i], i, reg, implicit)
    requires GlobalRepresents(global, reg)
    requires forall s | s in reg :: WellFormed(s)
    ensures RegistryDisables(shards, global) <==> exists s | s in reg :: DisablesMatchCache(s)
  {
    hide KeysAt, IsGlobal, DisablesMatchCache, WellFormed;
    if s :| s in reg && DisablesMatchCache(s) {
      var i := HomeOf(cfg, s);
      if IsGlobal(s) {
        assert s in global;
      } else {
        assert s in shards[i].scenarios;
        assert shards[i] in shards && AnyDisables(shards[i].scenarios);
      }
    }
    if RegistryDisables(shards, global) {
      DisablerIsRegistered(cfg, shards, global, reg, implicit);
    }
  }

  lemma DisablerIsRegistered(cfg: Config, shards: seq<Shard>, global: seq<Scenario>, reg: set<Scenario>, implicit: bool)
    requires |shards| == cfg.shardCount
    requires forall i | 0 <= i < cfg.shardCount :: ShardRepresents(cfg, shards[i], i, reg, implicit)
    requires GlobalRepresents(global, reg)
    requires RegistryDisables(shards, global)
    ensures exists s | s in reg :: DisablesMatchCache(s)
  {
    hide KeysAt, IsGlobal;
    assert !DisablesMatchCache(DefaultScenario);
    hide DisablesMatchCache;
    if AnyDisables(global) {
      var s :| s in global && DisablesMatchCache(s);
      assert s in reg;
    } else {
      var sh :| sh in shards && AnyDisables(sh.scenarios);
      var i :| 0 <= i < |shards| && shards[i] == sh;
      var s :| s in shards[i].scenarios && DisablesMatchCache(s);
      assert ShardRepresents(cfg, shards[i], i, reg, implicit);
      assert s in reg;
    }
  }

  lemma RemoveFromRepresents(cfg: Config, c: Contents, reg: set<Scenario>, implicit: bool, name: string)
    requires Represents(cfg, c, reg, implicit)
    ensures Represents(cfg, RemoveFrom(c, name), Without(reg, name), implicit && name != DEFAULT_NAME)
  {
    hide KeysAt, IsGlobal, WellFormed, RegistryDisables, DisablesMatchCache, RemoveFromShard;
    var reg', implicit' := Without(reg, name), implicit && name != DEFAULT_NAME;
    var c' := RemoveFrom(c, name);
    forall i | 0 <= i < cfg.shardCount ensures ShardRepresents(cfg, c'.shards[i], i, reg', implicit') {
      RemoveFromShardRepresents(cfg, c.shards[i], i, reg, implicit, name);
    }
    RemoveFirstElems(c.global, name);
    forall s ensures s in c'.global <==> s in reg' && IsGlobal(s) {
      assert s in c'.global <==> s in Elems(RemoveFirst(c.global, name));
    }
    assert Full(reg', implicit') <= Full(reg, implicit);
    DisabledFlagRecomputed(cfg, c'.shards, c'.global, reg', implicit');
  }

  /** Remove takes exactly the named scenario out of the represented set. */
  lemma RemovedRepresents(cfg: Config, c: Contents, reg: set<Scenario>, implicit: bool, name: string)
    requires Represents(cfg, c, reg, implicit)
    ensures Represents(cfg, Removed(c, name), Without(reg, name), implicit && name != DEFAULT_NAME)
    ensures Holds(c, name) <==> exists s | s in Full(reg, implicit) :: s.name == name
  {
    hide ShardRepresents, GlobalRepresents, RemoveFrom, Holds, WellFormed, DisablesMatchCache;
    if Holds(c, name) {
      HeldIsRegistered(cfg, c, reg, implicit, name);
      RemoveFromRepresents(cfg, c, reg, implicit, name);
    } else {
      forall s | s in Full(reg, implicit) ensures s.name != name {
        RegisteredIsHeld(cfg, c, reg, implicit, s);
      }
      assert implicit ==> DefaultScenario in Full(reg, implicit);
      assert forall s | s in reg :: s in Full(reg, implicit);
      WithoutAbsent(reg, name);
    }
  }

  // ---- listing -----------------------------------------------------------------------------

  lemma {:induction false} UniqueKeepsElems(l: seq<Scenario>)
    requires NamesUnique(Elems(l))
    ensures Elems(Unique(l)) == Elems(l)
    ensures DistinctNames(Unique(l))
  {
    if l != [] {
      var init, last := l[..|l| - 1], l[|l| - 1];
      assert l == init + [last];
      assert Elems(l) == Elems(init) + {last};
      UniqueKeepsElems(init);
      var before := Unique(init);
      if last.name == DEFAULT_NAME && HasName(before, DEFAULT_NAME) {
        var d :| d in before && d.name == DEFAULT_NAME;
        assert d in Elems(before) && d in Elems(l) && last in Elems(l);
      }
      if x :| x in before && x.name == last.name {
        assert x in Elems(before) && x in Elems(l) && last in Elems(l);
        assert last in before;
      }
    }
  }

  lemma {:induction false} AllScenariosElems(shards: seq<Shard>)
    ensures forall s :: s in AllScenarios(shards) <==> exists i | 0 <= i < |shards| :: s in shards[i].scenarios
  {
    if shards != [] {
      var init, last := shards[..|shards| - 1], shards[|shards| - 1];
      AllScenariosElems(init);
      forall s ensures s in AllScenarios(shards) <==> exists i | 0 <= i < |shards| :: s in shards[i].scenarios {
        if s in AllScenarios(init) {
          var i :| 0 <= i < |init| && s in init[i].scenarios;
          assert s in shards[i].scenarios;
        }
        if s in last.scenarios {
          assert s in shards[|shards| - 1].scenarios;
        }
        if i :| 0 <= i < |shards| && s in shards[i].scenarios {
          if i < |init| {
            assert s in init[i].scenarios;
          }
        }
      }
    }
  }

  /** The shards together hold the represented scenarios that are not global, and the default copies. */
  lemma ShardsHold(cfg: Config, c: Contents, reg: set<Scenario>, implicit: bool)
    requires Represents(cfg, c, reg, implicit)
    ensures forall s :: s in AllScenarios(c.shards) <==>
      (s in reg && !IsGlobal(s)) || (implicit && s == DefaultScenario)
  {
    AllScenariosElems(c.shards);
    forall s ensures s in AllScenarios(c.shards) <==> (s in reg && !IsGlobal(s)) || (implicit && s == DefaultScenario) {
      if s in reg {
        var i := HomeOf(cfg, s);
        if !IsGlobal(s) {
          assert s in c.shards[i].scenarios;
        }
      }
      if implicit && s == DefaultScenario {
        assert s in c.shards[0].scenarios;
      }
    }
  }

  /** List returns every registered scenario once, ranked. */
  lemma ListIsFull(cfg: Config, c: Contents, reg: set<Scenario>, implicit: bool)
    requires Represents(cfg, c, reg, implicit)
    ensures Elems(ListOf(c)) == Full(reg, implicit)
    ensures Ranked(ListOf(c)) && DistinctNames(ListOf(c))
  {
    var all := AllScenarios(c.shards) + c.global;
    ShardsHold(cfg, c, reg, implicit);
    assert Elems(all) == Full(reg, implicit);
    UniqueKeepsElems(all);
    SortRanks(Unique(all));
    SameMultisetSameElems(ListOf(c), Unique(all));
    DistinctNamesByMultiset(Unique(all), ListOf(c));
  }
}
