/**
 The sharded registry answers like the linear one. The index finds every shard-resident scenario a
 request hits; where the code breaks this (literal endpoints that the key builder cuts, and the
 unindexed default copies of a fresh registry) the exact conditions are stated and proved.
 */
module Refinement {
  import opened Wrappers
  import opened Text
  import opened Scenarios
  import opened LinearRegistry
  import opened ShardedIndex
  import opened IndexInvariant
  import opened RegistryRuns

  // ---- index coverage ----------------------------------------------------------------------

  /** A literal endpoint that goes into its index key uncut. */
  predicate Uncut(path: string) {
    forall c | c in path :: c !in {'*', '?', '[', '(', '+', '$', '.'}
  }

  /** A scenario indexed by its single endpoint names only real methods and an uncut endpoint. */
  predicate IndexSafe(s: Scenario) {
    !ExactRoutable(s.rule) && ShardSafePath(s.rule).Some? ==>
      "" !in s.rule.methods && Uncut(ShardSafePath(s.rule).value)
  }

  /** Some key the request searches leads to `s` in the shard the request looks into. */
  ghost predicate Searched(cfg: Config, s: Scenario, req: Request) {
    exists k | k in SearchKeys(req) :: k in KeysAt(cfg, s, ShardFor(cfg, req))
  }

  lemma PlainEndpoint(m: Matcher, raw: string, path: string)
    requires raw != "" && !IsRegexEndpoint(raw) && '{' !in raw
    ensures EndpointMatches(m, raw, path) <==> raw == path
  {
  }

  lemma ExactRouteHit(cfg: Config, s: Scenario, req: Request)
    requires ExactRoutable(s.rule) && MatchesScenario(cfg.matcher, s, req)
    ensures Key(req.verb, LookupPath(req.uri)) in KeysAt(cfg, s, ShardFor(cfg, req))
    ensures req.verb != ""
  {
    MatchedPathIsShardedPath(req.uri);
    var path := LookupPath(req.uri);
    var raw :| raw in s.rule.routes[req.verb] && EndpointMatches(cfg.matcher, raw, path);
    PlainEndpoint(cfg.matcher, raw, path);
  }

  lemma ResidentHit(cfg: Config, s: Scenario, req: Request)
    requires |s.rule.routes| == 0 && ShardSafePath(s.rule).Some? && MatchesScenario(cfg.matcher, s, req)
    ensures ShardSafePath(s.rule).value == LookupPath(req.uri)
    ensures KeysAt(cfg, s, ShardFor(cfg, req)) == IndexKeys(s.rule)
    ensures s.rule.methods == [] || req.verb in s.rule.methods
  {
    MatchedPathIsShardedPath(req.uri);
    var raw :| raw in s.rule.paths && EndpointMatches(cfg.matcher, raw, LookupPath(req.uri));
    PlainEndpoint(cfg.matcher, raw, LookupPath(req.uri));
  }

  lemma UncutPrefix(path: string)
    requires path != "" && path[0] == '/'
    ensures Uncut(path) <==> ExtractPathPrefix(path) == path
  {
    assert forall c :: c in PREFIX_STOPS <==> c in {'*', '?', '[', '(', '+', '$', '.'};
    var r := CutAt(path, PREFIX_STOPS);
    if r == path {
      forall c | c in path ensures c !in PREFIX_STOPS {
        var i :| 0 <= i < |path| && path[i] == c;
        assert r[i] == c;
      }
    } else {
      assert |r| < |path| && path[|r|] in path && path[|r|] in PREFIX_STOPS;
    }
  }

  /** Keys of a scenario indexed by one endpoint: each of its methods with the cut endpoint. */
  lemma ResidentKeys(rule: MatchRule, k: string)
    requires ShardSafePath(rule).Some?
    ensures k in IndexKeys(rule) <==>
      exists v | v in IndexMethods(rule) :: k == Key(v, OrStar(ExtractPathPrefix(ShardSafePath(rule).value)))
  {
    var pre := OrStar(ExtractPathPrefix(ShardSafePath(rule).value));
    assert IndexPrefixes(rule) == {pre} by {
      assert rule.paths == [ShardSafePath(rule).value];
    }
    if v :| v in IndexMethods(rule) && k == Key(v, pre) {
      assert pre in IndexPrefixes(rule);
    }
  }

  /** Every shard-resident scenario that a request hits is found through the index. */
  lemma IndexCovers(cfg: Config, s: Scenario, req: Request)
    requires WellFormed(s) && IndexSafe(s) && !IsGlobal(s) && MatchesScenario(cfg.matcher, s, req)
    ensures Searched(cfg, s, req)
  {
    var path := LookupPath(req.uri);
    if ExactRoutable(s.rule) {
      ExactRouteHit(cfg, s, req);
      assert Key(req.verb, path) == SearchKeys(req)[0];
    } else {
      ResidentHasNoRoutes(s);
      ResidentHit(cfg, s, req);
      UncutPrefix(path);
      var v := if s.rule.methods == [] then "*" else req.verb;
      var k := Key(v, path);
      ResidentKeys(s.rule, k);
      assert v in IndexMethods(s.rule);
      assert k == SearchKeys(req)[if s.rule.methods == [] then 2 else 0];
      assert k in SearchKeys(req);
    }
  }

  /** A well-formed scenario with a pattern among its exact routes has no plain single endpoint. */
  lemma ResidentHasNoRoutes(s: Scenario)
    requires WellFormed(s) && !ExactRoutable(s.rule) && ShardSafePath(s.rule).Some?
    ensures |s.rule.routes| == 0
  {
  }

  // ---- the answer --------------------------------------------------------------------------

  lemma {:induction false} CandidatesElems(index: map<string, seq<Scenario>>, keys: seq<string>)
    ensures forall s :: s in Candidates(index, keys) <==> exists k | k in keys :: s in Lookup(index, k)
  {
    if keys != [] {
      CandidatesElems(index, keys[..|keys| - 1]);
      assert keys == keys[..|keys| - 1] + [keys[|keys| - 1]];
    }
  }

  lemma ScanUniqueIsBest(cfg: Config, l: seq<Scenario>, req: Request)
    requires NamesUnique(Elems(l))
    ensures IsBest(Hits(cfg.matcher, req), Elems(l), ScanUnique(cfg, l, req))
  {
    UniqueKeepsElems(l);
    ScanFindsBest(Hits(cfg.matcher, req), Unique(l));
  }

  lemma CombineIsBest(hit: Scenario -> bool, d: set<Scenario>, g: set<Scenario>, a: Option<Scenario>, b: Option<Scenario>)
    requires IsBest(hit, d, a) && IsBest(hit, g, b)
    ensures IsBest(hit, d + g, Combine(a, b))
  {
  }

  /** The unindexed default copies, where there are any, rank below all other shard residents. */
  predicate DefaultsOutranked(c: Contents)
    requires |c.shards| > 0
  {
    DefaultScenario in c.shards[0].scenarios ==>
      forall s | s in AllScenarios(c.shards) && s != DefaultScenario :: Outranks(s, DefaultScenario)
  }

  /** What a caller can check on the registry to know that its answers are right. */
  predicate SafeContents(c: Contents)
    requires |c.shards| > 0
  {
    DefaultsOutranked(c) && forall s | s in AllScenarios(c.shards) :: IndexSafe(s)
  }

  lemma IndexSearchIsBest(cfg: Config, c: Contents, reg: set<Scenario>, implicit: bool, req: Request) returns (found: set<Scenario>)
    requires Represents(cfg, c, reg, implicit)
    ensures IsBest(Hits(cfg.matcher, req), found, IndexSearch(cfg, c.shards[ShardFor(cfg, req)].index, req))
    ensures forall s :: s in found <==> s in reg && Searched(cfg, s, req)
  {
    hide MatchesScenario, KeysAt, IsGlobal, SearchKeys, DisablesMatchCache, WellFormed;
    var i := ShardFor(cfg, req);
    var cands := Candidates(c.shards[i].index, SearchKeys(req));
    CandidatesElems(c.shards[i].index, SearchKeys(req));
    found := Elems(cands);
    forall s ensures s in found <==> s in reg && Searched(cfg, s, req) {
      assert forall k :: InIndex(c.shards[i], k, s) <==> s in reg && k in KeysAt(cfg, s, i);
      assert forall k :: InIndex(c.shards[i], k, s) <==> s in Lookup(c.shards[i].index, k);
    }
    assert found <= Full(reg, implicit);
    ScanUniqueIsBest(cfg, cands, req);
  }

  /** What the shards give is a best match of everything they hold. */
  lemma ShardAnswerIsBest(cfg: Config, c: Contents, reg: set<Scenario>, implicit: bool, req: Request)
    requires Represents(cfg, c, reg, implicit) && SafeContents(c)
    ensures var indexed := IndexSearch(cfg, c.shards[ShardFor(cfg, req)].index, req);
      IsBest(Hits(cfg.matcher, req), Elems(AllScenarios(c.shards)),
             if indexed.Some? then indexed else ScanUnique(cfg, AllScenarios(c.shards), req))
  {
    hide MatchesScenario, KeysAt, IsGlobal, DisablesMatchCache, WellFormed, ShardRepresents, IndexSafe, IndexSearch, Searched;
    var hit := Hits(cfg.matcher, req);
    var all := AllScenarios(c.shards);
    var found := IndexSearchIsBest(cfg, c, reg, implicit, req);
    ShardsHold(cfg, c, reg, implicit);
    assert Elems(all) <= Full(reg, implicit);
    ScanUniqueIsBest(cfg, all, req);
    forall s | s in all && s != DefaultScenario && hit(s) ensures s in found {
      ResidentIsFound(cfg, c, reg, implicit, req, s);
    }
    var indexed := IndexSearch(cfg, c.shards[ShardFor(cfg, req)].index, req);
    if indexed.Some? {
      FoundIsResident(cfg, c, reg, implicit, req, indexed.value);
    }
  }

  lemma ResidentIsFound(cfg: Config, c: Contents, reg: set<Scenario>, implicit: bool, req: Request, s: Scenario)
    requires Represents(cfg, c, reg, implicit) && SafeContents(c)
    requires s in AllScenarios(c.shards) && s != DefaultScenario && MatchesScenario(cfg.matcher, s, req)
    ensures s in reg && Searched(cfg, s, req)
  {
    hide MatchesScenario, KeysAt, IsGlobal, DisablesMatchCache, WellFormed, ShardRepresents, IndexSafe, Searched;
    ShardsHold(cfg, c, reg, implicit);
    IndexCovers(cfg, s, req);
  }

  lemma FoundIsResident(cfg: Config, c: Contents, reg: set<Scenario>, implicit: bool, req: Request, s: Scenario)
    requires Represents(cfg, c, reg, implicit)
    requires s in reg && Searched(cfg, s, req)
    ensures s in AllScenarios(c.shards)
    ensures DefaultScenario in AllScenarios(c.shards) ==> DefaultScenario in c.shards[0].scenarios && s != DefaultScenario
  {
    hide MatchesScenario, DisablesMatchCache;
    ShardsHold(cfg, c, reg, implicit);
    var i := HomeOf(cfg, s);
    assert ShardResident(cfg, s, ShardFor(cfg, req));
    assert ShardRepresents(cfg, c.shards[0], 0, reg, implicit);
  }

  /** The sharded answer is a best match of everything registered. */
  lemma AnswerIsBest(cfg: Config, c: Contents, reg: set<Scenario>, implicit: bool, req: Request)
    requires Represents(cfg, c, reg, implicit) && SafeContents(c)
    ensures IsBest(Hits(cfg.matcher, req), Full(reg, implicit), Answer(cfg, c, req))
  {
    hide MatchesScenario, KeysAt, IsGlobal, DisablesMatchCache, WellFormed, ShardRepresents, IndexSafe, IndexSearch,
         SafeContents, Outranks;
    ShardAnswerIsBest(cfg, c, reg, implicit, req);
    ScanFindsBest(Hits(cfg.matcher, req), c.global);
    ShardsHold(cfg, c, reg, implicit);
    assert Elems(AllScenarios(c.shards)) + Elems(c.global) == Full(reg, implicit);
    var indexed := IndexSearch(cfg, c.shards[ShardFor(cfg, req)].index, req);
    CombineIsBest(Hits(cfg.matcher, req), Elems(AllScenarios(c.shards)), Elems(c.global),
                  if indexed.Some? then indexed else ScanUnique(cfg, AllScenarios(c.shards), req),
                  GlobalSearch(cfg, c.global, req));
  }

  /**
   After any run of operations, on every request, the sharded registry (its cache off) returns
   exactly the scenario the linear registry's first-match scan returns, and nothing when that
   finds none.
   */
  lemma ShardedRefinesLinear(cfg: Config, ops: seq<Op>, req: Request)
    requires GoodOps(ops)
    requires SafeContents(RunSharded(cfg, ops).0.contents)
    ensures Answer(cfg, RunSharded(cfg, ops).0.contents, req)
         == FirstMatch(Hits(cfg.matcher, req), RunLinear(cfg.matcher, ops).0.scenarios)
  {
    hide MatchesScenario, Answer, SafeContents, RunSharded, RunLinear, GoodOps, ShardRepresents, GlobalRepresents,
         DisablesMatchCache, Outranks;
    var reg, implicit := RunsAgree(cfg, ops);
    var c, l := RunSharded(cfg, ops).0.contents, RunLinear(cfg.matcher, ops).0.scenarios;
    AnswerIsBest(cfg, c, reg, implicit, req);
    FirstMatchIsBest(Hits(cfg.matcher, req), l);
    BestIsUnique(Hits(cfg.matcher, req), Full(reg, implicit),
                 Answer(cfg, c, req), FirstMatch(Hits(cfg.matcher, req), l));
  }
}
