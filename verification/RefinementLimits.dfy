/**
 Where the sharded registry does not answer like the linear one, and exactly when it does.

 1. A literal endpoint containing one of `* ? [ ( + $ .` is indexed under a cut key that no request
    for it searches (internal/storage/sharded_scenario.go:442-463). The full scan hides this until
    a lower-ranked scenario is found through the index.
 2. The default copies of a fresh registry are not indexed. They rank above a shard-resident
    scenario of priority -1 or less, but lose to it whenever the index finds it.
 */
module RefinementLimits {
  import opened Wrappers
  import opened Text
  import opened Scenarios
  import opened LinearRegistry
  import opened ShardedIndex
  import opened IndexInvariant
  import opened RegistryRuns
  import opened Refinement

  predicate PlainMethods(rule: MatchRule) {
    forall v | v in rule.methods :: v != "" && ':' !in v
  }

  /** Scenarios indexed by one endpoint that starts with a slash, and a request that hits them. */
  ghost predicate LegacyHit(cfg: Config, s: Scenario, req: Request) {
    && |s.rule.routes| == 0
    && ShardSafePath(s.rule).Some?
    && PlainMethods(s.rule)
    && MatchesScenario(cfg.matcher, s, req)
  }

  // ---- cut endpoints -----------------------------------------------------------------------

  lemma KeyInjective(v: string, p: string, v': string, p': string)
    requires ':' !in v && ':' !in v' && Key(v, p) == Key(v', p')
    ensures v == v' && p == p'
  {
    JoinInjective(v, p, v', p', ':');
  }

  /** A key built from a cut endpoint equals no key that a request for the endpoint searches. */
  lemma CutKeyNotSearched(verb: string, path: string, v: string, i: nat)
    requires path != "" && path[0] == '/' && ':' !in verb && verb != "" && ':' !in v
    requires !Uncut(path)
    requires i <= |path|
    ensures var k := Key(v, OrStar(ExtractPathPrefix(path)));
      && k != Key(verb, path) && k != Key(verb, "*") && k != Key("*", path) && k != "*:*"
      && k !in PrefixKeys(verb, path, i)
  {
    var pre := ExtractPathPrefix(path);
    UncutPrefix(path);
    assert |pre| < |path| && path[|pre|] in PREFIX_STOPS;
    assert pre != "" && pre[0] == '/';
    var k := Key(v, pre);
    if k == Key(verb, path) { KeyInjective(v, pre, verb, path); assert false; }
    if k == Key(verb, "*") { KeyInjective(v, pre, verb, "*"); assert false; }
    if k == Key("*", path) { KeyInjective(v, pre, "*", path); assert false; }
    if k == "*:*" { KeyInjective(v, pre, "*", "*"); assert false; }
    if j :| 0 < j < i && path[j] == '/' && k == Key(verb, path[..j]) {
      KeyInjective(v, pre, verb, path[..j]);
      assert false;
    }
  }

  /** A hit scenario indexed by its endpoint is searched for exactly when the endpoint is uncut. */
  lemma SearchedExactlyWhenUncut(cfg: Config, s: Scenario, req: Request)
    requires LegacyHit(cfg, s, req) && req.verb != "" && ':' !in req.verb
    ensures Searched(cfg, s, req) <==> Uncut(LookupPath(req.uri))
  {
    hide MatchesScenario, PrefixKeys, ExtractPathPrefix, Uncut;
    ResidentHit(cfg, s, req);
    var path := LookupPath(req.uri);
    if Uncut(path) {
      IndexCovers(cfg, s, req);
    } else {
      forall k | k in SearchKeys(req) ensures k !in KeysAt(cfg, s, ShardFor(cfg, req)) {
        ResidentKeys(s.rule, k);
        if v :| v in IndexMethods(s.rule) && k == Key(v, OrStar(ExtractPathPrefix(path))) {
          CutKeyNotSearched(req.verb, path, v, |path|);
          assert false;
        }
      }
    }
  }

  /** A scenario on the same endpoint, declared by exact routes and ranked right below `s`. */
  function Shadow(s: Scenario, verb: string, path: string): Scenario {
    Scenario(s.name + "'", AnyRule.(routes := map[verb := [path]], paths := [path], methods := [verb]), [],
             s.priority - 1, s.order + 1)
  }

  lemma ShadowFacts(cfg: Config, s: Scenario, req: Request)
    requires LegacyHit(cfg, s, req) && req.verb in EXACT_ROUTE_METHODS
    ensures var b := Shadow(s, req.verb, LookupPath(req.uri));
      WellFormed(b) && IndexSafe(b) && !IsGlobal(b) && !IsGlobal(s) && MatchesScenario(cfg.matcher, b, req)
  {
    hide MatchesScenario;
    ResidentHit(cfg, s, req);
    MatchedPathIsShardedPath(req.uri);
    ShadowMatches(cfg.matcher, s, req);
    ShadowIsIndexed(s, req.verb, LookupPath(req.uri));
  }

  /** The shadow is well formed and indexed by its exact route. */
  lemma ShadowIsIndexed(s: Scenario, verb: string, path: string)
    requires |s.rule.routes| == 0 && ShardSafePath(s.rule) == Some(path) && verb in EXACT_ROUTE_METHODS
    requires path != "" && path[0] == '/'
    ensures var b := Shadow(s, verb, path); WellFormed(b) && IndexSafe(b) && !IsGlobal(b) && !IsGlobal(s)
  {
    assert !IsBlank(path) by { assert path[0] in path; }
  }

  lemma ShadowPair(s: Scenario, verb: string, path: string)
    requires WellFormed(s) && WellFormed(Shadow(s, verb, path))
    ensures var b := Shadow(s, verb, path); DistinctNames([s, b]) && GoodSet({s, b}, false)
  {
    var b := Shadow(s, verb, path);
    hide WellFormed;
    assert |b.name| == |s.name| + 1;
    assert Full({s, b}, false) == {s, b};
  }

  lemma ShadowMatches(m: Matcher, s: Scenario, req: Request)
    requires req.verb in EXACT_ROUTE_METHODS && EndpointPath(req.uri) == LookupPath(req.uri)
    requires !IsRegexEndpoint(LookupPath(req.uri)) && '{' !in LookupPath(req.uri)
    ensures MatchesScenario(m, Shadow(s, req.verb, LookupPath(req.uri)), req)
  {
    var path := LookupPath(req.uri);
    PlainEndpoint(m, path, path);
    var routes := Shadow(s, req.verb, path).rule.routes;
    assert path in routes[req.verb];
  }

  /**
   For every scenario indexed by one endpoint and every REQMOD or RESPMOD request that hits it:
   its answer is safe next to any other index-safe scenario exactly when the endpoint is uncut.
   A cut endpoint is answered wrongly as soon as its shadow is registered.
   */
  lemma CutEndpointIsShadowed(cfg: Config, s: Scenario, req: Request)
    requires LegacyHit(cfg, s, req) && req.verb in EXACT_ROUTE_METHODS && WellFormed(s)
    ensures var b := Shadow(s, req.verb, LookupPath(req.uri));
      Uncut(LookupPath(req.uri)) <==>
      IsBest(Hits(cfg.matcher, req), {s, b}, Answer(cfg, Loaded(cfg, [s, b]), req))
  {
    hide MatchesScenario, Answer, Loaded, Uncut, WellFormed, IndexSafe, IsGlobal, Shadow, Searched;
    var b := Shadow(s, req.verb, LookupPath(req.uri));
    ShadowFacts(cfg, s, req);
    ShadowPair(s, req.verb, LookupPath(req.uri));
    SearchedExactlyWhenUncut(cfg, s, req);
    assert Elems([s, b]) == {s, b};
    assert Full({s, b}, false) == {s, b};
    hide GoodSet, DistinctNames, Full, Represents, SafeContents;
    LoadedRepresents(cfg, [s, b]);
    if Uncut(LookupPath(req.uri)) {
      PairIsSafe(cfg, s, b, req);
      AnswerIsBest(cfg, Loaded(cfg, [s, b]), {s, b}, false, req);
    } else {
      ShadowWins(cfg, s, b, req);
      assert Outranks(s, b) by {
        ShadowIsLower(s, req.verb, LookupPath(req.uri));
      }
    }
  }

  lemma ShadowIsLower(s: Scenario, verb: string, path: string)
    ensures Outranks(s, Shadow(s, verb, path)) && s.name != Shadow(s, verb, path).name
  {
  }

  lemma PairIsSafe(cfg: Config, s: Scenario, b: Scenario, req: Request)
    requires Represents(cfg, Loaded(cfg, [s, b]), {s, b}, false)
    requires LegacyHit(cfg, s, req) && Uncut(LookupPath(req.uri)) && IndexSafe(b) && !IsGlobal(b)
    ensures SafeContents(Loaded(cfg, [s, b]))
  {
    hide MatchesScenario, Loaded, ShardRepresents, GlobalRepresents, GoodSet, DisablesMatchCache;
    ResidentHit(cfg, s, req);
    var c := Loaded(cfg, [s, b]);
    ShardsHold(cfg, c, {s, b}, false);
    AllScenariosElems(c.shards);
    assert IsGlobal(DefaultScenario);
    assert DefaultScenario !in AllScenarios(c.shards);
  }

  /** With the cut scenario out of the index's sight, the search stops at its shadow. */
  lemma ShadowWins(cfg: Config, s: Scenario, b: Scenario, req: Request)
    requires Represents(cfg, Loaded(cfg, [s, b]), {s, b}, false)
    requires !Searched(cfg, s, req) && WellFormed(b) && IndexSafe(b) && !IsGlobal(b) && !IsGlobal(s)
    requires MatchesScenario(cfg.matcher, b, req)
    ensures Answer(cfg, Loaded(cfg, [s, b]), req) == Some(b)
  {
    hide MatchesScenario, Loaded, ShardRepresents, GoodSet, DisablesMatchCache, WellFormed, IndexSafe, IsGlobal, Searched,
         KeysAt, IndexSearch;
    var c := Loaded(cfg, [s, b]);
    var found := IndexSearchIsBest(cfg, c, {s, b}, false, req);
    IndexCovers(cfg, b, req);
    assert found == {b};
    ScanFindsBest(Hits(cfg.matcher, req), c.global);
    assert Elems(c.global) == {};
  }

  const DOTTED := "/scan.php"

  /** A concrete failing input: one scenario on a dotted path, its request, and nothing unusual else. */
  function DottedScenario(): Scenario {
    Scenario("scan", AnyRule.(paths := [DOTTED], methods := ["REQMOD"]), [], 10, 0)
  }

  const DOTTED_URI := SCHEME + "localhost" + DOTTED

  function DottedRequest(): Request {
    Request("REQMOD", DOTTED_URI, map[], None, None, "10.0.0.1")
  }

  /** The scenario matches and outranks its shadow, and yet is not the answer. */
  lemma DottedEndpointIsMissed(cfg: Config)
    ensures var s, req := DottedScenario(), DottedRequest(); var b := Shadow(s, "REQMOD", DOTTED);
      && MatchesScenario(cfg.matcher, s, req) && Outranks(s, b)
      && !IsBest(Hits(cfg.matcher, req), {s, b}, Answer(cfg, Loaded(cfg, [s, b]), req))
  {
    var s, req := DottedScenario(), DottedRequest();
    DottedPath();
    DottedHit(cfg);
    hide MatchesScenario, LookupPath, Answer, Loaded, Uncut, IsBest;
    CutEndpointIsShadowed(cfg, s, req);
    ShadowIsLower(s, "REQMOD", DOTTED);
  }

  lemma DottedIsPlain()
    ensures '?' !in DOTTED && '#' !in DOTTED
  {
  }

  lemma DottedPath()
    ensures LookupPath(DOTTED_URI) == DOTTED && !Uncut(DOTTED)
  {
    assert DOTTED[0] == '/' && DOTTED[5] == '.' && '.' in DOTTED;
    DottedIsPlain();
    assert DOTTED_URI + "" == DOTTED_URI;
    PathOfUri("localhost", DOTTED, "");
  }

  lemma DottedHit(cfg: Config)
    ensures LegacyHit(cfg, DottedScenario(), DottedRequest())
  {
    DottedPath();
    MatchedPathIsShardedPath(DOTTED_URI);
    hide LookupPath, EndpointPath, Uncut, HasCapture;
    assert DOTTED[0] == '/' && '{' !in DOTTED && '}' !in DOTTED;
    PlainEndpoint(cfg.matcher, DOTTED, DOTTED);
    var s := DottedScenario();
    assert DOTTED in s.rule.paths && AnyEndpointMatches(cfg.matcher, s.rule.paths, DOTTED);
  }

  // ---- the default copies of a fresh registry ----------------------------------------------

  /**
   Add one index-safe shard-resident scenario to a fresh registry and send a request that hits it:
   the answer is a best match exactly when the scenario outranks the default copies.
   */
  lemma FreshDefaultIsShadowed(cfg: Config, s: Scenario, req: Request)
    requires WellFormed(s) && IndexSafe(s) && !IsGlobal(s) && s.name != DEFAULT_NAME
    requires MatchesScenario(cfg.matcher, s, req)
    ensures s.priority >= 0 <==>
      IsBest(Hits(cfg.matcher, req), {s.(order := 1), DefaultScenario}, Answer(cfg, Added(cfg, Fresh(cfg), s), req))
  {
    hide MatchesScenario, Answer, Added, Fresh, Represents, OrderForAdd, ListOf, WellFormed, IndexSafe, IsGlobal;
    var s' := s.(order := 1);
    FreshAdd(cfg, s);
    InitSim(cfg);
    AddedRepresents(cfg, Fresh(cfg), {}, true, s);
    assert Without({}, s.name) + {s'} == {s'};
    FactsKept(cfg.matcher, s, s', req);
    DefaultMatches(cfg.matcher, req);
    FreshAnswer(cfg, Added(cfg, Fresh(cfg), s), s', req);
  }

  lemma DefaultMatches(m: Matcher, req: Request)
    ensures MatchesScenario(m, DefaultScenario, req)
  {
  }

  lemma FactsKept(m: Matcher, s: Scenario, s': Scenario, req: Request)
    requires s' == s.(order := s'.order)
    ensures WellFormed(s) ==> WellFormed(s')
    ensures IndexSafe(s) ==> IndexSafe(s')
    ensures IsGlobal(s) <==> IsGlobal(s')
    ensures MatchesScenario(m, s, req) <==> MatchesScenario(m, s', req)
  {
  }

  lemma FreshAdd(cfg: Config, s: Scenario)
    requires s.name != DEFAULT_NAME
    ensures OrderForAdd(ListOf(Fresh(cfg)), s.name) == 1
  {
    hide Represents, Fresh, ListOf, Ranked, DistinctNames;
    InitSim(cfg);
    ListIsFull(cfg, Fresh(cfg), {}, true);
    var l := ListOf(Fresh(cfg));
    assert Elems(l) == {DefaultScenario};
    forall x | x in l ensures x == DefaultScenario {
      assert x in Elems(l);
    }
    assert DefaultScenario in Elems(l);
  }

  /** The single indexed scenario answers, whatever its rank against the default copies. */
  lemma FreshAnswer(cfg: Config, c: Contents, s: Scenario, req: Request)
    requires Represents(cfg, c, {s}, true)
    requires WellFormed(s) && IndexSafe(s) && !IsGlobal(s) && MatchesScenario(cfg.matcher, s, req)
    ensures Answer(cfg, c, req) == Some(s)
  {
    hide MatchesScenario, ShardRepresents, GoodSet, DisablesMatchCache, WellFormed, IndexSafe, IsGlobal, Searched, KeysAt,
         IndexSearch;
    var found := IndexSearchIsBest(cfg, c, {s}, true, req);
    IndexCovers(cfg, s, req);
    assert found == {s};
    ScanFindsBest(Hits(cfg.matcher, req), c.global);
    assert Elems(c.global) == {};
  }
}
