/**
 What callers of the registries rely on (internal/storage/scenario.go:50-113, 455-515, 1500-1593;
 internal/storage/sharded_scenario.go:781-860, 1207-1224), said of files, requests and outcomes: what a file
 loads as, which calls are refused, what an added scenario replaces and whom it ranks behind.
 */
module RegistryLaws {
  import opened Wrappers
  import opened Text
  import opened Scenarios
  import opened MatchingLaws
  import opened LinearRegistry
  import opened ShardedIndex
  import opened IndexInvariant
  import opened RegistryRuns
  import opened Refinement
  import opened RefinementLimits

  // ---- what a file loads as ----------------------------------------------------------------

  predicate HasDefault(f: seq<Scenario>) {
    exists s | s in f :: s.name == "default"
  }

  /** Each text has something else than white space in it. */
  predicate NoneBlank(l: seq<string>) {
    forall i | 0 <= i < |l| :: exists c | c in l[i] :: !IsSpace(c)
  }

  /** Method and endpoint pairs: REQMOD and RESPMOD only, each with a list of distinct, non-blank endpoints. */
  predicate PairsAreValid(routes: RouteMap) {
    forall verb | verb in routes ::
      && verb in {"REQMOD", "RESPMOD"} && routes[verb] != []
      && NoneBlank(routes[verb])
      && (forall i, j | 0 <= i < j < |routes[verb]| :: routes[verb][i] != routes[verb][j])
  }

  lemma NotBlank(s: string)
    ensures IsBlank(s) <==> !exists c | c in s :: !IsSpace(c)
  {
    hide IsSpace;
  }

  lemma AllNotBlank(l: seq<string>)
    ensures (forall e | e in l :: !IsBlank(e)) <==> NoneBlank(l)
  {
    forall e ensures IsBlank(e) <==> !exists c | c in e :: !IsSpace(c) {
      NotBlank(e);
    }
    hide IsBlank, IsSpace;
    if NoneBlank(l) {
      forall e | e in l ensures !IsBlank(e) {
        var i :| 0 <= i < |l| && l[i] == e;
      }
    } else {
      var i :| 0 <= i < |l| && !exists c | c in l[i] :: !IsSpace(c);
      assert l[i] in l && IsBlank(l[i]);
    }
  }

  lemma PairsAreRouteMap(routes: RouteMap)
    ensures routes != map[] ==> (ValidRouteMap(routes) <==> PairsAreValid(routes))
  {
    hide IsBlank, NoneBlank;
    forall verb | verb in routes ensures (forall e | e in routes[verb] :: !IsBlank(e)) <==> NoneBlank(routes[verb]) {
      AllNotBlank(routes[verb]);
    }
    assert EXACT_ROUTE_METHODS[0] == "REQMOD" && EXACT_ROUTE_METHODS[1] == "RESPMOD" && |EXACT_ROUTE_METHODS| == 2;
    assert forall verb :: verb in EXACT_ROUTE_METHODS <==> verb in {"REQMOD", "RESPMOD"};
    assert routes != map[] ==> |routes| > 0;
  }

  /** What validation asks of a scenario. */
  lemma ValidatesExactly(m: Matcher, s: Scenario)
    ensures Validates(m, s) <==> s.name != "" && PairsAreValid(s.rule.routes) && m.compiles(s)
  {
    hide PairsAreValid;
    PairsAreRouteMap(s.rule.routes);
    NoPairs();
  }

  lemma NoPairs()
    ensures PairsAreValid(map[])
  {
  }

  /**
   A file loads exactly when it can be read and every scenario validates. The list holds each scenario with its
   place in the file, a default if the file names none, and nothing else.
   */
  lemma LoadsExactly(m: Matcher, file: ScenarioFile)
    ensures LoadList(m, file).Some? <==> file.Some? && forall s | s in file.value :: Validates(m, s)
    ensures LoadList(m, file).Some? ==>
      var l, f := LoadList(m, file).value, file.value;
      && Ranked(l) && HasDefault(l)
      && |l| == |f| + (if HasDefault(f) then 0 else 1)
      && (forall i | 0 <= i < |f| :: f[i].(order := i) in l)
      && (!HasDefault(f) ==> DefaultScenario.(order := |f|) in l)
      && (forall s | s in l :: (exists i | 0 <= i < |f| :: s == f[i].(order := i))
                               || (!HasDefault(f) && s == DefaultScenario.(order := |f|)))
  {
    hide Validates;
    if LoadList(m, file).Some? {
      var raw, l := WithDefault(file.value), LoadList(m, file).value;
      SortRanks(Numbered(raw));
      SameMultisetSameElems(l, Numbered(raw));
      forall s ensures s in l <==> s in Numbered(raw) {
        assert s in Elems(l) <==> s in Elems(Numbered(raw));
      }
      hide SortByRank, Ranked, Numbered, WithDefault, LoadList;
      NumberedFile(file.value);
      if HasDefault(raw) {
        NumberedHasDefault(raw);
      }
    }
  }

  lemma NumberedFile(f: seq<Scenario>)
    ensures var raw := WithDefault(f); var numbered := Numbered(raw);
      && HasDefault(raw)
      && |raw| == |f| + (if HasDefault(f) then 0 else 1)
      && (forall i | 0 <= i < |f| :: f[i].(order := i) in numbered)
      && (!HasDefault(f) ==> DefaultScenario.(order := |f|) in numbered)
      && (forall s | s in numbered :: (exists i | 0 <= i < |f| :: s == f[i].(order := i))
                                      || (!HasDefault(f) && s == DefaultScenario.(order := |f|)))
  {
    var raw := WithDefault(f);
    var numbered := Numbered(raw);
    forall i | 0 <= i < |f| ensures numbered[i] == f[i].(order := i) {
      assert raw[i] == f[i];
    }
    if HasDefault(f) {
      assert raw == f;
    } else {
      assert raw[|f|] == DefaultScenario && numbered[|f|] == DefaultScenario.(order := |f|);
    }
  }

  lemma NumberedHasDefault(raw: seq<Scenario>)
    requires HasDefault(raw)
    ensures HasDefault(Numbered(raw))
  {
    var i :| 0 <= i < |raw| && raw[i].name == "default";
    assert Numbered(raw)[i].name == "default";
  }

  /** Of two scenarios of a file the earlier ranks first, unless the later has the higher priority. */
  lemma FileOrderBreaksTies(f: seq<Scenario>, i: nat, j: nat)
    requires i < j < |f|
    ensures Outranks(f[i].(order := i), f[j].(order := j)) <==> f[i].priority >= f[j].priority
    ensures Outranks(f[j].(order := j), f[i].(order := i)) <==> f[j].priority > f[i].priority
  {
  }

  /** A loaded list answers every request, unless the file brings a default of its own. */
  lemma LoadedAnswersEverything(m: Matcher, file: ScenarioFile, req: Request)
    requires LoadList(m, file).Some? && !HasDefault(file.value)
    ensures FirstMatch(Hits(m, req), LoadList(m, file).value).Some?
  {
    var l, s := LoadList(m, file).value, DefaultScenario.(order := |file.value|);
    LoadsExactly(m, file);
    FirstMatchIsBest(Hits(m, req), l);
    assert s in Elems(l) && s.rule == AnyRule;
    assert MatchesScenario(m, s, req);
    hide MatchesScenario, LoadList;
  }

  // ---- adding ------------------------------------------------------------------------------

  /** An Add is refused exactly for a nil or invalid scenario, and then changes nothing. */
  lemma AddRefusedExactly(m: Matcher, st: LinearState, scenario: Option<Scenario>)
    ensures var (after, err) := LinearStep(m, st, Add(scenario));
      && (err == None <==> scenario.Some? && scenario.value.name != "" && PairsAreValid(scenario.value.rule.routes)
                           && m.compiles(scenario.value))
      && (err != None ==> after == st)
  {
    hide AddTo, Validates, PairsAreValid;
    if scenario.Some? {
      ValidatesExactly(m, scenario.value);
    }
  }

  /** The list after an Add: the namesake gives way and leaves its order; a new name gets one above all others. */
  ghost predicate AddedAs(l: seq<Scenario>, after: seq<Scenario>, s: Scenario, order: nat) {
    && Ranked(after) && DistinctNames(after)
    && Elems(after) == (set x | x in l && x.name != s.name) + {s.(order := order)}
    && (forall was | was in l && was.name == s.name :: order == was.order)
    && ((forall x | x in l :: x.name != s.name) ==> forall x | x in l :: x.order < order)
  }

  lemma AddOutcome(l: seq<Scenario>, s: Scenario) returns (order: nat)
    requires DistinctNames(l)
    ensures AddedAs(l, AddTo(l, s), s, order)
  {
    order := OrderForAdd(l, s.name);
    AddToElems(l, s);
    assert Without(Elems(l), s.name) == set x | x in l && x.name != s.name;
    forall was | was in l && was.name == s.name ensures order == was.order {
      OrderOfNamed(l, was, NextOrder(l));
    }
    hide AddTo, Ranked, DistinctNames;
  }

  /** Adding a registered scenario again, unchanged, registers the same scenarios. */
  lemma AddAgainKeepsAll(l: seq<Scenario>, s: Scenario)
    requires DistinctNames(l) && s in l
    ensures Elems(AddTo(l, s)) == Elems(l)
  {
    var order := AddOutcome(l, s);
    hide AddTo;
    forall x ensures x in Elems(AddTo(l, s)) <==> x in Elems(l) {
      if x in l && x.name == s.name {
        assert x == s;
      }
    }
  }

  /** A scenario of a new name ranks behind everything of its priority or a higher one, and before the rest. */
  lemma NewNameRanksBehind(l: seq<Scenario>, s: Scenario, x: Scenario, added: Scenario)
    requires DistinctNames(l) && (forall y | y in l :: y.name != s.name)
    requires x in l && added in AddTo(l, s) && added.name == s.name
    ensures if x.priority >= s.priority then Outranks(x, added) else Outranks(added, x)
  {
    var order := AddOutcome(l, s);
    hide AddTo;
    assert added in Elems(AddTo(l, s));
  }

  /** So it takes over exactly the requests it matches whose answer had a lower priority, or that had none. */
  lemma AnswerAfterAdd(m: Matcher, l: seq<Scenario>, s: Scenario, req: Request)
    requires Ranked(l) && DistinctNames(l) && OrdersDistinct(Elems(l)) && forall x | x in l :: x.name != s.name
    ensures var was, now := FirstMatch(Hits(m, req), l), FirstMatch(Hits(m, req), AddTo(l, s));
      if MatchesScenario(m, s, req) && (was.None? || was.value.priority < s.priority)
      then now.Some? && now.value.(order := s.order) == s
      else now == was
  {
    var order := AddOutcome(l, s);
    hide AddTo, FirstMatch, MatchesScenario, DistinctNames, IsBest, OrdersDistinct;
    var after, hit, added := AddTo(l, s), Hits(m, req), s.(order := order);
    AddedLast(l, after, s, order);
    assert Ranked(after);
    hide Ranked, AddedAs;
    FirstMatchIsBest(hit, l);
    FirstMatchIsBest(hit, after);
    OrderIsNotMatched(m, s, added, req);
    LastInOrderTakes(hit, Elems(l), added, FirstMatch(hit, l), FirstMatch(hit, after));
  }

  lemma AddedLast(l: seq<Scenario>, after: seq<Scenario>, s: Scenario, order: nat)
    requires AddedAs(l, after, s, order) && forall x | x in l :: x.name != s.name
    ensures Elems(after) == Elems(l) + {s.(order := order)}
    ensures forall x | x in Elems(l) :: x.order < order
  {
    hide Ranked, DistinctNames;
  }

  lemma LastInOrderTakes(hit: Scenario -> bool, reg: set<Scenario>, added: Scenario, was: Option<Scenario>, now: Option<Scenario>)
    requires OrdersDistinct(reg) && forall x | x in reg :: x.order < added.order
    requires IsBest(hit, reg, was) && IsBest(hit, reg + {added}, now)
    ensures now == if hit(added) && (was.None? || was.value.priority < added.priority) then Some(added) else was
  {
    var takes := hit(added) && (was.None? || was.value.priority < added.priority);
    assert IsBest(hit, reg + {added}, if takes then Some(added) else was);
    BestIsUnique(hit, reg + {added}, now, if takes then Some(added) else was);
  }

  lemma OrderIsNotMatched(m: Matcher, s: Scenario, t: Scenario, req: Request)
    requires t == s.(order := t.order)
    ensures MatchesScenario(m, s, req) <==> MatchesScenario(m, t, req)
  {
  }

  // ---- the same over runs, on both registries ----------------------------------------------

  lemma RunTail(cfg: Config, ops: seq<Op>, op: Op)
    ensures RunLinear(cfg.matcher, ops + [op]).0 == LinearStep(cfg.matcher, RunLinear(cfg.matcher, ops).0, op).0
    ensures RunLinear(cfg.matcher, ops + [op]).1 ==
            RunLinear(cfg.matcher, ops).1 + [LinearStep(cfg.matcher, RunLinear(cfg.matcher, ops).0, op).1]
    ensures RunSharded(cfg, ops + [op]).0 == ShardedStep(cfg, RunSharded(cfg, ops).0, op).0
    ensures RunSharded(cfg, ops + [op]).1 ==
            RunSharded(cfg, ops).1 + [ShardedStep(cfg, RunSharded(cfg, ops).0, op).1]
  {
    hide LinearStep, ShardedStep;
    assert (ops + [op])[..|ops|] == ops;
  }

  lemma SubsetOrders(a: set<Scenario>, b: set<Scenario>)
    requires a <= b && OrdersDistinct(b)
    ensures OrdersDistinct(a)
  {
  }

  /** A scan of everything held is determined by what is held. */
  lemma ScanBySet(cfg: Config, a: seq<Scenario>, b: seq<Scenario>, req: Request)
    requires Elems(a) == Elems(b) && NamesUnique(Elems(a)) && OrdersDistinct(Elems(a))
    ensures ScanUnique(cfg, a, req) == ScanUnique(cfg, b, req) && GlobalSearch(cfg, a, req) == GlobalSearch(cfg, b, req)
  {
    var hit := Hits(cfg.matcher, req);
    ScanUniqueIsBest(cfg, a, req);
    ScanUniqueIsBest(cfg, b, req);
    ScanFindsBest(hit, a);
    ScanFindsBest(hit, b);
    assert GlobalSearch(cfg, a, req) == BestMatch(hit, a, None) && GlobalSearch(cfg, b, req) == BestMatch(hit, b, None);
    hide ScanUnique, GlobalSearch, BestMatch, IsBest, OrdersDistinct, Elems, NamesUnique;
    BestIsUnique(hit, Elems(a), ScanUnique(cfg, a, req), ScanUnique(cfg, b, req));
    BestIsUnique(hit, Elems(a), GlobalSearch(cfg, a, req), GlobalSearch(cfg, b, req));
  }

  lemma IndexBySet(cfg: Config, c: Contents, d: Contents, reg: set<Scenario>, implicit: bool, req: Request)
    requires Represents(cfg, c, reg, implicit) && Represents(cfg, d, reg, implicit)
    ensures var i := ShardFor(cfg, req);
      IndexSearch(cfg, c.shards[i].index, req) == IndexSearch(cfg, d.shards[i].index, req)
  {
    var i, hit := ShardFor(cfg, req), Hits(cfg.matcher, req);
    var found := IndexSearchIsBest(cfg, c, reg, implicit, req);
    var found' := IndexSearchIsBest(cfg, d, reg, implicit, req);
    hide ShardRepresents, GlobalRepresents, WellFormed, Searched, IndexSearch, IsBest, NamesUnique;
    assert found == found' && found <= Full(reg, implicit);
    SubsetOrders(found, Full(reg, implicit));
    BestIsUnique(hit, found, IndexSearch(cfg, c.shards[i].index, req), IndexSearch(cfg, d.shards[i].index, req));
  }

  /** Both hold the same scenarios in their shards, and the same in their global lists. */
  lemma HeldBySet(cfg: Config, c: Contents, d: Contents, reg: set<Scenario>, implicit: bool)
    requires Represents(cfg, c, reg, implicit) && Represents(cfg, d, reg, implicit)
    ensures Elems(AllScenarios(c.shards)) == Elems(AllScenarios(d.shards)) <= Full(reg, implicit)
    ensures Elems(c.global) == Elems(d.global) <= Full(reg, implicit)
    ensures NamesUnique(Full(reg, implicit)) && OrdersDistinct(Full(reg, implicit))
  {
    ShardsHold(cfg, c, reg, implicit);
    ShardsHold(cfg, d, reg, implicit);
    hide ShardRepresents, WellFormed, AllScenarios, IsGlobal, NamesUnique, OrdersDistinct;
  }

  /** What the sharded search answers depends on the represented scenarios alone, safe contents or not. */
  lemma AnswerBySet(cfg: Config, c: Contents, d: Contents, reg: set<Scenario>, implicit: bool, req: Request)
    requires Represents(cfg, c, reg, implicit) && Represents(cfg, d, reg, implicit)
    ensures Answer(cfg, c, req) == Answer(cfg, d, req)
  {
    IndexBySet(cfg, c, d, reg, implicit, req);
    HeldBySet(cfg, c, d, reg, implicit);
    var full := Full(reg, implicit);
    SubsetOrders(Elems(AllScenarios(c.shards)), full);
    SubsetOrders(Elems(c.global), full);
    hide ShardRepresents, GlobalRepresents, GoodSet, IndexSearch, ScanUnique, GlobalSearch, AllScenarios, OrdersDistinct,
         Elems, Full;
    ScanBySet(cfg, AllScenarios(c.shards), AllScenarios(d.shards), req);
    ScanBySet(cfg, c.global, d.global, req);
  }

  // ---- adding what is registered -----------------------------------------------------------

  /** The one scenario whose repeated Add changes the sharded contents: the unindexed default of a fresh registry. */
  predicate IsFreshDefault(c: Contents, s: Scenario)
    requires |c.shards| > 0
  {
    s == DefaultScenario && s in c.shards[0].scenarios
  }

  lemma OrderIsKept(cfg: Config, c: Contents, reg: set<Scenario>, implicit: bool, s: Scenario)
    requires Represents(cfg, c, reg, implicit) && s in Full(reg, implicit)
    ensures s.(order := OrderForAdd(ListOf(c), s.name)) == s && WellFormed(s)
  {
    RepresentsGood(cfg, c, reg, implicit);
    ListIsFull(cfg, c, reg, implicit);
    hide Represents, ListOf, Ranked, DistinctNames, NextOrder, OrderFrom, NamesUnique, OrdersDistinct;
    assert s in Elems(ListOf(c));
    OrderOfNamed(ListOf(c), s, NextOrder(ListOf(c)));
  }

  lemma FreshDefaultIsUnregistered(cfg: Config, c: Contents, reg: set<Scenario>, implicit: bool, s: Scenario)
    requires Represents(cfg, c, reg, implicit) && s in Full(reg, implicit)
    ensures IsFreshDefault(c, s) <==> s !in reg
    ensures s !in reg ==> implicit && s == DefaultScenario
  {
    assert ShardRepresents(cfg, c.shards[0], 0, reg, implicit) && GoodSet(reg, implicit);
    DefaultIsNoResident(cfg);
    hide ShardResident, WellFormed, NamesUnique, OrdersDistinct, GlobalRepresents;
  }

  lemma PutBack(reg: set<Scenario>, implicit: bool, s: Scenario)
    requires GoodSet(reg, implicit) && s in Full(reg, implicit)
    ensures Without(reg, s.name) + {s} == reg + {s}
    ensures s in reg && implicit ==> s.name != DEFAULT_NAME
  {
    hide OrdersDistinct, WellFormed;
    assert implicit ==> DefaultScenario in Full(reg, implicit);
  }

  lemma AddAgainRepresents(cfg: Config, c: Contents, reg: set<Scenario>, implicit: bool, s: Scenario)
    requires Represents(cfg, c, reg, implicit) && s in Full(reg, implicit)
    ensures IsFreshDefault(c, s) ==> implicit && Represents(cfg, Added(cfg, c, s), reg + {s}, false)
    ensures !IsFreshDefault(c, s) ==> Represents(cfg, Added(cfg, c, s), reg, implicit)
  {
    OrderIsKept(cfg, c, reg, implicit, s);
    FreshDefaultIsUnregistered(cfg, c, reg, implicit, s);
    RepresentsGood(cfg, c, reg, implicit);
    hide Represents, Added, ListOf, OrderForAdd, WellFormed, GoodSet, NamesUnique, Without, IsFreshDefault;
    PutBack(reg, implicit, s);
    AddedRepresents(cfg, c, reg, implicit, s);
    if s in reg {
      assert reg + {s} == reg;
      assert (implicit && s.name != DEFAULT_NAME) == implicit;
    } else {
      assert s.name == DEFAULT_NAME;
    }
  }

  lemma DefaultIsNoResident(cfg: Config)
    ensures IsGlobal(DefaultScenario) && !ShardResident(cfg, DefaultScenario, 0)
  {
  }

  /** Once it is added the default is global, so the index is safe when its residents are. */
  lemma AddedDefaultIsSafe(cfg: Config, d: Contents, reg: set<Scenario>)
    requires Represents(cfg, d, reg + {DefaultScenario}, false)
    requires forall s | s in reg && !IsGlobal(s) :: IndexSafe(s)
    ensures SafeContents(d)
  {
    DefaultIsNoResident(cfg);
    ShardsHold(cfg, d, reg + {DefaultScenario}, false);
    assert ShardRepresents(cfg, d.shards[0], 0, reg + {DefaultScenario}, false);
    hide KeysAt, IsGlobal, GlobalRepresents, GoodSet, IndexSafe, AllScenarios, Outranks;
  }

  lemma ShardedAnswerAgain(cfg: Config, c: Contents, reg: set<Scenario>, implicit: bool, s: Scenario, req: Request)
    requires Represents(cfg, c, reg, implicit) && s in Full(reg, implicit)
    requires IsFreshDefault(c, s) ==> SafeContents(c)
    ensures Answer(cfg, Added(cfg, c, s), req) == Answer(cfg, c, req)
  {
    AddAgainRepresents(cfg, c, reg, implicit, s);
    hide Represents, Added, Answer, SafeContents;
    if IsFreshDefault(c, s) {
      FreshDefaultAgain(cfg, c, Added(cfg, c, s), reg, req);
    } else {
      AnswerBySet(cfg, c, Added(cfg, c, s), reg, implicit, req);
    }
  }

  lemma ResidentsAreSafe(cfg: Config, c: Contents, reg: set<Scenario>)
    requires Represents(cfg, c, reg, true) && SafeContents(c)
    ensures forall s | s in reg && !IsGlobal(s) :: IndexSafe(s)
  {
    ShardsHold(cfg, c, reg, true);
    hide Represents, IsGlobal, IndexSafe, AllScenarios, Outranks;
  }

  lemma FreshDefaultAgain(cfg: Config, c: Contents, d: Contents, reg: set<Scenario>, req: Request)
    requires Represents(cfg, c, reg, true) && Represents(cfg, d, reg + {DefaultScenario}, false) && SafeContents(c)
    ensures Answer(cfg, d, req) == Answer(cfg, c, req)
  {
    hide Represents, SafeContents, Answer, IsBest, OrdersDistinct, GoodSet, IsGlobal, IndexSafe;
    Shaped(cfg, c, reg, true);
    Shaped(cfg, d, reg + {DefaultScenario}, false);
    ResidentsAreSafe(cfg, c, reg);
    AddedDefaultIsSafe(cfg, d, reg);
    AnswerIsBest(cfg, c, reg, true, req);
    AnswerIsBest(cfg, d, reg + {DefaultScenario}, false, req);
    assert Full(reg + {DefaultScenario}, false) == Full(reg, true);
    BestIsUnique(Hits(cfg.matcher, req), Full(reg, true), Answer(cfg, c, req), Answer(cfg, d, req));
  }

  lemma Shaped(cfg: Config, c: Contents, reg: set<Scenario>, implicit: bool)
    requires Represents(cfg, c, reg, implicit)
    ensures |c.shards| == cfg.shardCount && OrdersDistinct(Full(reg, implicit))
  {
    assert GoodSet(reg, implicit);
  }

  lemma LinearAnswerAgain(l: seq<Scenario>, s: Scenario, hit: Scenario -> bool)
    requires Ranked(l) && DistinctNames(l) && OrdersDistinct(Elems(l)) && s in l
    ensures FirstMatch(hit, AddTo(l, s)) == FirstMatch(hit, l)
  {
    AddAgainKeepsAll(l, s);
    AddToElems(l, s);
    FirstMatchIsBest(hit, l);
    FirstMatchIsBest(hit, AddTo(l, s));
    hide FirstMatch, AddTo, IsBest, Ranked, DistinctNames, OrdersDistinct;
    BestIsUnique(hit, Elems(l), FirstMatch(hit, AddTo(l, s)), FirstMatch(hit, l));
  }

  /**
   After any run, adding a registered scenario again, unchanged, changes no answer on either registry. On the
   sharded one the default copies of a fresh registry are the exception, unless the contents are safe.
   */
  lemma AddAgainChangesNoAnswer(cfg: Config, ops: seq<Op>, s: Scenario, req: Request)
    requires GoodOps(ops) && s in RunLinear(cfg.matcher, ops).0.scenarios
    ensures FirstMatch(Hits(cfg.matcher, req), RunLinear(cfg.matcher, ops + [Add(Some(s))]).0.scenarios) ==
            FirstMatch(Hits(cfg.matcher, req), RunLinear(cfg.matcher, ops).0.scenarios)
    ensures var c := RunSharded(cfg, ops).0.contents;
      (IsFreshDefault(c, s) ==> SafeContents(c)) ==>
        Answer(cfg, RunSharded(cfg, ops + [Add(Some(s))]).0.contents, req) == Answer(cfg, c, req)
  {
    var reg, implicit := RunsAgree(cfg, ops);
    RunTail(cfg, ops, Add(Some(s)));
    var sh, lin := RunSharded(cfg, ops).0, RunLinear(cfg.matcher, ops).0;
    hide RunSharded, RunLinear, Answer, FirstMatch, Hits, SafeContents, Represents, Ranked, DistinctNames;
    RepresentsGood(cfg, sh.contents, reg, implicit);
    ShardedAddStep(cfg, sh, s);
    LinearAddStep(cfg.matcher, lin, s);
    hide ShardedStep, LinearStep, Added, AddTo, Validates;
    assert s in Elems(lin.scenarios);
    LinearAnswerAgain(lin.scenarios, s, Hits(cfg.matcher, req));
    if IsFreshDefault(sh.contents, s) ==> SafeContents(sh.contents) {
      ShardedAnswerAgain(cfg, sh.contents, reg, implicit, s, req);
    }
  }

  /**
   The exception is real: after one indexed scenario has been added to a fresh registry, adding the default
   again leaves a matching request's answer as it was exactly when the scenario outranks the default.
   */
  lemma FreshDefaultAgainExactly(cfg: Config, s: Scenario, req: Request)
    requires WellFormed(s) && IndexSafe(s) && !IsGlobal(s) && s.name != DEFAULT_NAME
    requires MatchesScenario(cfg.matcher, s, req)
    ensures var c := Added(cfg, Fresh(cfg), s);
      Answer(cfg, Added(cfg, c, DefaultScenario), req) == Answer(cfg, c, req) <==> s.priority >= 0
  {
    hide MatchesScenario, Answer, Added, Fresh, Represents, OrderForAdd, ListOf, WellFormed, IndexSafe, IsGlobal, IsBest,
         SafeContents, IsFreshDefault, NamesUnique, OrdersDistinct;
    var c, s' := Added(cfg, Fresh(cfg), s), s.(order := 1);
    var d := Added(cfg, c, DefaultScenario);
    FreshAdd(cfg, s);
    InitSim(cfg);
    AddedRepresents(cfg, Fresh(cfg), {}, true, s);
    assert Without({}, s.name) + {s'} == {s'};
    FactsKept(cfg.matcher, s, s', req);
    FreshAnswer(cfg, c, s', req);
    FreshDefaultIsUnregistered(cfg, c, {s'}, true, DefaultScenario);
    AddAgainRepresents(cfg, c, {s'}, true, DefaultScenario);
    AddedDefaultIsSafe(cfg, d, {s'});
    AnswerIsBest(cfg, d, {s'} + {DefaultScenario}, false, req);
    RepresentsGood(cfg, d, {s'} + {DefaultScenario}, false);
    assert Full({s'} + {DefaultScenario}, false) == {s', DefaultScenario};
    FreshDefaultIsShadowed(cfg, s, req);
    if s.priority >= 0 {
      BestIsUnique(Hits(cfg.matcher, req), {s', DefaultScenario}, Answer(cfg, d, req), Some(s'));
    }
  }

  // ---- reloading ---------------------------------------------------------------------------

  /** Some scenario declares this endpoint. */
  predicate Names(l: seq<Scenario>, endpoint: string) {
    exists s | s in l :: endpoint in s.rule.paths || endpoint == s.rule.path
  }

  predicate HasRoutes(l: seq<Scenario>) {
    exists s | s in l :: s.rule.routes != map[]
  }

  /** Exact routes are in play, and an endpoint is declared on one side and not on the other. */
  ghost predicate ChangesEndpoints(current: seq<Scenario>, file: seq<Scenario>) {
    (HasRoutes(current) || HasRoutes(file)) && exists e :: e != "" && Names(current, e) != Names(file, e)
  }

  lemma TopologyIsNames(l: seq<Scenario>, e: string)
    ensures e in Topology(l) <==> e != "" && Names(l, e)
  {
  }

  lemma RoutesAreExact(l: seq<Scenario>)
    ensures HasExactRoutes(l) <==> HasRoutes(l)
  {
    assert forall s: Scenario :: |s.rule.routes| > 0 <==> s.rule.routes != map[];
  }

  lemma AllowsExactly(current: seq<Scenario>, next: seq<Scenario>)
    ensures TopologyAllows(current, next) <==> !ChangesEndpoints(current, next)
  {
    RoutesAreExact(current);
    RoutesAreExact(next);
    forall e ensures (e in Topology(current) <==> e != "" && Names(current, e)) && (e in Topology(next) <==> e != "" && Names(next, e)) {
      TopologyIsNames(current, e);
      TopologyIsNames(next, e);
    }
    hide Topology, Names, HasExactRoutes, HasRoutes;
    if !ChangesEndpoints(current, next) && (HasRoutes(current) || HasRoutes(next)) {
      forall e ensures e in Topology(current) <==> e in Topology(next) {
      }
      assert Topology(current) == Topology(next);
    }
  }

  /** The same rules are on both lists, but for a default's on the first. */
  ghost predicate SameRules(l: seq<Scenario>, f: seq<Scenario>) {
    && (forall s | s in f :: exists t | t in l :: t.rule == s.rule)
    && (forall t | t in l :: t.rule == AnyRule || exists s | s in f :: s.rule == t.rule)
  }

  lemma LoadedRules(m: Matcher, file: ScenarioFile)
    requires LoadList(m, file).Some?
    ensures SameRules(LoadList(m, file).value, file.value)
  {
    LoadsExactly(m, file);
    hide LoadList, Ranked, Validates, HasDefault;
    var l, f := LoadList(m, file).value, file.value;
    forall s | s in f ensures exists t | t in l :: t.rule == s.rule {
      var i :| 0 <= i < |f| && f[i] == s;
      assert f[i].(order := i) in l;
    }
    forall t | t in l ensures t.rule == AnyRule || exists s | s in f :: s.rule == t.rule {
      if i :| 0 <= i < |f| && t == f[i].(order := i) {
        assert f[i] in f;
      }
    }
  }

  lemma SameRulesSameNames(l: seq<Scenario>, f: seq<Scenario>, e: string)
    requires SameRules(l, f) && e != ""
    ensures Names(l, e) <==> Names(f, e)
  {
  }

  lemma SameRulesSameRoutes(l: seq<Scenario>, f: seq<Scenario>)
    requires SameRules(l, f)
    ensures HasRoutes(l) <==> HasRoutes(f)
  {
  }

  /** Numbering, sorting and the default change neither endpoints nor routes. */
  lemma LoadedChanges(m: Matcher, file: ScenarioFile, current: seq<Scenario>)
    requires LoadList(m, file).Some?
    ensures file.Some? && (ChangesEndpoints(current, LoadList(m, file).value) <==> ChangesEndpoints(current, file.value))
  {
    LoadedRules(m, file);
    assert file.Some?;
    var l := LoadList(m, file).value;
    hide LoadList, Names, HasRoutes, SameRules;
    SameRulesSameRoutes(l, file.value);
    forall e | e != "" ensures Names(l, e) <==> Names(file.value, e) {
      SameRulesSameNames(l, file.value, e);
    }
  }

  /** A Reload of a file that loads is refused exactly for a changed endpoint; otherwise it does what Load does. */
  lemma ReloadRefusedExactly(m: Matcher, st: LinearState, file: ScenarioFile)
    requires st.filePath != "" && LoadList(m, file).Some?
    ensures var (after, err) := LinearStep(m, st, Reload(file));
      if ChangesEndpoints(st.scenarios, file.value) then (after, err) == (st, Some(TopologyChange))
      else (after, err) == LinearStep(m, st, Load(st.filePath, file)) && err == None
  {
    AllowsExactly(st.scenarios, LoadList(m, file).value);
    LoadedChanges(m, file, st.scenarios);
    hide LoadList, TopologyAllows, ChangesEndpoints;
  }

  /** After any run both registries refuse the same reloads, and for that reason only. */
  lemma ReloadsRefusedAlike(cfg: Config, ops: seq<Op>, file: ScenarioFile)
    requires GoodOps(ops + [Reload(file)]) && LoadList(cfg.matcher, file).Some?
    requires RunLinear(cfg.matcher, ops).0.filePath != ""
    ensures |RunSharded(cfg, ops + [Reload(file)]).1| == |ops| + 1
    ensures RunSharded(cfg, ops + [Reload(file)]).1[|ops|] ==
      if ChangesEndpoints(RunLinear(cfg.matcher, ops).0.scenarios, file.value) then Some(TopologyChange) else None
  {
    var reg, implicit := RunsAgree(cfg, ops + [Reload(file)]);
    RunTail(cfg, ops, Reload(file));
    OutcomesPerOp(cfg.matcher, ops);
    ReloadRefusedExactly(cfg.matcher, RunLinear(cfg.matcher, ops).0, file);
    hide RunSharded, RunLinear, LinearStep, ShardedStep, ChangesEndpoints, Sim, LoadList;
  }

  lemma {:induction false} OutcomesPerOp(m: Matcher, ops: seq<Op>)
    ensures |RunLinear(m, ops).1| == |ops|
  {
    hide LinearStep;
    if ops != [] {
      OutcomesPerOp(m, ops[..|ops| - 1]);
    }
  }

  /** Reloading what was just loaded is always admitted, and changes nothing, on either registry. */
  lemma ReloadUnchangedIsAdmitted(cfg: Config, lin: LinearState, sh: ShardedState, path: string, file: ScenarioFile)
    requires path != "" && LoadList(cfg.matcher, file).Some? && |sh.contents.shards| == cfg.shardCount
    ensures var loaded := LinearStep(cfg.matcher, lin, Load(path, file)).0;
      LinearStep(cfg.matcher, loaded, Reload(file)) == (loaded, None)
    ensures var loaded := ShardedStep(cfg, sh, Load(path, file)).0;
      ShardedStep(cfg, loaded, Reload(file)) == (loaded, None)
  {
    hide LoadList, Loaded, ListOf, Topology, HasExactRoutes;
  }

  /** What a Load leaves, and that a failing one leaves everything. */
  lemma LoadOutcome(m: Matcher, st: LinearState, path: string, file: ScenarioFile)
    ensures var (after, err) := LinearStep(m, st, Load(path, file));
      if LoadList(m, file).Some? then err == None && after.scenarios == LoadList(m, file).value && after.filePath == path
      else err == Some(LoadFailed) && after == st
  {
  }

  /**
   A Reload after a Load, on either registry and after any run: refused when the two files differ in their
   endpoints and routes are in play, and else in force.
   */
  lemma ReloadAfterLoad(cfg: Config, ops: seq<Op>, path: string, file: ScenarioFile, next: ScenarioFile)
    requires GoodOps(ops + [Load(path, file)] + [Reload(next)]) && path != ""
    requires LoadList(cfg.matcher, file).Some? && LoadList(cfg.matcher, next).Some?
    ensures var all := ops + [Load(path, file)] + [Reload(next)];
      var refused := ChangesEndpoints(file.value, next.value);
      && |RunSharded(cfg, all).1| == |RunLinear(cfg.matcher, all).1| == |ops| + 2
      && RunSharded(cfg, all).1[|ops| + 1] == RunLinear(cfg.matcher, all).1[|ops| + 1] == (if refused then Some(TopologyChange) else None)
      && RunLinear(cfg.matcher, all).0.scenarios == LoadList(cfg.matcher, if refused then file else next).value
  {
    var loaded := ops + [Load(path, file)];
    var st := RunLinear(cfg.matcher, loaded).0;
    var reg, implicit := RunsAgree(cfg, loaded + [Reload(next)]);
    RunTail(cfg, ops, Load(path, file));
    RunTail(cfg, loaded, Reload(next));
    OutcomesPerOp(cfg.matcher, loaded);
    LoadOutcome(cfg.matcher, RunLinear(cfg.matcher, ops).0, path, file);
    ReloadRefusedExactly(cfg.matcher, st, next);
    LoadOutcome(cfg.matcher, st, st.filePath, next);
    hide RunSharded, RunLinear, LinearStep, ShardedStep, Sim, LoadList;
    EndpointsOfLoaded(cfg.matcher, file, next.value);
  }

  lemma EndpointsOfLoaded(m: Matcher, file: ScenarioFile, next: seq<Scenario>)
    requires LoadList(m, file).Some?
    ensures file.Some? && (ChangesEndpoints(LoadList(m, file).value, next) <==> ChangesEndpoints(file.value, next))
  {
    LoadedRules(m, file);
    assert file.Some?;
    var l := LoadList(m, file).value;
    hide LoadList, Names, HasRoutes, SameRules;
    SameRulesSameRoutes(l, file.value);
    forall e | e != "" ensures Names(l, e) <==> Names(file.value, e) {
      SameRulesSameNames(l, file.value, e);
    }
  }

  // ---- removing ----------------------------------------------------------------------------

  /** A Remove is refused exactly for a name nobody has; else it takes that scenario and no other. */
  lemma RemoveOutcome(m: Matcher, st: LinearState, name: string)
    requires DistinctNames(st.scenarios)
    ensures var (after, err) := LinearStep(m, st, Remove(name));
      && (err == None <==> exists s | s in st.scenarios :: s.name == name)
      && (err != None ==> err == Some(NoMatch) && after == st)
      && Elems(after.scenarios) == (set s | s in st.scenarios && s.name != name)
      && after.filePath == st.filePath
  {
    RemoveFirstElems(st.scenarios, name);
    hide RemoveFirst, DistinctNames;
    if !HasName(st.scenarios, name) {
      assert Elems(st.scenarios) == set s | s in st.scenarios && s.name != name;
    }
  }

  // ---- the match cache's switch ------------------------------------------------------------

  /** The scenario looks at more than the cache key tells, or its match leaves captures with the request. */
  ghost predicate NeedsSearch(s: Scenario) {
    || !IsStatic(s.rule) || s.branches != []
    || exists p | p in s.rule.paths :: !("re:" <= p) && exists i, j :: 0 <= i <= j <= |p| && IsToken(p[i..j])
  }

  lemma DisablesExactly(s: Scenario)
    ensures DisablesMatchCache(s) <==> NeedsSearch(s)
  {
    StaticHasNoDynamicRule(s.rule);
    forall p: string ensures HasCapture(p) <==> exists i, j :: 0 <= i <= j <= |p| && IsToken(p[i..j]) {
      HasCaptureExactly(p);
    }
    hide HasCapture, IsToken, IsStatic, HasDynamicRule;
  }

  /** After any run the match cache is off exactly while some registered scenario needs a search each time. */
  lemma CacheIsOffExactly(cfg: Config, ops: seq<Op>)
    requires GoodOps(ops)
    ensures RunSharded(cfg, ops).0.contents.cacheDisabled <==>
      exists s | s in RunLinear(cfg.matcher, ops).0.scenarios :: NeedsSearch(s)
  {
    var reg, implicit := RunsAgree(cfg, ops);
    var c, l := RunSharded(cfg, ops).0.contents, RunLinear(cfg.matcher, ops).0.scenarios;
    DefaultDisablesNothing();
    hide RunSharded, RunLinear, NeedsSearch, DisablesMatchCache, ShardRepresents, GlobalRepresents, GoodSet, Ranked, DistinctNames;
    forall s ensures (s in l <==> s in Full(reg, implicit)) && (DisablesMatchCache(s) <==> NeedsSearch(s)) {
      assert s in l <==> s in Elems(l);
      DisablesExactly(s);
    }
  }

  lemma DefaultDisablesNothing()
    ensures !DisablesMatchCache(DefaultScenario)
  {
  }
}
