/**
 Runs of Load, Add, Remove and Reload on both registries. Whatever the sequence, the sharded
 contents represent exactly the scenarios on the linear list, and both report the same errors.
 */
module RegistryRuns {
  import opened Wrappers
  import opened Scenarios
  import opened LinearRegistry
  import opened ShardedIndex
  import opened IndexInvariant

  datatype Op =
    | Load(path: string, file: ScenarioFile)
    | Add(scenario: Option<Scenario>)
    | Remove(name: string)
    | Reload(file: ScenarioFile)

  datatype LinearState = LinearState(scenarios: seq<Scenario>, filePath: string)

  datatype ShardedState = ShardedState(contents: Contents, filePath: string)

  /** The error of a call; None is a nil error. */
  type Outcome = Option<RegistryError>

  function LinearStep(m: Matcher, st: LinearState, op: Op): (LinearState, Outcome) {
    match op
    case Load(path, file) =>
      (match LoadList(m, file)
       case None => (st, Some(LoadFailed))
       case Some(l) => (LinearState(l, path), None))
    case Add(None) => (st, Some(NilScenario))
    case Add(Some(s)) =>
      if !Validates(m, s) then (st, Some(Invalid(s.name)))
      else (st.(scenarios := AddTo(st.scenarios, s)), None)
    case Remove(name) =>
      if HasName(st.scenarios, name) then (st.(scenarios := RemoveFirst(st.scenarios, name)), None)
      else (st, Some(NoMatch))
    case Reload(file) =>
      if st.filePath == "" then (st, None)
      else match LoadList(m, file)
        case None => (st, Some(LoadFailed))
        case Some(l) => if TopologyAllows(st.scenarios, l) then (st.(scenarios := l), None) else (st, Some(TopologyChange))
  }

  function ShardedStep(cfg: Config, st: ShardedState, op: Op): (r: (ShardedState, Outcome))
    requires |st.contents.shards| == cfg.shardCount
    ensures |r.0.contents.shards| == cfg.shardCount
  {
    match op
    case Load(path, file) =>
      (match LoadList(cfg.matcher, file)
       case None => (st, Some(LoadFailed))
       case Some(l) => (ShardedState(Loaded(cfg, l), path), None))
    case Add(None) => (st, Some(NilScenario))
    case Add(Some(s)) =>
      if !Validates(cfg.matcher, s) then (st, Some(Invalid(s.name)))
      else (st.(contents := Added(cfg, st.contents, s)), None)
    case Remove(name) =>
      if Holds(st.contents, name) then (st.(contents := RemoveFrom(st.contents, name)), None)
      else (st, Some(NoMatch))
    case Reload(file) =>
      if st.filePath == "" then (st, None)
      else match LoadList(cfg.matcher, file)
        case None => (st, Some(LoadFailed))
        case Some(l) =>
          var next := Loaded(cfg, l);
          if TopologyAllows(ListOf(st.contents), ListOf(next)) then (st.(contents := next), None)
          else (st, Some(TopologyChange))
  }

  const LinearInit := LinearState([DefaultScenario], "")

  function ShardedInit(cfg: Config): ShardedState {
    ShardedState(Fresh(cfg), "")
  }

  function RunLinear(m: Matcher, ops: seq<Op>): (LinearState, seq<Outcome>) {
    if ops == [] then (LinearInit, [])
    else
      var (st, outs) := RunLinear(m, ops[..|ops| - 1]);
      var (st', out) := LinearStep(m, st, ops[|ops| - 1]);
      (st', outs + [out])
  }

  function RunSharded(cfg: Config, ops: seq<Op>): (r: (ShardedState, seq<Outcome>))
    ensures |r.0.contents.shards| == cfg.shardCount
  {
    if ops == [] then (ShardedInit(cfg), [])
    else
      var (st, outs) := RunSharded(cfg, ops[..|ops| - 1]);
      var (st', out) := ShardedStep(cfg, st, ops[|ops| - 1]);
      (st', outs + [out])
  }

  /** A file whose scenario names are distinct, or a file that fails to load. */
  ghost predicate GoodFile(file: ScenarioFile) {
    file.Some? ==> DistinctNames(file.value) && forall s | s in file.value :: WellFormed(s)
  }

  ghost predicate GoodOp(op: Op) {
    match op
    case Load(_, file) => GoodFile(file)
    case Reload(file) => GoodFile(file)
    case Add(s) => s.Some? ==> WellFormed(s.value)
    case Remove(_) => true
  }

  ghost predicate GoodOps(ops: seq<Op>) {
    forall op | op in ops :: GoodOp(op)
  }

  /** The sharded contents and the linear list register the same scenarios. */
  ghost predicate Sim(cfg: Config, sh: ShardedState, lin: LinearState, reg: set<Scenario>, implicit: bool) {
    && Represents(cfg, sh.contents, reg, implicit)
    && Elems(lin.scenarios) == Full(reg, implicit)
    && Ranked(lin.scenarios)
    && DistinctNames(lin.scenarios)
    && sh.filePath == lin.filePath
  }

  // ---- one operation -----------------------------------------------------------------------

  lemma InitSim(cfg: Config)
    ensures Sim(cfg, ShardedInit(cfg), LinearInit, {}, true)
  {
    assert !exists s: Scenario | s in {} :: DisablesMatchCache(s);
  }

  lemma LoadListGood(m: Matcher, file: ScenarioFile)
    requires GoodFile(file) && LoadList(m, file).Some?
    ensures var l := LoadList(m, file).value;
      Ranked(l) && DistinctNames(l) && GoodSet(Elems(l), false)
  {
    var raw := WithDefault(file.value);
    var numbered := Numbered(raw);
    var l := SortByRank(numbered);
    SortRanks(numbered);
    SameMultisetSameElems(l, numbered);
    assert DistinctNames(numbered);
    DistinctNamesByMultiset(numbered, l);
    NumberedIsGood(raw);
    assert Full(Elems(l), false) == Elems(numbered);
  }

  lemma NumberedIsGood(raw: seq<Scenario>)
    requires DistinctNames(raw) && forall s | s in raw :: WellFormed(s)
    ensures NamesUnique(Elems(Numbered(raw))) && OrdersDistinct(Elems(Numbered(raw)))
    ensures forall s | s in Numbered(raw) :: WellFormed(s)
  {
    var numbered := Numbered(raw);
    forall a, b | a in Elems(numbered) && b in Elems(numbered) && (a.name == b.name || a.order == b.order)
      ensures a == b
    {
      var i :| 0 <= i < |numbered| && numbered[i] == a;
      var j :| 0 <= j < |numbered| && numbered[j] == b;
    }
    forall s | s in numbered ensures WellFormed(s) {
      var i :| 0 <= i < |numbered| && numbered[i] == s;
      assert WellFormed(raw[i]);
    }
  }

  /** Load makes the sharded registry represent exactly the list the linear one holds. */
  lemma LoadedRepresents(cfg: Config, l: seq<Scenario>)
    requires DistinctNames(l) && GoodSet(Elems(l), false)
    ensures Represents(cfg, Loaded(cfg, l), Elems(l), false)
  {
    PlaceAllRepresents(cfg, AnyDisables(l), l);
    assert AnyDisables(l) <==> exists s | s in Elems(l) :: DisablesMatchCache(s) by {
      if s :| s in l && DisablesMatchCache(s) {
        assert s in Elems(l);
      }
    }
  }

  /** The order an added scenario takes clashes with nobody who stays. */
  lemma OrderForAddIsFree(l: seq<Scenario>, name: string)
    requires NamesUnique(Elems(l)) && OrdersDistinct(Elems(l))
    ensures forall s | s in l && s.name != name :: s.order != OrderForAdd(l, name)
  {
    if p :| p in l && p.name == name {
      var q :| q in l && q.name == name && q.order == OrderForAdd(l, name);
      assert q in Elems(l);
      assert forall s | s in l :: s in Elems(l);
    }
  }

  lemma FullAfterAdd(reg: set<Scenario>, implicit: bool, s: Scenario)
    ensures Full(Without(reg, s.name) + {s}, implicit && s.name != DEFAULT_NAME) == Without(Full(reg, implicit), s.name) + {s}
  {
  }

  lemma GoodSetAfterAdd(reg: set<Scenario>, implicit: bool, l: seq<Scenario>, s: Scenario)
    requires GoodSet(reg, implicit) && Elems(l) == Full(reg, implicit) && WellFormed(s)
    ensures var s' := s.(order := OrderForAdd(l, s.name));
      GoodSet(Without(reg, s.name) + {s'}, implicit && s.name != DEFAULT_NAME)
  {
    hide WellFormed, OrderForAdd, Full;
    OrderForAddIsFree(l, s.name);
    var s' := s.(order := OrderForAdd(l, s.name));
    FullAfterAdd(reg, implicit, s');
    forall x | x in Without(Full(reg, implicit), s.name) ensures x.name != s'.name && x.order != s'.order {
      assert x in Elems(l);
    }
    WellFormedIgnoresOrder(s, s'.order);
  }

  lemma WellFormedIgnoresOrder(s: Scenario, order: nat)
    requires WellFormed(s)
    ensures WellFormed(s.(order := order))
  {
  }

  lemma AddedRepresents(cfg: Config, c: Contents, reg: set<Scenario>, implicit: bool, s: Scenario)
    requires Represents(cfg, c, reg, implicit) && WellFormed(s)
    ensures var s' := s.(order := OrderForAdd(ListOf(c), s.name));
      Represents(cfg, Added(cfg, c, s), Without(reg, s.name) + {s'}, implicit && s.name != DEFAULT_NAME)
  {
    hide ShardRepresents, GlobalRepresents, ListOf, OrderForAdd, GoodSet, Removed, Place, DisablesMatchCache, WellFormed;
    ListIsFull(cfg, c, reg, implicit);
    assert GoodSet(reg, implicit);
    GoodSetAfterAdd(reg, implicit, ListOf(c), s);
    RemovedRepresents(cfg, c, reg, implicit, s.name);
    var s' := s.(order := OrderForAdd(ListOf(c), s.name));
    PlaceRepresents(cfg, Removed(c, s.name), Without(reg, s.name), implicit && s.name != DEFAULT_NAME, s');
    PlaceKeepsFlag(cfg, Removed(c, s.name), s');
  }

  lemma PlaceKeepsFlag(cfg: Config, c: Contents, s: Scenario)
    requires |c.shards| == cfg.shardCount
    ensures Place(cfg, c, s).cacheDisabled == c.cacheDisabled
  {
  }

  lemma AddToElems(l: seq<Scenario>, s: Scenario)
    requires DistinctNames(l)
    ensures var s' := s.(order := OrderForAdd(l, s.name));
      Elems(AddTo(l, s)) == Without(Elems(l), s.name) + {s'}
    ensures Ranked(AddTo(l, s)) && DistinctNames(AddTo(l, s))
  {
    var s' := s.(order := OrderForAdd(l, s.name));
    RemoveFirstElems(l, s.name);
    var unsorted := RemoveFirst(l, s.name) + [s'];
    assert Elems(unsorted) == Elems(RemoveFirst(l, s.name)) + {s'};
    forall x | x in RemoveFirst(l, s.name) ensures x.name != s'.name {
      assert x in Elems(RemoveFirst(l, s.name));
    }
    assert DistinctNames(unsorted);
    SortRanks(unsorted);
    SameMultisetSameElems(AddTo(l, s), unsorted);
    DistinctNamesByMultiset(unsorted, AddTo(l, s));
  }

  ghost predicate StepsTogether(cfg: Config, sh: ShardedState, lin: LinearState, op: Op)
    requires |sh.contents.shards| == cfg.shardCount
  {
    && ShardedStep(cfg, sh, op).1 == LinearStep(cfg.matcher, lin, op).1
    && exists reg, implicit :: Sim(cfg, ShardedStep(cfg, sh, op).0, LinearStep(cfg.matcher, lin, op).0, reg, implicit)
  }

  lemma AddedSim(cfg: Config, sh: ShardedState, lin: LinearState, reg: set<Scenario>, implicit: bool, s: Scenario)
    requires Sim(cfg, sh, lin, reg, implicit) && WellFormed(s)
    ensures var s' := s.(order := OrderForAdd(lin.scenarios, s.name));
      Sim(cfg, sh.(contents := Added(cfg, sh.contents, s)), lin.(scenarios := AddTo(lin.scenarios, s)),
          Without(reg, s.name) + {s'}, implicit && s.name != DEFAULT_NAME)
  {
    hide ShardRepresents, GlobalRepresents, ListOf, OrderForAdd, Added, AddTo, WellFormed, Ranked, DistinctNames,
         Elems, Full, Without, GoodSet, NamesUnique, OrdersDistinct, DisablesMatchCache, Represents;
    var l := lin.scenarios;
    RepresentsGood(cfg, sh.contents, reg, implicit);
    ListIsFull(cfg, sh.contents, reg, implicit);
    OrderForAddBySet(ListOf(sh.contents), l, s.name);
    AddedRepresents(cfg, sh.contents, reg, implicit, s);
    AddToElems(l, s);
    FullAfterAdd(reg, implicit, s.(order := OrderForAdd(l, s.name)));
  }

  lemma RepresentsGood(cfg: Config, c: Contents, reg: set<Scenario>, implicit: bool)
    requires Represents(cfg, c, reg, implicit)
    ensures GoodSet(reg, implicit) && NamesUnique(Full(reg, implicit))
  {
  }

  lemma ShardedAddStep(cfg: Config, sh: ShardedState, s: Scenario)
    requires |sh.contents.shards| == cfg.shardCount
    ensures ShardedStep(cfg, sh, Add(Some(s))) ==
      if Validates(cfg.matcher, s) then (sh.(contents := Added(cfg, sh.contents, s)), None)
      else (sh, Some(Invalid(s.name)))
  {
    hide Added, Validates, LoadList, Loaded, Holds, RemoveFrom, TopologyAllows, ListOf;
  }

  lemma LinearAddStep(m: Matcher, lin: LinearState, s: Scenario)
    ensures LinearStep(m, lin, Add(Some(s))) ==
      if Validates(m, s) then (lin.(scenarios := AddTo(lin.scenarios, s)), None) else (lin, Some(Invalid(s.name)))
  {
  }

  lemma Together(cfg: Config, sh: ShardedState, lin: LinearState, op: Op, reg: set<Scenario>, implicit: bool)
    requires |sh.contents.shards| == cfg.shardCount
    requires ShardedStep(cfg, sh, op).1 == LinearStep(cfg.matcher, lin, op).1
    requires Sim(cfg, ShardedStep(cfg, sh, op).0, LinearStep(cfg.matcher, lin, op).0, reg, implicit)
    ensures StepsTogether(cfg, sh, lin, op)
  {
    hide Sim, ShardedStep, LinearStep;
  }

  lemma AddStep(cfg: Config, sh: ShardedState, lin: LinearState, reg: set<Scenario>, implicit: bool, s: Scenario)
    requires Sim(cfg, sh, lin, reg, implicit) && WellFormed(s)
    ensures StepsTogether(cfg, sh, lin, Add(Some(s)))
  {
    assert |sh.contents.shards| == cfg.shardCount;
    hide *;
    ShardedAddStep(cfg, sh, s);
    LinearAddStep(cfg.matcher, lin, s);
    if Validates(cfg.matcher, s) {
      AddedSim(cfg, sh, lin, reg, implicit, s);
      var s' := s.(order := OrderForAdd(lin.scenarios, s.name));
      Together(cfg, sh, lin, Add(Some(s)), Without(reg, s.name) + {s'}, implicit && s.name != DEFAULT_NAME);
    } else {
      Together(cfg, sh, lin, Add(Some(s)), reg, implicit);
    }
  }

  lemma RemoveStep(cfg: Config, sh: ShardedState, lin: LinearState, reg: set<Scenario>, implicit: bool, name: string)
    requires Sim(cfg, sh, lin, reg, implicit)
    ensures StepsTogether(cfg, sh, lin, Remove(name))
  {
    hide ShardRepresents, GlobalRepresents, Holds, RemoveFrom, GoodSet, DisablesMatchCache, Outranks;
    RemovedRepresents(cfg, sh.contents, reg, implicit, name);
    assert HasName(lin.scenarios, name) <==> exists s | s in Full(reg, implicit) :: s.name == name by {
      if s :| s in lin.scenarios && s.name == name {
        assert s in Elems(lin.scenarios);
      }
      if s :| s in Full(reg, implicit) && s.name == name {
        assert s in Elems(lin.scenarios);
      }
    }
    RemoveFirstElems(lin.scenarios, name);
    RemoveFirstKeepsRank(lin.scenarios, name);
    var reg', implicit' := Without(reg, name), implicit && name != DEFAULT_NAME;
    if Holds(sh.contents, name) {
      assert Full(reg', implicit') == Elems(RemoveFirst(lin.scenarios, name)) by {
        forall s ensures s in Full(reg', implicit') <==> s in Elems(RemoveFirst(lin.scenarios, name)) {
          assert s in Elems(lin.scenarios) <==> s in Full(reg, implicit);
        }
      }
      assert Sim(cfg, ShardedStep(cfg, sh, Remove(name)).0, LinearStep(cfg.matcher, lin, Remove(name)).0, reg', implicit');
    } else {
      assert Sim(cfg, ShardedStep(cfg, sh, Remove(name)).0, LinearStep(cfg.matcher, lin, Remove(name)).0, reg, implicit);
    }
  }

  lemma {:induction false} RemoveFirstKeepsRank(l: seq<Scenario>, name: string)
    requires Ranked(l)
    ensures Ranked(RemoveFirst(l, name))
    ensures forall s | s in RemoveFirst(l, name) :: s in l
  {
    if l != [] {
      assert l == [l[0]] + l[1..];
      RemoveFirstKeepsRank(l[1..], name);
      if l[0].name != name {
        var rest := RemoveFirst(l[1..], name);
        forall j | 0 <= j < |rest| ensures !Outranks(rest[j], l[0]) {
          assert rest[j] in l[1..];
        }
      }
    }
  }

  lemma LoadStep(cfg: Config, sh: ShardedState, lin: LinearState, reg: set<Scenario>, implicit: bool, op: Op)
    requires Sim(cfg, sh, lin, reg, implicit)
    requires op.Load? || op.Reload?
    requires GoodOp(op)
    ensures StepsTogether(cfg, sh, lin, op)
  {
    hide ShardRepresents, GlobalRepresents, ListOf, Loaded, GoodSet, GoodFile, DisablesMatchCache, Outranks, Topology,
         HasExactRoutes, LoadList;
    var loaded := LoadList(cfg.matcher, op.file);
    if loaded.Some? && (op.Load? || lin.filePath != "") {
      var l := loaded.value;
      LoadListGood(cfg.matcher, op.file);
      LoadedRepresents(cfg, l);
      ListIsFull(cfg, sh.contents, reg, implicit);
      ListIsFull(cfg, Loaded(cfg, l), Elems(l), false);
      TopologyBySet(ListOf(sh.contents), lin.scenarios);
      assert Full(Elems(l), false) == Elems(l);
      TopologyBySet(ListOf(Loaded(cfg, l)), l);
      if op.Load? || TopologyAllows(lin.scenarios, l) {
        assert Sim(cfg, ShardedStep(cfg, sh, op).0, LinearStep(cfg.matcher, lin, op).0, Elems(l), false);
      } else {
        assert Sim(cfg, ShardedStep(cfg, sh, op).0, LinearStep(cfg.matcher, lin, op).0, reg, implicit);
      }
    } else {
      assert Sim(cfg, ShardedStep(cfg, sh, op).0, LinearStep(cfg.matcher, lin, op).0, reg, implicit);
    }
  }

  /** One operation keeps the two registries together. */
  lemma Step(cfg: Config, sh: ShardedState, lin: LinearState, reg: set<Scenario>, implicit: bool, op: Op)
    requires Sim(cfg, sh, lin, reg, implicit) && GoodOp(op)
    ensures StepsTogether(cfg, sh, lin, op)
  {
    match op
    case Load(_, _) => LoadStep(cfg, sh, lin, reg, implicit, op);
    case Reload(_) => LoadStep(cfg, sh, lin, reg, implicit, op);
    case Remove(name) => RemoveStep(cfg, sh, lin, reg, implicit, name);
    case Add(Some(s)) => AddStep(cfg, sh, lin, reg, implicit, s);
    case Add(None) =>
      assert Sim(cfg, ShardedStep(cfg, sh, op).0, LinearStep(cfg.matcher, lin, op).0, reg, implicit);
  }

  /** After any run the registries hold the same scenarios and have reported the same errors. */
  lemma {:induction false} RunsAgree(cfg: Config, ops: seq<Op>) returns (reg: set<Scenario>, implicit: bool)
    requires GoodOps(ops)
    ensures Sim(cfg, RunSharded(cfg, ops).0, RunLinear(cfg.matcher, ops).0, reg, implicit)
    ensures RunSharded(cfg, ops).1 == RunLinear(cfg.matcher, ops).1
  {
    hide Sim, ShardedStep, LinearStep, GoodOp;
    if ops == [] {
      InitSim(cfg);
      reg, implicit := {}, true;
    } else {
      var init, last := ops[..|ops| - 1], ops[|ops| - 1];
      reg, implicit := RunsAgree(cfg, init);
      Step(cfg, RunSharded(cfg, init).0, RunLinear(cfg.matcher, init).0, reg, implicit, last);
      reg, implicit :| Sim(cfg, RunSharded(cfg, ops).0, RunLinear(cfg.matcher, ops).0, reg, implicit);
    }
  }
}
