/**
 Concurrent Match calls and mutations (internal/storage/sharded_scenario.go:228-268, 467-683,
 825-856, 912-966). Readers take no lock: they read one shard at a time and re-check the generation,
 which a mutation makes odd while it runs. Mutations are serialised and, between their first and last
 step, may leave the contents in any state at all.
 */
module MatchProtocol {
  import opened Wrappers
  import opened Scenarios
  import opened LinearRegistry
  import opened ShardedIndex
  import opened IndexInvariant
  import opened RegistryRuns
  import opened Refinement
  import opened CacheKeys
  import MatchCache

  /**
   Where a Match call stands. `g` is the generation it started its search from; a finished call has the
   generation its result belongs to, and the one that was current when it returned.
   */
  datatype Phase =
    | Started
    | HaveGeneration(g: nat)
    | HaveFlag(g: nat, enabled: bool)
    | AtCache(g: nat, enabled: bool, seen: nat)
    | AtShard(g: nat, enabled: bool)
    | Scanning(g: nat, enabled: bool, next: nat, met: seq<Scenario>)
    | AtGlobal(g: nat, enabled: bool, found: Option<Scenario>)
    | AtCheck(g: nat, enabled: bool, found: Option<Scenario>)
    | AtStore(g: nat, scenario: Scenario)
    | Storing(g: nat, scenario: Scenario)
    | Done(at: nat, result: Option<Scenario>, ended: nat)

  /** A call, the generation that was current when it began, and its phase. */
  datatype Call = Call(req: Request, began: nat, phase: Phase)

  datatype State = State(
    generation: nat,
    contents: Contents,
    mutation: Option<Op>,
    cache: seq<MatchCache.Entry>,
    calls: map<nat, Call>,
    asked: set<Request>,
    history: seq<Contents>,        // contents at generation 0, 2, 4, ...
    lists: seq<seq<Scenario>>)     // the linear registry's list after the same mutations

  /** The registry's configuration, and its match cache if it has one. */
  datatype Setup = Setup(cfg: Config, cacheOn: bool, cap: nat)

  // ---- steps -------------------------------------------------------------------------------

  ghost predicate Init(su: Setup, st: State) {
    st == State(0, Fresh(su.cfg), None, [], map[], {}, [Fresh(su.cfg)], [[DefaultScenario]])
  }

  /** A committed reload installs a loaded file, so Load, Add and Remove are all the mutations. */
  ghost predicate IsMutation(op: Op) {
    GoodOp(op) && !op.Reload?
  }

  function Target(su: Setup, c: Contents, op: Op): (r: Contents)
    requires |c.shards| == su.cfg.shardCount
    ensures |r.shards| == su.cfg.shardCount
  {
    ShardedStep(su.cfg, ShardedState(c, ""), op).0.contents
  }

  function LinearTarget(su: Setup, l: seq<Scenario>, op: Op): seq<Scenario> {
    LinearStep(su.cfg.matcher, LinearState(l, ""), op).0.scenarios
  }

  ghost predicate Begin(su: Setup, st: State, st': State, op: Op) {
    && st.mutation.None? && IsMutation(op)
    && st' == st.(mutation := Some(op), generation := st.generation + 1)
  }

  /** Any change whatever to the contents, and clearing the cache, while a mutation runs. */
  ghost predicate Write(su: Setup, st: State, st': State, c: Contents, cleared: bool) {
    && st.mutation.Some? && |c.shards| == su.cfg.shardCount
    && st' == st.(contents := c, cache := if cleared then [] else st.cache)
  }

  /** The mutation ends when the contents are what it was to make of them. */
  ghost predicate Commit(su: Setup, st: State, st': State)
    requires |st.history| > 0 && |st.lists| > 0
    requires |st.history[|st.history| - 1].shards| == su.cfg.shardCount
  {
    && st.mutation.Some?
    && st.contents == Target(su, st.history[|st.history| - 1], st.mutation.value)
    && st' == st.(mutation := None, generation := st.generation + 1,
                  history := st.history + [st.contents],
                  lists := st.lists + [LinearTarget(su, st.lists[|st.lists| - 1], st.mutation.value)])
  }

  ghost predicate Begun(su: Setup, st: State, st': State, id: nat, req: Request) {
    && (id in st.calls ==> st.calls[id].phase.Done?)
    && st' == st.(calls := st.calls[id := Call(req, st.generation, Started)], asked := st.asked + {req})
  }

  /** One step of one Match call: the phase it moves to and the cache it leaves. */
  ghost predicate CallStep(su: Setup, st: State, call: Call, phase: Phase, cache: seq<MatchCache.Entry>)
    requires |st.contents.shards| == su.cfg.shardCount
  {
    var req, c := call.req, st.contents;
    match call.phase
    case Started =>
      st.generation % 2 == 0 && phase == HaveGeneration(st.generation) && cache == st.cache
    case HaveGeneration(g) =>
      phase == HaveFlag(g, su.cacheOn && !c.cacheDisabled) && cache == st.cache
    case HaveFlag(g, enabled) =>
      phase == (if enabled then AtCache(g, enabled, st.generation) else AtShard(g, enabled)) && cache == st.cache
    case AtCache(g, enabled, seen) =>
      var (hit, after) := MatchCache.Get(st.cache, CacheKey(req), seen);
      phase == (if hit.Some? then Done(seen, hit, st.generation) else AtShard(g, enabled)) && cache == after
    case AtShard(g, enabled) =>
      var found := IndexSearch(su.cfg, c.shards[ShardFor(su.cfg, req)].index, req);
      phase == (if found.Some? then AtGlobal(g, enabled, found) else Scanning(g, enabled, 0, [])) && cache == st.cache
    case Scanning(g, enabled, next, met) =>
      phase == (if next < su.cfg.shardCount then Scanning(g, enabled, next + 1, met + c.shards[next].scenarios)
                else AtGlobal(g, enabled, ScanUnique(su.cfg, met, req))) && cache == st.cache
    case AtGlobal(g, enabled, found) =>
      phase == AtCheck(g, enabled, Combine(found, GlobalSearch(su.cfg, c.global, req))) && cache == st.cache
    case AtCheck(g, enabled, found) =>
      phase == (if st.generation != g then Started
                else if found.Some? && enabled then AtStore(g, found.value)
                else Done(g, found, st.generation)) && cache == st.cache
    case AtStore(g, s) =>
      phase == (if st.generation == g then Storing(g, s) else Done(g, Some(s), st.generation)) && cache == st.cache
    case Storing(g, s) =>
      phase == Done(g, Some(s), st.generation) && cache == MatchCache.Put(st.cache, CacheKey(req), s, g, su.cap)
    case Done(_, _, _) => false
  }

  ghost predicate Advance(su: Setup, st: State, st': State, id: nat, phase: Phase, cache: seq<MatchCache.Entry>)
    requires |st.contents.shards| == su.cfg.shardCount
  {
    && id in st.calls
    && CallStep(su, st, st.calls[id], phase, cache)
    && st' == st.(calls := st.calls[id := st.calls[id].(phase := phase)], cache := cache)
  }

  ghost predicate Next(su: Setup, st: State, st': State)
    requires Shaped(su, st)
  {
    || (exists op :: Begin(su, st, st', op))
    || (exists c, cleared :: Write(su, st, st', c, cleared))
    || Commit(su, st, st')
    || (exists id, req :: Begun(su, st, st', id, req))
    || (exists id, phase, cache :: Advance(su, st, st', id, phase, cache))
  }

  // ---- the invariant -----------------------------------------------------------------------

  ghost predicate Shaped(su: Setup, st: State) {
    && |st.contents.shards| == su.cfg.shardCount
    && |st.history| == |st.lists| == st.generation / 2 + 1
    && forall i | 0 <= i < |st.history| :: |st.history[i].shards| == su.cfg.shardCount
  }

  /** The contents at stable generation `g`. */
  ghost function At(st: State, g: nat): Contents
    requires g / 2 < |st.history|
  {
    st.history[g / 2]
  }

  ghost predicate Past(st: State, began: nat, g: nat) {
    g % 2 == 0 && began <= g <= st.generation
  }

  /** `r` answers, at stable generation `g`, a request asked under the same cache key. */
  ghost predicate Justified(su: Setup, st: State, req: Request, g: nat, r: Option<Scenario>)
    requires Shaped(su, st) && g <= st.generation
  {
    exists q | q in st.asked ::
      && CacheKey(q) == CacheKey(req)
      && Answer(su.cfg, At(st, g), q) == r
      && (q == req || !At(st, g).cacheDisabled)
  }

  ghost predicate EntryRight(su: Setup, st: State, e: MatchCache.Entry)
    requires Shaped(su, st)
  {
    && e.generation % 2 == 0 && e.generation <= st.generation
    && !At(st, e.generation).cacheDisabled
    && exists q | q in st.asked ::
         CacheKey(q) == e.key && Answer(su.cfg, At(st, e.generation), q) == Some(e.scenario)
  }

  /** A search from `g` knows this much if no mutation has begun since. */
  ghost predicate FlagRight(su: Setup, st: State, g: nat, enabled: bool)
    requires Shaped(su, st) && g <= st.generation
  {
    st.generation == g && enabled ==> !At(st, g).cacheDisabled
  }

  ghost function ShardAnswer(su: Setup, c: Contents, req: Request): Option<Scenario>
    requires |c.shards| == su.cfg.shardCount
  {
    var indexed := IndexSearch(su.cfg, c.shards[ShardFor(su.cfg, req)].index, req);
    if indexed.Some? then indexed else ScanUnique(su.cfg, AllScenarios(c.shards), req)
  }

  ghost predicate CallRight(su: Setup, st: State, call: Call)
    requires Shaped(su, st)
  {
    var req, began := call.req, call.began;
    && began <= st.generation && req in st.asked
    && match call.phase
       case Started => true
       case HaveGeneration(g) => Past(st, began, g)
       case HaveFlag(g, enabled) => Past(st, began, g) && FlagRight(su, st, g, enabled)
       case AtCache(g, enabled, seen) => Past(st, began, g) && FlagRight(su, st, g, enabled) && began <= seen <= st.generation
       case AtShard(g, enabled) => Past(st, began, g) && FlagRight(su, st, g, enabled)
       case Scanning(g, enabled, next, met) =>
         && Past(st, began, g) && FlagRight(su, st, g, enabled)
         && next <= su.cfg.shardCount
         && (st.generation == g ==>
               && met == AllScenarios(At(st, g).shards[..next])
               && IndexSearch(su.cfg, At(st, g).shards[ShardFor(su.cfg, req)].index, req).None?)
       case AtGlobal(g, enabled, found) =>
         && Past(st, began, g) && FlagRight(su, st, g, enabled)
         && (st.generation == g ==> found == ShardAnswer(su, At(st, g), req))
       case AtCheck(g, enabled, found) =>
         && Past(st, began, g) && FlagRight(su, st, g, enabled)
         && (st.generation == g ==> found == Answer(su.cfg, At(st, g), req))
       case AtStore(g, s) =>
         Past(st, began, g) && !At(st, g).cacheDisabled && Answer(su.cfg, At(st, g), req) == Some(s)
       case Storing(g, s) =>
         Past(st, began, g) && !At(st, g).cacheDisabled && Answer(su.cfg, At(st, g), req) == Some(s)
       case Done(at, result, ended) =>
         Past(st, began, at) && at <= ended <= st.generation && Justified(su, st, req, at, result)
  }

  ghost predicate SameScenarios(su: Setup, c: Contents, l: seq<Scenario>, reg: set<Scenario>, implicit: bool) {
    Sim(su.cfg, ShardedState(c, ""), LinearState(l, ""), reg, implicit)
  }

  ghost predicate Committed(su: Setup, c: Contents, l: seq<Scenario>) {
    exists reg, implicit :: SameScenarios(su, c, l, reg, implicit)
  }

  ghost predicate Inv(su: Setup, st: State) {
    && Shaped(su, st)
    && (st.mutation.None? <==> st.generation % 2 == 0)
    && (st.mutation.None? ==> st.contents == At(st, st.generation))
    && (st.mutation.Some? ==> IsMutation(st.mutation.value))
    && (forall e | e in st.cache :: EntryRight(su, st, e))
    && (forall id | id in st.calls :: CallRight(su, st, st.calls[id]))
    && (forall i | 0 <= i < |st.history| :: Committed(su, st.history[i], st.lists[i]))
  }

  // ---- every step keeps it -----------------------------------------------------------------

  lemma InitInv(su: Setup, st: State)
    requires Init(su, st)
    ensures Inv(su, st)
  {
    InitSim(su.cfg);
    assert SameScenarios(su, st.history[0], st.lists[0], {}, true);
  }

  /** What was right stays right when the generation and the history only grow. */
  lemma Monotone(su: Setup, st: State, st': State)
    requires Shaped(su, st) && Shaped(su, st')
    requires st.history <= st'.history && st.asked <= st'.asked && st.generation <= st'.generation
    requires st'.generation == st.generation || st.generation < st'.generation
    ensures forall e | EntryRight(su, st, e) :: EntryRight(su, st', e)
    ensures forall call | CallRight(su, st, call) :: CallRight(su, st', call)
  {
    hide Answer, CacheKey, IndexSearch, ScanUnique, ShardAnswer, AllScenarios;
    forall g: nat | g <= st.generation ensures At(st', g) == At(st, g) {
    }
  }

  lemma MutatorKeeps(su: Setup, st: State, st': State)
    requires Inv(su, st)
    requires (exists op :: Begin(su, st, st', op)) || (exists c, cleared :: Write(su, st, st', c, cleared))
    ensures Inv(su, st')
  {
    hide CallRight, EntryRight, Committed, IsMutation;
    Monotone(su, st, st');
  }

  lemma CommitKeeps(su: Setup, st: State, st': State)
    requires Inv(su, st) && Commit(su, st, st')
    ensures Inv(su, st')
  {
    hide CallRight, EntryRight, ShardedStep, LinearStep, Sim;
    Monotone(su, st, st');
    var c, l, op := st.history[|st.history| - 1], st.lists[|st.lists| - 1], st.mutation.value;
    assert Committed(su, c, l);
    var reg, implicit :| SameScenarios(su, c, l, reg, implicit);
    Step(su.cfg, ShardedState(c, ""), LinearState(l, ""), reg, implicit, op);
    CommittedAfter(su, c, l, op);
    assert Committed(su, st'.history[|st.history|], st'.lists[|st.lists|]);
  }

  lemma CommittedAfter(su: Setup, c: Contents, l: seq<Scenario>, op: Op)
    requires |c.shards| == su.cfg.shardCount
    requires StepsTogether(su.cfg, ShardedState(c, ""), LinearState(l, ""), op)
    ensures Committed(su, Target(su, c, op), LinearTarget(su, l, op))
  {
    hide ShardedStep, LinearStep, Represents;
    var sh, lin := ShardedStep(su.cfg, ShardedState(c, ""), op).0, LinearStep(su.cfg.matcher, LinearState(l, ""), op).0;
    var reg, implicit :| Sim(su.cfg, sh, lin, reg, implicit);
    assert SameScenarios(su, Target(su, c, op), LinearTarget(su, l, op), reg, implicit);
  }

  lemma BegunKeeps(su: Setup, st: State, st': State, id: nat, req: Request)
    requires Inv(su, st) && Begun(su, st, st', id, req)
    ensures Inv(su, st')
  {
    hide EntryRight, Committed, IsMutation, Answer, IndexSearch, ShardAnswer;
    Monotone(su, st, st');
  }

  /** A hit under the current generation is justified by the request that stored it. */
  lemma CacheStepRight(su: Setup, st: State, call: Call, phase: Phase, cache: seq<MatchCache.Entry>)
    requires Inv(su, st) && CallRight(su, st, call) && call.phase.AtCache?
    requires CallStep(su, st, call, phase, cache)
    ensures CallRight(su, st, call.(phase := phase))
    ensures forall e | e in cache :: EntryRight(su, st, e)
  {
    hide Answer, CacheKey, IndexSearch, ShardAnswer, Committed, MatchCache.Get;
    MatchCache.GetOnlyReturnsEntries(st.cache, CacheKey(call.req), call.phase.seen);
    var hit := MatchCache.Get(st.cache, CacheKey(call.req), call.phase.seen).0;
    if hit.Some? {
      assert EntryRight(su, st, MatchCache.Entry(CacheKey(call.req), hit.value, call.phase.seen));
    }
  }

  lemma StoreStepRight(su: Setup, st: State, call: Call, phase: Phase, cache: seq<MatchCache.Entry>)
    requires Inv(su, st) && CallRight(su, st, call) && call.phase.Storing?
    requires CallStep(su, st, call, phase, cache)
    ensures CallRight(su, st, call.(phase := phase))
    ensures forall e | e in cache :: EntryRight(su, st, e)
  {
    hide Answer, CacheKey, IndexSearch, ShardAnswer, Committed, MatchCache.Put;
    var Storing(g, s) := call.phase;
    MatchCache.PutOnlyAddsOne(st.cache, CacheKey(call.req), s, g, su.cap);
    assert EntryRight(su, st, MatchCache.Entry(CacheKey(call.req), s, g));
  }

  lemma ScanStepRight(su: Setup, st: State, call: Call, phase: Phase, cache: seq<MatchCache.Entry>)
    requires Inv(su, st) && CallRight(su, st, call) && (call.phase.AtShard? || call.phase.Scanning?)
    requires CallStep(su, st, call, phase, cache)
    ensures CallRight(su, st, call.(phase := phase))
  {
    hide Answer, CacheKey, IndexSearch, ScanUnique, Committed, EntryRight;
    if call.phase.Scanning? && st.generation == call.phase.g {
      var next, shards := call.phase.next, st.contents.shards;
      if next < su.cfg.shardCount {
        assert shards[..next + 1][..next] == shards[..next];
      } else {
        assert shards[..next] == shards;
      }
    }
  }

  lemma OtherStepRight(su: Setup, st: State, call: Call, phase: Phase, cache: seq<MatchCache.Entry>)
    requires Inv(su, st) && CallRight(su, st, call)
    requires !call.phase.AtCache? && !call.phase.Storing? && !call.phase.AtShard? && !call.phase.Scanning?
    requires !call.phase.AtGlobal?
    requires CallStep(su, st, call, phase, cache)
    ensures CallRight(su, st, call.(phase := phase))
  {
    hide CacheKey, Answer, ShardAnswer, Committed, EntryRight, AllScenarios;
  }

  lemma GlobalStepRight(su: Setup, st: State, call: Call, phase: Phase, cache: seq<MatchCache.Entry>)
    requires Inv(su, st) && CallRight(su, st, call) && call.phase.AtGlobal?
    requires CallStep(su, st, call, phase, cache)
    ensures CallRight(su, st, call.(phase := phase))
  {
    hide CacheKey, IndexSearch, ScanUnique, GlobalSearch, Combine, Committed, EntryRight, AllScenarios;
  }

  lemma CallStepRight(su: Setup, st: State, call: Call, phase: Phase, cache: seq<MatchCache.Entry>)
    requires Inv(su, st) && CallRight(su, st, call) && CallStep(su, st, call, phase, cache)
    ensures CallRight(su, st, call.(phase := phase))
    ensures forall e | e in cache :: EntryRight(su, st, e)
  {
    hide CallRight, EntryRight, Committed;
    if call.phase.AtCache? {
      CacheStepRight(su, st, call, phase, cache);
    } else if call.phase.Storing? {
      StoreStepRight(su, st, call, phase, cache);
    } else if call.phase.AtShard? || call.phase.Scanning? {
      ScanStepRight(su, st, call, phase, cache);
    } else if call.phase.AtGlobal? {
      GlobalStepRight(su, st, call, phase, cache);
    } else {
      OtherStepRight(su, st, call, phase, cache);
    }
  }

  lemma AdvanceKeeps(su: Setup, st: State, st': State, id: nat, phase: Phase, cache: seq<MatchCache.Entry>)
    requires Inv(su, st) && Advance(su, st, st', id, phase, cache)
    ensures Inv(su, st')
  {
    hide CallRight, EntryRight, Committed, CallStep, IsMutation;
    CallStepRight(su, st, st.calls[id], phase, cache);
    Monotone(su, st, st');
  }

  lemma NextKeeps(su: Setup, st: State, st': State)
    requires Inv(su, st) && Next(su, st, st')
    ensures Inv(su, st')
  {
    assert Shaped(su, st);
    hide Inv, Begun, Begin, Write, CallStep, Target, LinearTarget, Committed, CallRight, EntryRight;
    if (exists op :: Begin(su, st, st', op)) || (exists c, cleared :: Write(su, st, st', c, cleared)) {
      MutatorKeeps(su, st, st');
    } else if Commit(su, st, st') {
      CommitKeeps(su, st, st');
    } else if id, req :| Begun(su, st, st', id, req) {
      BegunKeeps(su, st, st', id, req);
    } else {
      var id, phase, cache :| Advance(su, st, st', id, phase, cache);
      AdvanceKeeps(su, st, st', id, phase, cache);
    }
  }

  // ---- every run ---------------------------------------------------------------------------

  ghost predicate Run(su: Setup, b: seq<State>) {
    if |b| <= 1 then |b| == 1 && Init(su, b[0])
    else Run(su, b[..|b| - 1]) && Shaped(su, b[|b| - 2]) && Next(su, b[|b| - 2], b[|b| - 1])
  }

  lemma {:induction false} RunInv(su: Setup, b: seq<State>)
    requires Run(su, b)
    ensures |b| > 0 && Inv(su, b[|b| - 1])
  {
    hide Next, Inv, Shaped, Init;
    if |b| == 1 {
      InitInv(su, b[0]);
    } else {
      RunInv(su, b[..|b| - 1]);
      NextKeeps(su, b[|b| - 2], b[|b| - 1]);
    }
  }

  /**
   Whatever the interleaving, what a finished Match call returns, from the cache or by search, is
   the first match on the linear registry's list at one stable generation that was current between
   the call's begin and its end: provided the contents of that generation are safe, and the caller's
   own request can be told apart by its cache key. A request with an HTTP method or URI and without
   separators always can, whatever else has been asked.
   */
  lemma MatchIsAtomic(su: Setup, b: seq<State>, id: nat)
    requires Run(su, b) && |b| > 0
    requires id in b[|b| - 1].calls && b[|b| - 1].calls[id].phase.Done?
    ensures var st := b[|b| - 1]; var call := st.calls[id]; var g := call.phase.at;
      && g % 2 == 0 && call.began <= g <= call.phase.ended <= st.generation
      && |st.history| == |st.lists| == st.generation / 2 + 1
      && |st.history[g / 2].shards| == su.cfg.shardCount
      && (SafeContents(st.history[g / 2]) && ToldApart(call.req, st.asked) ==>
            call.phase.result == FirstMatch(Hits(su.cfg.matcher, call.req), st.lists[g / 2]))
  {
    hide Run, SafeContents, ToldApart, FirstMatch, Hits, Committed, EntryRight, CacheKey, Answer;
    RunInv(su, b);
    var st := b[|b| - 1];
    var call := st.calls[id];
    var g := call.phase.at;
    assert CallRight(su, st, call);
    if SafeContents(st.history[g / 2]) && ToldApart(call.req, st.asked) {
      assert Committed(su, st.history[g / 2], st.lists[g / 2]);
      JustifiedIsFirstMatch(su, st, call.req, g, call.phase.result);
    }
  }

  lemma JustifiedIsFirstMatch(su: Setup, st: State, req: Request, g: nat, r: Option<Scenario>)
    requires Shaped(su, st) && g <= st.generation && req in st.asked && Justified(su, st, req, g, r)
    requires Committed(su, At(st, g), st.lists[g / 2])
    requires SafeContents(At(st, g)) && ToldApart(req, st.asked)
    ensures r == FirstMatch(Hits(su.cfg.matcher, req), st.lists[g / 2])
  {
    hide SafeContents, ToldApart, FirstMatch, Hits, CacheKey, Answer, ShardRepresents, GlobalRepresents, IsBest,
         Outranks, DisablesMatchCache;
    var c, l := At(st, g), st.lists[g / 2];
    var reg, implicit :| SameScenarios(su, c, l, reg, implicit);
    var q :| q in st.asked && CacheKey(q) == CacheKey(req) && Answer(su.cfg, c, q) == r && (q == req || !c.cacheDisabled);
    if q != req {
      SharedKeySharedAnswer(su.cfg, c, reg, implicit, st.asked, req, q);
    }
    AnswerIsBest(su.cfg, c, reg, implicit, req);
    FirstMatchIsBest(Hits(su.cfg.matcher, req), l);
    BestIsUnique(Hits(su.cfg.matcher, req), Full(reg, implicit), Answer(su.cfg, c, req), FirstMatch(Hits(su.cfg.matcher, req), l));
  }
}
