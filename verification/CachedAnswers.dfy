/**
 Match through the cache of a stable registry (internal/storage/sharded_scenario.go:467-569), over any
 sequence of requests: when the cached answer is the right one, and which one is given when it is not.
 */
module CachedAnswers {
  import opened Wrappers
  import opened Scenarios
  import opened LinearRegistry
  import opened ShardedIndex
  import opened IndexInvariant
  import opened RegistryRuns
  import opened Refinement
  import opened CacheKeys
  import MatchCache

  /** One Match while no mutation runs: the scenario returned and the entries left. */
  function MatchOnce(cfg: Config, c: Contents, cap: nat, generation: nat, entries: seq<MatchCache.Entry>, req: Request)
    : (Scenario, seq<MatchCache.Entry>)
    requires |c.shards| == cfg.shardCount
  {
    if c.cacheDisabled then (OrDefault(Answer(cfg, c, req)), entries)
    else
      var (hit, after) := MatchCache.Get(entries, CacheKey(req), generation);
      if hit.Some? then (hit.value, after)
      else
        match Answer(cfg, c, req)
        case Some(s) => (s, MatchCache.Put(after, CacheKey(req), s, generation, cap))
        case None => (DefaultScenario, after)
  }

  /** The entries after serving these requests from an empty cache. */
  function Warmed(cfg: Config, c: Contents, cap: nat, generation: nat, served: seq<Request>): seq<MatchCache.Entry>
    requires |c.shards| == cfg.shardCount
  {
    if served == [] then []
    else MatchOnce(cfg, c, cap, generation, Warmed(cfg, c, cap, generation, served[..|served| - 1]), served[|served| - 1]).1
  }

  ghost predicate AnsweredRightly(cfg: Config, c: Contents, cap: nat, generation: nat, served: seq<Request>, req: Request)
    requires |c.shards| == cfg.shardCount
  {
    MatchOnce(cfg, c, cap, generation, Warmed(cfg, c, cap, generation, served), req).0 == OrDefault(Answer(cfg, c, req))
  }

  // ---- right answers -----------------------------------------------------------------------

  /** Every entry is the answer to a request served under its key. */
  ghost predicate EntriesRight(cfg: Config, c: Contents, entries: seq<MatchCache.Entry>, served: set<Request>)
    requires |c.shards| == cfg.shardCount
  {
    forall e | e in entries :: exists q | q in served :: CacheKey(q) == e.key && Answer(cfg, c, q) == Some(e.scenario)
  }

  lemma {:induction false} WarmedIsRight(cfg: Config, c: Contents, cap: nat, generation: nat, served: seq<Request>)
    requires |c.shards| == cfg.shardCount
    ensures EntriesRight(cfg, c, Warmed(cfg, c, cap, generation, served), Elems(served))
  {
    hide Answer, CacheKey, MatchCache.Get, MatchCache.Put;
    if served != [] && !c.cacheDisabled {
      var before, req := served[..|served| - 1], served[|served| - 1];
      WarmedIsRight(cfg, c, cap, generation, before);
      var entries := Warmed(cfg, c, cap, generation, before);
      assert served == before + [req] && Elems(served) == Elems(before) + {req};
      MatchCache.GetOnlyReturnsEntries(entries, CacheKey(req), generation);
      var after := MatchCache.Get(entries, CacheKey(req), generation).1;
      if Answer(cfg, c, req).Some? {
        MatchCache.PutOnlyAddsOne(after, CacheKey(req), Answer(cfg, c, req).value, generation, cap);
      }
    } else if served != [] {
      var before := served[..|served| - 1];
      WarmedIsRight(cfg, c, cap, generation, before);
      assert served == before + [served[|served| - 1]];
    }
  }

  /** Whatever was served before, a request told apart from it is answered rightly. */
  lemma ToldApartIsAnsweredRightly(cfg: Config, c: Contents, reg: set<Scenario>, implicit: bool, cap: nat, generation: nat,
                                   served: seq<Request>, req: Request)
    requires |c.shards| == cfg.shardCount && Represents(cfg, c, reg, implicit) && ToldApart(req, Elems(served))
    ensures AnsweredRightly(cfg, c, cap, generation, served, req)
  {
    hide Answer, CacheKey, MatchCache.Get, MatchCache.Put, Represents, ToldApart, Warmed;
    WarmedIsRight(cfg, c, cap, generation, served);
    var entries := Warmed(cfg, c, cap, generation, served);
    MatchCache.GetOnlyReturnsEntries(entries, CacheKey(req), generation);
    var hit := MatchCache.Get(entries, CacheKey(req), generation).0;
    if !c.cacheDisabled && hit.Some? {
      var e := MatchCache.Entry(CacheKey(req), hit.value, generation);
      assert e in entries;
      var q :| q in Elems(served) && CacheKey(q) == e.key && Answer(cfg, c, q) == Some(e.scenario);
      SharedKeySharedAnswer(cfg, c, reg, implicit, Elems(served), req, q);
    }
  }

  // ---- wrong answers -----------------------------------------------------------------------

  /** Scenarios that read one thing only: the method, the HTTP method, or the HTTP URI. */
  datatype Probe = ByVerb(text: string) | ByHttpVerb(text: string) | ByHttpUri(text: string)

  function ProbeRule(p: Probe): MatchRule {
    match p
    case ByVerb(v) => AnyRule.(methods := [v])
    case ByHttpVerb(v) => AnyRule.(httpMethod := v)
    case ByHttpUri(u) => AnyRule.(httpURL := u)
  }

  function ProbeScenario(p: Probe): Scenario {
    Scenario("probe", ProbeRule(p), [], 10, 0)
  }

  const LoadedDefault := DefaultScenario.(order := 1)

  /** The contents after loading a file of one such scenario: it and the default are both global. */
  function ProbeContents(cfg: Config, p: Probe): (c: Contents)
    ensures |c.shards| == cfg.shardCount
  {
    Loaded(cfg, [ProbeScenario(p), LoadedDefault])
  }

  ghost function ProbeSet(p: Probe): set<Scenario> {
    {ProbeScenario(p), LoadedDefault}
  }

  lemma ProbeIsPlain(p: Probe)
    ensures var s := ProbeScenario(p);
      && !DisablesMatchCache(s) && IsGlobal(s) && WellFormed(s) && Outranks(s, LoadedDefault)
      && s.name == "probe" && s.order == 0
  {
  }

  lemma ProbePair(p: Probe)
    ensures var l := [ProbeScenario(p), LoadedDefault];
      && DistinctNames(l) && Elems(l) == ProbeSet(p) && GoodSet(ProbeSet(p), false)
      && Full(ProbeSet(p), false) == ProbeSet(p) && !AnyDisables(l)
  {
    ProbeIsPlain(p);
    hide ProbeRule, DisablesMatchCache;
    assert !DisablesMatchCache(LoadedDefault) by { PlainDefault(); }
    assert WellFormed(LoadedDefault);
    var l := [ProbeScenario(p), LoadedDefault];
    assert Elems(l) == ProbeSet(p);
    assert Full(ProbeSet(p), false) == ProbeSet(p);
  }

  lemma PlainDefault()
    ensures !DisablesMatchCache(LoadedDefault) && IsGlobal(LoadedDefault)
  {
  }

  lemma ProbeRepresents(cfg: Config, p: Probe)
    ensures var c := ProbeContents(cfg, p);
      Represents(cfg, c, ProbeSet(p), false) && !c.cacheDisabled && SafeContents(c)
  {
    ProbePair(p);
    ProbeIsPlain(p);
    PlainDefault();
    var l := [ProbeScenario(p), LoadedDefault];
    LoadedRepresents(cfg, l);
    PlaceAllRepresents(cfg, AnyDisables(l), l);
    hide Loaded, ShardRepresents, GlobalRepresents, GoodSet, DisablesMatchCache, IsGlobal, ProbeScenario, AnyDisables, Full;
    var c := ProbeContents(cfg, p);
    ShardsHold(cfg, c, ProbeSet(p), false);
    assert Elems(AllScenarios(c.shards)) == {};
    assert forall s | s in AllScenarios(c.shards) :: s in Elems(AllScenarios(c.shards));
  }

  /** The probe is the answer where it matches, and the default where it does not. */
  lemma ProbeAnswer(cfg: Config, p: Probe, req: Request)
    ensures Answer(cfg, ProbeContents(cfg, p), req) ==
            Some(if MatchesScenario(cfg.matcher, ProbeScenario(p), req) then ProbeScenario(p) else LoadedDefault)
  {
    ProbeRepresents(cfg, p);
    ProbeIsPlain(p);
    ProbePair(p);
    DefaultMatchesAll(cfg.matcher, req);
    hide Answer, Represents, SafeContents, ProbeContents, ProbeScenario, MatchesScenario, Outranks, GoodSet;
    AnswerIsBest(cfg, ProbeContents(cfg, p), ProbeSet(p), false, req);
  }

  lemma DefaultMatchesAll(m: Matcher, req: Request)
    ensures MatchesScenario(m, LoadedDefault, req)
  {
  }

  /** A request served first answers for one of the same key that should have had another answer. */
  lemma ServedFirstWins(cfg: Config, p: Probe, cap: nat, generation: nat, q: Request, r: Request)
    requires cap > 0 && CacheKey(q) == CacheKey(r)
    requires MatchesScenario(cfg.matcher, ProbeScenario(p), q) != MatchesScenario(cfg.matcher, ProbeScenario(p), r)
    ensures !AnsweredRightly(cfg, ProbeContents(cfg, p), cap, generation, [q], r)
  {
    ProbeRepresents(cfg, p);
    ProbeAnswer(cfg, p, q);
    ProbeAnswer(cfg, p, r);
    hide Represents, SafeContents, MatchesScenario;
    assert ProbeScenario(p) != LoadedDefault;
    hide ProbeScenario, ProbeContents;
    FirstEntryAnswers(cfg, ProbeContents(cfg, p), cap, generation, q, r);
  }

  /** After one request, the next one of the same key gets the same answer. */
  lemma FirstEntryAnswers(cfg: Config, c: Contents, cap: nat, generation: nat, q: Request, r: Request)
    requires |c.shards| == cfg.shardCount && !c.cacheDisabled && cap > 0 && CacheKey(q) == CacheKey(r)
    requires Answer(cfg, c, q).Some?
    ensures MatchOnce(cfg, c, cap, generation, Warmed(cfg, c, cap, generation, [q]), r).0 == Answer(cfg, c, q).value
  {
    hide Answer, CacheKey;
    assert [q][..0] == [];
    assert Warmed(cfg, c, cap, generation, [q][..0]) == [];
    var s := Answer(cfg, c, q).value;
    assert Warmed(cfg, c, cap, generation, [q]) == MatchCache.Put([], CacheKey(q), s, generation, cap);
    assert MatchCache.Put([], CacheKey(q), s, generation, cap) == [MatchCache.Entry(CacheKey(q), s, generation)];
  }

  /** The regular expression of any URI, which matches the empty one too. */
  const ANY_URL := "re:.*"

  lemma VerbProbe(m: Matcher, v: string, req: Request)
    ensures MatchesScenario(m, ProbeScenario(ByVerb(v)), req) <==> req.verb == v
  {
  }

  lemma HttpVerbProbe(m: Matcher, v: string, req: Request)
    requires v != ""
    ensures MatchesScenario(m, ProbeScenario(ByHttpVerb(v)), req) <==> HttpVerb(req) == v
  {
  }

  lemma HttpProbe(m: Matcher, req: Request)
    requires m.url(ANY_URL, "") && !HttpNamed(req)
    ensures MatchesScenario(m, ProbeScenario(ByHttpUri(ANY_URL)), req) <==> req.httpRequest.Some?
  {
    assert ANY_URL[..3] == "re:";
  }

  /** For every request that is not identifying there are contents, and a request served first, that spoil its answer. */
  lemma UnidentifiedIsAnsweredWrongly(cfg: Config, cap: nat, generation: nat, r: Request) returns (p: Probe, q: Request)
    requires !Identifying(r) && cap > 0 && cfg.matcher.url(ANY_URL, "")
    ensures CacheKey(q) == CacheKey(r)
    ensures !AnsweredRightly(cfg, ProbeContents(cfg, p), cap, generation, [q], r)
  {
    hide MatchesScenario, CacheKey, NoPipes, AnsweredRightly, ProbeScenario;
    if !NoPipes(r) {
      q := PipeCollides(r);
      if q.verb != r.verb {
        p := ByVerb(r.verb);
        VerbProbe(cfg.matcher, r.verb, q);
        VerbProbe(cfg.matcher, r.verb, r);
      } else {
        var v := if HttpVerb(r) != "" then HttpVerb(r) else HttpVerb(q);
        p := ByHttpVerb(v);
        HttpVerbProbe(cfg.matcher, v, q);
        HttpVerbProbe(cfg.matcher, v, r);
      }
    } else {
      q := HttpToggled(r);
      EmptyHttpCollides(r);
      p := ByHttpUri(ANY_URL);
      HttpProbe(cfg.matcher, q);
      HttpProbe(cfg.matcher, r);
    }
    ServedFirstWins(cfg, p, cap, generation, q, r);
  }

  /** Right on every registry that represents some scenarios, whatever was served before. */
  ghost predicate AlwaysAnsweredRightly(cfg: Config, req: Request) {
    forall c: Contents, reg, implicit, cap: nat, generation: nat, served
      | |c.shards| == cfg.shardCount && Represents(cfg, c, reg, implicit) ::
      AnsweredRightly(cfg, c, cap, generation, served, req)
  }

  /** The cached answer to a request is right, on all registries and after all others, exactly when it is identifying. */
  lemma AnsweredRightlyExactly(cfg: Config, req: Request)
    requires cfg.matcher.url(ANY_URL, "")
    ensures AlwaysAnsweredRightly(cfg, req) <==> Identifying(req)
  {
    hide Represents, AnsweredRightly, SafeContents, Full, ProbeContents;
    if Identifying(req) {
      forall c: Contents, reg, implicit, cap: nat, generation: nat, served
        | |c.shards| == cfg.shardCount && Represents(cfg, c, reg, implicit)
        ensures AnsweredRightly(cfg, c, cap, generation, served, req)
      {
        ToldApartIsAnsweredRightly(cfg, c, reg, implicit, cap, generation, served, req);
      }
    } else {
      var p, q := UnidentifiedIsAnsweredWrongly(cfg, 1, 0, req);
      ProbeRepresents(cfg, p);
    }
  }
}
