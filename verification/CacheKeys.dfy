/**
 The key of the match cache (internal/storage/sharded_scenario.go:695-712) and what it identifies.
 A registry whose cache is enabled answers from the request's method, URI, and encapsulated HTTP
 request: whether there is one, its method and its URI. The joined key identifies these exactly when
 no part contains the separator and the HTTP method and URI are not both empty.
 */
module CacheKeys {
  import opened Wrappers
  import opened Text
  import opened Scenarios
  import opened ShardedIndex
  import opened IndexInvariant

  function HttpVerb(r: Request): string {
    if r.httpRequest.Some? then r.httpRequest.value.verb else ""
  }

  function HttpUri(r: Request): string {
    if r.httpRequest.Some? then r.httpRequest.value.uri else ""
  }

  function ContentTypeOf(m: Option<HttpMessage>): string {
    if m.Some? && "Content-Type" in m.value.headers then m.value.headers["Content-Type"] else ""
  }

  /** The response's content type, or else the request's. */
  function ContentType(r: Request): string {
    if ContentTypeOf(r.httpResponse) != "" then ContentTypeOf(r.httpResponse) else ContentTypeOf(r.httpRequest)
  }

  function CacheKey(r: Request): string {
    r.verb + ("|" + (r.uri + ("|" + (HttpVerb(r) + ("|" + (HttpUri(r) + ("|" + ContentType(r))))))))
  }

  /** The request fields that scenarios without dynamic rules read. */
  predicate SameFields(a: Request, b: Request) {
    && a.verb == b.verb && a.uri == b.uri
    && a.httpRequest.Some? == b.httpRequest.Some?
    && HttpVerb(a) == HttpVerb(b) && HttpUri(a) == HttpUri(b)
  }

  /** Without dynamic rules, captures and branches, matching depends on those fields only. */
  lemma MatchesByFields(m: Matcher, s: Scenario, a: Request, b: Request)
    requires !DisablesMatchCache(s) && SameFields(a, b)
    ensures MatchesScenario(m, s, a) == MatchesScenario(m, s, b)
  {
  }

  lemma {:induction false} BestMatchByHits(f: Scenario -> bool, g: Scenario -> bool, l: seq<Scenario>)
    requires forall s | s in l :: f(s) == g(s)
    ensures BestMatch(f, l, None) == BestMatch(g, l, None)
  {
    if l != [] {
      BestMatchByHits(f, g, l[..|l| - 1]);
    }
  }

  lemma {:induction false} UniqueSubset(l: seq<Scenario>)
    ensures forall s | s in Unique(l) :: s in l
  {
    if l != [] {
      UniqueSubset(l[..|l| - 1]);
    }
  }

  lemma {:induction false} CandidatesFromIndex(index: map<string, seq<Scenario>>, keys: seq<string>)
    ensures forall s | s in Candidates(index, keys) :: exists k | k in index :: s in index[k]
  {
    if keys != [] {
      CandidatesFromIndex(index, keys[..|keys| - 1]);
    }
  }

  /** A registry that keeps its match cache on gives requests with the same fields the same answer. */
  lemma AnswerByFields(cfg: Config, c: Contents, reg: set<Scenario>, implicit: bool, a: Request, b: Request)
    requires Represents(cfg, c, reg, implicit) && !c.cacheDisabled && SameFields(a, b)
    ensures Answer(cfg, c, a) == Answer(cfg, c, b)
  {
    hide MatchesScenario, KeysAt, IsGlobal, WellFormed, SearchKeys, SameFields;
    var f, g := Hits(cfg.matcher, a), Hits(cfg.matcher, b);
    EnabledHitsByFields(cfg, c, reg, implicit, a, b);
    SameFieldsSameSearch(cfg, a, b);
    var i := ShardFor(cfg, a);
    var cands := Candidates(c.shards[i].index, SearchKeys(a));
    CandidatesFromIndex(c.shards[i].index, SearchKeys(a));
    forall s | s in cands ensures s in Full(reg, implicit) {
      var k :| k in c.shards[i].index && s in c.shards[i].index[k];
      assert InIndex(c.shards[i], k, s);
    }
    UniqueSubset(cands);
    BestMatchByHits(f, g, Unique(cands));
    ShardsHold(cfg, c, reg, implicit);
    UniqueSubset(AllScenarios(c.shards));
    BestMatchByHits(f, g, Unique(AllScenarios(c.shards)));
    BestMatchByHits(f, g, c.global);
  }

  lemma SameFieldsSameSearch(cfg: Config, a: Request, b: Request)
    requires SameFields(a, b)
    ensures SearchKeys(a) == SearchKeys(b) && ShardFor(cfg, a) == ShardFor(cfg, b)
  {
  }

  lemma EnabledHitsByFields(cfg: Config, c: Contents, reg: set<Scenario>, implicit: bool, a: Request, b: Request)
    requires Represents(cfg, c, reg, implicit) && !c.cacheDisabled && SameFields(a, b)
    ensures forall s | s in Full(reg, implicit) :: Hits(cfg.matcher, a)(s) == Hits(cfg.matcher, b)(s)
  {
    assert !DisablesMatchCache(DefaultScenario);
    hide ShardRepresents, GlobalRepresents, GoodSet, DisablesMatchCache, MatchesScenario, SameFields;
    forall s | s in Full(reg, implicit) ensures Hits(cfg.matcher, a)(s) == Hits(cfg.matcher, b)(s) {
      MatchesByFields(cfg.matcher, s, a, b);
    }
  }

  // ---- what the joined key identifies ------------------------------------------------------

  /**
   The request carries an HTTP method or URI. One without an HTTP part does not; neither does one whose
   HTTP request line has both empty, which is received like any other (internal/server/protocol.go:336-345).
   */
  predicate HttpNamed(r: Request) {
    HttpVerb(r) != "" || HttpUri(r) != ""
  }

  predicate NoPipes(r: Request) {
    '|' !in r.verb && '|' !in r.uri && '|' !in HttpVerb(r) && '|' !in HttpUri(r) && '|' !in ContentType(r)
  }

  /** Every request with the same key has the same fields. */
  ghost predicate KeyIdentifies(r: Request) {
    forall q | CacheKey(q) == CacheKey(r) :: SameFields(q, r)
  }

  /** What a caller can check of one request to know that its key identifies it. */
  predicate Identifying(r: Request) {
    NoPipes(r) && HttpNamed(r)
  }

  /** The same, against the requests asked so far: those without HTTP method and URI agree on having an HTTP part. */
  predicate ToldApart(r: Request, asked: set<Request>) {
    && NoPipes(r)
    && (HttpNamed(r) || forall q | q in asked && !HttpNamed(q) :: q.httpRequest.Some? == r.httpRequest.Some?)
  }

  function Pipes(s: string): nat {
    if s == "" then 0 else (if s[0] == '|' then 1 else 0) + Pipes(s[1..])
  }

  lemma {:induction false} PipesAdd(a: string, b: string)
    ensures Pipes(a + b) == Pipes(a) + Pipes(b)
  {
    if a == "" {
      assert a + b == b;
    } else {
      assert a + b == [a[0]] + (a[1..] + b);
      PipesAdd(a[1..], b);
    }
  }

  lemma {:induction false} NoPipesIffZero(s: string)
    ensures Pipes(s) == 0 <==> '|' !in s
  {
    if s != "" {
      assert s == [s[0]] + s[1..];
      NoPipesIffZero(s[1..]);
    }
  }

  lemma KeyPipes(r: Request)
    ensures Pipes(CacheKey(r)) ==
      4 + Pipes(r.verb) + Pipes(r.uri) + Pipes(HttpVerb(r)) + Pipes(HttpUri(r)) + Pipes(ContentType(r))
  {
    var t3 := HttpUri(r) + ("|" + ContentType(r));
    var t2 := HttpVerb(r) + ("|" + t3);
    var t1 := r.uri + ("|" + t2);
    PipesAdd("|", ContentType(r));
    PipesAdd(HttpUri(r), "|" + ContentType(r));
    PipesAdd("|", t3);
    PipesAdd(HttpVerb(r), "|" + t3);
    PipesAdd("|", t2);
    PipesAdd(r.uri, "|" + t2);
    PipesAdd("|", t1);
    PipesAdd(r.verb, "|" + t1);
    assert Pipes("|") == 1;
  }

  /** A request with given joined parts: an absent HTTP request when both its parts are empty. */
  function Crafted(verb: string, uri: string, httpVerb: string, httpUri: string, contentType: string): Request {
    Request(verb, uri, map[],
            if httpVerb == "" && httpUri == "" then None else Some(HttpMessage(httpVerb, httpUri, map[], "")),
            Some(HttpMessage("", "", map["Content-Type" := contentType], "")), "")
  }

  lemma CraftedParts(verb: string, uri: string, httpVerb: string, httpUri: string, contentType: string)
    ensures var q := Crafted(verb, uri, httpVerb, httpUri, contentType);
      && HttpVerb(q) == httpVerb && HttpUri(q) == httpUri && ContentType(q) == contentType
      && CacheKey(q) == verb + ("|" + (uri + ("|" + (httpVerb + ("|" + (httpUri + ("|" + contentType)))))))
  {
  }

  /** Text with a separator in it, split at the first one. */
  lemma SplitAtPipe(s: string) returns (a: string, b: string)
    requires '|' in s
    ensures s == a + ("|" + b) && a != s
  {
    a := CutAt(s, {'|'});
    b := s[|a| + 1..];
    assert s == a + [s[|a|]] + b;
  }

  lemma Assoc(a: string, b: string, rest: string)
    ensures (a + ("|" + b)) + ("|" + rest) == a + ("|" + (b + ("|" + rest)))
  {
  }

  /** A separator in any part lets another request claim the key with another method or another HTTP method. */
  lemma PipeCollides(r: Request) returns (q: Request)
    requires !NoPipes(r)
    ensures CacheKey(q) == CacheKey(r) && (q.verb != r.verb || HttpVerb(q) != HttpVerb(r))
  {
    var v, u, hv, hu, ct := r.verb, r.uri, HttpVerb(r), HttpUri(r), ContentType(r);
    if '|' in v {
      var a, b := SplitAtPipe(v);
      q := Crafted(a, b + ("|" + u), hv, hu, ct);
      CraftedParts(a, b + ("|" + u), hv, hu, ct);
      var rest := hv + ("|" + (hu + ("|" + ct)));
      Assoc(a, b, u + ("|" + rest));
      Assoc(b, u, rest);
    } else if '|' in u {
      var a, b := SplitAtPipe(u);
      q := Crafted(v, a, b + ("|" + hv), hu, ct);
      CraftedParts(v, a, b + ("|" + hv), hu, ct);
      Assoc(a, b, hv + ("|" + (hu + ("|" + ct))));
      Assoc(b, hv, hu + ("|" + ct));
    } else if '|' in hv {
      var a, b := SplitAtPipe(hv);
      q := Crafted(v, u, a, b + ("|" + hu), ct);
      CraftedParts(v, u, a, b + ("|" + hu), ct);
      Assoc(a, b, hu + ("|" + ct));
      Assoc(b, hu, ct);
    } else if '|' in hu {
      var a, b := SplitAtPipe(hu);
      q := Crafted(v, u, hv + ("|" + a), b, ct);
      CraftedParts(v, u, hv + ("|" + a), b, ct);
      Assoc(hv, a, b + ("|" + ct));
      Assoc(a, b, ct);
    } else {
      var a, b := SplitAtPipe(ct);
      q := Crafted(v, u, hv + ("|" + hu), a, b);
      CraftedParts(v, u, hv + ("|" + hu), a, b);
      Assoc(hv, hu, a + ("|" + b));
    }
  }

  /** The request of the same key and fields, but with an HTTP part where this one has none, or without where it has one. */
  function HttpToggled(r: Request): Request
    requires !HttpNamed(r)
  {
    if r.httpRequest.None? then r.(httpRequest := Some(HttpMessage("", "", map[], "")))
    else Crafted(r.verb, r.uri, "", "", ContentType(r))
  }

  /** Without an HTTP method or URI, the key does not say whether there is an HTTP part. */
  lemma EmptyHttpCollides(r: Request)
    requires !HttpNamed(r)
    ensures var q := HttpToggled(r);
      && CacheKey(q) == CacheKey(r) && !HttpNamed(q) && q.verb == r.verb && q.uri == r.uri
      && q.httpRequest.Some? != r.httpRequest.Some?
  {
    CraftedParts(r.verb, r.uri, "", "", ContentType(r));
  }

  /** Without separators the key identifies all fields, but for the presence of an empty HTTP part. */
  lemma NoPipesIdentifies(r: Request, q: Request)
    requires NoPipes(r) && CacheKey(q) == CacheKey(r)
    ensures HttpNamed(q) == HttpNamed(r)
    ensures SameFields(q, r) <==> HttpNamed(r) || q.httpRequest.Some? == r.httpRequest.Some?
  {
    KeyPipes(r);
    KeyPipes(q);
    NoPipesIffZero(r.verb); NoPipesIffZero(r.uri); NoPipesIffZero(HttpVerb(r)); NoPipesIffZero(HttpUri(r));
    NoPipesIffZero(q.verb); NoPipesIffZero(q.uri); NoPipesIffZero(HttpVerb(q)); NoPipesIffZero(HttpUri(q));
    NoPipesIffZero(ContentType(r));
    JoinParts(q, r);
  }

  lemma JoinParts(q: Request, r: Request)
    requires CacheKey(q) == CacheKey(r)
    requires '|' !in q.verb && '|' !in q.uri && '|' !in HttpVerb(q) && '|' !in HttpUri(q)
    requires '|' !in r.verb && '|' !in r.uri && '|' !in HttpVerb(r) && '|' !in HttpUri(r)
    ensures q.verb == r.verb && q.uri == r.uri && HttpVerb(q) == HttpVerb(r) && HttpUri(q) == HttpUri(r)
  {
    var q3, r3 := HttpUri(q) + ("|" + ContentType(q)), HttpUri(r) + ("|" + ContentType(r));
    var q2, r2 := HttpVerb(q) + ("|" + q3), HttpVerb(r) + ("|" + r3);
    var q1, r1 := q.uri + ("|" + q2), r.uri + ("|" + r2);
    assert q.verb + ['|'] + q1 == CacheKey(q) && r.verb + ['|'] + r1 == CacheKey(r);
    JoinInjective(q.verb, q1, r.verb, r1, '|');
    assert q.uri + ['|'] + q2 == q1 && r.uri + ['|'] + r2 == r1;
    JoinInjective(q.uri, q2, r.uri, r2, '|');
    assert HttpVerb(q) + ['|'] + q3 == q2 && HttpVerb(r) + ['|'] + r3 == r2;
    JoinInjective(HttpVerb(q), q3, HttpVerb(r), r3, '|');
    assert HttpUri(q) + ['|'] + ContentType(q) == q3 && HttpUri(r) + ['|'] + ContentType(r) == r3;
    JoinInjective(HttpUri(q), ContentType(q), HttpUri(r), ContentType(r), '|');
  }

  /** The cache key identifies the fields that matter exactly when nothing in the request is ambiguous. */
  lemma KeyIdentifiesExactly(r: Request)
    ensures KeyIdentifies(r) <==> Identifying(r)
  {
    hide CacheKey, SameFields, HttpNamed;
    if Identifying(r) {
      forall q | CacheKey(q) == CacheKey(r) ensures SameFields(q, r) {
        NoPipesIdentifies(r, q);
      }
    } else if NoPipes(r) {
      EmptyHttpCollides(r);
      NoPipesIdentifies(r, HttpToggled(r));
    } else {
      var q := PipeCollides(r);
      DifferentFields(q, r);
    }
  }

  lemma DifferentFields(q: Request, r: Request)
    requires q.verb != r.verb || HttpVerb(q) != HttpVerb(r)
    ensures !SameFields(q, r)
  {
  }

  /** While a registry keeps its cache on, a request is answered rightly from any entry of a request it is told apart from. */
  lemma SharedKeySharedAnswer(cfg: Config, c: Contents, reg: set<Scenario>, implicit: bool, asked: set<Request>,
                              r: Request, q: Request)
    requires Represents(cfg, c, reg, implicit) && !c.cacheDisabled
    requires ToldApart(r, asked) && q in asked && CacheKey(q) == CacheKey(r)
    ensures Answer(cfg, c, q) == Answer(cfg, c, r)
  {
    hide Answer, CacheKey, Represents, SameFields, HttpNamed, NoPipes;
    NoPipesIdentifies(r, q);
    AnswerByFields(cfg, c, reg, implicit, q, r);
  }
}
