/**
 The ICAP router (internal/router/router.go): exact paths, then patterns in registration order, with
 the route cache in front of the exact paths. Registering anything clears the cache.
 */
module Routing {
  import opened Wrappers
  import opened Text
  import opened RouteCaching

  /** A compiled pattern is known by its identity; `Regexps` says which paths it matches. */
  type Pattern = nat
  type Regexps = (Pattern, string) -> bool

  datatype PatternRoute = PatternRoute(pattern: Pattern, handler: Handler)

  datatype RouterError = EmptyPath | NilPattern | NilHandler

  datatype Site = Site(routes: map<string, Handler>, patterns: seq<PatternRoute>, cache: Cache)

  // ---- paths -------------------------------------------------------------------------------

  /** What follows the first "://", if there is one. */
  function AfterScheme(uri: string): Option<string> {
    if |uri| < 3 then None
    else if uri[..3] == "://" then Some(uri[3..])
    else AfterScheme(uri[1..])
  }

  predicate IsPath(p: string) {
    p != "" && p[0] == '/' && '?' !in p
  }

  function RoutePath(uri: string): (path: string)
    ensures IsPath(path)
  {
    match AfterScheme(uri)
    case Some(rest) => CutAt(FromFirst(rest, '/'), {'?'})
    case None =>
      var path := CutAt(uri, {'?'});
      if path == "" || path[0] != '/' then "/" + path else path
  }

  /** Every path is the path of some URI. */
  lemma UriOfPath(p: string)
    requires IsPath(p)
    ensures RoutePath("://" + p) == p
  {
    assert ("://" + p)[..3] == "://" && ("://" + p)[3..] == p;
    NothingToCut(p, {'?'});
  }

  lemma {:induction false} SchemeEnds(scheme: string, rest: string)
    requires ':' !in scheme
    ensures AfterScheme(scheme + "://" + rest) == Some(rest)
  {
    var uri := scheme + "://" + rest;
    if scheme == "" {
      assert uri[..3] == "://" && uri[3..] == rest;
    } else {
      assert uri[0] == scheme[0] && uri[1..] == scheme[1..] + "://" + rest;
      SchemeEnds(scheme[1..], rest);
    }
  }

  predicate HasScheme(uri: string) {
    exists i, j :: 0 <= i <= j <= |uri| && uri[i..j] == "://"
  }

  lemma {:induction false} NoSchemeEnds(uri: string)
    requires !HasScheme(uri)
    ensures AfterScheme(uri) == None
  {
    if |uri| >= 3 {
      assert uri[0..3] == uri[..3];
      forall i, j | 0 <= i <= j <= |uri[1..]| ensures uri[1..][i..j] != "://" {
        SliceOfTail(uri, i, j);
      }
      NoSchemeEnds(uri[1..]);
    }
  }

  /** The path of a URI is what stands between the host and the query, for every scheme and host. */
  lemma PathOfUri(scheme: string, host: string, path: string, query: string)
    requires ':' !in scheme && '/' !in host && IsPath(path) && (query == "" || query[0] == '?')
    ensures RoutePath(scheme + "://" + host + path + query) == path
  {
    assert scheme + "://" + host + path + query == scheme + "://" + (host + (path + query));
    SchemeEnds(scheme, host + (path + query));
    FromFirstJoined(host, path + query, '/');
    CutBefore(path, query, {'?'});
  }

  /** A URI without a path asks for the root. */
  lemma PathOfBareHost(scheme: string, host: string)
    requires ':' !in scheme && '/' !in host
    ensures RoutePath(scheme + "://" + host) == "/"
  {
    SchemeEnds(scheme, host);
    FromFirstAbsent(host, '/');
    NothingToCut("/", {'?'});
  }

  /** Without a scheme, what stands before the query is taken as the path, with a slash in front if it has none. */
  lemma PathWithoutScheme(text: string, query: string)
    requires !HasScheme(text + query) && '?' !in text && (query == "" || query[0] == '?')
    ensures RoutePath(text + query) == if IsPath(text) then text else "/" + text
  {
    NoSchemeEnds(text + query);
    CutBefore(text, query, {'?'});
  }

  // ---- lookup ------------------------------------------------------------------------------

  function FirstPattern(rx: Regexps, patterns: seq<PatternRoute>, path: string): (r: Option<Handler>) {
    if patterns == [] then None
    else if rx(patterns[0].pattern, path) then Some(patterns[0].handler)
    else FirstPattern(rx, patterns[1..], path)
  }

  /** The cache in front of the exact routes (LookupHandlerFunc). */
  function CachedLookup(site: Site, max: nat, ttl: int, verb: string, path: string, now: int, later: int)
    : (Cache, Option<Handler>)
  {
    var (cache, hit) := Lookup(site.cache, BuildKey(verb, path), ttl, now);
    if hit.Some? then (cache, hit)
    else if path in site.routes then
      (Store(cache, BuildKey(verb, path), site.routes[path], max, later), Some(site.routes[path]))
    else (cache, None)
  }

  /** The handler Serve hands the request to; None is the 404 answer. */
  function Served(rx: Regexps, site: Site, max: nat, ttl: int, verb: string, uri: string, now: int, later: int)
    : (Site, Option<Handler>)
  {
    var path := RoutePath(uri);
    var (cache, found) := CachedLookup(site, max, ttl, verb, path, now, later);
    (site.(cache := cache), if found.Some? then found else FirstPattern(rx, site.patterns, path))
  }

  function AddRoute(site: Site, path: string, h: Option<Handler>): Result<Site, RouterError> {
    if path == "" then Err(EmptyPath)
    else if h.None? then Err(NilHandler)
    else Ok(site.(routes := site.routes[path := h.value], cache := Emptied(site.cache)))
  }

  function AddPattern(site: Site, pattern: Option<Pattern>, h: Option<Handler>): Result<Site, RouterError> {
    if pattern.None? then Err(NilPattern)
    else if h.None? then Err(NilHandler)
    else Ok(site.(patterns := site.patterns + [PatternRoute(pattern.value, h.value)], cache := Emptied(site.cache)))
  }

  // ---- runs --------------------------------------------------------------------------------

  datatype Op =
    | OpHandle(path: string, handler: Option<Handler>)
    | OpPattern(pattern: Option<Pattern>, handler: Option<Handler>)
    | OpServe(verb: string, uri: string, now: int, later: int)

  const EmptySite := Site(map[], [], EmptyCache)

  function Step(rx: Regexps, site: Site, max: nat, ttl: int, op: Op): Site {
    match op
    case OpHandle(path, h) => (match AddRoute(site, path, h) case Ok(after) => after case Err(_) => site)
    case OpPattern(pattern, h) => (match AddPattern(site, pattern, h) case Ok(after) => after case Err(_) => site)
    case OpServe(verb, uri, now, later) => Served(rx, site, max, ttl, verb, uri, now, later).0
  }

  function Run(rx: Regexps, max: nat, ttl: int, ops: seq<Op>): Site {
    if ops == [] then EmptySite
    else Step(rx, Run(rx, max, ttl, ops[..|ops| - 1]), max, ttl, ops[|ops| - 1])
  }

  /** The handler most recently registered for exactly this path. */
  function Registered(ops: seq<Op>, path: string): Option<Handler> {
    if ops == [] then None
    else
      var last := ops[|ops| - 1];
      if path != "" && last.OpHandle? && last.path == path && last.handler.Some? then last.handler
      else Registered(ops[..|ops| - 1], path)
  }

  /** The patterns registered so far, oldest first. */
  function Patterns(ops: seq<Op>): seq<PatternRoute> {
    if ops == [] then []
    else
      var last := ops[|ops| - 1];
      Patterns(ops[..|ops| - 1]) +
        if last.OpPattern? && last.pattern.Some? && last.handler.Some?
        then [PatternRoute(last.pattern.value, last.handler.value)] else []
  }

  /** What the registrations alone say about a URI, without any cache. */
  function Expected(rx: Regexps, ops: seq<Op>, uri: string): Option<Handler> {
    var exact := Registered(ops, RoutePath(uri));
    if exact.Some? then exact else FirstPattern(rx, Patterns(ops), RoutePath(uri))
  }

  // ---- keys --------------------------------------------------------------------------------

  /** A verb with ":/" in it, and no '?' after that, can be read as a shorter verb and a longer path. */
  predicate Ambiguous(verb: string) {
    exists i | 0 <= i < |verb| - 1 :: verb[i] == ':' && verb[i + 1] == '/' && '?' !in verb[i + 1..]
  }

  /** Two keys of unambiguous verbs are equal only for equal verbs and paths. */
  lemma KeyIsInjective(v1: string, p1: string, v2: string, p2: string)
    requires !Ambiguous(v1) && !Ambiguous(v2) && IsPath(p1) && IsPath(p2)
    requires BuildKey(v1, p1) == BuildKey(v2, p2)
    ensures v1 == v2 && p1 == p2
  {
    if |v1| < |v2| {
      LongerVerbIsAmbiguous(v1, p1, v2, p2);
    } else if |v2| < |v1| {
      LongerVerbIsAmbiguous(v2, p2, v1, p1);
    } else {
      assert v1 == BuildKey(v1, p1)[..|v1|] && v2 == BuildKey(v2, p2)[..|v2|];
      assert p1 == BuildKey(v1, p1)[|v1| + 1..] && p2 == BuildKey(v2, p2)[|v2| + 1..];
    }
  }

  lemma LongerVerbIsAmbiguous(v1: string, p1: string, v2: string, p2: string)
    requires IsPath(p1) && IsPath(p2) && |v1| < |v2| && BuildKey(v1, p1) == BuildKey(v2, p2)
    ensures Ambiguous(v2)
  {
    var key := BuildKey(v1, p1);
    assert key[|v1|] == ':' && key[|v1| + 1] == p1[0];
    assert forall j | 0 <= j < |v2| :: v2[j] == key[j];
    assert key[|v2|] == ':';
    forall j | |v1| < j < |v2| ensures v2[j] != '?' {
      assert v2[j] == key[j] == p1[j - |v1| - 1];
    }
    if |v2| == |v1| + 1 {
      assert false;
    }
    assert v2[|v1|] == ':' && v2[|v1| + 1] == '/';
  }

  // ---- the cached router is the uncached one -----------------------------------------------

  /** A cached entry is the current route of some verb and path that have its key. */
  ghost predicate Honest(e: Entry, routes: map<string, Handler>) {
    exists v, p :: !Ambiguous(v) && IsPath(p) && e.key == BuildKey(v, p) && p in routes && routes[p] == e.handler
  }

  ghost predicate HonestSite(site: Site) {
    forall e | e in site.cache.entries :: Honest(e, site.routes)
  }

  /** A lookup changes no entry's key or handler, and returns the handler of an entry of its key. */
  lemma LookupOnlyReorders(c: Cache, key: string, ttl: int, now: int)
    ensures var (after, h) := Lookup(c, key, ttl, now);
      && (forall e | e in after.entries :: exists was | was in c.entries :: was.key == e.key && was.handler == e.handler)
      && (h.Some? ==> exists e | e in c.entries :: e.key == key && e.handler == h.value)
  {
    var i := IndexOf(c.entries, key);
    var after := Lookup(c, key, ttl, now).0;
    if i < |c.entries| {
      assert c.entries[i] in c.entries;
      forall e | e in after.entries
        ensures exists was | was in c.entries :: was.key == e.key && was.handler == e.handler
      {
        assert e in c.entries || e == c.entries[i].(accesses := c.entries[i].accesses + 1);
      }
    }
  }

  lemma StoreAddsOne(c: Cache, key: string, h: Handler, max: nat, now: int)
    ensures forall e | e in Store(c, key, h, max, now).entries :: e in c.entries || (e.key == key && e.handler == h)
  {
  }

  lemma SameKeySameHonesty(e: Entry, was: Entry, routes: map<string, Handler>)
    requires Honest(was, routes) && was.key == e.key && was.handler == e.handler
    ensures Honest(e, routes)
  {
    var v, p :| !Ambiguous(v) && IsPath(p) && was.key == BuildKey(v, p) && p in routes && routes[p] == was.handler;
  }

  /** Serving keeps every entry current, and answers as the exact routes and patterns say. */
  lemma ServeIsUncached(rx: Regexps, site: Site, max: nat, ttl: int, verb: string, uri: string, now: int, later: int)
    requires HonestSite(site) && !Ambiguous(verb)
    ensures HonestSite(Served(rx, site, max, ttl, verb, uri, now, later).0)
    ensures Served(rx, site, max, ttl, verb, uri, now, later).1 ==
            if RoutePath(uri) in site.routes then Some(site.routes[RoutePath(uri)])
            else FirstPattern(rx, site.patterns, RoutePath(uri))
  {
    hide Ambiguous, Lookup, Store, BuildKey, IsPath, AfterScheme;
    var path := RoutePath(uri);
    var key := BuildKey(verb, path);
    var (cache, hit) := Lookup(site.cache, key, ttl, now);
    LookupOnlyReorders(site.cache, key, ttl, now);
    forall e | e in cache.entries ensures Honest(e, site.routes) {
      var was :| was in site.cache.entries && was.key == e.key && was.handler == e.handler;
      SameKeySameHonesty(e, was, site.routes);
    }
    if hit.Some? {
      var e :| e in site.cache.entries && e.key == key && e.handler == hit.value;
      assert Honest(e, site.routes);
      var v, p :| !Ambiguous(v) && IsPath(p) && e.key == BuildKey(v, p) && p in site.routes && site.routes[p] == e.handler;
      KeyIsInjective(v, p, verb, path);
    } else if path in site.routes {
      StoreAddsOne(cache, key, site.routes[path], max, later);
    }
  }

  lemma {:induction false} RunIsHonest(rx: Regexps, max: nat, ttl: int, ops: seq<Op>)
    requires forall op | op in ops && op.OpServe? :: !Ambiguous(op.verb)
    ensures var site := Run(rx, max, ttl, ops);
      && HonestSite(site)
      && site.patterns == Patterns(ops)
      && forall path :: Registered(ops, path) == if path in site.routes then Some(site.routes[path]) else None
  {
    hide Ambiguous, Served, Honest;
    if ops != [] {
      var before, op := ops[..|ops| - 1], ops[|ops| - 1];
      RunIsHonest(rx, max, ttl, before);
      var site := Run(rx, max, ttl, before);
      if op.OpServe? {
        assert op in ops;
        ServeIsUncached(rx, site, max, ttl, op.verb, op.uri, op.now, op.later);
        ServeKeepsTables(rx, site, max, ttl, op.verb, op.uri, op.now, op.later);
      }
    }
  }

  lemma ServeKeepsTables(rx: Regexps, site: Site, max: nat, ttl: int, verb: string, uri: string, now: int, later: int)
    ensures var after := Served(rx, site, max, ttl, verb, uri, now, later).0;
      after.routes == site.routes && after.patterns == site.patterns
  {
  }

  /**
   Cached routing is uncached routing: after any run of registrations and requests, at any clock
   readings, a request goes to the handler last registered for its path, else to the first
   registered pattern that matches it, else nowhere.
   */
  lemma CachedRoutingIsUncached(rx: Regexps, max: nat, ttl: int, ops: seq<Op>, verb: string, uri: string,
                                now: int, later: int)
    requires !Ambiguous(verb) && forall op | op in ops && op.OpServe? :: !Ambiguous(op.verb)
    ensures Served(rx, Run(rx, max, ttl, ops), max, ttl, verb, uri, now, later).1 == Expected(rx, ops, uri)
  {
    hide Ambiguous, Served;
    RunIsHonest(rx, max, ttl, ops);
    ServeIsUncached(rx, Run(rx, max, ttl, ops), max, ttl, verb, uri, now, later);
  }

  // ---- whose handler answers ---------------------------------------------------------------

  predicate Registers(op: Op, path: string) {
    op.OpHandle? && op.path == path && op.handler.Some?
  }

  /** The operation registers a handler for a pattern that matches the path. */
  predicate Covers(rx: Regexps, op: Op, path: string) {
    op.OpPattern? && op.pattern.Some? && op.handler.Some? && rx(op.pattern.value, path)
  }

  lemma {:induction false} RegisteredLast(ops: seq<Op>, i: nat)
    requires i < |ops| && ops[i].OpHandle? && Registers(ops[i], ops[i].path) && ops[i].path != ""
    requires forall j | i < j < |ops| :: !Registers(ops[j], ops[i].path)
    ensures Registered(ops, ops[i].path) == ops[i].handler
  {
    var before := ops[..|ops| - 1];
    if i < |before| {
      assert before[i] == ops[i] && forall j | i < j < |before| :: before[j] == ops[j];
      RegisteredLast(before, i);
    }
  }

  lemma {:induction false} NeverRegistered(ops: seq<Op>, path: string)
    requires forall op | op in ops :: !Registers(op, path)
    ensures Registered(ops, path) == None
  {
    if ops != [] {
      assert ops[|ops| - 1] in ops;
      NeverRegistered(ops[..|ops| - 1], path);
    }
  }

  lemma {:induction false} FirstPatternSnoc(rx: Regexps, patterns: seq<PatternRoute>, last: PatternRoute, path: string)
    ensures FirstPattern(rx, patterns + [last], path) ==
      var before := FirstPattern(rx, patterns, path);
      if before.Some? then before else if rx(last.pattern, path) then Some(last.handler) else None
  {
    if patterns == [] {
      assert patterns + [last] == [last];
    } else {
      assert (patterns + [last])[1..] == patterns[1..] + [last];
      FirstPatternSnoc(rx, patterns[1..], last, path);
    }
  }

  /** The handler of the first operation that covers the path, if there is one. */
  lemma {:induction false} FirstCovering(rx: Regexps, ops: seq<Op>, path: string)
    ensures var h := FirstPattern(rx, Patterns(ops), path);
      if exists op | op in ops :: Covers(rx, op, path)
      then exists i | 0 <= i < |ops| && (forall j | 0 <= j < i :: !Covers(rx, ops[j], path)) ::
             Covers(rx, ops[i], path) && h == ops[i].handler
      else h == None
  {
    if ops != [] {
      var before, last := ops[..|ops| - 1], ops[|ops| - 1];
      assert ops == before + [last];
      FirstCovering(rx, before, path);
      if last.OpPattern? && last.pattern.Some? && last.handler.Some? {
        FirstPatternSnoc(rx, Patterns(before), PatternRoute(last.pattern.value, last.handler.value), path);
      } else {
        assert Patterns(before) + [] == Patterns(before);
      }
      hide FirstPattern, Patterns;
      assert ops[|before|] == last && last in ops;
      if exists op | op in before :: Covers(rx, op, path) {
        var i :| 0 <= i < |before| && (forall j | 0 <= j < i :: !Covers(rx, before[j], path))
                 && Covers(rx, before[i], path) && FirstPattern(rx, Patterns(before), path) == before[i].handler;
        assert ops[i] == before[i] && forall j | 0 <= j < i :: ops[j] == before[j];
      } else {
        assert forall j | 0 <= j < |before| :: before[j] in before && ops[j] == before[j];
      }
    }
  }

  /** All requests, this one included, have verbs that make unambiguous keys. */
  predicate Plain(ops: seq<Op>, verb: string) {
    !Ambiguous(verb) && forall op | op in ops && op.OpServe? :: !Ambiguous(op.verb)
  }

  /** A request for a path, with any scheme, host and query, goes to the handler last registered for it. */
  lemma LastRegistrationServes(rx: Regexps, max: nat, ttl: int, ops: seq<Op>, i: nat, verb: string,
                               scheme: string, host: string, query: string, now: int, later: int)
    requires Plain(ops, verb)
    requires i < |ops| && ops[i].OpHandle? && IsPath(ops[i].path) && Registers(ops[i], ops[i].path)
    requires forall j | i < j < |ops| :: !Registers(ops[j], ops[i].path)
    requires ':' !in scheme && '/' !in host && (query == "" || query[0] == '?')
    ensures Served(rx, Run(rx, max, ttl, ops), max, ttl, verb, scheme + "://" + host + ops[i].path + query, now, later).1
         == ops[i].handler
  {
    hide Run, Served, RoutePath, Registered, Ambiguous;
    PathOfUri(scheme, host, ops[i].path, query);
    RegisteredLast(ops, i);
    CachedRoutingIsUncached(rx, max, ttl, ops, verb, scheme + "://" + host + ops[i].path + query, now, later);
  }

  /** A request for a path nobody registered goes to the first pattern that matches it, or is not found. */
  lemma FirstPatternServes(rx: Regexps, max: nat, ttl: int, ops: seq<Op>, verb: string,
                           scheme: string, host: string, path: string, query: string, now: int, later: int)
    requires Plain(ops, verb) && IsPath(path) && forall op | op in ops :: !Registers(op, path)
    requires ':' !in scheme && '/' !in host && (query == "" || query[0] == '?')
    ensures var h := Served(rx, Run(rx, max, ttl, ops), max, ttl, verb, scheme + "://" + host + path + query, now, later).1;
      if exists op | op in ops :: Covers(rx, op, path)
      then exists i | 0 <= i < |ops| && (forall j | 0 <= j < i :: !Covers(rx, ops[j], path)) ::
             Covers(rx, ops[i], path) && h == ops[i].handler
      else h == None
  {
    hide Run, Served, RoutePath, Registered, Ambiguous, FirstPattern, Patterns, Covers, Registers;
    PathOfUri(scheme, host, path, query);
    NeverRegistered(ops, path);
    FirstCovering(rx, ops, path);
    CachedRoutingIsUncached(rx, max, ttl, ops, verb, scheme + "://" + host + path + query, now, later);
  }

  // ---- verbs that misroute -----------------------------------------------------------------

  /** What Serve stores for the first request to an exact path after a registration. */
  lemma FirstServeStores(rx: Regexps, site: Site, max: nat, ttl: int, verb: string, path: string)
    requires site.cache.entries == [] && IsPath(path) && path in site.routes
    ensures Served(rx, site, max, ttl, verb, "://" + path, 0, 0).0.cache.entries ==
            [Entry(BuildKey(verb, path), site.routes[path], 0, 1)]
    ensures Served(rx, site, max, ttl, verb, "://" + path, 0, 0).0.routes == site.routes
  {
    UriOfPath(path);
  }

  /** The run that misroutes: two routes are registered, and the longer path is requested once. */
  function Trap(short: string, long: string, h1: Handler, h2: Handler): seq<Op> {
    [OpHandle(long, Some(h1)), OpHandle("/", Some(h2)), OpServe(short, "://" + long, 0, 0)]
  }

  lemma TrapState(rx: Regexps, max: nat, ttl: int, short: string, long: string, h1: Handler, h2: Handler)
    requires IsPath(long) && long != "/"
    ensures var site := Run(rx, max, ttl, Trap(short, long, h1, h2));
      && site.cache.entries == [Entry(BuildKey(short, long), h1, 0, 1)]
      && Registered(Trap(short, long, h1, h2), "/") == Some(h2)
  {
    hide Served, RoutePath;
    var ops := Trap(short, long, h1, h2);
    assert ops[..2][..1][..0] == [] && ops[..2][..1] == [ops[0]] && ops[..2] == [ops[0], ops[1]];
    var site := Run(rx, max, ttl, ops[..2]);
    assert Run(rx, max, ttl, [ops[0]]).routes == map[long := h1];
    assert site.routes == map[long := h1, "/" := h2] && site.cache.entries == [];
    FirstServeStores(rx, site, max, ttl, short, long);
    assert Registered(ops[..2], "/") == Some(h2);
  }

  /**
   The condition on verbs is exact. For every ambiguous verb, after two registrations and one request
   under a shorter verb, a request under the ambiguous one is answered by the other path's handler.
   */
  lemma AmbiguousVerbMisroutes(rx: Regexps, max: nat, ttl: int, verb: string, h1: Handler, h2: Handler)
    requires Ambiguous(verb) && h1 != h2
    ensures exists ops ::
      && Served(rx, Run(rx, max, ttl, ops), max, ttl, verb, "://" + "/", 0, 0).1 == Some(h1)
      && Expected(rx, ops, "://" + "/") == Some(h2)
  {
    hide Run, Registered;
    var i :| 0 <= i < |verb| - 1 && verb[i] == ':' && verb[i + 1] == '/' && '?' !in verb[i + 1..];
    var short, long := verb[..i], verb[i + 1..] + ":/";
    assert BuildKey(verb, "/") == BuildKey(short, long);
    assert IsPath(long) && long != "/";
    TrapState(rx, max, ttl, short, long, h1, h2);
    UriOfPath("/");
    hide RoutePath, BuildKey;
    assert Served(rx, Run(rx, max, ttl, Trap(short, long, h1, h2)), max, ttl, verb, "://" + "/", 0, 0).1 == Some(h1);
  }

  // ---- the router object -------------------------------------------------------------------

  class Router {
    const cache: RouteCache
    const rx: Regexps
    var routes: map<string, Handler>
    var patterns: seq<PatternRoute>

    ghost predicate Valid()
      reads this, cache, cache.nodes
    {
      cache.Valid()
    }

    ghost function State(): Site
      reads this, cache, cache.nodes
    {
      Site(routes, patterns, cache.State())
    }

    constructor (rx: Regexps, maxEntries: int, ttl: int)
      ensures Valid() && fresh(cache) && cache.nodes == [] && State() == EmptySite
      ensures this.rx == rx && cache.ttl == ttl
      ensures cache.maxEntries == if maxEntries <= 0 then DEFAULT_MAX_ENTRIES else maxEntries
    {
      this.rx, routes, patterns := rx, map[], [];
      cache := new RouteCache(maxEntries, ttl);
    }

    method Handle(path: string, h: Option<Handler>) returns (err: Option<RouterError>)
      requires Valid()
      modifies this, cache
      ensures Valid()
      ensures match AddRoute(old(State()), path, h)
        case Ok(after) => err == None && State() == after && cache.nodes == []
        case Err(e) => err == Some(e) && State() == old(State()) && cache.nodes == old(cache.nodes)
    {
      if path == "" {
        return Some(EmptyPath);
      }
      if h.None? {
        return Some(NilHandler);
      }
      routes := routes[path := h.value];
      cache.Clear();
      err := None;
    }

    method HandlePattern(pattern: Option<Pattern>, h: Option<Handler>) returns (err: Option<RouterError>)
      requires Valid()
      modifies this, cache
      ensures Valid()
      ensures match AddPattern(old(State()), pattern, h)
        case Ok(after) => err == None && State() == after && cache.nodes == []
        case Err(e) => err == Some(e) && State() == old(State()) && cache.nodes == old(cache.nodes)
    {
      if pattern.None? {
        return Some(NilPattern);
      }
      if h.None? {
        return Some(NilHandler);
      }
      patterns := patterns + [PatternRoute(pattern.value, h.value)];
      cache.Clear();
      err := None;
    }

    /** The cache in front of the exact routes. */
    method LookupHandlerFunc(verb: string, path: string, now: int, later: int) returns (h: Option<Handler>)
      requires Valid()
      modifies cache, cache.nodes
      ensures Valid() && forall n | n in cache.nodes :: n in old(cache.nodes) || fresh(n)
      ensures (cache.State(), h) == CachedLookup(old(State()), cache.maxEntries, cache.ttl, verb, path, now, later)
    {
      h := cache.Get(verb, path, now);
      if h.Some? {
        return;
      }
      if path !in routes {
        return None;
      }
      assert forall i | 0 <= i < |cache.nodes| :: cache.nodes[i] in cache.nodes && cache.nodes[i] in old(cache.nodes);
      h := Some(routes[path]);
      cache.Put(verb, path, routes[path], later);
    }

    /** The handler the request goes to; None when the answer is 404. */
    method Serve(verb: string, uri: string, now: int, later: int) returns (h: Option<Handler>)
      requires Valid()
      modifies cache, cache.nodes
      ensures Valid() && forall n | n in cache.nodes :: n in old(cache.nodes) || fresh(n)
      ensures (State(), h) == Served(rx, old(State()), cache.maxEntries, cache.ttl, verb, uri, now, later)
    {
      h := LookupHandlerFunc(verb, RoutePath(uri), now, later);
      if h.None? {
        var path := RoutePath(uri);
        var i := 0;
        while i < |patterns|
          invariant i <= |patterns|
          invariant FirstPattern(rx, patterns, path) == FirstPattern(rx, patterns[i..], path)
        {
          if rx(patterns[i].pattern, path) {
            return Some(patterns[i].handler);
          }
          assert patterns[i..][1..] == patterns[i + 1..];
          i := i + 1;
        }
      }
    }
  }
}
