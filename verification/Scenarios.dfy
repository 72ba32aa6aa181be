/**
 Scenarios, requests and the matching predicate (internal/storage/scenario.go).

 A scenario is an immutable value: once it is in a registry nothing changes it. Routing by method
 and literal path is concrete; regular expressions and the header, address, body and branch rules
 are oracles carried by a `Matcher`, total functions of what the source hands them.
 */
module Scenarios {
  import opened Wrappers
  import opened Text

  type RouteMap = map<string, seq<string>>

  datatype MatchRule = MatchRule(
    routes: RouteMap,
    path: string,
    paths: seq<string>,
    methods: seq<string>,
    httpMethod: string,
    httpURL: string,
    headers: map<string, string>,
    headerContains: map<string, seq<string>>,
    httpHeaders: map<string, string>,
    httpHeaderContains: map<string, seq<string>>,
    bodyPattern: string,
    clientIP: string,
    cidrRanges: seq<string>)

  const AnyRule := MatchRule(map[], "", [], [], "", "", map[], map[], map[], map[], "", "", [])

  datatype Scenario = Scenario(
    name: string,
    rule: MatchRule,
    branches: seq<MatchRule>,
    priority: int,
    order: nat)

  const DEFAULT_NAME := "default"

  /** The scenario every registry starts with: it matches everything, below everything. */
  const DefaultScenario := Scenario(DEFAULT_NAME, AnyRule, [], -1, 0)

  datatype HttpMessage = HttpMessage(verb: string, uri: string, headers: map<string, string>, body: string)

  datatype Request = Request(
    verb: string,
    uri: string,
    headers: map<string, string>,
    httpRequest: Option<HttpMessage>,
    httpResponse: Option<HttpMessage>,
    clientIP: string)

  /** What the model leaves to the regexp and net packages. */
  datatype Matcher = Matcher(
    pattern: (string, string) -> bool,                  // endpoint pattern, path
    legacyPath: (string, string) -> bool,               // path_pattern, path
    url: (string, string) -> bool,                      // http_url pattern, URI
    dynamic: (MatchRule, seq<MatchRule>, Request) -> bool,  // headers, body, addresses, branches
    compiles: Scenario -> bool)                             // every other field validates and compiles

  // ---- paths -------------------------------------------------------------------------------

  /** The path part of an ICAP URI. */
  function ExtractPath(uri: string): (r: string)
    ensures |r| > 0 && r[0] == '/'
  {
    FromFirst(TrimPrefix(TrimPrefix(uri, "icap://"), "icaps://"), '/')
  }

  /** The path a request is sharded by. */
  function LookupPath(uri: string): (r: string)
    ensures |r| > 0 && r[0] == '/'
    ensures forall c | c in r :: c != '?' && c != '#'
  {
    CutAt(ExtractPath(uri), {'?', '#'})
  }

  /** The path a request's endpoints are matched against: the query goes first, then the fragment. */
  function EndpointPath(uri: string): string {
    CutAt(CutAt(ExtractPath(uri), {'?'}), {'#'})
  }

  lemma MatchedPathIsShardedPath(uri: string)
    ensures EndpointPath(uri) == LookupPath(uri)
  {
    CutTwice(ExtractPath(uri), {'?'}, {'#'});
    assert {'?'} + {'#'} == {'?', '#'};
  }

  const SCHEME := "icap://"

  lemma SchemeIsTrimmed(rest: string)
    requires !("icaps://" <= rest)
    ensures ExtractPath(SCHEME + rest) == FromFirst(rest, '/')
  {
    assert (SCHEME + rest)[|SCHEME|..] == rest;
  }

  lemma HostIsNoScheme(host: string, rest: string)
    requires '/' !in host && host != "icaps:" && (rest == "" || rest[0] == '/')
    ensures !("icaps://" <= host + rest)
  {
    var s := "icaps://";
    if |host| > 6 {
      assert s[6] == '/' && (host + rest)[6] == host[6];
    } else if |host| < 6 {
      assert s[|host|] != '/' && (rest != "" ==> (host + rest)[|host|] == rest[0]);
    } else {
      assert s[..6] == "icaps:" && (host + rest)[..6] == host;
    }
  }

  /**
   The path of a URI is what stands between the host and the query or fragment, for every host; both the
   path a request is sharded by and the one its endpoints are matched against.
   */
  lemma PathOfUri(host: string, path: string, tail: string)
    requires '/' !in host && host != "icaps:"
    requires path != "" && path[0] == '/' && '?' !in path && '#' !in path
    requires tail == "" || tail[0] == '?' || tail[0] == '#'
    ensures LookupPath(SCHEME + host + path + tail) == path
    ensures EndpointPath(SCHEME + host + path + tail) == path
  {
    var uri := SCHEME + host + path + tail;
    assert uri == SCHEME + (host + (path + tail));
    HostIsNoScheme(host, path + tail);
    SchemeIsTrimmed(host + (path + tail));
    FromFirstJoined(host, path + tail, '/');
    CutBefore(path, tail, {'?', '#'});
    MatchedPathIsShardedPath(uri);
  }

  /** A URI without a path asks for the root. */
  lemma PathOfBareHost(host: string)
    requires '/' !in host
    ensures LookupPath(SCHEME + host) == "/" && EndpointPath(SCHEME + host) == "/"
  {
    assert "icaps://"[6] == '/';
    assert |host| > 6 ==> host[6] in host;
    SchemeIsTrimmed(host);
    FromFirstAbsent(host, '/');
    NothingToCut("/", {'?', '#'});
    MatchedPathIsShardedPath(SCHEME + host);
  }

  /** The scheme is read without regard to case, but only the lower-case one is recognised when the path is taken. */
  lemma PathNeedsLowerCaseScheme(scheme: string, host: string, path: string, tail: string)
    requires |scheme| == 5 && '/' !in scheme
    requires '/' !in host && '?' !in host && '#' !in host && host != "icaps:"
    requires path != "" && path[0] == '/' && '?' !in path && '#' !in path
    requires tail == "" || tail[0] == '?' || tail[0] == '#'
    ensures LookupPath(scheme + "//" + host + path + tail) == path <==> scheme == "icap:"
    ensures scheme != "icap:" ==> LookupPath(scheme + "//" + host + path + tail) == "//" + host + path
  {
    var uri := scheme + "//" + host + path + tail;
    if scheme == "icap:" {
      assert uri == SCHEME + host + path + tail;
      PathOfUri(host, path, tail);
    } else {
      var rest := "//" + host + path + tail;
      assert uri == scheme + rest;
      OtherScheme(scheme, rest);
      FromFirstJoined(scheme, rest, '/');
      CutBefore("//" + host + path, tail, {'?', '#'});
      assert rest == ("//" + host + path) + tail;
      assert |"//" + host + path| > |path|;
    }
  }

  lemma OtherScheme(scheme: string, rest: string)
    requires |scheme| == 5 && '/' !in scheme && scheme != "icap:" && rest != "" && rest[0] == '/'
    ensures ExtractPath(scheme + rest) == FromFirst(scheme + rest, '/')
  {
    var uri := scheme + rest;
    assert uri[..5] == scheme && uri[5] == '/';
    assert "icap://"[..5] == "icap:" && "icaps://"[5] == ':';
  }

  // ---- matching ----------------------------------------------------------------------------

  predicate IsRegexEndpoint(raw: string) {
    "re:" <= raw
  }

  /** One endpoint declaration against a path; a declaration without captures is literal. */
  predicate EndpointMatches(m: Matcher, raw: string, path: string) {
    if raw == "" then false
    else if IsRegexEndpoint(raw) || HasCapture(raw) then m.pattern(raw, path)
    else raw == path
  }

  predicate AnyEndpointMatches(m: Matcher, raws: seq<string>, path: string) {
    exists raw | raw in raws :: EndpointMatches(m, raw, path)
  }

  const EXACT_ROUTE_METHODS := ["REQMOD", "RESPMOD"]

  /** Method and endpoint part of the match: exact routes when there are any, else the two lists. */
  predicate RouteMatches(m: Matcher, rule: MatchRule, verb: string, path: string) {
    if |rule.routes| > 0 then
      verb in EXACT_ROUTE_METHODS && verb in rule.routes && AnyEndpointMatches(m, rule.routes[verb], path)
    else
      && (rule.methods == [] || verb in rule.methods)
      && (if rule.paths != [] then AnyEndpointMatches(m, rule.paths, path)
          else rule.path == "" || m.legacyPath(rule.path, path))
  }

  predicate HttpMatches(m: Matcher, rule: MatchRule, http: Option<HttpMessage>) {
    && (rule.httpMethod == "" || (http.Some? && http.value.verb == rule.httpMethod))
    && (rule.httpURL == "" ||
        (http.Some? &&
         if IsRegexEndpoint(rule.httpURL) then m.url(rule.httpURL, http.value.uri) else http.value.uri == rule.httpURL))
  }

  predicate HasDynamicRule(rule: MatchRule) {
    || |rule.headers| > 0
    || |rule.headerContains| > 0
    || |rule.httpHeaders| > 0
    || |rule.httpHeaderContains| > 0
    || rule.clientIP != ""
    || rule.cidrRanges != []
    || rule.bodyPattern != ""
  }

  predicate MatchesScenario(m: Matcher, s: Scenario, req: Request) {
    && RouteMatches(m, s.rule, req.verb, EndpointPath(req.uri))
    && HttpMatches(m, s.rule, req.httpRequest)
    && (HasDynamicRule(s.rule) || s.branches != [] ==> m.dynamic(s.rule, s.branches, req))
  }

  /** Whether a scenario turns the match cache off for its whole registry. */
  predicate DisablesMatchCache(s: Scenario) {
    || HasDynamicRule(s.rule)
    || (exists p | p in s.rule.paths :: !IsRegexEndpoint(p) && HasCapture(p))
    || s.branches != []
  }

  // ---- validation --------------------------------------------------------------------------

  /** The characters strings.TrimSpace trims. */
  predicate IsSpace(c: char) {
    || c in {' ', '\t', '\n', '\r', '\U{0B}', '\U{0C}', '\U{85}', '\U{A0}', '\U{1680}'}
    || '\U{2000}' <= c <= '\U{200A}'
    || c in {'\U{2028}', '\U{2029}', '\U{202F}', '\U{205F}', '\U{3000}'}
  }

  predicate IsBlank(s: string) {
    forall c | c in s :: IsSpace(c)
  }

  /** Exact routes name only REQMOD and RESPMOD, each with distinct non-blank endpoints. */
  predicate ValidRouteMap(routes: RouteMap) {
    && |routes| > 0
    && forall verb | verb in routes ::
         && verb in EXACT_ROUTE_METHODS
         && routes[verb] != []
         && (forall e | e in routes[verb] :: !IsBlank(e))
         && (forall i, j | 0 <= i < j < |routes[verb]| :: routes[verb][i] != routes[verb][j])
  }

  predicate Validates(m: Matcher, s: Scenario) {
    s.name != "" && (|s.rule.routes| > 0 ==> ValidRouteMap(s.rule.routes)) && m.compiles(s)
  }

  // ---- ranking -----------------------------------------------------------------------------

  predicate Outranks(left: Scenario, right: Scenario) {
    if left.priority != right.priority then left.priority > right.priority else left.order < right.order
  }

  /** The scenarios a request hits, as a function that a scan can be run over. */
  function Hits(m: Matcher, req: Request): Scenario -> bool {
    s => MatchesScenario(m, s, req)
  }

  /** One step of the scan the registries make: keep `best` unless `s` is hit and outranks it. */
  function Better(hit: Scenario -> bool, best: Option<Scenario>, s: Scenario): Option<Scenario> {
    if hit(s) && (best.None? || Outranks(s, best.value)) then Some(s) else best
  }

  /** The outcome of scanning `cands` from left to right, starting from `best`. */
  function BestMatch(hit: Scenario -> bool, cands: seq<Scenario>, best: Option<Scenario>): (r: Option<Scenario>) {
    if cands == [] then best
    else Better(hit, BestMatch(hit, cands[..|cands| - 1], best), cands[|cands| - 1])
  }

  /** `r` is a best match among `among`: nothing there that is hit outranks it. */
  ghost predicate IsBest(hit: Scenario -> bool, among: set<Scenario>, r: Option<Scenario>) {
    match r
    case None => forall s | s in among :: !hit(s)
    case Some(t) => t in among && hit(t) && forall s | s in among && hit(s) :: !Outranks(s, t)
  }

  function Elems<T>(s: seq<T>): set<T> {
    set x | x in s
  }

  /** A scan ends with a best match of everything it saw, in whatever order it saw it. */
  lemma {:induction false} ScanFindsBest(hit: Scenario -> bool, cands: seq<Scenario>)
    ensures IsBest(hit, Elems(cands), BestMatch(hit, cands, None))
  {
    if cands != [] {
      var init, last := cands[..|cands| - 1], cands[|cands| - 1];
      ScanFindsBest(hit, init);
      assert cands == init + [last];
      assert Elems(cands) == Elems(init) + {last};
    }
  }

  // ---- sets of scenarios -------------------------------------------------------------------

  ghost predicate NamesUnique(reg: set<Scenario>) {
    forall a, b | a in reg && b in reg && a.name == b.name :: a == b
  }

  ghost predicate OrdersDistinct(reg: set<Scenario>) {
    forall a, b | a in reg && b in reg && a.order == b.order :: a == b
  }

  /** Where orders are distinct there is only one best match. */
  lemma BestIsUnique(hit: Scenario -> bool, reg: set<Scenario>, a: Option<Scenario>, b: Option<Scenario>)
    requires OrdersDistinct(reg)
    requires IsBest(hit, reg, a) && IsBest(hit, reg, b)
    ensures a == b
  {
  }
}
