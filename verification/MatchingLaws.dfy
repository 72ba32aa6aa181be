/**
 Which requests a scenario matches (internal/storage/scenario.go:955-1243, 1459-1470), said of the URI as
 it is sent: host, path, and whatever query or fragment follows.
 */
module MatchingLaws {
  import opened Wrappers
  import opened Text
  import opened Scenarios

  /** A request for this path at some host, with or without a query or fragment. */
  ghost predicate AsksFor(req: Request, host: string, path: string, tail: string) {
    && req.uri == SCHEME + host + path + tail
    && '/' !in host && host != "icaps:"
    && path != "" && path[0] == '/' && '?' !in path && '#' !in path
    && (tail == "" || tail[0] == '?' || tail[0] == '#')
  }

  /** A regular expression or template fits by the regexp package, anything else only its own text. */
  ghost predicate Fits(m: Matcher, raw: string, path: string) {
    if "re:" <= raw || exists i, j :: 0 <= i <= j <= |raw| && IsToken(raw[i..j]) then m.pattern(raw, path)
    else raw == path
  }

  /** The rule asks about nothing but method, endpoint, and HTTP method and URL. */
  predicate IsStatic(rule: MatchRule) {
    rule == AnyRule.(routes := rule.routes, path := rule.path, paths := rule.paths, methods := rule.methods,
                     httpMethod := rule.httpMethod, httpURL := rule.httpURL)
  }

  lemma FitsIsMatch(m: Matcher, raw: string, path: string)
    requires path != ""
    ensures EndpointMatches(m, raw, path) <==> raw != "" && Fits(m, raw, path)
  {
    hide HasCapture;
    HasCaptureExactly(raw);
  }

  lemma AnyFits(m: Matcher, raws: seq<string>, path: string)
    requires path != ""
    ensures AnyEndpointMatches(m, raws, path) <==> exists raw | raw in raws :: raw != "" && Fits(m, raw, path)
  {
    hide EndpointMatches, Fits;
    forall raw ensures EndpointMatches(m, raw, path) <==> raw != "" && Fits(m, raw, path) {
      FitsIsMatch(m, raw, path);
    }
  }

  /** The route half: pairs when the scenario has exact routes, else a product of two lists. */
  ghost predicate RouteFits(m: Matcher, rule: MatchRule, verb: string, path: string) {
    if rule.routes != map[] then
      && verb in {"REQMOD", "RESPMOD"} && verb in rule.routes
      && exists raw | raw in rule.routes[verb] :: raw != "" && Fits(m, raw, path)
    else
      && (rule.methods == [] || verb in rule.methods)
      && (if rule.paths != [] then exists raw | raw in rule.paths :: raw != "" && Fits(m, raw, path)
          else rule.path == "" || m.legacyPath(rule.path, path))
  }

  lemma RouteFitsIsMatch(m: Matcher, rule: MatchRule, verb: string, path: string)
    requires path != ""
    ensures RouteMatches(m, rule, verb, path) <==> RouteFits(m, rule, verb, path)
  {
    hide AnyEndpointMatches, Fits;
    AnyFits(m, rule.paths, path);
    if verb in rule.routes {
      AnyFits(m, rule.routes[verb], path);
    }
  }

  predicate UrlFits(m: Matcher, rule: string, uri: string) {
    if "re:" <= rule then m.url(rule, uri) else uri == rule
  }

  lemma StaticHasNoDynamicRule(rule: MatchRule)
    ensures HasDynamicRule(rule) <==> !IsStatic(rule)
  {
  }

  /** What a scenario matches, whatever the host and whatever follows the path. */
  lemma MatchesExactly(m: Matcher, s: Scenario, req: Request, host: string, path: string, tail: string)
    requires AsksFor(req, host, path, tail)
    ensures MatchesScenario(m, s, req) <==>
      && RouteFits(m, s.rule, req.verb, path)
      && (s.rule.httpMethod != "" ==> req.httpRequest.Some? && req.httpRequest.value.verb == s.rule.httpMethod)
      && (s.rule.httpURL != "" ==> req.httpRequest.Some? && UrlFits(m, s.rule.httpURL, req.httpRequest.value.uri))
      && ((IsStatic(s.rule) && s.branches == []) || m.dynamic(s.rule, s.branches, req))
  {
    PathOfUri(host, path, tail);
    RouteFitsIsMatch(m, s.rule, req.verb, path);
    StaticHasNoDynamicRule(s.rule);
    hide EndpointPath, RouteMatches, RouteFits, HasDynamicRule, IsStatic;
  }

  /** A scenario for one literal path is hit by every request for it, and by no request for another path. */
  lemma LiteralEndpointMatches(m: Matcher, verb: string, endpoint: string, req: Request, host: string, path: string, tail: string)
    requires AsksFor(req, host, path, tail)
    requires endpoint != "" && !("re:" <= endpoint) && '{' !in endpoint
    ensures MatchesScenario(m, Scenario("one", AnyRule.(methods := [verb], paths := [endpoint]), [], 0, 0), req) <==>
      req.verb == verb && path == endpoint
  {
    var s := Scenario("one", AnyRule.(methods := [verb], paths := [endpoint]), [], 0, 0);
    MatchesExactly(m, s, req, host, path, tail);
    forall i, j | 0 <= i <= j <= |endpoint| ensures !IsToken(endpoint[i..j]) {
      assert i < j ==> endpoint[i..j][0] == endpoint[i];
    }
    assert endpoint in s.rule.paths;
    assert Fits(m, endpoint, path) <==> path == endpoint;
  }
}
