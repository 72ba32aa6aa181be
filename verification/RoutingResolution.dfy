/**
 Routing of scenario files (internal/storage/scenario_v2.go:660-845; configs/README.md:173-204): how
 the defaults' and a scenario's `routes`, `method` and `endpoint` declarations become one route map
 or one pair of lists, proved against the table of overrides in the configuration guide.
 */
module RoutingResolution {
  import opened Basics
  import opened Wrappers
  import opened Text
  import opened Scenarios
  import opened IndexInvariant

  /** One YAML level: an absent key is None; a present one may be empty. */
  datatype Declaration = Declaration(
    routes: Option<RouteMap>,
    verbs: Option<seq<string>>,
    endpoints: Option<seq<string>>)

  datatype RoutingError =
    | DefaultsMixRoutes
    | ScenarioMixesRoutes
    | BadRouteMap
    | VerbNotInDefaults(verb: string)
    | MissingVerb
    | BadVerb
    | MissingEndpoint

  /** What the runtime scenario gets. Without routes, the two lists are a Cartesian product. */
  datatype Routing = Routing(routes: RouteMap, verbs: seq<string>, endpoints: seq<string>)

  const ICAP_METHODS := ["REQMOD", "RESPMOD", "OPTIONS"]

  /** The items of a list key; an absent key has none. */
  function Items(list: Option<seq<string>>): seq<string> {
    if list.Some? then list.value else []
  }

  // ---- resolution --------------------------------------------------------------------------

  function ValidateDeclarations(defaults: Declaration, entry: Declaration): Option<RoutingError> {
    if defaults.routes.Some? && (defaults.verbs.Some? || defaults.endpoints.Some?) then Some(DefaultsMixRoutes)
    else if entry.routes.Some? && (entry.verbs.Some? || entry.endpoints.Some?) then Some(ScenarioMixesRoutes)
    else if defaults.routes.Some? && !ValidRouteMap(defaults.routes.value) then Some(BadRouteMap)
    else if entry.routes.Some? && !ValidRouteMap(entry.routes.value) then Some(BadRouteMap)
    else None
  }

  /** The methods of a route map in the fixed order. */
  function OrderedVerbs(routes: RouteMap, order: seq<string>): (r: seq<string>)
    ensures forall v :: v in r <==> v in routes && v in order
  {
    if order == [] then []
    else (if order[0] in routes then [order[0]] else []) + OrderedVerbs(routes, order[1..])
  }

  /** `all` after `seen`, without what was seen already. */
  function AddNew(seen: seq<string>, all: seq<string>): (r: seq<string>)
    ensures forall e :: e in r <==> e in seen || e in all
    ensures Distinct(seen) ==> Distinct(r)
    decreases |all|
  {
    if all == [] then seen
    else if all[0] in seen then AddNew(seen, all[1..])
    else AddNew(seen + [all[0]], all[1..])
  }

  function AllEndpoints(routes: RouteMap, verbs: seq<string>, seen: seq<string>): seq<string>
    requires forall v | v in verbs :: v in routes
  {
    if verbs == [] then seen else AllEndpoints(routes, verbs[1..], AddNew(seen, routes[verbs[0]]))
  }

  function RoutingFromRouteMap(routes: RouteMap): Routing {
    var verbs := OrderedVerbs(routes, EXACT_ROUTE_METHODS);
    Routing(routes, verbs, AllEndpoints(routes, verbs, []))
  }

  function FromRouteMap(routes: RouteMap): Result<Routing, RoutingError> {
    if ValidRouteMap(routes) then Ok(RoutingFromRouteMap(routes)) else Err(BadRouteMap)
  }

  function ValidateLegacy(verbs: seq<string>, endpoints: seq<string>): Result<Routing, RoutingError> {
    if verbs == [] then Err(MissingVerb)
    else if exists v | v in verbs :: v !in ICAP_METHODS then Err(BadVerb)
    else if endpoints == [] then Err(MissingEndpoint)
    else Ok(Routing(map[], verbs, endpoints))
  }

  /** The defaults' routes of the given methods, or the first method they lack. */
  function Select(defaults: RouteMap, verbs: seq<string>): (r: Result<RouteMap, string>)
    ensures r.Ok? <==> forall v | v in verbs :: v in defaults
    ensures r.Ok? ==> forall v :: v in r.value <==> v in verbs
    ensures r.Ok? ==> forall v | v in r.value :: r.value[v] == defaults[v]
    ensures r.Err? ==> r.error in verbs && r.error !in defaults
  {
    if verbs == [] then Ok(map[])
    else
      var last := verbs[|verbs| - 1];
      match Select(defaults, verbs[..|verbs| - 1])
      case Err(v) => Err(v)
      case Ok(selected) => if last in defaults then Ok(selected[last := defaults[last]]) else Err(last)
  }

  function SelectDefaultRouteMethods(defaults: RouteMap, verbs: seq<string>): Result<Routing, RoutingError> {
    match Select(defaults, verbs)
    case Err(v) => Err(VerbNotInDefaults(v))
    case Ok(selected) => FromRouteMap(selected)
  }

  function ReplaceDefaultRouteEndpoints(defaults: RouteMap, endpoints: seq<string>): Result<Routing, RoutingError> {
    FromRouteMap(map v | v in defaults && v in EXACT_ROUTE_METHODS :: endpoints)
  }

  function ResolveFromDefaultRoutes(defaults: RouteMap, entry: Declaration): Result<Routing, RoutingError> {
    var verbs, endpoints := Items(entry.verbs), Items(entry.endpoints);
    if verbs == [] && endpoints == [] then Ok(RoutingFromRouteMap(defaults))
    else if verbs != [] && endpoints != [] then ValidateLegacy(verbs, endpoints)
    else if verbs != [] then SelectDefaultRouteMethods(defaults, verbs)
    else ReplaceDefaultRouteEndpoints(defaults, endpoints)
  }

  function Resolve(defaults: Declaration, entry: Declaration): Result<Routing, RoutingError> {
    var bad := ValidateDeclarations(defaults, entry);
    if bad.Some? then Err(bad.value)
    else if entry.routes.Some? then Ok(RoutingFromRouteMap(entry.routes.value))
    else if defaults.routes.Some? then ResolveFromDefaultRoutes(defaults.routes.value, entry)
    else
      ValidateLegacy(if Items(entry.verbs) != [] then entry.verbs.value else Items(defaults.verbs),
                     if Items(entry.endpoints) != [] then entry.endpoints.value else Items(defaults.endpoints))
  }

  // ---- the documented table ----------------------------------------------------------------

  /** The rows of the table: what the scenario's own fields override. */
  datatype Override = OwnRoutes | NoDefaultRoutes | InheritAll | SelectVerbs | ReplaceEndpoints | Product

  function OverrideOf(defaults: Declaration, entry: Declaration): Override {
    if entry.routes.Some? then OwnRoutes
    else if defaults.routes.None? then NoDefaultRoutes
    else match (Items(entry.verbs) != [], Items(entry.endpoints) != [])
      case (false, false) => InheritAll
      case (true, false) => SelectVerbs
      case (false, true) => ReplaceEndpoints
      case (true, true) => Product
  }

  /** Whether the map pairs this method with this endpoint. */
  predicate Pairs(routes: RouteMap, verb: string, path: string) {
    verb in routes && path in routes[verb]
  }

  /** Whether a method and path are one of the pairs the table gives. */
  predicate Declared(defaults: Declaration, entry: Declaration, verb: string, path: string) {
    match OverrideOf(defaults, entry)
    case OwnRoutes => Pairs(entry.routes.value, verb, path)
    case InheritAll => Pairs(defaults.routes.value, verb, path)
    case SelectVerbs => verb in Items(entry.verbs) && Pairs(defaults.routes.value, verb, path)
    case ReplaceEndpoints => verb in defaults.routes.value && path in Items(entry.endpoints)
    case Product => verb in Items(entry.verbs) && path in Items(entry.endpoints)
    case NoDefaultRoutes =>
      && verb in (if Items(entry.verbs) != [] then Items(entry.verbs) else Items(defaults.verbs))
      && path in (if Items(entry.endpoints) != [] then Items(entry.endpoints) else Items(defaults.endpoints))
  }

  // ---- the pairs a converted scenario accepts ----------------------------------------------

  /** The match rule ConvertV2ToScenarios builds, as far as routing goes. */
  function RuleOf(r: Routing): MatchRule {
    AnyRule.(routes := r.routes, methods := r.verbs, paths := r.endpoints)
  }

  predicate IsLiteral(raw: string) {
    !IsRegexEndpoint(raw) && !HasCapture(raw)
  }

  predicate AllLiteral(raws: seq<string>) {
    forall raw | raw in raws :: IsLiteral(raw)
  }

  predicate AllLiteralRoutes(routes: Option<RouteMap>) {
    routes.Some? ==> forall v | v in routes.value :: AllLiteral(routes.value[v])
  }

  predicate LiteralEndpoints(d: Declaration) {
    AllLiteralRoutes(d.routes) && AllLiteral(Items(d.endpoints))
  }

  lemma LiteralMatchesItself(m: Matcher, raws: seq<string>, path: string)
    requires AllLiteral(raws) && path != ""
    ensures AnyEndpointMatches(m, raws, path) <==> path in raws
  {
  }

  /** A routing with a route map accepts exactly the map's pairs. */
  lemma RouteMapAcceptsPairs(m: Matcher, routes: RouteMap, verb: string, path: string)
    requires ValidRouteMap(routes) && path != "" && forall v | v in routes :: AllLiteral(routes[v])
    ensures RouteMatches(m, RuleOf(RoutingFromRouteMap(routes)), verb, path) <==> Pairs(routes, verb, path)
  {
    hide AllLiteral;
    if verb in routes {
      LiteralMatchesItself(m, routes[verb], path);
    }
  }

  lemma ProductAcceptsProduct(m: Matcher, verbs: seq<string>, endpoints: seq<string>, verb: string, path: string)
    requires ValidateLegacy(verbs, endpoints).Ok? && AllLiteral(endpoints) && path != ""
    ensures RouteMatches(m, RuleOf(ValidateLegacy(verbs, endpoints).value), verb, path) <==>
            verb in verbs && path in endpoints
  {
    LiteralMatchesItself(m, endpoints, path);
  }

  /**
   For literal endpoints, a scenario that resolves accepts exactly the pairs of the table's row: no pair is
   lost, and none is added by combining lists that were not declared as a product.
   */
  lemma AcceptsExactlyTheTable(m: Matcher, defaults: Declaration, entry: Declaration, verb: string, path: string)
    requires Resolve(defaults, entry).Ok? && path != ""
    requires LiteralEndpoints(defaults) && LiteralEndpoints(entry)
    ensures RouteMatches(m, RuleOf(Resolve(defaults, entry).value), verb, path) <==> Declared(defaults, entry, verb, path)
  {
    hide AllLiteral, RouteMatches, RuleOf, RoutingFromRouteMap, ValidRouteMap;
    match OverrideOf(defaults, entry)
    case OwnRoutes => RouteMapAcceptsPairs(m, entry.routes.value, verb, path);
    case InheritAll => RouteMapAcceptsPairs(m, defaults.routes.value, verb, path);
    case SelectVerbs =>
      var selected := Select(defaults.routes.value, Items(entry.verbs)).value;
      RouteMapAcceptsPairs(m, selected, verb, path);
    case ReplaceEndpoints =>
      var replaced := map v | v in defaults.routes.value && v in EXACT_ROUTE_METHODS :: Items(entry.endpoints);
      DefaultVerbsAreExact(defaults.routes.value);
      RouteMapAcceptsPairs(m, replaced, verb, path);
    case Product => ProductAcceptsProduct(m, Items(entry.verbs), Items(entry.endpoints), verb, path);
    case NoDefaultRoutes =>
      var verbs := if Items(entry.verbs) != [] then Items(entry.verbs) else Items(defaults.verbs);
      var endpoints := if Items(entry.endpoints) != [] then Items(entry.endpoints) else Items(defaults.endpoints);
      ProductAcceptsProduct(m, verbs, endpoints, verb, path);
  }

  lemma DefaultVerbsAreExact(routes: RouteMap)
    requires ValidRouteMap(routes)
    ensures forall v | v in routes :: v in EXACT_ROUTE_METHODS
  {
  }

  // ---- which declarations resolve ----------------------------------------------------------

  /** A route map may stand on neither level with a method or endpoint key, and must be well formed. */
  predicate LevelIsValid(d: Declaration) {
    d.routes.Some? ==> d.verbs.None? && d.endpoints.None? && ValidRouteMap(d.routes.value)
  }

  predicate DistinctNonBlank(list: seq<string>) {
    (forall e | e in list :: !IsBlank(e)) && Distinct(list)
  }

  predicate ProductIsValid(verbs: seq<string>, endpoints: seq<string>) {
    verbs != [] && endpoints != [] && forall v | v in verbs :: v in ICAP_METHODS
  }

  predicate RowIsValid(defaults: Declaration, entry: Declaration) {
    match OverrideOf(defaults, entry)
    case OwnRoutes => true
    case InheritAll => true
    case SelectVerbs => forall v | v in Items(entry.verbs) :: v in defaults.routes.value
    case ReplaceEndpoints => DistinctNonBlank(Items(entry.endpoints))
    case Product => ProductIsValid(Items(entry.verbs), Items(entry.endpoints))
    case NoDefaultRoutes =>
      ProductIsValid(if Items(entry.verbs) != [] then Items(entry.verbs) else Items(defaults.verbs),
                     if Items(entry.endpoints) != [] then Items(entry.endpoints) else Items(defaults.endpoints))
  }

  lemma SelectionIsValid(defaults: RouteMap, verbs: seq<string>)
    requires ValidRouteMap(defaults) && verbs != [] && Select(defaults, verbs).Ok?
    ensures ValidRouteMap(Select(defaults, verbs).value)
  {
    var selected := Select(defaults, verbs).value;
    assert verbs[0] in verbs && verbs[0] in selected;
  }

  lemma ReplacementIsValid(defaults: RouteMap, endpoints: seq<string>)
    requires ValidRouteMap(defaults) && endpoints != []
    ensures ReplaceDefaultRouteEndpoints(defaults, endpoints).Ok? <==> DistinctNonBlank(endpoints)
  {
    hide IsBlank, RoutingFromRouteMap;
    var replaced := map v | v in defaults && v in EXACT_ROUTE_METHODS :: endpoints;
    assert replaced.Keys == defaults.Keys;
    var v :| v in defaults;
    assert v in replaced && replaced[v] == endpoints;
  }

  /** A declaration resolves exactly when both levels are well formed and the table's row can be applied. */
  lemma ResolvesExactlyWhenValid(defaults: Declaration, entry: Declaration)
    ensures Resolve(defaults, entry).Ok? <==>
            LevelIsValid(defaults) && LevelIsValid(entry) && RowIsValid(defaults, entry)
  {
    hide ValidRouteMap, RoutingFromRouteMap, ReplaceDefaultRouteEndpoints, DistinctNonBlank;
    if ValidateDeclarations(defaults, entry).None? {
      match OverrideOf(defaults, entry)
      case SelectVerbs =>
        if Select(defaults.routes.value, Items(entry.verbs)).Ok? {
          SelectionIsValid(defaults.routes.value, Items(entry.verbs));
        }
      case ReplaceEndpoints => ReplacementIsValid(defaults.routes.value, Items(entry.endpoints));
      case _ =>
    }
  }

  /**
   Where routes exist and the scenario does not give both lists, no accepted pair is new: its method is one
   the routes in force declare, and its endpoint is declared for that method or is the scenario's own.
   */
  lemma NoAccidentalProduct(m: Matcher, defaults: Declaration, entry: Declaration, verb: string, path: string)
    requires Resolve(defaults, entry).Ok? && path != "" && LiteralEndpoints(defaults) && LiteralEndpoints(entry)
    requires defaults.routes.Some? || entry.routes.Some?
    requires !(Items(entry.verbs) != [] && Items(entry.endpoints) != [])
    requires RouteMatches(m, RuleOf(Resolve(defaults, entry).value), verb, path)
    ensures var inForce := if entry.routes.Some? then entry.routes.value else defaults.routes.value;
      verb in inForce && (path in inForce[verb] || path in Items(entry.endpoints))
  {
    hide AllLiteral, RouteMatches, RuleOf, Resolve, LiteralEndpoints;
    AcceptsExactlyTheTable(m, defaults, entry, verb, path);
  }

  // ---- the flattened lists -----------------------------------------------------------------

  lemma {:induction false} AllEndpointsIsUnion(routes: RouteMap, verbs: seq<string>, seen: seq<string>)
    requires forall v | v in verbs :: v in routes
    requires Distinct(seen)
    ensures var r := AllEndpoints(routes, verbs, seen);
      && (forall e :: e in r <==> e in seen || exists v | v in verbs :: e in routes[v])
      && Distinct(r)
  {
    hide Distinct;
    if verbs != [] {
      var next := AddNew(seen, routes[verbs[0]]);
      AllEndpointsIsUnion(routes, verbs[1..], next);
      assert forall v :: v in verbs <==> v == verbs[0] || v in verbs[1..];
    }
  }

  /** Beside its map, a routed scenario lists its methods, and each endpoint of the map once. */
  lemma FlattenedLists(routes: RouteMap)
    requires ValidRouteMap(routes)
    ensures var r := RoutingFromRouteMap(routes);
      && (forall v :: v in r.verbs <==> v in routes)
      && (forall e :: e in r.endpoints <==> exists v | v in routes :: e in routes[v])
      && Distinct(r.endpoints)
  {
    AllEndpointsIsUnion(routes, OrderedVerbs(routes, EXACT_ROUTE_METHODS), []);
  }

  /** So every scenario that resolves is well formed for the registries: its routes are valid and listed. */
  lemma ConvertedIsWellFormed(defaults: Declaration, entry: Declaration, name: string, priority: int, order: nat)
    requires Resolve(defaults, entry).Ok?
    ensures WellFormed(Scenario(name, RuleOf(Resolve(defaults, entry).value), [], priority, order))
  {
    hide ValidRouteMap, RoutingFromRouteMap;
    match OverrideOf(defaults, entry)
    case OwnRoutes => RoutedIsWellFormed(entry.routes.value);
    case InheritAll => RoutedIsWellFormed(defaults.routes.value);
    case SelectVerbs => RoutedIsWellFormed(Select(defaults.routes.value, Items(entry.verbs)).value);
    case ReplaceEndpoints =>
      RoutedIsWellFormed(map v | v in defaults.routes.value && v in EXACT_ROUTE_METHODS :: Items(entry.endpoints));
    case _ =>
  }

  lemma RoutedIsWellFormed(routes: RouteMap)
    requires ValidRouteMap(routes)
    ensures RoutingFromRouteMap(routes).routes == routes
    ensures forall v | v in routes :: forall e | e in routes[v] :: e in RoutingFromRouteMap(routes).endpoints
  {
    FlattenedLists(routes);
  }
}
