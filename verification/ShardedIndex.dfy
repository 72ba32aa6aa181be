/**
 The contents of the sharded registry and its search, as values
 (internal/storage/sharded_scenario.go). Everything the registry's methods do to their shards,
 indexes and global list is one of the functions here.
 */
module ShardedIndex {
  import opened Wrappers
  import opened Text
  import opened Scenarios
  import opened LinearRegistry

  datatype Shard = Shard(index: map<string, seq<Scenario>>, scenarios: seq<Scenario>)

  datatype Contents = Contents(shards: seq<Shard>, global: seq<Scenario>, cacheDisabled: bool)

  datatype RawConfig = Config(matcher: Matcher, hash: string -> nat, shardCount: nat)

  type Config = c: RawConfig | c.shardCount > 0
    witness Config(Matcher((p, x) => false, (p, x) => false, (p, x) => false, (r, b, q) => false, s => true), s => 0, 1)

  /** The shard of a path; the hash itself may be any total function. */
  function HashString(cfg: Config, s: string): (i: nat)
    ensures i < cfg.shardCount
  {
    cfg.hash(s) % cfg.shardCount
  }

  // ---- placement ---------------------------------------------------------------------------

  predicate ExactRoutable(rule: MatchRule) {
    |rule.routes| > 0 &&
    forall verb | verb in EXACT_ROUTE_METHODS && verb in rule.routes ::
      forall p | p in rule.routes[verb] :: p != "" && !IsRegexEndpoint(p) && '{' !in p
  }

  /** The single literal endpoint of a scenario without exact routes, if it has one. */
  function ShardSafePath(rule: MatchRule): Option<string> {
    if |rule.paths| == 1 && rule.paths[0] != "" && !IsRegexEndpoint(rule.paths[0])
       && '{' !in rule.paths[0] && '}' !in rule.paths[0]
    then Some(rule.paths[0]) else None
  }

  predicate IsGlobal(s: Scenario) {
    !ExactRoutable(s.rule) && ShardSafePath(s.rule).None?
  }

  const PREFIX_STOPS := {'*', '?', '[', '(', '+', '$', '.'}

  /** The static part of a path pattern that goes into an index key. */
  function ExtractPathPrefix(pattern: string): string {
    CutAt(if pattern != "" && pattern[0] == '^' then pattern[1..] else pattern, PREFIX_STOPS)
  }

  function OrStar(s: string): string {
    if s == "" then "*" else s
  }

  function Key(verb: string, path: string): string {
    verb + ":" + path
  }

  function IndexPrefixes(rule: MatchRule): set<string> {
    if rule.paths != [] then set p | p in rule.paths :: OrStar(ExtractPathPrefix(p))
    else if rule.path != "" then {OrStar(ExtractPathPrefix(rule.path))}
    else {"*"}
  }

  function IndexMethods(rule: MatchRule): set<string> {
    if rule.methods == [] then {"*"} else set v | v in rule.methods
  }

  /** Index keys of a scenario placed by its endpoint list. */
  function IndexKeys(rule: MatchRule): set<string> {
    set p, v | p in IndexPrefixes(rule) && v in IndexMethods(rule) :: Key(v, p)
  }

  /** Index keys of a scenario placed by its exact routes, in shard `i`. */
  function ExactKeys(cfg: Config, rule: MatchRule, i: nat): set<string> {
    set v, p | v in EXACT_ROUTE_METHODS && v in rule.routes && p in rule.routes[v] && HashString(cfg, p) == i :: Key(v, p)
  }

  /** The keys under which shard `i` indexes `s`; a shard without keys for `s` does not hold it. */
  function KeysAt(cfg: Config, s: Scenario, i: nat): set<string> {
    if ExactRoutable(s.rule) then ExactKeys(cfg, s.rule, i)
    else match ShardSafePath(s.rule)
      case Some(p) => if HashString(cfg, p) == i then IndexKeys(s.rule) else {}
      case None => {}
  }

  // ---- contents ----------------------------------------------------------------------------

  function Lookup(index: map<string, seq<Scenario>>, key: string): seq<Scenario> {
    if key in index then index[key] else []
  }

  /** A fresh shard holds a copy of the default scenario that no index key leads to. */
  const FreshShard := Shard(map[], [DefaultScenario])

  function Fresh(cfg: Config): (r: Contents)
    ensures |r.shards| == cfg.shardCount
  {
    Contents(seq(cfg.shardCount, i => FreshShard), [], false)
  }

  function Empty(cfg: Config, cacheDisabled: bool): (r: Contents)
    ensures |r.shards| == cfg.shardCount
  {
    Contents(seq(cfg.shardCount, i => Shard(map[], [])), [], cacheDisabled)
  }

  function AddToShard(sh: Shard, s: Scenario, keys: set<string>): Shard {
    if keys == {} then sh
    else Shard(
      map k | k in sh.index.Keys + keys :: Lookup(sh.index, k) + if k in keys then [s] else [],
      sh.scenarios + [s])
  }

  /** Put one scenario where it belongs: global, or every shard that has keys for it. */
  function Place(cfg: Config, c: Contents, s: Scenario): (r: Contents)
    requires |c.shards| == cfg.shardCount
    ensures |r.shards| == cfg.shardCount
  {
    Contents(
      seq(cfg.shardCount, i requires 0 <= i < cfg.shardCount => AddToShard(c.shards[i], s, KeysAt(cfg, s, i))),
      if IsGlobal(s) then c.global + [s] else c.global,
      c.cacheDisabled)
  }

  function PlaceAll(cfg: Config, c: Contents, l: seq<Scenario>): (r: Contents)
    requires |c.shards| == cfg.shardCount
    ensures |r.shards| == cfg.shardCount
  {
    if l == [] then c else Place(cfg, PlaceAll(cfg, c, l[..|l| - 1]), l[|l| - 1])
  }

  predicate AnyDisables(l: seq<Scenario>) {
    exists s | s in l :: DisablesMatchCache(s)
  }

  /** The contents after loading the (already ranked) scenarios of a file. */
  function Loaded(cfg: Config, l: seq<Scenario>): (r: Contents)
    ensures |r.shards| == cfg.shardCount
  {
    PlaceAll(cfg, Empty(cfg, AnyDisables(l)), l)
  }

  /** `l` without every scenario called `name`. */
  function DropName(l: seq<Scenario>, name: string): (r: seq<Scenario>)
    ensures forall s :: s in r <==> s in l && s.name != name
    ensures !HasName(l, name) ==> r == l
  {
    if l == [] then []
    else
      var rest := DropName(l[..|l| - 1], name);
      assert l == l[..|l| - 1] + [l[|l| - 1]];
      if l[|l| - 1].name == name then rest else rest + [l[|l| - 1]]
  }

  /** A shard without `name`: emptied index entries disappear. */
  function RemoveFromShard(sh: Shard, name: string): Shard {
    Shard(
      map k | k in sh.index && (sh.index[k] == [] || DropName(sh.index[k], name) != []) :: DropName(sh.index[k], name),
      DropName(sh.scenarios, name))
  }

  predicate ShardHolds(sh: Shard, name: string) {
    HasName(sh.scenarios, name) || exists k | k in sh.index :: HasName(sh.index[k], name)
  }

  predicate Holds(c: Contents, name: string) {
    (exists i | 0 <= i < |c.shards| :: ShardHolds(c.shards[i], name)) || HasName(c.global, name)
  }

  function RemoveFrom(c: Contents, name: string): (r: Contents)
    ensures |r.shards| == |c.shards|
  {
    var shards := seq(|c.shards|, i requires 0 <= i < |c.shards| => RemoveFromShard(c.shards[i], name));
    var global := RemoveFirst(c.global, name);
    Contents(shards, global, RegistryDisables(shards, global))
  }

  predicate RegistryDisables(shards: seq<Shard>, global: seq<Scenario>) {
    (exists sh | sh in shards :: AnyDisables(sh.scenarios)) || AnyDisables(global)
  }

  /** Remove a name; nothing changes when nobody has it. */
  function Removed(c: Contents, name: string): (r: Contents)
    ensures |r.shards| == |c.shards|
  {
    if Holds(c, name) then RemoveFrom(c, name) else c
  }

  function AllScenarios(shards: seq<Shard>): seq<Scenario> {
    if shards == [] then [] else AllScenarios(shards[..|shards| - 1]) + shards[|shards| - 1].scenarios
  }

  /** The first occurrences in `l`; only the first scenario called "default" is kept. */
  function Unique(l: seq<Scenario>): seq<Scenario> {
    if l == [] then []
    else
      var before := Unique(l[..|l| - 1]);
      var last := l[|l| - 1];
      if last in before || (last.name == DEFAULT_NAME && HasName(before, DEFAULT_NAME)) then before
      else before + [last]
  }

  function ListOf(c: Contents): seq<Scenario> {
    SortByRank(Unique(AllScenarios(c.shards) + c.global))
  }

  function Added(cfg: Config, c: Contents, s: Scenario): (r: Contents)
    requires |c.shards| == cfg.shardCount
    ensures |r.shards| == cfg.shardCount
  {
    var s' := s.(order := OrderForAdd(ListOf(c), s.name));
    var placed := Place(cfg, Removed(c, s.name), s');
    placed.(cacheDisabled := placed.cacheDisabled || DisablesMatchCache(s'))
  }

  // ---- search ------------------------------------------------------------------------------

  /** Keys for the enclosing directories of `path`, from the longest to the shortest. */
  function PrefixKeys(verb: string, path: string, i: nat): (r: seq<string>)
    requires i <= |path|
    ensures forall k :: k in r <==> exists j :: 0 < j < i && path[j] == '/' && k == Key(verb, path[..j])
  {
    if i <= 1 then []
    else
      var rest := PrefixKeys(verb, path, i - 1);
      if path[i - 1] == '/' then [Key(verb, path[..i - 1])] + rest else rest
  }

  function SearchKeys(req: Request): seq<string> {
    var verb := OrStar(req.verb);
    var path := LookupPath(req.uri);
    [Key(verb, path), Key(verb, "*"), Key("*", path), "*:*"] + PrefixKeys(verb, path, |path|)
  }

  function Candidates(index: map<string, seq<Scenario>>, keys: seq<string>): seq<Scenario> {
    if keys == [] then [] else Candidates(index, keys[..|keys| - 1]) + Lookup(index, keys[|keys| - 1])
  }

  function ShardFor(cfg: Config, req: Request): (i: nat)
    ensures i < cfg.shardCount
  {
    HashString(cfg, LookupPath(req.uri))
  }

  /** Best match through the index of one shard. */
  function IndexSearch(cfg: Config, index: map<string, seq<Scenario>>, req: Request): Option<Scenario> {
    BestMatch(Hits(cfg.matcher, req), Unique(Candidates(index, SearchKeys(req))), None)
  }

  /** Best match in a list of scenarios, skipping repetitions. */
  function ScanUnique(cfg: Config, l: seq<Scenario>, req: Request): Option<Scenario> {
    BestMatch(Hits(cfg.matcher, req), Unique(l), None)
  }

  function GlobalSearch(cfg: Config, global: seq<Scenario>, req: Request): Option<Scenario> {
    BestMatch(Hits(cfg.matcher, req), global, None)
  }

  /** The global candidate wins when it outranks what the shards gave. */
  function Combine(shard: Option<Scenario>, global: Option<Scenario>): Option<Scenario> {
    if global.None? then shard
    else if shard.None? || Outranks(global.value, shard.value) then global else shard
  }

  /** Indexed search, full scan when it finds nothing, then the global list. */
  function Answer(cfg: Config, c: Contents, req: Request): Option<Scenario>
    requires |c.shards| == cfg.shardCount
  {
    var indexed := IndexSearch(cfg, c.shards[ShardFor(cfg, req)].index, req);
    var found := if indexed.Some? then indexed else ScanUnique(cfg, AllScenarios(c.shards), req);
    Combine(found, GlobalSearch(cfg, c.global, req))
  }

  function OrDefault(o: Option<Scenario>): Scenario {
    if o.Some? then o.value else DefaultScenario
  }
}
