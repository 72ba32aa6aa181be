/**
 The route cache (internal/router/cache.go): an LRU list of heap nodes with a map from key to node,
 expiry by age, and promotion of a node on every tenth access only. Each operation is atomic.
 The heap cache is proved against a list of entries in recency order; the list model is then
 proved to keep its shape, its account of entries, and the order of use over every run.
 */
module RouteCaching {
  import opened Basics
  import opened Wrappers

  /** A request handler, known by its identity. */
  datatype Handler = Handler(id: nat)

  datatype Entry = Entry(key: string, handler: Handler, stored: int, accesses: nat)

  /** Most recent entry first; `newPuts` and `dropped` count entries made and entries Clear threw away. */
  datatype Cache = Cache(entries: seq<Entry>, evictions: nat, hits: nat, misses: nat, newPuts: nat, dropped: nat)

  const DEFAULT_MAX_ENTRIES := 1000

  const EmptyCache := Cache([], 0, 0, 0, 0, 0)

  function BuildKey(verb: string, path: string): string {
    verb + [':'] + path
  }

  // ---- the cache as a list -----------------------------------------------------------------

  ghost predicate KeysDistinct(l: seq<Entry>) {
    forall i, j | 0 <= i < j < |l| :: l[i].key != l[j].key
  }

  /** Position of `key`, or the length of the list. */
  function IndexOf(l: seq<Entry>, key: string): (i: nat)
    ensures i <= |l|
    ensures i < |l| ==> l[i].key == key
    ensures forall j | 0 <= j < i :: l[j].key != key
  {
    if l == [] || l[0].key == key then 0 else 1 + IndexOf(l[1..], key)
  }

  predicate Has(l: seq<Entry>, key: string) {
    IndexOf(l, key) < |l|
  }

  function Without(l: seq<Entry>, i: nat): seq<Entry>
    requires i < |l|
  {
    l[..i] + l[i + 1..]
  }

  /** Move entry `i` to the front, as `e`. */
  function Front(l: seq<Entry>, i: nat, e: Entry): seq<Entry>
    requires i < |l|
  {
    [e] + Without(l, i)
  }

  predicate Expired(e: Entry, ttl: int, now: int) {
    ttl > 0 && now - e.stored > ttl
  }

  predicate Promotes(e: Entry) {
    (e.accesses + 1) % 10 == 0
  }

  function Lookup(c: Cache, key: string, ttl: int, now: int): (Cache, Option<Handler>) {
    var i := IndexOf(c.entries, key);
    if i == |c.entries| then (c.(misses := c.misses + 1), None)
    else
      var e := c.entries[i];
      if Expired(e, ttl, now) then
        (c.(entries := Without(c.entries, i), evictions := c.evictions + 1, misses := c.misses + 1), None)
      else
        var e' := e.(accesses := e.accesses + 1);
        var entries := if Promotes(e) then Front(c.entries, i, e') else c.entries[i := e'];
        (c.(entries := entries, hits := c.hits + 1), Some(e.handler))
  }

  function EvictLast(c: Cache): Cache {
    if c.entries == [] then c
    else c.(entries := c.entries[..|c.entries| - 1], evictions := c.evictions + 1)
  }

  function Store(c: Cache, key: string, h: Handler, max: nat, now: int): Cache {
    var i := IndexOf(c.entries, key);
    if i < |c.entries| then
      c.(entries := Front(c.entries, i, Entry(key, h, now, c.entries[i].accesses + 1)))
    else
      var room := if |c.entries| >= max then EvictLast(c) else c;
      room.(entries := [Entry(key, h, now, 1)] + room.entries, newPuts := room.newPuts + 1)
  }

  function Drop(c: Cache, key: string): Cache {
    var i := IndexOf(c.entries, key);
    if i == |c.entries| then c
    else c.(entries := Without(c.entries, i), evictions := c.evictions + 1)
  }

  function Emptied(c: Cache): Cache {
    c.(entries := [], dropped := c.dropped + |c.entries|)
  }

  // ---- runs --------------------------------------------------------------------------------

  datatype Op =
    | OpGet(key: string, now: int)
    | OpPut(key: string, handler: Handler, now: int)
    | OpDelete(key: string)
    | OpClear

  function Step(c: Cache, max: nat, ttl: int, op: Op): Cache {
    match op
    case OpGet(key, now) => Lookup(c, key, ttl, now).0
    case OpPut(key, h, now) => Store(c, key, h, max, now)
    case OpDelete(key) => Drop(c, key)
    case OpClear => Emptied(c)
  }

  function Run(max: nat, ttl: int, ops: seq<Op>): Cache {
    if ops == [] then EmptyCache else Step(Run(max, ttl, ops[..|ops| - 1]), max, ttl, ops[|ops| - 1])
  }

  /** The key an operation puts or promotes, if it does either. */
  function Touched(c: Cache, ttl: int, op: Op): Option<string> {
    match op
    case OpPut(key, _, _) => Some(key)
    case OpGet(key, now) =>
      var i := IndexOf(c.entries, key);
      if i < |c.entries| && !Expired(c.entries[i], ttl, now) && Promotes(c.entries[i]) then Some(key) else None
    case _ => None
  }

  /** The keys put or promoted by a run, oldest first. */
  function TouchLog(max: nat, ttl: int, ops: seq<Op>): seq<string> {
    if ops == [] then []
    else
      var before := ops[..|ops| - 1];
      TouchLog(max, ttl, before) +
        match Touched(Run(max, ttl, before), ttl, ops[|ops| - 1])
        case Some(key) => [key]
        case None => []
  }

  /** Entries stand in the order of their last use, each used at least once. */
  ghost predicate ByLastTouch(l: seq<Entry>, log: seq<string>) {
    && (forall i | 0 <= i < |l| :: LastTouch(log, l[i].key) > 0)
    && forall i, j | 0 <= i < j < |l| :: LastTouch(log, l[i].key) > LastTouch(log, l[j].key)
  }

  lemma WithoutKeeps(l: seq<Entry>, i: nat, log: seq<string>)
    requires i < |l|
    ensures KeysDistinct(l) ==> KeysDistinct(Without(l, i))
    ensures ByLastTouch(l, log) ==> ByLastTouch(Without(l, i), log)
    ensures KeysDistinct(l) ==> forall e | e in Without(l, i) :: e.key != l[i].key
  {
  }

  /** Changing an entry but not its key changes neither order nor keys. */
  lemma UpdateKeeps(l: seq<Entry>, i: nat, e: Entry, log: seq<string>)
    requires i < |l| && e.key == l[i].key
    ensures KeysDistinct(l) ==> KeysDistinct(l[i := e])
    ensures ByLastTouch(l, log) ==> ByLastTouch(l[i := e], log)
  {
    hide LastTouch;
    assert forall j | 0 <= j < |l| :: l[i := e][j].key == l[j].key;
  }

  lemma FrontDistinct(l: seq<Entry>, e: Entry)
    requires KeysDistinct(l) && forall x | x in l :: x.key != e.key
    ensures KeysDistinct([e] + l)
  {
    var l' := [e] + l;
    forall i, j | 0 <= i < j < |l'| ensures l'[i].key != l'[j].key {
      assert l'[j] == l[j - 1];
      if i > 0 {
        assert l'[i] == l[i - 1];
      }
    }
  }

  lemma FrontOrdered(l: seq<Entry>, e: Entry, log: seq<string>)
    requires ByLastTouch(l, log) && forall x | x in l :: x.key != e.key
    ensures ByLastTouch([e] + l, log + [e.key])
  {
    hide LastTouch;
    var l', log' := [e] + l, log + [e.key];
    LastTouchSnoc(log, e.key, e.key);
    forall i | 0 < i < |l'| ensures l'[i] == l[i - 1] && LastTouch(log', l'[i].key) == LastTouch(log, l[i - 1].key) {
      LastTouchSnoc(log, e.key, l[i - 1].key);
    }
    forall i, j | 0 <= i < j < |l'| ensures LastTouch(log', l'[i].key) > LastTouch(log', l'[j].key) {
      assert LastTouch(log', l'[j].key) == LastTouch(log, l[j - 1].key) <= |log|;
      if i > 0 {
        assert LastTouch(log, l[i - 1].key) > LastTouch(log, l[j - 1].key);
      }
    }
  }

  lemma FrontKeeps(l: seq<Entry>, e: Entry, log: seq<string>)
    requires KeysDistinct(l) && ByLastTouch(l, log) && forall x | x in l :: x.key != e.key
    ensures KeysDistinct([e] + l) && ByLastTouch([e] + l, log + [e.key])
  {
    FrontDistinct(l, e);
    FrontOrdered(l, e, log);
  }

  ghost predicate RunInv(c: Cache, max: nat, log: seq<string>) {
    && KeysDistinct(c.entries)
    && |c.entries| <= max
    && c.newPuts == |c.entries| + c.evictions + c.dropped
    && ByLastTouch(c.entries, log)
  }

  lemma PutKeeps(c: Cache, key: string, h: Handler, max: nat, now: int, log: seq<string>)
    requires RunInv(c, max, log) && max > 0
    ensures RunInv(Store(c, key, h, max, now), max, log + [key])
  {
    hide ByLastTouch, KeysDistinct;
    var i := IndexOf(c.entries, key);
    if i < |c.entries| {
      WithoutKeeps(c.entries, i, log);
      FrontKeeps(Without(c.entries, i), Entry(key, h, now, c.entries[i].accesses + 1), log);
    } else {
      var room := if |c.entries| >= max then EvictLast(c) else c;
      if |c.entries| >= max {
        WithoutKeeps(c.entries, |c.entries| - 1, log);
        assert room.entries == Without(c.entries, |c.entries| - 1);
      }
      FrontKeeps(room.entries, Entry(key, h, now, 1), log);
    }
  }

  lemma GetKeeps(c: Cache, key: string, max: nat, ttl: int, now: int, log: seq<string>)
    requires RunInv(c, max, log)
    ensures RunInv(Lookup(c, key, ttl, now).0, max,
                   log + if Touched(c, ttl, OpGet(key, now)).Some? then [key] else [])
  {
    hide ByLastTouch, KeysDistinct;
    var i := IndexOf(c.entries, key);
    if i < |c.entries| {
      WithoutKeeps(c.entries, i, log);
      var e := c.entries[i];
      UpdateKeeps(c.entries, i, e.(accesses := e.accesses + 1), log);
      if !Expired(e, ttl, now) && Promotes(e) {
        FrontKeeps(Without(c.entries, i), e.(accesses := e.accesses + 1), log);
      }
    }
    assert log + [] == log;
  }

  /**
   After every run: keys are distinct, the size is within the limit, every entry ever made is still
   there, was evicted, or was cleared, and the list is in the order of last put or promotion.
   */
  lemma {:induction false} EveryRunKeepsShape(max: nat, ttl: int, ops: seq<Op>)
    requires max > 0
    ensures RunInv(Run(max, ttl, ops), max, TouchLog(max, ttl, ops))
  {
    if ops != [] {
      var before, op := ops[..|ops| - 1], ops[|ops| - 1];
      EveryRunKeepsShape(max, ttl, before);
      var c, log := Run(max, ttl, before), TouchLog(max, ttl, before);
      match op
      case OpGet(key, now) => GetKeeps(c, key, max, ttl, now, log);
      case OpPut(key, h, now) => PutKeeps(c, key, h, max, now, log);
      case OpDelete(key) =>
        assert log + [] == log;
        if Has(c.entries, key) {
          WithoutKeeps(c.entries, IndexOf(c.entries, key), log);
        }
      case OpClear =>
        assert log + [] == log;
    }
  }

  /** A put that has to make room evicts the entry least recently put or promoted, and no other. */
  lemma VictimIsLeastRecent(max: nat, ttl: int, ops: seq<Op>, key: string, h: Handler, now: int)
    requires max > 0
    requires !Has(Run(max, ttl, ops).entries, key) && |Run(max, ttl, ops).entries| == max
    ensures var before, after := Run(max, ttl, ops).entries, Store(Run(max, ttl, ops), key, h, max, now).entries;
      && after[1..] == before[..max - 1]
      && !Has(after, before[max - 1].key)
      && forall i | 0 <= i < max - 1 ::
           LastTouch(TouchLog(max, ttl, ops), before[i].key) > LastTouch(TouchLog(max, ttl, ops), before[max - 1].key)
  {
    hide LastTouch, Run, TouchLog;
    EveryRunKeepsShape(max, ttl, ops);
    var c := Run(max, ttl, ops);
    var after := Store(c, key, h, max, now).entries;
    assert after == [Entry(key, h, now, 1)] + c.entries[..max - 1];
    assert forall j | 0 < j < max :: after[j] == c.entries[j - 1];
    assert c.entries[max - 1].key != key;
  }

  // ---- the cache on the heap ---------------------------------------------------------------

  class LRUNode {
    var prev: LRUNode?
    var next: LRUNode?
    const key: string
    var handler: Handler
    var stored: int
    var accesses: nat

    constructor (key: string, handler: Handler, stored: int)
      ensures this.key == key && this.handler == handler && this.stored == stored && accesses == 1
    {
      this.key, this.handler, this.stored, accesses := key, handler, stored, 1;
      prev, next := null, null;
    }

    ghost function Value(): Entry
      reads `handler, `stored, `accesses
    {
      Entry(key, handler, stored, accesses)
    }
  }

  class RouteCache {
    var cache: map<string, LRUNode>
    var head: LRUNode?
    var tail: LRUNode?
    const maxEntries: nat
    const ttl: int
    var hits: nat
    var misses: nat
    var evictions: nat
    ghost var newPuts: nat
    ghost var dropped: nat
    /** The nodes from head to tail. */
    ghost var nodes: seq<LRUNode>

    /** The chain runs from head to tail without repetition, and prev and next agree with it. */
    ghost predicate Linked()
      reads `head, `tail, `nodes, nodes`prev, nodes`next
    {
      && (forall i, j | 0 <= i < j < |nodes| :: nodes[i] != nodes[j])
      && (nodes == [] ==> head == null && tail == null)
      && (nodes != [] ==> head == nodes[0] && tail == nodes[|nodes| - 1])
      && (nodes != [] ==> nodes[0].prev == null && nodes[|nodes| - 1].next == null)
      && (forall i | 0 <= i < |nodes| - 1 :: nodes[i].next == nodes[i + 1])
      && (forall i | 0 < i < |nodes| :: nodes[i].prev == nodes[i - 1])
    }

    /** Nodes and map are in bijection: every node is the map's node for its key, and all the map's nodes are here. */
    static ghost predicate Bijection(m: map<string, LRUNode>, ns: seq<LRUNode>) {
      && |m| == |ns|
      && (forall n | n in ns :: n.key in m && m[n.key] == n)
      && (forall k | k in m :: m[k] in ns && m[k].key == k)
    }

    static lemma BijectionWithout(m: map<string, LRUNode>, ns: seq<LRUNode>, i: nat)
      requires Bijection(m, ns) && i < |ns| && forall j | 0 <= j < |ns| && j != i :: ns[j] != ns[i]
      ensures Bijection(m - {ns[i].key}, ns[..i] + ns[i + 1..])
      ensures forall n :: n in ns[..i] + ns[i + 1..] <==> n in ns && n != ns[i]
    {
      MembersWithout(ns, i);
    }

    static lemma BijectionCons(m: map<string, LRUNode>, ns: seq<LRUNode>, node: LRUNode)
      requires Bijection(m, ns) && node.key !in m
      ensures Bijection(m[node.key := node], [node] + ns)
    {
    }

    ghost predicate Valid()
      reads this, nodes
    {
      Linked() && Bijection(cache, nodes) && maxEntries > 0
    }

    static ghost function Values(ns: seq<LRUNode>): (r: seq<Entry>)
      reads ns`handler, ns`stored, ns`accesses
      ensures |r| == |ns|
    {
      if ns == [] then [] else [ns[0].Value()] + Values(ns[1..])
    }

    /** The entries in recency order, most recent first. */
    ghost function Entries(): (r: seq<Entry>)
      reads `nodes, nodes`handler, nodes`stored, nodes`accesses
      ensures |r| == |nodes|
    {
      Values(nodes)
    }

    ghost function State(): Cache
      reads this, nodes
    {
      Cache(Entries(), evictions, hits, misses, newPuts, dropped)
    }

    constructor (maxEntries: int, ttl: int)
      ensures Valid() && nodes == [] && State() == EmptyCache
      ensures this.maxEntries == (if maxEntries <= 0 then DEFAULT_MAX_ENTRIES else maxEntries) && this.ttl == ttl
    {
      this.maxEntries := if maxEntries <= 0 then DEFAULT_MAX_ENTRIES else maxEntries;
      this.ttl, cache, head, tail, nodes := ttl, map[], null, null, [];
      hits, misses, evictions, newPuts, dropped := 0, 0, 0, 0, 0;
    }

    static lemma {:induction false} ValuesAt(ns: seq<LRUNode>)
      ensures forall i | 0 <= i < |ns| :: Values(ns)[i] == ns[i].Value()
    {
      if ns != [] {
        ValuesAt(ns[1..]);
        forall i | 0 < i < |ns| ensures Values(ns)[i] == ns[i].Value() {
          assert ns[1..][i - 1] == ns[i];
        }
      }
    }

    static lemma ValuesCons(n: LRUNode, ns: seq<LRUNode>)
      ensures Values([n] + ns) == [n.Value()] + Values(ns)
    {
      assert ([n] + ns)[1..] == ns;
    }

    static lemma ValuesWithout(ns: seq<LRUNode>, i: nat)
      requires i < |ns|
      ensures Values(ns[..i] + ns[i + 1..]) == Without(Values(ns), i)
    {
      hide Values;
      ValuesAt(ns);
      ValuesAt(ns[..i] + ns[i + 1..]);
    }

    static lemma MembersWithout(ns: seq<LRUNode>, i: nat)
      requires i < |ns| && forall j | 0 <= j < |ns| && j != i :: ns[j] != ns[i]
      ensures forall n :: n in ns[..i] + ns[i + 1..] <==> n in ns && n != ns[i]
    {
      var rest := ns[..i] + ns[i + 1..];
      forall n | n in ns && n != ns[i] ensures n in rest {
        var j :| 0 <= j < |ns| && ns[j] == n;
        assert rest[if j < i then j else j - 1] == n;
      }
    }

    method AddToFront(node: LRUNode)
      requires Linked() && node !in nodes
      modifies `head, `tail, `nodes, node`prev, node`next, nodes`prev
      ensures Linked() && nodes == [node] + old(nodes)
      ensures Entries() == [node.Value()] + old(Entries())
    {
      hide Values;
      ghost var before := nodes;
      node.prev := null;
      node.next := head;
      if head != null {
        head.prev := node;
      }
      head := node;
      if tail == null {
        tail := node;
      }
      nodes := [node] + nodes;
      assert Entries() == [node.Value()] + Values(before) by {
        ValuesCons(node, before);
      }
    }

    /** Take node `i` of the chain out of the list. */
    method RemoveNode(node: LRUNode, ghost i: nat)
      requires Linked() && i < |nodes| && nodes[i] == node
      modifies `head, `tail, `nodes, nodes`prev, nodes`next
      ensures Linked() && nodes == old(nodes[..i] + nodes[i + 1..])
    {
      assert i > 0 ==> nodes[i - 1].next == node && nodes[i - 1] in nodes;
      assert i + 1 < |nodes| ==> nodes[i + 1].prev == node && nodes[i + 1] in nodes;
      if node.prev != null {
        node.prev.next := node.next;
      } else {
        head := node.next;
      }
      if node.next != null {
        node.next.prev := node.prev;
      } else {
        tail := node.prev;
      }
      node.prev := null;
      node.next := null;
      nodes := nodes[..i] + nodes[i + 1..];
    }

    method MoveToFront(node: LRUNode, ghost i: nat)
      requires Linked() && i < |nodes| && nodes[i] == node
      modifies `head, `tail, `nodes, nodes`prev, nodes`next
      ensures Linked() && |nodes| == old(|nodes|) && forall n :: n in nodes <==> n in old(nodes)
      ensures Entries() == Front(old(Entries()), i, node.Value())
    {
      hide Values;
      if node == head {
        assert i == 0;
        ValuesAt(nodes);
        return;
      }
      AtOnePlace(i);
      hide Linked, Without;
      MembersWithout(nodes, i);
      ValuesWithout(nodes, i);
      RemoveNode(node, i);
      AddToFront(node);
    }

    lemma TailIsLast()
      requires Linked()
      ensures tail == if nodes == [] then null else nodes[|nodes| - 1]
    {
    }

    static lemma ValuesAre(ns: seq<LRUNode>, es: seq<Entry>)
      requires |ns| == |es| && forall j | 0 <= j < |ns| :: ns[j].Value() == es[j]
      ensures Values(ns) == es
    {
      hide Values;
      ValuesAt(ns);
    }

    lemma AtOnePlace(i: nat)
      requires Linked() && i < |nodes|
      ensures forall j | 0 <= j < |nodes| && j != i :: nodes[j] != nodes[i]
    {
    }

    /** Where the node for `key` stands: at the position the list model gives. */
    lemma Position(key: string)
      requires Bijection(cache, nodes)
      ensures key in cache <==> Has(Entries(), key)
      ensures key in cache ==> nodes[IndexOf(Entries(), key)] == cache[key] && cache[key].key == key
      ensures key in cache ==> Entries()[IndexOf(Entries(), key)] == cache[key].Value()
      ensures key !in cache ==> IndexOf(Entries(), key) == |nodes|
    {
      hide Values;
      ValuesAt(nodes);
      var i := IndexOf(Entries(), key);
      if key in cache {
        var j :| 0 <= j < |nodes| && nodes[j] == cache[key];
        assert Entries()[j].key == key;
        assert nodes[i] in nodes && Entries()[i].key == nodes[i].key;
      }
    }

    /** Removing an entry by key. */
    method EvictKeyLocked(key: string)
      requires Valid()
      modifies `head, `tail, `nodes, `cache, `evictions, nodes`prev, nodes`next
      ensures Valid() && (forall n | n in nodes :: n in old(nodes))
      ensures State() == Drop(old(State()), key)
    {
      hide Linked, Values, Bijection, IndexOf, Without;
      Position(key);
      if key !in cache {
        return;
      }
      var node := cache[key];
      ghost var i := IndexOf(Entries(), key);
      AtOnePlace(i);
      BijectionWithout(cache, nodes, i);
      ValuesWithout(nodes, i);
      RemoveNode(node, i);
      cache := cache - {key};
      evictions := evictions + 1;
    }

    /** Dropping the tail. */
    method EvictLRU()
      requires Valid()
      modifies `head, `tail, `nodes, `cache, `evictions, nodes`prev, nodes`next
      ensures Valid() && (forall n | n in nodes :: n in old(nodes))
      ensures State() == EvictLast(old(State()))
    {
      hide Linked, Values, Bijection, Without;
      TailIsLast();
      if tail == null {
        return;
      }
      var key := tail.key;
      WithoutLast(Entries());
      AtOnePlace(|nodes| - 1);
      BijectionWithout(cache, nodes, |nodes| - 1);
      ValuesWithout(nodes, |nodes| - 1);
      RemoveNode(tail, |nodes| - 1);
      cache := cache - {key};
      evictions := evictions + 1;
    }

    method Get(verb: string, path: string, now: int) returns (h: Option<Handler>)
      requires Valid()
      modifies this, nodes
      ensures Valid() && forall n | n in nodes :: n in old(nodes)
      ensures (State(), h) == Lookup(old(State()), BuildKey(verb, path), ttl, now)
    {
      hide Linked, Bijection, Entries, IndexOf, Without, BuildKey;
      var key := BuildKey(verb, path);
      Position(key);
      if key !in cache {
        misses := misses + 1;
        return None;
      }
      var node := cache[key];
      if ttl > 0 && now - node.stored > ttl {
        EvictKeyLocked(key);
        misses := misses + 1;
        return None;
      }
      h := Some(node.handler);
      Touch(node, IndexOf(Entries(), key));
      hits := hits + 1;
    }

    /** Change what one node holds, but not its key or its place. */
    method Rewrite(node: LRUNode, ghost i: nat, h: Handler, stored: int, accesses: nat)
      requires Linked() && i < |nodes| && nodes[i] == node
      modifies node`handler, node`stored, node`accesses
      ensures Linked() && node.Value() == Entry(node.key, h, stored, accesses)
      ensures Entries() == old(Entries())[i := node.Value()]
    {
      AtOnePlace(i);
      hide Linked, Values;
      ghost var before := Entries();
      ValuesAt(nodes);
      node.handler, node.stored, node.accesses := h, stored, accesses;
      ValuesAre(nodes, before[i := Entry(node.key, h, stored, accesses)]);
    }

    /** Count the access, and promote the node on every tenth one. */
    method Touch(node: LRUNode, ghost i: nat)
      requires Valid() && i < |nodes| && nodes[i] == node
      modifies `head, `tail, `nodes, nodes
      ensures Valid() && (forall n :: n in nodes <==> n in old(nodes))
      ensures var e := old(node.Value()); var e' := e.(accesses := e.accesses + 1);
        Entries() == if Promotes(e) then Front(old(Entries()), i, e') else old(Entries())[i := e']
    {
      hide Linked, Values, Without, Entries;
      ghost var before := Entries();
      var count := node.accesses + 1;
      UpdateThenWithout(before, i, Entry(node.key, node.handler, node.stored, count));
      Rewrite(node, i, node.handler, node.stored, count);
      if count % 10 == 0 {
        MoveToFront(node, i);
      }
    }

    method Put(verb: string, path: string, h: Handler, now: int)
      requires Valid()
      modifies this, nodes
      ensures Valid() && forall n | n in nodes :: n in old(nodes) || fresh(n)
      ensures State() == Store(old(State()), BuildKey(verb, path), h, maxEntries, now)
    {
      hide Linked, Entries, IndexOf, BuildKey, EvictLast;
      var key := BuildKey(verb, path);
      Position(key);
      if key in cache {
        Refresh(cache[key], IndexOf(Entries(), key), h, now);
        return;
      }
      if |cache| >= maxEntries {
        EvictLRU();
        EvictedStaysOut(old(Entries()), key);
        Position(key);
        assert forall i | 0 <= i < |nodes| :: nodes[i] in nodes && nodes[i] in old(nodes);
      }
      Insert(key, h, now);
    }

    method Refresh(node: LRUNode, ghost i: nat, h: Handler, now: int)
      requires Valid() && i < |nodes| && nodes[i] == node
      modifies `head, `tail, `nodes, nodes
      ensures Valid() && (forall n :: n in nodes <==> n in old(nodes))
      ensures Entries() == Front(old(Entries()), i, Entry(node.key, h, now, old(node.accesses) + 1))
    {
      hide Linked, Values, Without, Entries;
      ghost var before := Entries();
      UpdateThenWithout(before, i, Entry(node.key, h, now, node.accesses + 1));
      Rewrite(node, i, h, now, node.accesses + 1);
      MoveToFront(node, i);
    }

    method Insert(key: string, h: Handler, now: int)
      requires Valid() && key !in cache
      modifies `head, `tail, `nodes, `cache, `newPuts, nodes`prev
      ensures Valid() && forall n | n in nodes :: n in old(nodes) || fresh(n)
      ensures Entries() == [Entry(key, h, now, 1)] + old(Entries()) && newPuts == old(newPuts) + 1
    {
      hide Linked, Values, Bijection;
      var node := new LRUNode(key, h, now);
      BijectionCons(cache, nodes, node);
      cache := cache[key := node];
      AddToFront(node);
      newPuts := newPuts + 1;
    }

    method Delete(verb: string, path: string)
      requires Valid()
      modifies this, nodes
      ensures Valid() && forall n | n in nodes :: n in old(nodes)
      ensures State() == Drop(old(State()), BuildKey(verb, path))
    {
      EvictKeyLocked(BuildKey(verb, path));
    }

    method Clear()
      requires Valid()
      modifies this
      ensures Valid() && nodes == []
      ensures State() == Emptied(old(State()))
    {
      dropped := dropped + |nodes|;
      cache := map[];
      head := null;
      tail := null;
      nodes := [];
    }
  }

  lemma WithoutLast(l: seq<Entry>)
    requires l != []
    ensures Without(l, |l| - 1) == l[..|l| - 1]
  {
  }

  lemma UpdateThenWithout(l: seq<Entry>, i: nat, e: Entry)
    requires i < |l|
    ensures Without(l[i := e], i) == Without(l, i)
  {
  }

  lemma EvictedStaysOut(l: seq<Entry>, key: string)
    requires !Has(l, key) && l != []
    ensures !Has(l[..|l| - 1], key)
  {
  }
}
