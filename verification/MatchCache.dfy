/**
 The LRU cache of match results (internal/storage/sharded_scenario.go:94-114, 1082-1184): a
 doubly linked list between two sentinels plus a map from key to node, proved against a plain list
 of entries in recency order.
 */
module MatchCache {
  import opened Basics
  import opened Wrappers
  import opened Scenarios

  datatype Entry = Entry(key: string, scenario: Scenario, generation: nat)

  // ---- the cache as a list -----------------------------------------------------------------

  predicate HasKey(l: seq<Entry>, key: string) {
    exists e | e in l :: e.key == key
  }

  ghost predicate KeysDistinct(l: seq<Entry>) {
    forall i, j | 0 <= i < j < |l| :: l[i].key != l[j].key
  }

  function DropKey(l: seq<Entry>, key: string): (r: seq<Entry>)
    ensures forall e :: e in r <==> e in l && e.key != key
  {
    if l == [] then [] else if l[0].key == key then DropKey(l[1..], key) else [l[0]] + DropKey(l[1..], key)
  }

  /** The entry for `key`, when there is one. */
  function Find(l: seq<Entry>, key: string): (r: Option<Entry>)
    ensures r.Some? ==> r.value in l && r.value.key == key
    ensures r.None? <==> !HasKey(l, key)
  {
    if l == [] then None else if l[0].key == key then Some(l[0]) else Find(l[1..], key)
  }

  /** A hit needs the key and the generation; it moves the entry to the front. */
  function Get(l: seq<Entry>, key: string, generation: nat): (Option<Scenario>, seq<Entry>) {
    match Find(l, key)
    case Some(e) => if e.generation == generation then (Some(e.scenario), [e] + DropKey(l, key)) else (None, l)
    case None => (None, l)
  }

  function Put(l: seq<Entry>, key: string, s: Scenario, generation: nat, cap: nat): seq<Entry> {
    var e := Entry(key, s, generation);
    if HasKey(l, key) then [e] + DropKey(l, key)
    else if |l| + 1 > cap then ([e] + l)[..|l|]
    else [e] + l
  }

  /** Looking up never invents an entry, and a hit is an entry of that key and generation. */
  lemma GetOnlyReturnsEntries(l: seq<Entry>, key: string, generation: nat)
    ensures forall e | e in Get(l, key, generation).1 :: e in l
    ensures Get(l, key, generation).0.Some? ==> Entry(key, Get(l, key, generation).0.value, generation) in l
  {
  }

  /** Storing adds at most the stored entry. */
  lemma PutOnlyAddsOne(l: seq<Entry>, key: string, s: Scenario, generation: nat, cap: nat)
    ensures forall e | e in Put(l, key, s, generation, cap) :: e in l || e == Entry(key, s, generation)
  {
  }

  lemma TailDistinct(l: seq<Entry>)
    requires KeysDistinct(l) && l != []
    ensures KeysDistinct(l[1..]) && forall e | e in l[1..] :: e.key != l[0].key
  {
  }

  lemma {:induction false} DropKeyAt(l: seq<Entry>, i: nat)
    requires KeysDistinct(l) && i < |l|
    ensures DropKey(l, l[i].key) == l[..i] + l[i + 1..]
    ensures Find(l, l[i].key) == Some(l[i])
  {
    hide KeysDistinct;
    TailDistinct(l);
    if i == 0 {
      DropAbsent(l[1..], l[0].key);
    } else {
      var tail := l[1..];
      assert tail[i - 1] == l[i] && tail[i - 1] in tail;
      DropKeyAt(tail, i - 1);
      CutInTail(l, i);
    }
  }

  lemma {:induction false} DropAbsent(l: seq<Entry>, key: string)
    requires forall e | e in l :: e.key != key
    ensures DropKey(l, key) == l
  {
    if l != [] {
      DropAbsent(l[1..], key);
    }
  }

  // ---- the cache on the heap ---------------------------------------------------------------

  class CacheNode {
    var key: string
    var scenario: Scenario
    var generation: nat
    var prev: CacheNode?
    var next: CacheNode?

    constructor (key: string, scenario: Scenario, generation: nat)
      ensures this.key == key && this.scenario == scenario && this.generation == generation
    {
      this.key, this.scenario, this.generation, prev, next := key, scenario, generation, null, null;
    }
  }

  class ScenarioMatchCache {
    var entries: map<string, CacheNode>
    const head: CacheNode
    const tail: CacheNode
    var size: nat
    const cap: nat
    /** The list from head to tail, sentinels included. */
    ghost var chain: seq<CacheNode>

    /** The chain runs from head to tail without repetition, and prev and next agree with it. */
    ghost predicate Linked()
      reads `chain, chain
      ensures Linked() ==> |chain| >= 2 && head in chain && tail in chain
    {
      && |chain| >= 2 && chain[0] == head && chain[|chain| - 1] == tail
      && (forall i, j | 0 <= i < j < |chain| :: chain[i] != chain[j])
      && (forall i | 0 <= i < |chain| - 1 :: chain[i].next == chain[i + 1])
      && (forall i | 0 < i < |chain| :: chain[i].prev == chain[i - 1])
    }

    /** Every node between the sentinels is the map's node for its key, and there are no others. */
    ghost predicate Mapped()
      reads this, chain
    {
      && (forall n | n in chain && n != head && n != tail :: n.key in entries && entries[n.key] == n)
      && (forall k | k in entries :: entries[k] in chain && entries[k].key == k && entries[k] != head && entries[k] != tail)
    }

    ghost predicate Valid()
      reads this, chain
    {
      Linked() && Mapped() && size == |chain| - 2 && size <= cap
    }

    static ghost function EntriesOf(nodes: seq<CacheNode>): (r: seq<Entry>)
      reads nodes
      ensures |r| == |nodes|
      ensures forall i | 0 <= i < |nodes| :: r[i] == Entry(nodes[i].key, nodes[i].scenario, nodes[i].generation)
    {
      seq(|nodes|, i requires 0 <= i < |nodes| reads nodes => Entry(nodes[i].key, nodes[i].scenario, nodes[i].generation))
    }

    /** The entries in recency order, most recent first. */
    ghost function Model(): (r: seq<Entry>)
      reads `chain, chain
      requires |chain| >= 2
      ensures |r| == |chain| - 2
      ensures forall i | 0 <= i < |r| ::
        r[i] == Entry(chain[i + 1].key, chain[i + 1].scenario, chain[i + 1].generation)
    {
      EntriesOf(chain[1..|chain| - 1])
    }

    constructor (capacity: nat)
      ensures Valid() && fresh(chain) && cap == capacity && Model() == []
    {
      var h := new CacheNode("", DefaultScenario, 0);
      var t := new CacheNode("", DefaultScenario, 0);
      head, tail, entries, size, cap := h, t, map[], 0, capacity;
      chain := [h, t];
      new;
      head.next := tail;
      tail.prev := head;
    }

    /** Take node `i` of the chain out of the list. */
    method Unlink(node: CacheNode, ghost i: nat)
      requires Linked() && 0 < i < |chain| - 1 && chain[i] == node
      modifies this`chain, (set n | n in chain)`prev, (set n | n in chain)`next
      ensures Linked()
      ensures forall n :: n in chain <==> n in old(chain) && n != node
      ensures Model() == old(Model()[..i - 1] + Model()[i..])
    {
      assert chain[i - 1].next == node && node.prev == chain[i - 1];
      assert chain[i + 1].prev == node && node.next == chain[i + 1];
      ghost var before := Model();
      node.prev.next := node.next;
      node.next.prev := node.prev;
      chain := chain[..i] + chain[i + 1..];
      assert Model() == before[..i - 1] + before[i..];
    }

    method AddToFront(node: CacheNode)
      requires Linked() && node !in chain
      modifies this`chain, (set n | n in chain)`prev, (set n | n in chain)`next, node`prev, node`next
      ensures Linked()
      ensures forall n :: n in chain <==> n in old(chain) || n == node
      ensures Model() == [Entry(node.key, node.scenario, node.generation)] + old(Model())
    {
      ghost var before := Model();
      LinkFront(node);
      hide Linked, Model, EntriesOf;
      assert Model() == [Entry(node.key, node.scenario, node.generation)] + before;
    }

    /** The links of putting a node behind the head. */
    method LinkFront(node: CacheNode)
      requires Linked() && node !in chain
      modifies this`chain, (set n | n in chain)`prev, (set n | n in chain)`next, node`prev, node`next
      ensures Linked() && chain == [head, node] + old(chain)[1..]
    {
      hide Model, EntriesOf;
      assert chain[0].next == chain[1] && chain[1].prev == chain[0];
      node.next := head.next;
      node.prev := head;
      head.next.prev := node;
      head.next := node;
      chain := [head, node] + chain[1..];
    }

    method MoveToFront(node: CacheNode, ghost i: nat)
      requires Linked() && 0 < i < |chain| - 1 && chain[i] == node
      modifies this`chain, (set n | n in chain)`prev, (set n | n in chain)`next
      ensures Linked()
      ensures forall n :: n in chain <==> n in old(chain)
      ensures Model() == [old(Model())[i - 1]] + old(Model()[..i - 1] + Model()[i..])
    {
      Unlink(node, i);
      AddToFront(node);
    }

    /** Where the map's node for `key` stands in the list. */
    lemma PositionOf(key: string) returns (i: nat)
      requires Valid() && key in entries
      ensures 0 < i < |chain| - 1 && chain[i] == entries[key]
      ensures Model()[i - 1].key == key
      ensures DropKey(Model(), key) == Model()[..i - 1] + Model()[i..]
      ensures Find(Model(), key) == Some(Model()[i - 1])
      ensures HasKey(Model(), key)
    {
      i :| 0 <= i < |chain| && chain[i] == entries[key];
      ModelKeysDistinct();
      assert 0 < i < |chain| - 1 && Model()[i - 1].key == key;
      hide Linked, Mapped, Model, EntriesOf, DropKey, Find, KeysDistinct;
      DropKeyAt(Model(), i - 1);
    }

    method GetGeneration(key: string, generation: nat) returns (r: Option<Scenario>)
      requires Valid()
      modifies this`chain, (set n | n in chain)`prev, (set n | n in chain)`next
      ensures Valid() && forall n :: n in chain <==> n in old(chain)
      ensures (r, Model()) == Get(old(Model()), key, generation)
    {
      hide Linked, Model, EntriesOf, DropKey, Find, HasKey;
      if key !in entries {
        KeyInModel(key);
        return None;
      }
      var node := entries[key];
      ghost var i := PositionOf(key);
      if node.generation != generation {
        return None;
      }
      MoveToFront(node, i);
      r := Some(node.scenario);
    }

    method PutGeneration(key: string, scenario: Scenario, generation: nat)
      requires Valid()
      modifies this`chain, this`entries, this`size, chain
      ensures Valid() && forall n | n in chain :: n in old(chain) || fresh(n)
      ensures Model() == Put(old(Model()), key, scenario, generation, cap)
    {
      hide Linked, Mapped, Model, EntriesOf, DropKey, HasKey;
      KeyInModel(key);
      if key in entries {
        Update(key, scenario, generation);
        return;
      }
      Insert(key, scenario, generation);
      if size > cap {
        Evict();
      }
    }

    /** Store under a new key. */
    method Insert(key: string, scenario: Scenario, generation: nat)
      requires Valid() && key !in entries
      modifies this`chain, this`entries, this`size, chain
      ensures Linked() && Mapped() && size == |chain| - 2 && size <= cap + 1
      ensures forall n | n in chain :: n in old(chain) || fresh(n)
      ensures Model() == [Entry(key, scenario, generation)] + old(Model())
    {
      hide Linked, Model, EntriesOf;
      assert |Model()| == size;
      var node := new CacheNode(key, scenario, generation);
      AddToFront(node);
      entries := entries[key := node];
      size := size + 1;
      assert |Model()| == |chain| - 2;
      assert forall n | n in chain && n != head && n != tail :: n.key in entries && entries[n.key] == n;
      assert forall k | k in entries :: entries[k] in chain && entries[k].key == k;
    }

    method Overwrite(node: CacheNode, ghost i: nat, scenario: Scenario, generation: nat)
      requires Linked() && 0 < i < |chain| - 1 && chain[i] == node
      modifies node`scenario, node`generation
      ensures Linked()
      ensures Model() == old(Model())[i - 1 := Entry(node.key, scenario, generation)]
    {
      hide Model, EntriesOf;
      node.scenario := scenario;
      node.generation := generation;
    }

    /** Store over an existing entry. */
    method Update(key: string, scenario: Scenario, generation: nat)
      requires Valid() && key in entries
      modifies this`chain, chain
      ensures Valid() && forall n :: n in chain <==> n in old(chain)
      ensures Model() == [Entry(key, scenario, generation)] + DropKey(old(Model()), key)
    {
      hide Linked, Model, EntriesOf, DropKey, Find, HasKey;
      var node := entries[key];
      ghost var i := PositionOf(key);
      Overwrite(node, i, scenario, generation);
      MoveToFront(node, i);
    }

    /** Drop the least recently used entry. */
    method Evict()
      requires Linked() && Mapped() && size == |chain| - 2
      modifies this`chain, this`entries, this`size, (set n | n in chain)`prev, (set n | n in chain)`next
      ensures Linked() && Mapped() && size == |chain| - 2
      ensures forall n | n in chain :: n in old(chain)
      ensures Model() == if old(Model()) == [] then [] else old(Model())[..|old(Model())| - 1]
    {
      assert chain[|chain| - 1].prev == chain[|chain| - 2];
      hide Linked, Model, EntriesOf;
      assert |Model()| == size;
      if tail.prev == head {
        return;
      }
      var node := tail.prev;
      Unlink(node, |chain| - 2);
      entries := entries - {node.key};
      size := size - 1;
      assert |Model()| == |chain| - 2;
      assert forall n | n in chain && n != head && n != tail :: n.key in entries && entries[n.key] == n;
    }

    method Clear()
      requires Valid()
      modifies this, head, tail
      ensures Valid() && chain == [head, tail] && Model() == []
    {
      entries := map[];
      head.next := tail;
      tail.prev := head;
      size := 0;
      chain := [head, tail];
    }

    lemma KeyInModel(key: string)
      requires Valid()
      ensures key in entries <==> HasKey(Model(), key)
    {
      if key in entries {
        var i :| 0 <= i < |chain| && chain[i] == entries[key];
        assert Model()[i - 1].key == key;
        assert Model()[i - 1] in Model();
      }
      if HasKey(Model(), key) {
        var e :| e in Model() && e.key == key;
        var i :| 0 <= i < |Model()| && Model()[i] == e;
        assert chain[i + 1] in chain && chain[i + 1].key == key;
      }
    }

    lemma ModelKeysDistinct()
      requires Valid()
      ensures KeysDistinct(Model())
    {
      forall i, j | 0 <= i < j < |Model()| ensures Model()[i].key != Model()[j].key {
        assert chain[i + 1] in chain && chain[j + 1] in chain;
      }
    }
  }
}
