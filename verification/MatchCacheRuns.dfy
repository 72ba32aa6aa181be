/**
 The match cache over runs of lookups, stores and clears (internal/storage/sharded_scenario.go:1082-1184): it holds
 the keys used last, as many as its capacity, and a lookup finds exactly what was last stored for such a key.
 */
module MatchCacheRuns {
  import opened Basics
  import opened Wrappers
  import opened Scenarios
  import opened MatchCache

  datatype Op =
    | OpGet(key: string, generation: nat)
    | OpPut(key: string, scenario: Scenario, generation: nat)
    | OpClear

  function Step(l: seq<Entry>, cap: nat, op: Op): seq<Entry> {
    match op
    case OpGet(key, generation) => Get(l, key, generation).1
    case OpPut(key, s, generation) => Put(l, key, s, generation, cap)
    case OpClear => []
  }

  function Run(cap: nat, ops: seq<Op>): seq<Entry> {
    if ops == [] then [] else Step(Run(cap, ops[..|ops| - 1]), cap, ops[|ops| - 1])
  }

  /** A store uses its key, and so does a lookup that finds it. */
  predicate UsesKey(l: seq<Entry>, op: Op) {
    op.OpPut? || (op.OpGet? && Get(l, op.key, op.generation).0.Some?)
  }

  /** The keys used since the last Clear, in order. */
  function Uses(cap: nat, ops: seq<Op>): seq<string> {
    if ops == [] then []
    else
      var before, op := ops[..|ops| - 1], ops[|ops| - 1];
      if op.OpClear? then []
      else if UsesKey(Run(cap, before), op) then Uses(cap, before) + [op.key]
      else Uses(cap, before)
  }

  function Except(l: seq<string>, key: string): (r: seq<string>)
    ensures forall k :: k in r <==> k in l && k != key
    ensures key !in l ==> r == l
  {
    if l == [] then [] else if l[0] == key then Except(l[1..], key) else [l[0]] + Except(l[1..], key)
  }

  /** The keys of a log, each once, the one used last first. */
  function Recent(log: seq<string>): (r: seq<string>)
    ensures forall k :: k in r <==> k in log
  {
    if log == [] then []
    else
      assert log == log[..|log| - 1] + [log[|log| - 1]];
      [log[|log| - 1]] + Except(Recent(log[..|log| - 1]), log[|log| - 1])
  }

  function FirstOf(l: seq<string>, n: nat): seq<string> {
    if |l| <= n then l else l[..n]
  }

  function KeysOf(l: seq<Entry>): (r: seq<string>)
    ensures |r| == |l| && forall i | 0 <= i < |l| :: r[i] == l[i].key
  {
    seq(|l|, i requires 0 <= i < |l| => l[i].key)
  }

  lemma KeysOfCons(e: Entry, l: seq<Entry>)
    ensures KeysOf([e] + l) == [e.key] + KeysOf(l)
  {
  }

  lemma ExceptCons(first: string, l: seq<string>, key: string)
    ensures Except([first] + l, key) == if first == key then Except(l, key) else [first] + Except(l, key)
  {
    assert ([first] + l)[1..] == l;
  }

  lemma {:induction false} KeysExcept(l: seq<Entry>, key: string)
    ensures KeysOf(DropKey(l, key)) == Except(KeysOf(l), key)
  {
    if l == [] {
      assert KeysOf(l) == [];
    } else {
      KeysExcept(l[1..], key);
      assert l == [l[0]] + l[1..];
      KeysOfCons(l[0], l[1..]);
      ExceptCons(l[0].key, KeysOf(l[1..]), key);
      KeysOfCons(l[0], DropKey(l[1..], key));
      hide KeysOf, Except;
    }
  }

  lemma {:induction false} ExceptAt(l: seq<string>, i: nat)
    requires Distinct(l) && i < |l|
    ensures Except(l, l[i]) == l[..i] + l[i + 1..]
  {
    if i == 0 {
      assert l[0] !in l[1..];
    } else {
      assert l[1..][i - 1] == l[i] && l[0] != l[i];
      ExceptAt(l[1..], i - 1);
      CutInTail(l, i);
    }
  }

  lemma ExceptIsDistinct(l: seq<string>, key: string)
    requires Distinct(l)
    ensures Distinct(Except(l, key))
  {
    if key in l {
      var i :| 0 <= i < |l| && l[i] == key;
      ExceptAt(l, i);
    }
  }

  lemma FrontIsDistinct(l: seq<string>, key: string)
    requires Distinct(l) && key !in l
    ensures Distinct([key] + l)
  {
  }

  lemma {:induction false} RecentIsDistinct(log: seq<string>)
    ensures Distinct(Recent(log))
  {
    if log != [] {
      RecentIsDistinct(log[..|log| - 1]);
      ExceptIsDistinct(Recent(log[..|log| - 1]), log[|log| - 1]);
      FrontIsDistinct(Except(Recent(log[..|log| - 1]), log[|log| - 1]), log[|log| - 1]);
    }
  }

  /** Later uses stand in front of earlier ones. */
  predicate ByLastUse(l: seq<string>, log: seq<string>) {
    forall i, j | 0 <= i < j < |l| :: LastTouch(log, l[i]) > LastTouch(log, l[j])
  }

  lemma ExceptKeepsOrder(l: seq<string>, key: string, log: seq<string>)
    requires Distinct(l) && ByLastUse(l, log)
    ensures ByLastUse(Except(l, key), log)
  {
    hide LastTouch;
    if key in l {
      var i :| 0 <= i < |l| && l[i] == key;
      ExceptAt(l, i);
    }
  }

  lemma FrontByLastUse(l: seq<string>, key: string, log: seq<string>)
    requires ByLastUse(l, log) && key !in l
    ensures ByLastUse([key] + l, log + [key])
  {
    var l', log' := [key] + l, log + [key];
    forall k ensures LastTouch(log', k) == if k == key then |log'| else LastTouch(log, k) {
      LastTouchSnoc(log, key, k);
    }
    hide LastTouch;
    forall i, j | 0 <= i < j < |l'| ensures LastTouch(log', l'[i]) > LastTouch(log', l'[j]) {
      assert l'[j] == l[j - 1] && l[j - 1] in l;
      if i > 0 {
        assert l'[i] == l[i - 1] && l[i - 1] in l;
      }
    }
  }

  /** The recent keys stand in the order of their last use. */
  lemma {:induction false} RecentIsByLastUse(log: seq<string>)
    ensures ByLastUse(Recent(log), log)
  {
    if log != [] {
      var before, last := log[..|log| - 1], log[|log| - 1];
      assert log == before + [last];
      RecentIsByLastUse(before);
      RecentIsDistinct(before);
      ExceptKeepsOrder(Recent(before), last, before);
      FrontByLastUse(Except(Recent(before), last), last, before);
    }
  }

  /** The first ones after a use: a key among them comes to the front, another one takes the place of the last. */
  function UseFirst(first: seq<string>, n: nat, key: string): seq<string> {
    if key in first then [key] + Except(first, key)
    else if |first| + 1 > n then ([key] + first)[..|first|]
    else [key] + first
  }

  lemma CutThenFirst(l: seq<string>, n: nat, i: nat)
    requires i < n < |l|
    ensures (l[..i] + l[i + 1..])[..n - 1] == l[..n][..i] + l[..n][i + 1..]
  {
    var a, b := l[..i] + l[i + 1..], l[..n][..i] + l[..n][i + 1..];
    forall j | 0 <= j < n - 1 ensures a[j] == b[j] {
    }
  }

  lemma FirstOfCons(key: string, l: seq<string>, n: nat)
    requires 0 < n <= |l| + 1
    ensures FirstOf([key] + l, n) == [key] + l[..n - 1]
  {
  }

  lemma UseNear(l: seq<string>, n: nat, i: nat)
    requires Distinct(l) && i < |l| && i < n
    ensures FirstOf([l[i]] + Except(l, l[i]), n) == [l[i]] + Except(FirstOf(l, n), l[i])
  {
    ExceptAt(l, i);
    if |l| > n {
      assert l[..n][i] == l[i];
      ExceptAt(l[..n], i);
      CutThenFirst(l, n, i);
      hide Except;
      FirstOfCons(l[i], l[..i] + l[i + 1..], n);
    }
  }

  lemma UseFar(l: seq<string>, n: nat, key: string)
    requires Distinct(l) && key !in FirstOf(l, n)
    ensures FirstOf([key] + Except(l, key), n) == FirstOf([key] + FirstOf(l, n), n)
  {
    if key in l {
      var i :| 0 <= i < |l| && l[i] == key;
      assert forall j | 0 <= j < |FirstOf(l, n)| :: FirstOf(l, n)[j] == l[j];
      assert i >= n;
      ExceptAt(l, i);
      hide Except;
      assert (l[..i] + l[i + 1..])[..n] == l[..n];
    }
  }

  lemma UseAmongFirst(l: seq<string>, n: nat, key: string)
    requires Distinct(l)
    ensures FirstOf([key] + Except(l, key), n) == UseFirst(FirstOf(l, n), n, key)
  {
    var first := FirstOf(l, n);
    if key in first {
      var i :| 0 <= i < |first| && first[i] == key;
      assert l[i] == key;
      UseNear(l, n, i);
    } else {
      hide Except;
      UseFar(l, n, key);
    }
  }

  lemma RecentSnoc(log: seq<string>, key: string)
    ensures Recent(log + [key]) == [key] + Except(Recent(log), key)
  {
    assert (log + [key])[..|log|] == log;
  }

  lemma KeysHave(l: seq<Entry>, key: string)
    ensures HasKey(l, key) <==> key in KeysOf(l)
  {
    if HasKey(l, key) {
      var x :| x in l && x.key == key;
      var i :| 0 <= i < |l| && l[i] == x;
      assert KeysOf(l)[i] == key;
    }
  }

  lemma KeysOfPut(l: seq<Entry>, key: string, s: Scenario, generation: nat, cap: nat)
    ensures KeysOf(Put(l, key, s, generation, cap)) == UseFirst(KeysOf(l), cap, key)
  {
    var e := Entry(key, s, generation);
    KeysHave(l, key);
    KeysExcept(l, key);
    KeysOfCons(e, DropKey(l, key));
    KeysOfCons(e, l);
    hide DropKey, Except, HasKey;
    if !HasKey(l, key) && |l| + 1 > cap {
      assert KeysOf(([e] + l)[..|l|]) == KeysOf([e] + l)[..|l|];
    }
  }

  lemma KeysOfGet(l: seq<Entry>, key: string, generation: nat)
    ensures var (hit, after) := Get(l, key, generation);
      if hit.Some? then key in KeysOf(l) && KeysOf(after) == [key] + Except(KeysOf(l), key) else after == l
  {
    KeysHave(l, key);
    KeysExcept(l, key);
    var found := Find(l, key);
    if found.Some? {
      KeysOfCons(found.value, DropKey(l, key));
    }
    hide DropKey, Except, Find, HasKey, KeysOf;
  }

  /** After any run the cache holds exactly the keys used last, as many as fit, the one used last in front. */
  lemma {:induction false} HoldsLastUsed(cap: nat, ops: seq<Op>)
    ensures KeysOf(Run(cap, ops)) == FirstOf(Recent(Uses(cap, ops)), cap)
  {
    if ops == [] {
      assert KeysOf(Run(cap, ops)) == [];
    } else {
      var before, op := ops[..|ops| - 1], ops[|ops| - 1];
      HoldsLastUsed(cap, before);
      var l, log := Run(cap, before), Uses(cap, before);
      RecentIsDistinct(log);
      hide Recent, Except, Put, Get, FirstOf, DropKey;
      match op
      case OpGet(key, generation) =>
        KeysOfGet(l, key, generation);
        UseAmongFirst(Recent(log), cap, key);
        RecentSnoc(log, key);
      case OpPut(key, s, generation) =>
        KeysOfPut(l, key, s, generation, cap);
        UseAmongFirst(Recent(log), cap, key);
        RecentSnoc(log, key);
      case OpClear => NothingHeld(cap);
    }
  }

  lemma NothingHeld(cap: nat)
    ensures KeysOf([]) == FirstOf(Recent([]), cap) == []
  {
    assert KeysOf([]) == [];
  }

  /** The i-th operation stored this for the key, and none after it stores for the key or clears the cache. */
  predicate LastStored(ops: seq<Op>, i: nat, key: string, s: Scenario, generation: nat) {
    && i < |ops| && ops[i] == OpPut(key, s, generation)
    && forall j | i < j < |ops| :: !ops[j].OpClear? && !(ops[j].OpPut? && ops[j].key == key)
  }

  lemma StoredEarlier(before: seq<Op>, op: Op, i: nat, e: Entry)
    requires LastStored(before, i, e.key, e.scenario, e.generation)
    requires !op.OpClear? && !(op.OpPut? && op.key == e.key)
    ensures LastStored(before + [op], i, e.key, e.scenario, e.generation)
  {
  }

  /** What an entry holds is what was stored last for its key. */
  lemma {:induction false} EntryIsLastStored(cap: nat, ops: seq<Op>, e: Entry)
    requires e in Run(cap, ops)
    ensures exists i :: LastStored(ops, i, e.key, e.scenario, e.generation)
  {
    var before, op := ops[..|ops| - 1], ops[|ops| - 1];
    assert ops == before + [op];
    EntryBefore(Run(cap, before), cap, op, e);
    if op == OpPut(e.key, e.scenario, e.generation) {
      assert LastStored(ops, |ops| - 1, e.key, e.scenario, e.generation);
    } else {
      hide Run, LastStored;
      EntryIsLastStored(cap, before, e);
      var i :| LastStored(before, i, e.key, e.scenario, e.generation);
      StoredEarlier(before, op, i, e);
    }
  }

  lemma EntryBefore(l: seq<Entry>, cap: nat, op: Op, e: Entry)
    requires e in Step(l, cap, op)
    ensures op == OpPut(e.key, e.scenario, e.generation) || (e in l && !op.OpClear? && !(op.OpPut? && op.key == e.key))
  {
  }

  lemma LastStoredIsUnique(ops: seq<Op>, i: nat, j: nat, key: string, s: Scenario, t: Scenario, g: nat, h: nat)
    requires LastStored(ops, i, key, s, g) && LastStored(ops, j, key, t, h)
    ensures s == t && g == h
  {
  }

  /**
   A lookup after any run finds a scenario exactly when it was the last stored for the key, under the
   generation asked for, and the key is among those used last, as many as the cache has room for.
   */
  lemma HitExactly(cap: nat, ops: seq<Op>, key: string, generation: nat, s: Scenario)
    ensures Get(Run(cap, ops), key, generation).0 == Some(s) <==>
      && (exists i :: LastStored(ops, i, key, s, generation))
      && key in FirstOf(Recent(Uses(cap, ops)), cap)
  {
    var l := Run(cap, ops);
    HoldsLastUsed(cap, ops);
    KeysHave(l, key);
    hide Run, Uses, Recent, FirstOf;
    if HasKey(l, key) {
      var e := Find(l, key).value;
      EntryIsLastStored(cap, ops, e);
      var j :| LastStored(ops, j, e.key, e.scenario, e.generation);
      if i :| LastStored(ops, i, key, s, generation) {
        LastStoredIsUnique(ops, i, j, key, s, e.scenario, generation, e.generation);
      }
    }
  }
}
