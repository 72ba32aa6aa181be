/**
 What a user of the route cache sees over runs (internal/router/cache.go): a hit is the handler last put for the
 key, within its age limit; an entry put is found again as long as it can be; every tenth use promotes.
 */
module RouteCacheLaws {
  import opened Basics
  import opened Wrappers
  import opened RouteCaching

  // ---- a hit is the last put, in time ------------------------------------------------------

  /** Up to the very moment of the age limit; a limit of zero or less is none. */
  predicate InTime(ttl: int, at: int, now: int) {
    ttl <= 0 || now <= at + ttl
  }

  /** The operation takes away or replaces what is stored for the key. */
  predicate Ends(op: Op, key: string) {
    op.OpClear? || (op.OpDelete? && op.key == key) || (op.OpPut? && op.key == key)
  }

  /** The i-th operation put this handler at this time, and none after it takes it away. */
  predicate LastPut(ops: seq<Op>, i: nat, key: string, h: Handler, at: int) {
    i < |ops| && ops[i] == OpPut(key, h, at) && forall j | i < j < |ops| :: !Ends(ops[j], key)
  }

  lemma EntryBefore(c: Cache, max: nat, ttl: int, op: Op, e: Entry)
    requires KeysDistinct(c.entries) && e in Step(c, max, ttl, op).entries
    ensures op == OpPut(e.key, e.handler, e.stored)
      || (!Ends(op, e.key) && exists was | was in c.entries :: was.key == e.key && was.handler == e.handler && was.stored == e.stored)
  {
    match op
    case OpGet(key, now) =>
      var i := IndexOf(c.entries, key);
      if i < |c.entries| && !Expired(c.entries[i], ttl, now) && e !in c.entries {
        assert c.entries[i] in c.entries && e == c.entries[i].(accesses := c.entries[i].accesses + 1);
      } else {
        assert e in c.entries;
      }
    case OpPut(key, h, now) =>
      if e != Step(c, max, ttl, op).entries[0] {
        WithoutKey(c, key, e, max, h, now);
      }
    case OpDelete(key) =>
      var i := IndexOf(c.entries, key);
      assert e in c.entries;
      assert i < |c.entries| ==> e in Without(c.entries, i);
    case OpClear =>
  }

  lemma WithoutKey(c: Cache, key: string, e: Entry, max: nat, h: Handler, now: int)
    requires KeysDistinct(c.entries) && e in Store(c, key, h, max, now).entries
    requires e != Store(c, key, h, max, now).entries[0]
    ensures e in c.entries && e.key != key
  {
    var after := Store(c, key, h, max, now).entries;
    assert e in after[1..];
  }

  lemma LaterPut(before: seq<Op>, op: Op, i: nat, key: string, h: Handler, at: int)
    requires LastPut(before, i, key, h, at) && !Ends(op, key)
    ensures LastPut(before + [op], i, key, h, at)
  {
  }

  lemma {:induction false} EntryIsLastPut(max: nat, ttl: int, ops: seq<Op>, e: Entry)
    requires max > 0 && e in Run(max, ttl, ops).entries
    ensures exists i :: LastPut(ops, i, e.key, e.handler, e.stored)
  {
    var before, op := ops[..|ops| - 1], ops[|ops| - 1];
    assert ops == before + [op];
    EveryRunKeepsShape(max, ttl, before);
    var c := Run(max, ttl, before);
    EntryBefore(c, max, ttl, op, e);
    hide Run, LastPut, Step, Ends, KeysDistinct;
    if op == OpPut(e.key, e.handler, e.stored) {
      PutNow(before, op);
    } else {
      var was :| was in c.entries && was.key == e.key && was.handler == e.handler && was.stored == e.stored;
      EntryIsLastPut(max, ttl, before, was);
      var i :| LastPut(before, i, e.key, e.handler, e.stored);
      LaterPut(before, op, i, e.key, e.handler, e.stored);
    }
  }

  lemma PutNow(before: seq<Op>, op: Op)
    requires op.OpPut?
    ensures LastPut(before + [op], |before|, op.key, op.handler, op.now)
  {
  }

  /** A lookup after any run finds only what was put last for the key, and only within the age limit. */
  lemma HitIsLastPutInTime(max: nat, ttl: int, ops: seq<Op>, key: string, now: int)
    requires max > 0 && Lookup(Run(max, ttl, ops), key, ttl, now).1.Some?
    ensures var h := Lookup(Run(max, ttl, ops), key, ttl, now).1.value;
      exists i, at :: LastPut(ops, i, key, h, at) && InTime(ttl, at, now)
  {
    var c := Run(max, ttl, ops);
    var e := c.entries[IndexOf(c.entries, key)];
    assert e in c.entries;
    EntryIsLastPut(max, ttl, ops, e);
  }

  /** And it finds it whenever an entry is there and in time, and never after. */
  lemma FoundExactlyInTime(max: nat, ttl: int, ops: seq<Op>, e: Entry, now: int)
    requires max > 0 && e in Run(max, ttl, ops).entries
    ensures Lookup(Run(max, ttl, ops), e.key, ttl, now).1 ==
      if InTime(ttl, e.stored, now) then Some(e.handler) else None
  {
    EveryRunKeepsShape(max, ttl, ops);
    hide Run, TouchLog;
    var l := Run(max, ttl, ops).entries;
    var i :| 0 <= i < |l| && l[i] == e;
    assert IndexOf(l, e.key) == i;
  }

  // ---- what is put is found again ----------------------------------------------------------

  /** The operation neither takes the entry away nor looks it up after its time. */
  predicate Spares(op: Op, key: string, ttl: int, at: int) {
    !Ends(op, key) && (op.OpGet? && op.key == key ==> InTime(ttl, at, op.now))
  }

  /** The entry stands at place `i`. */
  predicate At(l: seq<Entry>, i: nat, key: string, h: Handler, at: int) {
    i < |l| && l[i].key == key && l[i].handler == h && l[i].stored == at
  }

  lemma WithoutMoves(l: seq<Entry>, x: nat, i: nat)
    requires x < |l| && i < |l| && x != i
    ensures var i' := if x < i then i - 1 else i; i' < |Without(l, x)| && Without(l, x)[i'] == l[i]
  {
  }

  lemma FrontMoves(l: seq<Entry>, x: nat, i: nat, e: Entry)
    requires x < |l| && i < |l|
    ensures var i' := if x == i then 0 else if x < i then i else i + 1;
      i' < |Front(l, x, e)| && Front(l, x, e)[i'] == if x == i then e else l[i]
  {
    if x != i {
      WithoutMoves(l, x, i);
    }
  }

  /** A lookup moves an entry it spares at most one place back. */
  lemma GetMoves(c: Cache, ttl: int, k: string, now: int, i: nat, key: string, h: Handler, at: int) returns (i': nat)
    requires KeysDistinct(c.entries) && At(c.entries, i, key, h, at) && (k == key ==> InTime(ttl, at, now))
    ensures i' <= i + 1 && At(Lookup(c, k, ttl, now).0.entries, i', key, h, at)
  {
    var l := c.entries;
    var x := IndexOf(l, k);
    if x == |l| {
      return i;
    }
    assert x == i <==> k == key;
    if Expired(l[x], ttl, now) {
      WithoutMoves(l, x, i);
      i' := if x < i then i - 1 else i;
    } else if Promotes(l[x]) {
      FrontMoves(l, x, i, l[x].(accesses := l[x].accesses + 1));
      i' := if x == i then 0 else if x < i then i else i + 1;
    } else {
      i' := i;
    }
  }

  /** So does a put of another key, if the entry is not the one to make room. */
  lemma PutMoves(c: Cache, max: nat, k: string, g: Handler, now: int, i: nat, key: string, h: Handler, at: int) returns (i': nat)
    requires At(c.entries, i, key, h, at) && k != key && i + 1 < max && |c.entries| <= max
    ensures i' <= i + 1 && At(Store(c, k, g, max, now).entries, i', key, h, at)
  {
    var l := c.entries;
    var x := IndexOf(l, k);
    if x < |l| {
      FrontMoves(l, x, i, Entry(k, g, now, l[x].accesses + 1));
      i' := if x < i then i else i + 1;
    } else {
      i' := i + 1;
    }
  }

  lemma DropMoves(c: Cache, k: string, i: nat, key: string, h: Handler, at: int) returns (i': nat)
    requires At(c.entries, i, key, h, at) && k != key
    ensures i' <= i && At(Drop(c, k).entries, i', key, h, at)
  {
    var x := IndexOf(c.entries, k);
    i' := i;
    if x < |c.entries| {
      WithoutMoves(c.entries, x, i);
      i' := if x < i then i - 1 else i;
    }
  }

  lemma StepMoves(c: Cache, max: nat, ttl: int, op: Op, i: nat, key: string, h: Handler, at: int) returns (i': nat)
    requires KeysDistinct(c.entries) && |c.entries| <= max && At(c.entries, i, key, h, at) && i + 1 < max
    requires Spares(op, key, ttl, at)
    ensures i' <= i + 1 && At(Step(c, max, ttl, op).entries, i', key, h, at)
  {
    hide Lookup, Store, Drop, At, KeysDistinct;
    match op
    case OpGet(k, now) => i' := GetMoves(c, ttl, k, now, i, key, h, at);
    case OpPut(k, g, now) => i' := PutMoves(c, max, k, g, now, i, key, h, at);
    case OpDelete(k) => i' := DropMoves(c, k, i, key, h, at);
    case OpClear => assert false;
  }

  lemma PutIsFirst(c: Cache, max: nat, key: string, h: Handler, at: int)
    ensures At(Store(c, key, h, max, at).entries, 0, key, h, at)
  {
  }

  lemma RunSnoc(max: nat, ttl: int, ops: seq<Op>, op: Op)
    ensures Run(max, ttl, ops + [op]) == Step(Run(max, ttl, ops), max, ttl, op)
  {
    assert (ops + [op])[..|ops|] == ops;
  }

  lemma {:induction false} StaysNear(max: nat, ttl: int, ops: seq<Op>, key: string, h: Handler, at: int, more: seq<Op>)
    returns (i: nat)
    requires |more| < max && forall op | op in more :: Spares(op, key, ttl, at)
    ensures i <= |more| && At(Run(max, ttl, ops + [OpPut(key, h, at)] + more).entries, i, key, h, at)
  {
    hide Run, Step, At, Spares, KeysDistinct, ByLastTouch;
    if more == [] {
      assert ops + [OpPut(key, h, at)] + more == ops + [OpPut(key, h, at)];
      RunSnoc(max, ttl, ops, OpPut(key, h, at));
      PutIsStep(Run(max, ttl, ops), max, ttl, key, h, at);
      PutIsFirst(Run(max, ttl, ops), max, key, h, at);
      i := 0;
    } else {
      var less, op := more[..|more| - 1], more[|more| - 1];
      assert op in more && forall x | x in less :: x in more;
      var before := ops + [OpPut(key, h, at)] + less;
      assert ops + [OpPut(key, h, at)] + more == before + [op];
      i := StaysNear(max, ttl, ops, key, h, at, less);
      EveryRunKeepsShape(max, ttl, before);
      RunSnoc(max, ttl, before, op);
      i := StepMoves(Run(max, ttl, before), max, ttl, op, i, key, h, at);
    }
  }

  lemma PutIsStep(c: Cache, max: nat, ttl: int, key: string, h: Handler, at: int)
    ensures Step(c, max, ttl, OpPut(key, h, at)) == Store(c, key, h, max, at)
  {
  }

  /**
   What is put is found again, by fewer than the limit of entries later operations, if none of them takes it
   away, for as long as its age allows and no longer.
   */
  lemma PutIsFoundAgain(max: nat, ttl: int, ops: seq<Op>, key: string, h: Handler, at: int, more: seq<Op>, now: int)
    requires |more| < max && forall op | op in more :: Spares(op, key, ttl, at)
    ensures Lookup(Run(max, ttl, ops + [OpPut(key, h, at)] + more), key, ttl, now).1 ==
      if InTime(ttl, at, now) then Some(h) else None
  {
    hide Run, Spares, Lookup;
    var i := StaysNear(max, ttl, ops, key, h, at, more);
    var all := ops + [OpPut(key, h, at)] + more;
    FoundExactlyInTime(max, ttl, all, Run(max, ttl, all).entries[i], now);
  }

  // ---- uses, promotions and counters -------------------------------------------------------

  /** How often the entry of a key has been put or found since it was made; zero while there is none. */
  function Uses(max: nat, ttl: int, ops: seq<Op>, key: string): nat {
    if ops == [] || !Has(Run(max, ttl, ops).entries, key) then 0
    else
      var op := ops[|ops| - 1];
      Uses(max, ttl, ops[..|ops| - 1], key) + One((op.OpPut? || op.OpGet?) && op.key == key)
  }

  lemma AccessesAfter(c: Cache, max: nat, ttl: int, op: Op, e: Entry)
    requires KeysDistinct(c.entries) && e in Step(c, max, ttl, op).entries
    ensures e.accesses == (if Has(c.entries, e.key) then c.entries[IndexOf(c.entries, e.key)].accesses else 0)
                          + One((op.OpPut? || op.OpGet?) && op.key == e.key)
  {
    if e in c.entries {
      var i :| 0 <= i < |c.entries| && c.entries[i] == e;
      assert IndexOf(c.entries, e.key) == i;
    }
    match op
    case OpGet(key, now) => GetAccesses(c, ttl, key, now, e);
    case OpPut(key, h, now) => PutAccesses(c, max, key, h, now, e);
    case OpDelete(key) =>
    case OpClear =>
  }

  lemma GetAccesses(c: Cache, ttl: int, key: string, now: int, e: Entry)
    requires KeysDistinct(c.entries) && e in Lookup(c, key, ttl, now).0.entries
    ensures if e.key == key then Has(c.entries, key) && e.accesses == c.entries[IndexOf(c.entries, key)].accesses + 1
            else e in c.entries
  {
    var i := IndexOf(c.entries, key);
    if i < |c.entries| && !Expired(c.entries[i], ttl, now) {
      var e' := c.entries[i].(accesses := c.entries[i].accesses + 1);
      if Promotes(c.entries[i]) {
        assert e == e' || e in Without(c.entries, i);
      } else {
        assert e == e' || exists j | 0 <= j < |c.entries| :: j != i && c.entries[j] == e;
      }
    }
  }

  lemma PutAccesses(c: Cache, max: nat, key: string, h: Handler, now: int, e: Entry)
    requires KeysDistinct(c.entries) && e in Store(c, key, h, max, now).entries
    ensures if e.key == key
            then e.accesses == 1 + if Has(c.entries, key) then c.entries[IndexOf(c.entries, key)].accesses else 0
            else e in c.entries
  {
    if e != Store(c, key, h, max, now).entries[0] {
      WithoutKey(c, key, e, max, h, now);
    }
  }

  lemma {:induction false} UsesAreCounted(max: nat, ttl: int, ops: seq<Op>, e: Entry)
    requires max > 0 && e in Run(max, ttl, ops).entries
    ensures e.accesses == Uses(max, ttl, ops, e.key)
  {
    var before, op := ops[..|ops| - 1], ops[|ops| - 1];
    EveryRunKeepsShape(max, ttl, before);
    var l := Run(max, ttl, before).entries;
    AccessesAfter(Run(max, ttl, before), max, ttl, op, e);
    HeldKey(Run(max, ttl, ops).entries, e);
    hide Run, Step, KeysDistinct;
    if Has(l, e.key) {
      UsesAreCounted(max, ttl, before, l[IndexOf(l, e.key)]);
    }
  }

  lemma HeldKey(l: seq<Entry>, e: Entry)
    requires e in l
    ensures Has(l, e.key)
  {
    var i :| 0 <= i < |l| && l[i] == e;
  }

  /** A lookup that finds an entry brings it to the front with every tenth use of it, and else leaves the order alone. */
  lemma EveryTenthUsePromotes(max: nat, ttl: int, ops: seq<Op>, key: string, now: int)
    requires max > 0 && Lookup(Run(max, ttl, ops), key, ttl, now).1.Some?
    ensures var l, l' := Run(max, ttl, ops).entries, Run(max, ttl, ops + [OpGet(key, now)]).entries;
      var uses := Uses(max, ttl, ops + [OpGet(key, now)], key);
      && |l'| == |l| > 0
      && if uses % 10 == 0 then l'[0].key == key else forall i | 0 <= i < |l| :: l'[i].key == l[i].key
  {
    var c, op := Run(max, ttl, ops), OpGet(key, now);
    var i := IndexOf(c.entries, key);
    RunSnoc(max, ttl, ops, op);
    assert (ops + [op])[..|ops|] == ops;
    assert c.entries[i] in c.entries;
    UsesAreCounted(max, ttl, ops, c.entries[i]);
    var l' := Run(max, ttl, ops + [op]).entries;
    hide Run, Uses;
    var e := c.entries[i].(accesses := c.entries[i].accesses + 1);
    assert e in l' by {
      assert l'[if Promotes(c.entries[i]) then 0 else i] == e;
    }
    UsesAreCounted(max, ttl, ops + [op], e);
  }

  /** How many lookups of a run have found something, or have not. */
  function Found(max: nat, ttl: int, ops: seq<Op>, found: bool): nat {
    if ops == [] then 0
    else
      var before, op := ops[..|ops| - 1], ops[|ops| - 1];
      Found(max, ttl, before, found) +
        One(op.OpGet? && Lookup(Run(max, ttl, before), op.key, ttl, op.now).1.Some? == found)
  }

  /** Hits and misses count the lookups that found something and those that did not. */
  lemma {:induction false} LookupsAreCounted(max: nat, ttl: int, ops: seq<Op>)
    ensures Run(max, ttl, ops).hits == Found(max, ttl, ops, true)
    ensures Run(max, ttl, ops).misses == Found(max, ttl, ops, false)
  {
    if ops != [] {
      LookupsAreCounted(max, ttl, ops[..|ops| - 1]);
    }
  }
}
