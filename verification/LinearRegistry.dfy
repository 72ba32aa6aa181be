/**
 The linear scenario registry (internal/storage/scenario.go): one list, kept in rank order, whose
 first match is the answer. It is the specification the sharded registry is measured against.
 */
module LinearRegistry {
  import opened Wrappers
  import opened Scenarios

  datatype RegistryError = NilScenario | Invalid(name: string) | LoadFailed | NoMatch | TopologyChange

  /** What reading and decoding a scenario file yields. */
  type ScenarioFile = Option<seq<Scenario>>

  // ---- ranked lists ------------------------------------------------------------------------

  ghost predicate Ranked(l: seq<Scenario>) {
    forall i, j | 0 <= i < j < |l| :: !Outranks(l[j], l[i])
  }

  predicate DistinctNames(l: seq<Scenario>) {
    forall i, j | 0 <= i < j < |l| :: l[i].name != l[j].name
  }

  /** Insert `x` behind everything it does not outrank. */
  function Insert(x: Scenario, l: seq<Scenario>): (r: seq<Scenario>)
    ensures multiset(r) == multiset(l) + multiset{x}
  {
    if l == [] || Outranks(x, l[0]) then [x] + l
    else
      assert l == [l[0]] + l[1..];
      [l[0]] + Insert(x, l[1..])
  }

  lemma {:induction false} InsertKeepsRanked(x: Scenario, l: seq<Scenario>)
    requires Ranked(l)
    ensures Ranked(Insert(x, l))
  {
    if l != [] && !Outranks(x, l[0]) {
      InsertKeepsRanked(x, l[1..]);
      var rest := Insert(x, l[1..]);
      forall j | 0 <= j < |rest| ensures !Outranks(rest[j], l[0]) {
        assert rest[j] in multiset(rest);
        assert rest[j] == x || rest[j] in multiset(l[1..]);
      }
    }
  }

  /** The stable sort by priority, highest first, then by order, lowest first. */
  function SortByRank(l: seq<Scenario>): (r: seq<Scenario>)
    ensures multiset(r) == multiset(l)
  {
    if l == [] then []
    else
      assert l == l[..|l| - 1] + [l[|l| - 1]];
      Insert(l[|l| - 1], SortByRank(l[..|l| - 1]))
  }

  lemma {:induction false} SortRanks(l: seq<Scenario>)
    ensures Ranked(SortByRank(l))
  {
    if l != [] {
      SortRanks(l[..|l| - 1]);
      InsertKeepsRanked(l[|l| - 1], SortByRank(l[..|l| - 1]));
    }
  }

  lemma SameMultisetSameElems(a: seq<Scenario>, b: seq<Scenario>)
    requires multiset(a) == multiset(b)
    ensures Elems(a) == Elems(b)
    ensures |a| == |b|
  {
    assert |multiset(a)| == |multiset(b)|;
    forall x ensures x in a <==> x in b {
      assert x in multiset(a) <==> x in multiset(b);
    }
  }

  /** A list has distinct names exactly when its elements do and none is repeated. */
  lemma DistinctNamesByMultiset(a: seq<Scenario>, b: seq<Scenario>)
    requires multiset(a) == multiset(b) && DistinctNames(a)
    ensures DistinctNames(b)
  {
    forall i, j | 0 <= i < j < |b| ensures b[i].name != b[j].name {
      if b[i].name == b[j].name {
        assert b[i] in multiset(a) && b[j] in multiset(a);
        assert b[i] == b[j];
        assert b == b[..i] + [b[i]] + b[i + 1..j] + [b[j]] + b[j + 1..];
        assert multiset(b)[b[i]] >= 2;
        OccursOnce(a, b[i]);
        assert false;
      }
    }
  }

  lemma {:induction false} OccursOnce(a: seq<Scenario>, x: Scenario)
    requires DistinctNames(a)
    ensures multiset(a)[x] <= 1
  {
    if a != [] {
      assert a == [a[0]] + a[1..];
      OccursOnce(a[1..], x);
      if x == a[0] {
        assert x !in a[1..];
      }
    }
  }

  /** The first scenario of `l` that is hit. */
  function FirstMatch(hit: Scenario -> bool, l: seq<Scenario>): Option<Scenario> {
    if l == [] then None else if hit(l[0]) then Some(l[0]) else FirstMatch(hit, l[1..])
  }

  /** On a ranked list the first match is a best match. */
  lemma {:induction false} FirstMatchIsBest(hit: Scenario -> bool, l: seq<Scenario>)
    requires Ranked(l)
    ensures IsBest(hit, Elems(l), FirstMatch(hit, l))
  {
    if l != [] {
      FirstMatchIsBest(hit, l[1..]);
      assert l == [l[0]] + l[1..];
    }
  }

  // ---- order numbers -----------------------------------------------------------------------

  /** One more than the largest order in `l`, or 0. */
  function NextOrder(l: seq<Scenario>): (r: nat)
    ensures forall s | s in l :: s.order < r
    ensures r > 0 ==> exists s | s in l :: s.order == r - 1
  {
    if l == [] then 0
    else
      var before := NextOrder(l[..|l| - 1]);
      var last := l[|l| - 1];
      assert last in l && forall s | s in l[..|l| - 1] :: s in l;
      if last.order >= before then last.order + 1 else before
  }

  /** The order a scenario called `name` gets when added to `l`: its predecessor's, or the next one. */
  function OrderForAdd(l: seq<Scenario>, name: string): (r: nat) {
    OrderFrom(l, name, NextOrder(l))
  }

  function OrderFrom(l: seq<Scenario>, name: string, unused: nat): (r: nat)
    ensures (forall s | s in l :: s.name != name) ==> r == unused
    ensures (exists s | s in l :: s.name == name) ==> exists s | s in l :: s.name == name && s.order == r
  {
    if l == [] then unused else if l[0].name == name then l[0].order else OrderFrom(l[1..], name, unused)
  }

  lemma NextOrderBySet(a: seq<Scenario>, b: seq<Scenario>)
    requires forall s :: s in a <==> s in b
    ensures NextOrder(a) == NextOrder(b)
  {
    hide NextOrder;
  }

  lemma SameNameSame(l: seq<Scenario>, a: Scenario, b: Scenario)
    requires NamesUnique(Elems(l)) && a in l && b in l && a.name == b.name
    ensures a == b
  {
    assert a in Elems(l) && b in Elems(l);
  }

  lemma OrderOfNamed(l: seq<Scenario>, s: Scenario, unused: nat)
    requires NamesUnique(Elems(l)) && s in l
    ensures OrderFrom(l, s.name, unused) == s.order
  {
    hide OrderFrom, NamesUnique, Elems;
    var r :| r in l && r.name == s.name && r.order == OrderFrom(l, s.name, unused);
    SameNameSame(l, r, s);
  }

  /** The order depends only on which scenarios are registered, not on how they are listed. */
  lemma OrderForAddBySet(a: seq<Scenario>, b: seq<Scenario>, name: string)
    requires Elems(a) == Elems(b) && NamesUnique(Elems(a))
    ensures OrderForAdd(a, name) == OrderForAdd(b, name)
  {
    forall s ensures s in a <==> s in b {
      assert s in Elems(a) <==> s in Elems(b);
    }
    NextOrderBySet(a, b);
    hide NextOrder, OrderFrom, NamesUnique, Elems;
    if s :| s in a && s.name == name {
      OrderOfNamed(a, s, NextOrder(a));
      OrderOfNamed(b, s, NextOrder(b));
    }
  }

  // ---- the operations on lists -------------------------------------------------------------

  /** Number the scenarios of a file by position. */
  function Numbered(l: seq<Scenario>): (r: seq<Scenario>)
    ensures |r| == |l|
    ensures forall i | 0 <= i < |l| :: r[i] == l[i].(order := i)
  {
    seq(|l|, i requires 0 <= i < |l| => l[i].(order := i))
  }

  function WithDefault(l: seq<Scenario>): seq<Scenario> {
    if exists s | s in l :: s.name == DEFAULT_NAME then l else l + [DefaultScenario]
  }

  /** The list a file yields, or nothing when it cannot be read or does not validate. */
  function LoadList(m: Matcher, file: ScenarioFile): Option<seq<Scenario>> {
    if file.None? || exists s | s in file.value :: !Validates(m, s) then None
    else Some(SortByRank(Numbered(WithDefault(file.value))))
  }

  /** `l` without its first scenario called `name`. */
  function RemoveFirst(l: seq<Scenario>, name: string): (r: seq<Scenario>) {
    if l == [] then [] else if l[0].name == name then l[1..] else [l[0]] + RemoveFirst(l[1..], name)
  }

  predicate HasName(l: seq<Scenario>, name: string) {
    exists s | s in l :: s.name == name
  }

  function AddTo(l: seq<Scenario>, s: Scenario): seq<Scenario> {
    SortByRank(RemoveFirst(l, s.name) + [s.(order := OrderForAdd(l, s.name))])
  }

  /** The declared endpoints, as the topology check compares them. */
  function Topology(l: seq<Scenario>): set<string> {
    (set s, p | s in l && p in s.rule.paths && p != "" :: p) +
    (set s | s in l && s.rule.path != "" :: s.rule.path)
  }

  predicate HasExactRoutes(l: seq<Scenario>) {
    exists s | s in l :: |s.rule.routes| > 0
  }

  /** A reload may not change the endpoint set once either side uses exact routes. */
  predicate TopologyAllows(current: seq<Scenario>, next: seq<Scenario>) {
    HasExactRoutes(current) || HasExactRoutes(next) ==> Topology(current) == Topology(next)
  }

  lemma TopologyBySet(a: seq<Scenario>, b: seq<Scenario>)
    requires Elems(a) == Elems(b)
    ensures Topology(a) == Topology(b)
    ensures HasExactRoutes(a) == HasExactRoutes(b)
  {
    forall s ensures s in a <==> s in b {
      assert s in Elems(a) <==> s in Elems(b);
    }
  }

  lemma {:induction false} RemoveFirstElems(l: seq<Scenario>, name: string)
    requires DistinctNames(l)
    ensures Elems(RemoveFirst(l, name)) == set s | s in l && s.name != name
    ensures DistinctNames(RemoveFirst(l, name))
  {
    if l != [] {
      assert l == [l[0]] + l[1..];
      RemoveFirstElems(l[1..], name);
      forall s ensures s in RemoveFirst(l, name) <==> s in l && s.name != name {
        assert s in RemoveFirst(l[1..], name) <==> s in Elems(RemoveFirst(l[1..], name));
      }
      if l[0].name != name {
        forall s | s in RemoveFirst(l[1..], name) ensures s.name != l[0].name {
          assert s in Elems(RemoveFirst(l[1..], name));
          assert s in l[1..];
        }
      }
    }
  }
}
