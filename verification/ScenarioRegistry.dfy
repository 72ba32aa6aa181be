/**
 The linear registry as it runs (internal/storage/scenario.go:431-515, 908-948, 1496-1593): one list,
 changed in place by loops and a library sort. Every method is proved to do to its state exactly what
 `RegistryRuns.LinearStep` does; Match returns the first match, which on a sorted list is a best one.
 */
module ScenarioRegistry {
  import opened Basics
  import opened Wrappers
  import opened Scenarios
  import opened LinearRegistry
  import opened RegistryRuns

  /** Cutting out the first scenario of a name, once a loop has found where it is. */
  lemma {:induction false} RemoveFirstAt(l: seq<Scenario>, i: nat, unused: nat)
    requires i < |l| && forall j | 0 <= j < i :: l[j].name != l[i].name
    ensures RemoveFirst(l, l[i].name) == l[..i] + l[i + 1..]
    ensures OrderFrom(l, l[i].name, unused) == l[i].order && HasName(l, l[i].name)
  {
    assert l[i] in l;
    if i > 0 {
      assert l[0].name != l[i].name && l[1..][i - 1] == l[i];
      RemoveFirstAt(l[1..], i - 1, unused);
      CutInTail(l, i);
    }
  }

  lemma {:induction false} RemoveFirstNone(l: seq<Scenario>, name: string)
    requires forall s | s in l :: s.name != name
    ensures RemoveFirst(l, name) == l && !HasName(l, name)
  {
    if l != [] {
      RemoveFirstNone(l[1..], name);
    }
  }

  class LinearScenarioRegistry {
    const m: Matcher
    var filePath: string
    var scenarios: seq<Scenario>

    function State(): LinearState
      reads this
    {
      LinearState(scenarios, filePath)
    }

    constructor (m: Matcher)
      ensures this.m == m && State() == LinearInit
    {
      this.m, filePath, scenarios := m, "", [DefaultScenario];
    }

    /** The place of the first scenario called `name`, or the length of the list. */
    method Find(name: string) returns (i: nat)
      ensures i <= |scenarios| && (i < |scenarios| ==> scenarios[i].name == name)
      ensures forall j | 0 <= j < i :: scenarios[j].name != name
    {
      i := 0;
      while i < |scenarios|
        invariant i <= |scenarios| && forall j | 0 <= j < i :: scenarios[j].name != name
      {
        if scenarios[i].name == name {
          return;
        }
        i := i + 1;
      }
    }

    /** Validate the scenarios of a file, noting whether one is the default. */
    method ValidateAll(l: seq<Scenario>) returns (ok: bool, hasDefault: bool)
      ensures ok <==> forall s | s in l :: Validates(m, s)
      ensures ok ==> (hasDefault <==> HasName(l, DEFAULT_NAME))
    {
      hide Validates;
      hasDefault := false;
      for i := 0 to |l|
        invariant forall j | 0 <= j < i :: Validates(m, l[j])
        invariant hasDefault <==> exists j | 0 <= j < i :: l[j].name == DEFAULT_NAME
      {
        if !Validates(m, l[i]) {
          assert l[i] in l;
          return false, false;
        }
        hasDefault := hasDefault || l[i].name == DEFAULT_NAME;
      }
      ok := true;
    }

    method Number(l: seq<Scenario>) returns (numbered: seq<Scenario>)
      ensures numbered == Numbered(l)
    {
      numbered := [];
      for i := 0 to |l|
        invariant |numbered| == i && forall j | 0 <= j < i :: numbered[j] == l[j].(order := j)
      {
        numbered := numbered + [l[i].(order := i)];
      }
    }

    /** The scenarios a file yields, defaulted, numbered and sorted. */
    method ReadFile(file: ScenarioFile) returns (loaded: Option<seq<Scenario>>)
      ensures loaded == LoadList(m, file)
    {
      if file.None? {
        return None;
      }
      var l := file.value;
      var ok, hasDefault := ValidateAll(l);
      if !ok {
        return None;
      }
      if !hasDefault {
        l := l + [DefaultScenario];
      }
      assert l == WithDefault(file.value);
      hide Validates, SortByRank, Numbered, WithDefault;
      var numbered := Number(l);
      loaded := Some(SortByRank(numbered));
    }

    method Load(path: string, file: ScenarioFile) returns (err: Outcome)
      modifies this
      ensures (State(), err) == LinearStep(m, old(State()), Op.Load(path, file))
    {
      hide LoadList;
      var loaded := ReadFile(file);
      if loaded.None? {
        return Some(LoadFailed);
      }
      scenarios, filePath := loaded.value, path;
      err := None;
    }

    method Reload(file: ScenarioFile) returns (err: Outcome)
      modifies this
      ensures (State(), err) == LinearStep(m, old(State()), Op.Reload(file))
    {
      hide LoadList, TopologyAllows;
      if filePath == "" {
        return None;
      }
      var loaded := ReadFile(file);
      if loaded.None? {
        return Some(LoadFailed);
      }
      if !TopologyAllows(scenarios, loaded.value) {
        return Some(TopologyChange);
      }
      scenarios := loaded.value;
      err := None;
    }

    method Add(scenario: Option<Scenario>) returns (err: Outcome)
      modifies this
      ensures (State(), err) == LinearStep(m, old(State()), Op.Add(scenario))
    {
      if scenario.None? {
        return Some(NilScenario);
      }
      var s := scenario.value;
      if !Validates(m, s) {
        return Some(Invalid(s.name));
      }
      hide AddTo;
      Insert(s);
      err := None;
    }

    /** Take out the scenario of the same name, if any, and append and sort the new one. */
    method Insert(s: Scenario)
      modifies `scenarios
      ensures scenarios == AddTo(old(scenarios), s)
    {
      hide RemoveFirst, OrderFrom, NextOrder, SortByRank, HasName;
      ghost var was := scenarios;
      var order := NextOrder(scenarios);
      var i := Find(s.name);
      if i < |scenarios| {
        RemoveFirstAt(was, i, NextOrder(was));
        order := scenarios[i].order;
        scenarios := scenarios[..i] + scenarios[i + 1..];
      } else {
        assert forall x | x in scenarios :: x.name != s.name;
        RemoveFirstNone(scenarios, s.name);
      }
      assert scenarios == RemoveFirst(was, s.name) && order == OrderForAdd(was, s.name);
      scenarios := SortByRank(scenarios + [s.(order := order)]);
    }

    method Remove(name: string) returns (err: Outcome)
      modifies this
      ensures (State(), err) == LinearStep(m, old(State()), Op.Remove(name))
    {
      hide RemoveFirst, OrderFrom, HasName;
      var i := Find(name);
      if i < |scenarios| {
        RemoveFirstAt(scenarios, i, 0);
        scenarios := scenarios[..i] + scenarios[i + 1..];
        return None;
      }
      assert forall x | x in scenarios :: x.name != name;
      RemoveFirstNone(scenarios, name);
      err := Some(NoMatch);
    }

    method Match(req: Request) returns (found: Option<Scenario>)
      ensures found == FirstMatch(Hits(m, req), scenarios)
      ensures Ranked(scenarios) ==> IsBest(Hits(m, req), Elems(scenarios), found)
    {
      hide MatchesScenario, IsBest, Ranked;
      if Ranked(scenarios) {
        FirstMatchIsBest(Hits(m, req), scenarios);
      }
      var i := 0;
      while i < |scenarios|
        invariant i <= |scenarios|
        invariant FirstMatch(Hits(m, req), scenarios) == FirstMatch(Hits(m, req), scenarios[i..])
      {
        if MatchesScenario(m, scenarios[i], req) {
          return Some(scenarios[i]);
        }
        assert scenarios[i..][1..] == scenarios[i + 1..];
        i := i + 1;
      }
      found := None;
    }
  }
}
