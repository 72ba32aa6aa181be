/**
 The "did you mean" distance (cmd/icap-mock/main.go:106-148): a two-row dynamic program, proved to
 be the length of a shortest script of single-character insertions, deletions and replacements.
 */
module EditDistance {

  function Min(x: nat, y: nat): nat {
    if x < y then x else y
  }

  /** All but the last character. */
  function Init(s: string): string
    requires s != ""
  {
    s[..|s| - 1]
  }

  function Last(s: string): char
    requires s != ""
  {
    s[|s| - 1]
  }

  function Cost(x: char, y: char): nat {
    if x == y then 0 else 1
  }

  /** The recurrence the two rows tabulate. */
  function Distance(a: string, b: string): nat
    decreases |a| + |b|
  {
    if a == "" then |b|
    else if b == "" then |a|
    else Min(Distance(a, Init(b)) + 1,
             Min(Distance(Init(a), b) + 1, Distance(Init(a), Init(b)) + Cost(Last(a), Last(b))))
  }

  // ---- the two-row program -----------------------------------------------------------------

  method Levenshtein(a: string, b: string) returns (d: nat)
    ensures d == Distance(a, b)
  {
    if a == "" {
      return |b|;
    }
    if b == "" {
      return |a|;
    }
    var prev, curr := new nat[|b| + 1], new nat[|b| + 1];
    for j := 0 to |b| + 1
      invariant forall k | 0 <= k < j :: prev[k] == k
    {
      prev[j] := j;
    }
    assert a[..0] == "" && forall k | 0 <= k <= |b| :: |b[..k]| == k;
    for i := 1 to |a| + 1
      invariant prev != curr && prev.Length == curr.Length == |b| + 1
      invariant fresh(prev) && fresh(curr)
      invariant forall k | 0 <= k <= |b| :: prev[k] == Distance(a[..i - 1], b[..k])
    {
      FillRow(a, b, i, prev, curr);
      prev, curr := curr, prev;
    }
    assert a[..|a|] == a && b[..|b|] == b;
    return prev[|b|];
  }

  lemma RowStart(a: string)
    ensures Distance(a, "") == |a|
  {
  }

  lemma RowStep(a: string, b: string, i: nat, j: nat)
    requires 1 <= i <= |a| && 1 <= j <= |b|
    ensures Distance(a[..i], b[..j]) ==
            Min(Distance(a[..i], b[..j - 1]) + 1,
                Min(Distance(a[..i - 1], b[..j]) + 1, Distance(a[..i - 1], b[..j - 1]) + Cost(a[i - 1], b[j - 1])))
  {
    assert Init(a[..i]) == a[..i - 1] && Init(b[..j]) == b[..j - 1];
  }

  /** Row `i` of the table from row `i - 1`. */
  method FillRow(a: string, b: string, i: nat, prev: array<nat>, curr: array<nat>)
    requires 1 <= i <= |a| && prev != curr && prev.Length == curr.Length == |b| + 1
    requires forall k | 0 <= k <= |b| :: prev[k] == Distance(a[..i - 1], b[..k])
    modifies curr
    ensures forall k | 0 <= k <= |b| :: curr[k] == Distance(a[..i], b[..k])
  {
    hide Distance;
    RowStart(a[..i]);
    assert b[..0] == "";
    curr[0] := i;
    for j := 1 to |b| + 1
      invariant forall k | 0 <= k <= |b| :: prev[k] == Distance(a[..i - 1], b[..k])
      invariant forall k | 0 <= k < j :: curr[k] == Distance(a[..i], b[..k])
    {
      var cost := 1;
      if a[i - 1] == b[j - 1] {
        cost := 0;
      }
      curr[j] := Min(curr[j - 1] + 1, Min(prev[j] + 1, prev[j - 1] + cost));
      RowStep(a, b, i, j);
    }
  }

  // ---- scripts -----------------------------------------------------------------------------

  predicate Inserts(u: string, v: string) {
    exists i | 0 <= i < |v| :: u == v[..i] + v[i + 1..]
  }

  predicate Replaces(u: string, v: string) {
    |u| == |v| && exists i | 0 <= i < |v| :: u[i := v[i]] == v
  }

  /** One insertion, deletion or replacement of one character anywhere. */
  predicate SingleEdit(u: string, v: string) {
    Inserts(u, v) || Inserts(v, u) || Replaces(u, v)
  }

  /** A script is the list of strings it passes through. */
  ghost predicate IsScript(p: seq<string>, a: string, b: string) {
    && p != [] && p[0] == a && p[|p| - 1] == b
    && forall i | 0 <= i < |p| - 1 :: SingleEdit(p[i], p[i + 1])
  }

  // ---- the recurrence is a metric ----------------------------------------------------------

  lemma {:induction false} Symmetric(a: string, b: string)
    ensures Distance(a, b) == Distance(b, a)
    decreases |a| + |b|
  {
    if a != "" && b != "" {
      Symmetric(a, Init(b));
      Symmetric(Init(a), b);
      Symmetric(Init(a), Init(b));
    }
  }

  lemma {:induction false} ZeroOnlyOnEqual(a: string, b: string)
    ensures Distance(a, b) == 0 <==> a == b
    decreases |a| + |b|
  {
    if a != "" && b != "" {
      ZeroOnlyOnEqual(Init(a), Init(b));
      assert a == Init(a) + [Last(a)] && b == Init(b) + [Last(b)];
    }
  }

  /** The distance is at least the difference and at most the sum of the lengths. */
  lemma {:induction false} LengthBounds(a: string, b: string)
    ensures |a| <= Distance(a, b) + |b| && |b| <= Distance(a, b) + |a| && Distance(a, b) <= |a| + |b|
    decreases |a| + |b|
  {
    if a != "" && b != "" {
      LengthBounds(a, Init(b));
      LengthBounds(Init(a), b);
      LengthBounds(Init(a), Init(b));
    }
  }

  lemma {:induction false} Triangle(a: string, b: string, c: string)
    ensures Distance(a, c) <= Distance(a, b) + Distance(b, c)
    decreases |a| + |b| + |c|
  {
    if a == "" || b == "" || c == "" {
      LengthBounds(a, b);
      LengthBounds(b, c);
      LengthBounds(a, c);
    } else {
      Triangle(Init(a), b, c);
      Triangle(a, b, Init(c));
      Triangle(a, Init(b), c);
      Triangle(a, Init(b), Init(c));
      Triangle(Init(a), Init(b), c);
      Triangle(Init(a), Init(b), Init(c));
    }
  }

  // ---- no script is shorter ----------------------------------------------------------------

  lemma {:induction false} CommonSuffix(u: string, v: string, w: string)
    ensures Distance(u + w, v + w) <= Distance(u, v)
    decreases |w|
  {
    if w == "" {
      assert u + w == u && v + w == v;
    } else {
      CommonSuffix(u, v, Init(w));
      assert Init(u + w) == u + Init(w) && Init(v + w) == v + Init(w);
    }
  }

  lemma InsertionCostsOne(u: string, v: string)
    requires Inserts(u, v)
    ensures Distance(u, v) <= 1
  {
    var i :| 0 <= i < |v| && u == v[..i] + v[i + 1..];
    var p, x := v[..i], v[..i] + [v[i]];
    assert v == x + v[i + 1..];
    CommonSuffix(p, x, v[i + 1..]);
    assert Init(x) == p;
    ZeroOnlyOnEqual(p, p);
    assert Distance(p, x) <= 1;
  }

  lemma ReplacementCostsOne(u: string, v: string)
    requires Replaces(u, v)
    ensures Distance(u, v) <= 1
  {
    var i :| 0 <= i < |v| && u[i := v[i]] == v;
    var p, q, w := u[..i + 1], v[..i + 1], v[i + 1..];
    assert u[i + 1..] == u[i := v[i]][i + 1..] == w && u[..i] == u[i := v[i]][..i] == v[..i];
    assert u == p + w && v == q + w;
    CommonSuffix(p, q, w);
    assert Init(p) == u[..i] && Init(q) == v[..i];
    ZeroOnlyOnEqual(Init(p), Init(q));
  }

  lemma EditCostsOne(u: string, v: string)
    requires SingleEdit(u, v)
    ensures Distance(u, v) <= 1
  {
    if Inserts(u, v) {
      InsertionCostsOne(u, v);
    } else if Inserts(v, u) {
      InsertionCostsOne(v, u);
      Symmetric(u, v);
    } else {
      ReplacementCostsOne(u, v);
    }
  }

  lemma {:induction false} NoShorterScript(p: seq<string>, a: string, b: string)
    requires IsScript(p, a, b)
    ensures Distance(a, b) <= |p| - 1
  {
    if |p| == 1 {
      ZeroOnlyOnEqual(a, b);
    } else {
      assert SingleEdit(p[0], p[1]);
      EditCostsOne(a, p[1]);
      assert IsScript(p[1..], p[1], b) by {
        forall i | 0 <= i < |p[1..]| - 1 ensures SingleEdit(p[1..][i], p[1..][i + 1]) {
          assert SingleEdit(p[i + 1], p[i + 2]);
        }
      }
      NoShorterScript(p[1..], p[1], b);
      Triangle(a, p[1], b);
    }
  }

  // ---- and one script is as short ----------------------------------------------------------

  /** Every string of the script with `c` after it. */
  function Followed(p: seq<string>, c: char): (r: seq<string>)
    ensures |r| == |p| && forall i | 0 <= i < |p| :: r[i] == p[i] + [c]
  {
    seq(|p|, i requires 0 <= i < |p| => p[i] + [c])
  }

  /** A shortest script: undo the recurrence. */
  function Script(a: string, b: string): seq<string>
    decreases |a| + |b|
  {
    if a == "" && b == "" then [""]
    else if a == "" then Script(a, Init(b)) + [b]
    else if b == "" then [a] + Script(Init(a), b)
    else if Distance(a, b) == Distance(a, Init(b)) + 1 then Script(a, Init(b)) + [b]
    else if Distance(a, b) == Distance(Init(a), b) + 1 then [a] + Script(Init(a), b)
    else if Last(a) == Last(b) then Followed(Script(Init(a), Init(b)), Last(a))
    else Followed(Script(Init(a), Init(b)), Last(a)) + [b]
  }

  lemma AppendEdit(p: seq<string>, a: string, m: string, b: string)
    requires IsScript(p, a, m) && SingleEdit(m, b)
    ensures IsScript(p + [b], a, b)
  {
  }

  lemma PrependEdit(p: seq<string>, a: string, m: string, b: string)
    requires IsScript(p, m, b) && SingleEdit(a, m)
    ensures IsScript([a] + p, a, b)
  {
    var q := [a] + p;
    forall i | 0 <= i < |q| - 1 ensures SingleEdit(q[i], q[i + 1]) {
      if i > 0 {
        assert SingleEdit(p[i - 1], p[i]);
      }
    }
  }

  lemma LastInsertion(b: string)
    requires b != ""
    ensures SingleEdit(Init(b), b) && SingleEdit(b, Init(b))
  {
    assert b[..|b| - 1] + b[|b| - 1 + 1..] == Init(b);
  }

  lemma FollowedEdit(u: string, v: string, c: char)
    requires SingleEdit(u, v)
    ensures SingleEdit(u + [c], v + [c])
  {
    if Inserts(u, v) {
      FollowedInsertion(u, v, c);
    } else if Inserts(v, u) {
      FollowedInsertion(v, u, c);
    } else {
      var i :| 0 <= i < |v| && u[i := v[i]] == v;
      assert (u + [c])[i := (v + [c])[i]] == v + [c];
    }
  }

  lemma FollowedInsertion(u: string, v: string, c: char)
    requires Inserts(u, v)
    ensures Inserts(u + [c], v + [c])
  {
    var i :| 0 <= i < |v| && u == v[..i] + v[i + 1..];
    assert (v + [c])[..i] == v[..i] && (v + [c])[i + 1..] == v[i + 1..] + [c];
  }

  lemma FollowedScript(p: seq<string>, a: string, b: string, c: char)
    requires IsScript(p, a, b)
    ensures IsScript(Followed(p, c), a + [c], b + [c])
  {
    hide SingleEdit;
    var q := Followed(p, c);
    forall i | 0 <= i < |q| - 1 ensures SingleEdit(q[i], q[i + 1]) {
      FollowedEdit(p[i], p[i + 1], c);
    }
  }

  lemma {:induction false} ScriptIsShort(a: string, b: string)
    ensures IsScript(Script(a, b), a, b) && |Script(a, b)| == Distance(a, b) + 1
    decreases |a| + |b|
  {
    hide SingleEdit, IsScript;
    if a == "" && b == "" {
      EmptyScript();
    } else if a == "" || (b != "" && Distance(a, b) == Distance(a, Init(b)) + 1) {
      ScriptIsShort(a, Init(b));
      LastInsertion(b);
      AppendEdit(Script(a, Init(b)), a, Init(b), b);
    } else if b == "" || Distance(a, b) == Distance(Init(a), b) + 1 {
      ScriptIsShort(Init(a), b);
      LastInsertion(a);
      PrependEdit(Script(Init(a), b), a, Init(a), b);
    } else {
      LastColumnScript(a, b);
    }
  }

  lemma EmptyScript()
    ensures IsScript([""], "", "")
  {
  }

  /** The case where the last characters are matched or replaced. */
  lemma LastColumnScript(a: string, b: string)
    requires a != "" && b != ""
    requires Distance(a, b) != Distance(a, Init(b)) + 1 && Distance(a, b) != Distance(Init(a), b) + 1
    requires Distance(a, b) == Distance(Init(a), Init(b)) + Cost(Last(a), Last(b))
    ensures IsScript(Script(a, b), a, b) && |Script(a, b)| == Distance(a, b) + 1
    decreases |a| + |b|, 0
  {
    hide SingleEdit, IsScript, Distance, Followed;
    ScriptIsShort(Init(a), Init(b));
    FollowedScript(Script(Init(a), Init(b)), Init(a), Init(b), Last(a));
    assert a == Init(a) + [Last(a)] && b == Init(b) + [Last(b)];
    if Last(a) != Last(b) {
      ReplaceLast(Init(b), Last(a), Last(b));
      AppendEdit(Followed(Script(Init(a), Init(b)), Last(a)), a, Init(b) + [Last(a)], b);
    }
  }

  lemma ReplaceLast(s: string, x: char, y: char)
    ensures SingleEdit(s + [x], s + [y])
  {
    assert (s + [x])[|s| := (s + [y])[|s|]] == s + [y];
  }

  /** The distance is the least number of edits of any script from `a` to `b`. */
  lemma DistanceIsShortestScript(a: string, b: string)
    ensures exists p :: IsScript(p, a, b) && |p| - 1 == Distance(a, b)
    ensures forall p | IsScript(p, a, b) :: Distance(a, b) <= |p| - 1
  {
    hide IsScript;
    ScriptIsShort(a, b);
    forall p | IsScript(p, a, b) ensures Distance(a, b) <= |p| - 1 {
      NoShorterScript(p, a, b);
    }
  }

  // ---- the suggestion ----------------------------------------------------------------------

  const MAX_SUGGESTION := 4

  /** Command `k` is the first of those nearest to the input, and at most three edits away. */
  predicate IsSuggestion(input: string, commands: seq<string>, k: nat) {
    && k < |commands| && Distance(input, commands[k]) <= 3
    && (forall i | 0 <= i < |commands| :: Distance(input, commands[i]) >= Distance(input, commands[k]))
    && (forall i | 0 <= i < k :: Distance(input, commands[i]) > Distance(input, commands[k]))
  }

  method FindClosestCommand(input: string, commands: seq<string>) returns (best: string)
    ensures || (exists k: nat :: IsSuggestion(input, commands, k) && commands[k] == best)
            || (best == "" && forall c | c in commands :: Distance(input, c) > 3)
  {
    best := "";
    var bestDist: nat := MAX_SUGGESTION;
    ghost var at := -1;
    for k := 0 to |commands|
      invariant -1 <= at < k && bestDist <= MAX_SUGGESTION
      invariant at == -1 ==> best == "" && bestDist == MAX_SUGGESTION
      invariant at >= 0 ==> best == commands[at] && bestDist == Distance(input, best) < MAX_SUGGESTION
      invariant forall i | 0 <= i < k :: Distance(input, commands[i]) >= bestDist
      invariant forall i | 0 <= i < at :: Distance(input, commands[i]) > bestDist
    {
      var d := Levenshtein(input, commands[k]);
      if d < bestDist {
        bestDist, best, at := d, commands[k], k;
      }
    }
    assert at >= 0 ==> IsSuggestion(input, commands, at);
  }
}
