/**
 Placeholder substitution (internal/processor/mock.go:607-611, 686-700): "$${" is hidden behind a
 sentinel, "${name}" placeholders are replaced, and the sentinel is turned into "${". Proved to be one
 left-to-right pass, for exactly the values that cannot be mistaken for a sentinel.
 */
module Substitution {
  import opened Wrappers
  import opened Text

  const NUL: char := '\0'
  const SENTINEL: string := ['\0', 'E', 'S', 'C', '\0']

  type Values = map<string, string>

  function ValueOf(values: Values, name: string): string {
    if name in values then values[name] else ""
  }

  // ---- the three passes --------------------------------------------------------------------

  /** Replace every occurrence, left to right and without overlaps. */
  function ReplaceAll(s: string, was: string, now: string): string
    requires was != ""
  {
    if s == "" then ""
    else if was <= s then now + ReplaceAll(s[|was|..], was, now)
    else [s[0]] + ReplaceAll(s[1..], was, now)
  }

  function Hide(s: string): string {
    ReplaceAll(s, "$${", SENTINEL)
  }

  function Restore(s: string): string {
    ReplaceAll(s, SENTINEL, "${")
  }

  /** The name of a "${name}" placeholder at the front of `s`, if there is one. */
  function Placeholder(s: string): (r: Option<string>)
    ensures r.Some? ==> |r.value| > 0 && "${" + r.value + "}" <= s
    ensures r.Some? ==> forall c | c in r.value :: IsNameChar(c)
  {
    if s != "" && s[0] == '$' then
      var name := BracedName(s[1..]);
      assert name.Some? ==> s == "$" + s[1..] && "${" + name.value + "}" == "$" + ("{" + name.value + "}");
      name
    else None
  }

  function Expand(s: string, values: Values): string {
    if s == "" then ""
    else
      match Placeholder(s)
      case Some(name) => ValueOf(values, name) + Expand(s[|name| + 3..], values)
      case None => [s[0]] + Expand(s[1..], values)
  }

  function SubstituteString(s: string, values: Values): string {
    if s == "" then s else Restore(Expand(Hide(s), values))
  }

  // ---- the single pass ---------------------------------------------------------------------

  /** Read the template once: an escape gives "${", a placeholder its value, anything else itself. */
  function Substituted(s: string, values: Values): string {
    if s == "" then ""
    else if "$${" <= s then "${" + Substituted(s[3..], values)
    else
      match Placeholder(s)
      case Some(name) => ValueOf(values, name) + Substituted(s[|name| + 3..], values)
      case None => [s[0]] + Substituted(s[1..], values)
  }

  // ---- which values are safe ---------------------------------------------------------------

  /** No part of a sentinel begins in `v` and runs to its end or past it. */
  predicate Clean(v: string) {
    forall i | 0 <= i < |v| :: !(SENTINEL <= v[i..]) && !(v[i..] <= SENTINEL)
  }

  predicate NulFree(s: string) {
    NUL !in s
  }

  /** A value without NUL is clean. */
  lemma NulFreeIsClean(v: string)
    requires NulFree(v)
    ensures Clean(v)
  {
    forall i | 0 <= i < |v| ensures !(SENTINEL <= v[i..]) && !(v[i..] <= SENTINEL) {
      assert v[i..][0] == v[i] != NUL;
    }
  }

  /** The sentinel does not start within the first `n` characters of `s`. */
  predicate NoneStarts(s: string, n: nat)
    requires n <= |s|
  {
    forall i | 0 <= i < n :: !(SENTINEL <= s[i..])
  }

  /** Restoring leaves a front alone in which no sentinel starts. */
  lemma {:induction false} RestorePast(w: string, u: string)
    requires NoneStarts(w + u, |w|)
    ensures Restore(w + u) == w + Restore(u)
  {
    if w == "" {
      assert w + u == u;
    } else {
      assert (w + u)[0..] == w + u && (w + u)[1..] == w[1..] + u;
      forall i | 0 <= i < |w[1..]| ensures !(SENTINEL <= (w[1..] + u)[i..]) {
        assert (w[1..] + u)[i..] == (w + u)[i + 1..];
      }
      RestorePast(w[1..], u);
    }
  }

  lemma PrefixOfJoined(a: string, v: string, u: string)
    requires a <= v + u
    ensures a <= v || v <= a
  {
    if |a| <= |v| {
      assert a == (v + u)[..|a|] == v[..|a|];
    } else {
      assert v == (v + u)[..|v|] == a[..|v|];
    }
  }

  lemma CleanStartsNone(v: string, u: string)
    requires Clean(v)
    ensures NoneStarts(v + u, |v|)
  {
    forall i | 0 <= i < |v| ensures !(SENTINEL <= (v + u)[i..]) {
      assert (v + u)[i..] == v[i..] + u;
      if SENTINEL <= v[i..] + u {
        PrefixOfJoined(SENTINEL, v[i..], u);
      }
    }
  }

  lemma RestoreSentinel(u: string)
    ensures Restore(SENTINEL + u) == "${" + Restore(u)
  {
    assert (SENTINEL + u)[|SENTINEL|..] == u;
  }

  lemma {:induction false} ExpandPast(p: string, t: string, values: Values)
    requires '$' !in p
    ensures Expand(p + t, values) == p + Expand(t, values)
  {
    if p == "" {
      assert p + t == t;
    } else {
      assert (p + t)[0] == p[0] && (p + t)[1..] == p[1..] + t;
      ExpandPast(p[1..], t, values);
    }
  }

  lemma HidePast(c: char, t: string)
    requires !("$${" <= [c] + t)
    ensures Hide([c] + t) == [c] + Hide(t)
  {
    assert ([c] + t)[1..] == t;
  }

  lemma {:induction false} HidePastPlain(p: string, t: string)
    requires '$' !in p
    ensures Hide(p + t) == p + Hide(t)
  {
    if p == "" {
      assert p + t == t;
    } else {
      assert p + t == [p[0]] + (p[1..] + t);
      assert ([p[0]] + (p[1..] + t))[0] != "$${"[0];
      HidePast(p[0], p[1..] + t);
      HidePastPlain(p[1..], t);
    }
  }

  lemma ConsNameRun(c: char, t: string)
    ensures NameRun([c] + t) == if IsNameChar(c) then 1 + NameRun(t) else 0
  {
    assert ([c] + t)[1..] == t;
  }

  /** Hiding does not change the name characters a text begins with, nor what stops them. */
  lemma {:induction false} HideKeepsNameRun(t: string)
    requires NulFree(t)
    ensures var n := NameRun(t);
      NameRun(Hide(t)) == n && n <= |Hide(t)| && Hide(t)[..n] == t[..n]
      && (n < |t| ==> n < |Hide(t)| && (Hide(t)[n] == '}' <==> t[n] == '}')) && (n == |t| ==> |Hide(t)| == n)
  {
    if t != "" && !("$${" <= t) {
      var c, rest := t[0], t[1..];
      assert t == [c] + rest;
      HidePast(c, rest);
      hide Hide, NameRun;
      HideKeepsNameRun(rest);
      ConsNameRun(c, rest);
      ConsNameRun(c, Hide(rest));
      if IsNameChar(c) {
        var n := NameRun(rest);
        assert ([c] + Hide(rest))[..1 + n] == [c] + Hide(rest)[..n] && t[..1 + n] == [c] + rest[..n];
      }
    }
  }

  /** So a placeholder's braces and name look the same before and after hiding. */
  lemma HideKeepsBracedName(t: string)
    requires NulFree(t)
    ensures BracedName(Hide(t)) == BracedName(t)
  {
    if t != "" && !("$${" <= t) {
      var c, rest := t[0], t[1..];
      assert t == [c] + rest;
      HidePast(c, rest);
      HideKeepsNameRun(rest);
      var h := Hide(t);
      assert h[0] == c && h[1..] == Hide(rest);
      var n := NameRun(rest);
      assert n > 0 ==> h[1] == t[1] by {
        if n > 0 {
          assert Hide(rest)[..n][0] == rest[..n][0];
        }
      }
      assert n == 0 && rest != "" ==> !IsNameStart(rest[0]);
      if BracedName(t).Some? {
        assert h[1..1 + n] == Hide(rest)[..n] == rest[..n] == t[1..1 + n];
      }
    }
  }

  // ---- three passes are one ----------------------------------------------------------------

  predicate IsName(name: string) {
    name != "" && IsNameStart(name[0]) && forall c | c in name :: IsNameChar(c)
  }

  lemma PlaceholderIsName(s: string)
    requires Placeholder(s).Some?
    ensures IsName(Placeholder(s).value)
  {
    var name := Placeholder(s).value;
    assert s[1..][1] == name[0];
  }

  /** The values placeholders can reach are clean. */
  predicate AllClean(values: Values) {
    forall name | name in values && IsName(name) :: Clean(values[name])
  }

  lemma CleanValue(values: Values, name: string, u: string)
    requires AllClean(values) && IsName(name)
    ensures Restore(ValueOf(values, name) + u) == ValueOf(values, name) + Restore(u)
  {
    CleanStartsNone(ValueOf(values, name), u);
    RestorePast(ValueOf(values, name), u);
  }

  /** The template that is one placeholder. */
  lemma OnePlaceholder(name: string, rest: string)
    requires IsName(name)
    ensures Placeholder("${" + name + "}" + rest) == Some(name)
    ensures ("${" + name + "}" + rest)[|name| + 3..] == rest
  {
    var s := "${" + name + "}" + rest;
    assert s[1..] == "{" + (name + "}" + rest);
    NameRunOf(name, "}" + rest);
    assert s[1..][1..] == name + ("}" + rest) && s[1..][1] == name[0];
    assert s[1..][1..1 + |name|] == name;
  }

  lemma {:induction false} NameRunOf(name: string, rest: string)
    requires (forall c | c in name :: IsNameChar(c)) && rest != "" && !IsNameChar(rest[0])
    ensures NameRun(name + rest) == |name|
  {
    if name == "" {
      assert name + rest == rest;
    } else {
      assert (name + rest)[1..] == name[1..] + rest;
      NameRunOf(name[1..], rest);
    }
  }

  /** What the template "${name}" + tail becomes before the sentinels are restored. */
  lemma TemplateOf(name: string, tail: string, values: Values)
    requires IsName(name) && NulFree(tail)
    ensures var t := "${" + name + "}" + tail;
      && SubstituteString(t, values) == Restore(ValueOf(values, name) + Expand(Hide(tail), values))
      && Substituted(t, values) == ValueOf(values, name) + Substituted(tail, values)
  {
    HideToken(name, tail);
    hide Hide, Placeholder, Restore;
    OnePlaceholder(name, tail);
    OnePlaceholder(name, Hide(tail));
    assert ("${" + name + "}" + tail)[1] == '{';
  }

  lemma HideToken(name: string, tail: string)
    requires IsName(name)
    ensures Hide("${" + name + "}" + tail) == "${" + name + "}" + Hide(tail)
  {
    var token := "{" + name + "}";
    assert forall c | c in token :: c != '$';
    assert "${" + name + "}" + tail == ['$'] + (token + tail);
    assert (['$'] + (token + tail))[1] == '{';
    hide ReplaceAll;
    HidePast('$', token + tail);
    HidePastPlain(token, tail);
    assert "${" + name + "}" + Hide(tail) == ['$'] + (token + Hide(tail));
  }

  lemma EscapeStep(s: string, values: Values)
    requires "$${" <= s
    ensures SubstituteString(s, values) == "${" + Restore(Expand(Hide(s[3..]), values))
  {
    ExpandPast(SENTINEL, Hide(s[3..]), values);
    RestoreSentinel(Expand(Hide(s[3..]), values));
  }

  lemma PlaceholderStep(s: string, values: Values)
    requires NulFree(s) && AllClean(values) && Placeholder(s).Some?
    ensures var name := Placeholder(s).value;
      SubstituteString(s, values) == ValueOf(values, name) + Restore(Expand(Hide(s[|name| + 3..]), values))
  {
    var name := Placeholder(s).value;
    var rest := s[|name| + 3..];
    PlaceholderIsName(s);
    hide Placeholder, Hide, Expand, Restore, SubstituteString, Substituted;
    assert s == "${" + name + "}" + rest;
    TemplateOf(name, rest, values);
    CleanValue(values, name, Expand(Hide(rest), values));
  }

  lemma PlainStep(s: string, values: Values)
    requires s != "" && NulFree(s) && !("$${" <= s) && Placeholder(s).None?
    ensures SubstituteString(s, values) == [s[0]] + Restore(Expand(Hide(s[1..]), values))
  {
    var c, rest := s[0], s[1..];
    assert s == [c] + rest;
    HidePast(c, rest);
    HideKeepsBracedName(rest);
    assert Hide(s)[0] == c && Hide(s)[1..] == Hide(rest);
    var u := Expand(Hide(rest), values);
    assert Expand(Hide(s), values) == [c] + u;
    assert ([c] + u)[1..] == u && ([c] + u)[0] == c != NUL;
  }

  /** With a template without NUL and clean values, the three passes are the single pass. */
  lemma {:induction false} ThreePassesAreOne(s: string, values: Values)
    requires NulFree(s) && AllClean(values)
    ensures SubstituteString(s, values) == Substituted(s, values)
  {
    hide Hide, Restore, Expand, Placeholder;
    if s == "" {
    } else if "$${" <= s {
      EscapeStep(s, values);
      Again(s[3..], values);
      ThreePassesAreOne(s[3..], values);
    } else if Placeholder(s).Some? {
      PlaceholderStep(s, values);
      Again(s[|Placeholder(s).value| + 3..], values);
      ThreePassesAreOne(s[|Placeholder(s).value| + 3..], values);
    } else {
      PlainStep(s, values);
      Again(s[1..], values);
      ThreePassesAreOne(s[1..], values);
    }
  }

  lemma Again(s: string, values: Values)
    ensures SubstituteString(s, values) == Restore(Expand(Hide(s), values))
  {
  }

  // ---- and only then -----------------------------------------------------------------------

  /** Restoring never lengthens, and shortens where a sentinel is. */
  lemma {:induction false} RestoreShortens(s: string, i: nat)
    requires i <= |s|
    ensures |Restore(s)| <= |s|
    ensures i < |s| && SENTINEL <= s[i..] ==> |Restore(s)| < |s|
  {
    if s != "" {
      if SENTINEL <= s {
        RestoreShortens(s[5..], 0);
      } else {
        RestoreShortens(s[1..], if i > 0 then i - 1 else 0);
        assert i > 0 ==> s[1..][i - 1..] == s[i..];
        assert s[0..] == s;
      }
    }
  }

  /** A sentinel inside a value is lost. */
  lemma SentinelInValueSpoils(name: string, values: Values, i: nat)
    requires IsName(name) && name in values && i < |values[name]| && SENTINEL <= values[name][i..]
    ensures SubstituteString("${" + name + "}", values) != Substituted("${" + name + "}", values)
  {
    var v := values[name];
    TemplateOf(name, "", values);
    assert "${" + name + "}" + "" == "${" + name + "}" && v + "" == v;
    RestoreShortens(v, i);
  }

  /** No sentinel starts before the first one that begins in the value's tail. */
  lemma FirstSentinel(w: string, u: string)
    requires NoneStarts(w + [NUL], |w|)
    ensures NoneStarts(w + (SENTINEL + u), |w|)
  {
    var whole := w + (SENTINEL + u);
    forall j | 0 <= j < |w| ensures !(SENTINEL <= whole[j..]) {
      if j + 4 > |w| {
        assert whole[j..][4] == whole[j + 4] == SENTINEL[j + 4 - |w|] != NUL;
      } else {
        assert whole[j..][..5] == (w + [NUL])[j..][..5];
      }
    }
  }

  /** The rest of a sentinel of which `k` characters are there, up to its last; then an escape. */
  function Continuation(k: nat): string
    requires k <= 4
  {
    SENTINEL[k..4] + "$${"
  }

  lemma ContinuationExpands(k: nat, values: Values)
    requires 1 <= k <= 4
    ensures NulFree(Continuation(k)) && Expand(Hide(Continuation(k)), values) == SENTINEL[k..4] + SENTINEL
  {
    var more := SENTINEL[k..4];
    assert forall j | 0 <= j < |more| :: more[j] == SENTINEL[k + j];
    HidePastPlain(more, "$${");
    assert "$${"[3..] == "" && Hide("$${") == SENTINEL;
    ExpandPast(more + SENTINEL, "", values);
    assert more + SENTINEL + "" == more + SENTINEL;
  }

  /** Where a value ends like a sentinel begins, the whole falls into another sentinel and a rest. */
  lemma SentinelShifts(v: string, i: nat)
    requires i < |v| && v[i..] <= SENTINEL && |v| - i <= 4
    ensures v + (SENTINEL[|v| - i..4] + SENTINEL) == v[..i] + (SENTINEL + ("ESC" + [NUL]))
    ensures v[..i] + [NUL] == v[..i + 1]
  {
    var k := |v| - i;
    assert v == v[..i] + SENTINEL[..k];
    assert SENTINEL[..k] + SENTINEL[k..4] + SENTINEL == SENTINEL + ("ESC" + [NUL]);
    assert v[i..][0] == SENTINEL[0];
  }

  lemma NoneInFront(v: string, i: nat)
    requires i < |v| && NoneStarts(v, |v|)
    ensures NoneStarts(v[..i + 1], i)
  {
    var front := v[..i + 1];
    forall j | 0 <= j < i ensures !(SENTINEL <= front[j..]) {
      assert front[j..] <= v[j..];
    }
  }

  lemma DifferAt(w: string, x: string, v: string, y: string)
    requires |w| < |v| && x != "" && x[0] != v[|w|]
    ensures w + x != v + y
  {
    assert (w + x)[|w|] != (v + y)[|w|];
  }

  /** What comes out instead of the value and the rest of the template. */
  lemma SwallowedEscape(v: string, i: nat)
    requires i < |v| && v[i..] <= SENTINEL && |v| - i <= 4 && NoneStarts(v, |v|)
    ensures Restore(v + (SENTINEL[|v| - i..4] + SENTINEL)) == v[..i] + ("${" + Restore("ESC" + [NUL]))
  {
    var u := "ESC" + [NUL];
    SentinelShifts(v, i);
    NoneInFront(v, i);
    hide Restore;
    FirstSentinel(v[..i], u);
    hide NoneStarts;
    RestorePast(v[..i], SENTINEL + u);
    RestoreSentinel(u);
  }

  /** A value that ends like the beginning of a sentinel swallows the escape after it. */
  lemma SentinelStartSpoils(name: string, values: Values, i: nat)
    requires IsName(name) && name in values && i < |values[name]|
    requires values[name][i..] <= SENTINEL && NoneStarts(values[name], |values[name]|)
    ensures |values[name]| - i <= 4
    ensures var t := "${" + name + "}" + Continuation(|values[name]| - i);
      NulFree(t) && SubstituteString(t, values) != Substituted(t, values)
  {
    var v := values[name];
    AtMostFour(v, i);
    assert ValueOf(values, name) == v;
    hide *;
    var tail := Continuation(|v| - i);
    ContinuationExpands(|v| - i, values);
    TokenIsNulFree(name, tail);
    TemplateOf(name, tail, values);
    SwallowedEscape(v, i);
    SwallowedDiffers(v, i, Substituted(tail, values));
  }

  lemma AtMostFour(v: string, i: nat)
    requires i < |v| && v[i..] <= SENTINEL && NoneStarts(v, |v|)
    ensures |v| - i <= 4
  {
    assert !(SENTINEL <= v[i..]);
  }

  lemma TokenIsNulFree(name: string, tail: string)
    requires IsName(name) && NulFree(tail)
    ensures NulFree("${" + name + "}" + tail)
  {
  }

  lemma SwallowedDiffers(v: string, i: nat, y: string)
    requires i < |v| && v[i..] <= SENTINEL
    ensures v[..i] + ("${" + Restore("ESC" + [NUL])) != v + y
  {
    assert v[i] == v[i..][0] == SENTINEL[0];
    DifferAt(v[..i], "${" + Restore("ESC" + [NUL]), v, y);
  }

  /**
   The condition on values is exact: substitution is the single pass for every template without NUL if
   and only if every value a placeholder can reach is clean.
   */
  lemma SinglePassExactlyWhenClean(values: Values)
    ensures AllClean(values) <==>
            forall s | NulFree(s) :: SubstituteString(s, values) == Substituted(s, values)
  {
    hide SubstituteString, Substituted, Clean;
    if AllClean(values) {
      forall s | NulFree(s) ensures SubstituteString(s, values) == Substituted(s, values) {
        ThreePassesAreOne(s, values);
      }
    } else {
      var name :| name in values && IsName(name) && !Clean(values[name]);
      var template := UncleanSpoils(name, values);
    }
  }

  lemma UncleanSpoils(name: string, values: Values) returns (template: string)
    requires name in values && IsName(name) && !Clean(values[name])
    ensures NulFree(template) && SubstituteString(template, values) != Substituted(template, values)
  {
    hide SubstituteString, Substituted, Continuation;
    var v := values[name];
    if j :| 0 <= j < |v| && SENTINEL <= v[j..] {
      template := "${" + name + "}";
      SentinelInValueSpoils(name, values, j);
    } else {
      var i :| 0 <= i < |v| && v[i..] <= SENTINEL;
      SentinelStartSpoils(name, values, i);
      template := "${" + name + "}" + Continuation(|v| - i);
    }
  }

  /** A captured value without NUL is inserted as it is, whatever it looks like, and never expanded again. */
  lemma CapturedValueIsVerbatim(name: string, values: Values)
    requires IsName(name) && name in values && NulFree(values[name])
    ensures SubstituteString("${" + name + "}", values) == values[name]
  {
    PlaceholderGivesValue(name, values);
  }

  /** A name without a value gives nothing. */
  lemma UnknownNameIsEmpty(name: string, values: Values)
    requires IsName(name) && name !in values
    ensures SubstituteString("${" + name + "}", values) == ""
  {
    PlaceholderGivesValue(name, values);
  }

  lemma PlaceholderGivesValue(name: string, values: Values)
    requires IsName(name) && NulFree(ValueOf(values, name))
    ensures SubstituteString("${" + name + "}", values) == ValueOf(values, name)
  {
    TemplateOf(name, "", values);
    assert "${" + name + "}" + "" == "${" + name + "}";
    var v := ValueOf(values, name);
    NulFreeIsClean(v);
    CleanStartsNone(v, "");
    RestorePast(v, "");
  }

  /** An escaped placeholder stands for itself, whatever its name would give. */
  lemma EscapedNameIsLiteral(name: string, values: Values)
    requires IsName(name)
    ensures SubstituteString("$${" + name + "}", values) == "${" + name + "}"
  {
    var s, rest := "$${" + name + "}", name + "}";
    assert s == "$${" + rest && s[3..] == rest;
    assert forall c | c in rest :: c != '$' && c != NUL;
    EscapeStep(s, values);
    HidePastPlain(rest, "");
    assert rest + "" == rest;
    ExpandPast(rest, "", values);
    NulFreeIsClean(rest);
    CleanStartsNone(rest, "");
    RestorePast(rest, "");
    assert "${" + rest == "${" + name + "}";
  }
}
