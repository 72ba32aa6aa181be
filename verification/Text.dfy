/**
 String scanning shared by the path, endpoint and template code. Strings are sequences of
 characters; the source works on bytes, and no operation here depends on the difference.
 */
module Text {
  import opened Wrappers

  /** The longest prefix of `s` that contains none of `stops`. */
  function CutAt(s: string, stops: set<char>): (r: string)
    ensures r <= s
    ensures forall i | 0 <= i < |r| :: r[i] !in stops
    ensures |r| < |s| ==> s[|r|] in stops
  {
    if s == "" || s[0] in stops then "" else [s[0]] + CutAt(s[1..], stops)
  }

  /** `s` without one leading copy of `prefix`, as strings.TrimPrefix does. */
  function TrimPrefix(s: string, prefix: string): (r: string) {
    if prefix <= s then s[|prefix|..] else s
  }

  /** The suffix of `s` from its first `c` on, or `[c]` when `s` has no `c`. */
  function FromFirst(s: string, c: char): (r: string)
    ensures |r| > 0 && r[0] == c
  {
    if s == "" then [c] else if s[0] == c then s else FromFirst(s[1..], c)
  }

  predicate IsNameStart(c: char) {
    'A' <= c <= 'Z' || 'a' <= c <= 'z' || c == '_'
  }

  predicate IsNameChar(c: char) {
    IsNameStart(c) || '0' <= c <= '9'
  }

  /** Length of the longest run of name characters at the front of `s`. */
  function NameRun(s: string): (n: nat)
    ensures n <= |s|
    ensures forall i | 0 <= i < n :: IsNameChar(s[i])
    ensures n < |s| ==> !IsNameChar(s[n])
  {
    if s == "" || !IsNameChar(s[0]) then 0 else 1 + NameRun(s[1..])
  }

  /** The `name` of a "{name}" token at the very front of `s`, if there is one. */
  function BracedName(s: string): (r: Option<string>)
    ensures r.Some? ==> |r.value| > 0 && "{" + r.value + "}" <= s
    ensures r.Some? ==> forall i | 0 <= i < |r.value| :: IsNameChar(r.value[i])
  {
    if |s| >= 3 && s[0] == '{' && IsNameStart(s[1]) then
      var n := NameRun(s[1..]);
      if 1 + n < |s| && s[1 + n] == '}' then
        assert "{" + s[1..1 + n] + "}" == s[..n + 2];
        assert s[1..1 + n] == s[1..][..n];
        Some(s[1..1 + n])
      else None
    else None
  }

  /** Whether a "{name}" token occurs anywhere in `s`. */
  predicate HasCapture(s: string)
    ensures HasCapture(s) ==> '{' in s
  {
    s != "" && (BracedName(s).Some? || HasCapture(s[1..]))
  }

  lemma {:induction false} NothingToCut(s: string, stops: set<char>)
    requires forall c | c in s :: c !in stops
    ensures CutAt(s, stops) == s
  {
    if s != "" {
      NothingToCut(s[1..], stops);
    }
  }

  lemma {:induction false} FromFirstJoined(s: string, rest: string, c: char)
    requires c !in s && rest != "" && rest[0] == c
    ensures FromFirst(s + rest, c) == rest
  {
    if s == "" {
      assert s + rest == rest;
    } else {
      assert s + rest == [s[0]] + (s[1..] + rest);
      FromFirstJoined(s[1..], rest, c);
    }
  }

  /** What follows a stop, or the end, is cut off. */
  lemma {:induction false} CutBefore(s: string, rest: string, stops: set<char>)
    requires (forall c | c in s :: c !in stops) && (rest == "" || rest[0] in stops)
    ensures CutAt(s + rest, stops) == s
  {
    if s == "" {
      assert s + rest == rest;
    } else {
      assert s + rest == [s[0]] + (s[1..] + rest);
      CutBefore(s[1..], rest, stops);
    }
  }

  lemma {:induction false} FromFirstAbsent(s: string, c: char)
    requires c !in s
    ensures FromFirst(s, c) == [c]
  {
    if s != "" {
      FromFirstAbsent(s[1..], c);
    }
  }

  /** A "{name}" token: a name starts with a letter or underscore and goes on with those and digits. */
  predicate IsToken(t: string) {
    && |t| >= 3 && t[0] == '{' && t[|t| - 1] == '}'
    && IsNameStart(t[1]) && forall i | 1 <= i < |t| - 1 :: IsNameChar(t[i])
  }

  lemma {:induction false} NameRunIs(s: string, n: nat)
    requires n < |s| && (forall i | 0 <= i < n :: IsNameChar(s[i])) && !IsNameChar(s[n])
    ensures NameRun(s) == n
  {
    if n > 0 {
      NameRunIs(s[1..], n - 1);
    }
  }

  lemma TokenAtFront(s: string, n: nat)
    requires n <= |s| && IsToken(s[..n])
    ensures BracedName(s) == Some(s[1..n - 1])
  {
    var t := s[..n];
    assert s[0] == t[0] && s[1] == t[1] && s[n - 1] == t[n - 1];
    assert s[1..][n - 2] == s[n - 1];
    forall i | 0 <= i < n - 2 ensures IsNameChar(s[1..][i]) {
      assert s[1..][i] == t[i + 1];
    }
    NameRunIs(s[1..], n - 2);
  }

  lemma FrontHasToken(s: string)
    requires BracedName(s).Some?
    ensures IsToken(s[..|BracedName(s).value| + 2])
  {
    var name := BracedName(s).value;
    assert s[..|name| + 2] == "{" + name + "}";
    assert s[1] == name[0];
  }

  lemma SliceOfTail(s: string, i: nat, j: nat)
    requires i <= j < |s|
    ensures s[1..][i..j] == s[i + 1..j + 1]
  {
    assert forall k | i <= k < j :: s[1..][k] == s[k + 1];
  }

  lemma {:induction false} CaptureIsToken(s: string)
    requires HasCapture(s)
    ensures exists i, j :: 0 <= i <= j <= |s| && IsToken(s[i..j])
  {
    hide BracedName, IsToken;
    if BracedName(s).Some? {
      FrontHasToken(s);
      var n := |BracedName(s).value| + 2;
      assert s[0..n] == s[..n];
    } else {
      CaptureIsToken(s[1..]);
      var i, j :| 0 <= i <= j <= |s[1..]| && IsToken(s[1..][i..j]);
      SliceOfTail(s, i, j);
    }
  }

  lemma {:induction false} TokenIsCapture(s: string, i: nat, j: nat)
    requires i <= j <= |s| && IsToken(s[i..j])
    ensures HasCapture(s)
  {
    hide BracedName;
    if i == 0 {
      assert s[0..j] == s[..j];
      TokenAtFront(s, j);
    } else {
      hide IsToken;
      SliceOfTail(s, i - 1, j - 1);
      TokenIsCapture(s[1..], i - 1, j - 1);
    }
  }

  /** A text has a capture exactly when some stretch of it is a token. */
  lemma HasCaptureExactly(s: string)
    ensures HasCapture(s) <==> exists i, j :: 0 <= i <= j <= |s| && IsToken(s[i..j])
  {
    hide HasCapture, IsToken;
    if HasCapture(s) {
      CaptureIsToken(s);
    } else if i, j :| 0 <= i <= j <= |s| && IsToken(s[i..j]) {
      TokenIsCapture(s, i, j);
    }
  }

  /** Cutting at one set of characters and then at another is cutting at either. */
  lemma {:induction false} CutTwice(s: string, a: set<char>, b: set<char>)
    ensures CutAt(CutAt(s, a), b) == CutAt(s, a + b)
  {
    if s != "" && s[0] !in a {
      CutTwice(s[1..], a, b);
      assert CutAt(s, a)[1..] == CutAt(s[1..], a);
    }
  }

  /** Text up to the first separator is determined by the joined text. */
  lemma {:induction false} CutJoined(a: string, x: string, sep: char)
    requires sep !in a
    ensures CutAt(a + [sep] + x, {sep}) == a
  {
    if a == "" {
      assert (a + [sep] + x)[0] == sep;
    } else {
      assert a + [sep] + x == [a[0]] + (a[1..] + [sep] + x);
      CutJoined(a[1..], x, sep);
    }
  }

  /** Joining with a separator is injective when the left parts do not contain it. */
  lemma JoinInjective(a: string, x: string, b: string, y: string, sep: char)
    requires sep !in a && sep !in b && a + [sep] + x == b + [sep] + y
    ensures a == b && x == y
  {
    CutJoined(a, x, sep);
    CutJoined(b, y, sep);
    assert x == (a + [sep] + x)[|a| + 1..] && y == (b + [sep] + y)[|b| + 1..];
  }
}
