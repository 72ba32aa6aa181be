/**
 In-place selection (internal/handler/adaptive_timeout.go:292-332): Lomuto partition and recursive
 quickselect on an array, proved against sorting.
 */
module OrderStatistics {
  import opened Basics

  // ---- sorting, as the reference -----------------------------------------------------------

  predicate IsSorted(s: seq<int>) {
    forall i, j | 0 <= i < j < |s| :: s[i] <= s[j]
  }

  predicate AllAtMost(s: seq<int>, x: int) {
    forall y | y in s :: y <= x
  }

  predicate AllAtLeast(s: seq<int>, x: int) {
    forall y | y in s :: y >= x
  }

  lemma TailSorted(s: seq<int>)
    requires IsSorted(s) && s != []
    ensures IsSorted(s[1..]) && multiset(s[1..]) == multiset(s) - multiset{s[0]}
    ensures forall y :: y in s <==> y == s[0] || y in s[1..]
    ensures forall y | y in s[1..] :: s[0] <= y
  {
    assert s == [s[0]] + s[1..];
  }

  lemma ConsSorted(first: int, rest: seq<int>, tail: seq<int>, x: int)
    requires IsSorted(rest) && first <= x && forall y :: y in rest <==> y in tail || y == x
    requires forall y | y in tail :: first <= y
    ensures IsSorted([first] + rest)
  {
    forall i | 0 <= i < |rest| ensures first <= rest[i] {
      assert rest[i] in rest;
    }
  }

  function Insert(s: seq<int>, x: int): (r: seq<int>)
    requires IsSorted(s)
    ensures IsSorted(r) && multiset(r) == multiset(s) + multiset{x}
    ensures forall y :: y in r <==> y in s || y == x
  {
    if s == [] then [x]
    else if x <= s[0] then
      TailSorted(s);
      [x] + s
    else
      TailSorted(s);
      var rest := Insert(s[1..], x);
      ConsSorted(s[0], rest, s[1..], x);
      [s[0]] + rest
  }

  function Sorted(s: seq<int>): (r: seq<int>)
    ensures IsSorted(r) && multiset(r) == multiset(s) && |r| == |s|
  {
    if s == [] then []
    else
      assert s == [s[0]] + s[1..];
      var r := Insert(Sorted(s[1..]), s[0]);
      assert |multiset(r)| == |r| && |multiset(s)| == |s|;
      r
  }

  lemma SameMembers(s: seq<int>, t: seq<int>)
    requires multiset(s) == multiset(t)
    ensures |s| == |t| && forall y :: y in s <==> y in t
  {
    assert forall y :: y in s <==> y in multiset(s);
    assert |multiset(s)| == |s| && |multiset(t)| == |t|;
  }

  lemma FirstIsLeast(s: seq<int>, y: int)
    requires IsSorted(s) && y in s
    ensures s[0] <= y
  {
  }

  lemma HeadAndTail(s: seq<int>, t: seq<int>)
    requires s != [] && t != [] && s[0] == t[0] && s[1..] == t[1..]
    ensures s == t
  {
    assert s == [s[0]] + s[1..] && t == [t[0]] + t[1..];
  }

  /** A multiset has only one sorted arrangement. */
  lemma {:induction false} SortedIsUnique(s: seq<int>, t: seq<int>)
    requires IsSorted(s) && IsSorted(t) && multiset(s) == multiset(t)
    ensures s == t
  {
    hide IsSorted;
    SameMembers(s, t);
    if s != [] {
      FirstIsLeast(s, t[0]);
      FirstIsLeast(t, s[0]);
      TailSorted(s);
      TailSorted(t);
      assert s[0] == t[0];
      SortedIsUnique(s[1..], t[1..]);
      HeadAndTail(s, t);
    }
  }

  lemma SortedAround(lo: seq<int>, x: int, hi: seq<int>)
    requires IsSorted(lo) && IsSorted(hi) && AllAtMost(lo, x) && AllAtLeast(hi, x)
    ensures IsSorted(lo + [x] + hi)
  {
    assert forall i | 0 <= i < |lo| :: lo[i] in lo;
    assert forall i | 0 <= i < |hi| :: hi[i] in hi;
  }

  /** Position `j` of any arrangement that puts the smaller before it and the larger after it. */
  lemma SelectedIsOrderStatistic(s: seq<int>, t: seq<int>, j: nat)
    requires multiset(s) == multiset(t) && j < |t|
    requires AllAtMost(t[..j], t[j]) && AllAtLeast(t[j + 1..], t[j])
    ensures |s| == |t| && Sorted(s)[j] == t[j]
  {
    hide Sorted, IsSorted;
    var lo, hi := Sorted(t[..j]), Sorted(t[j + 1..]);
    var whole := lo + [t[j]] + hi;
    SameMembers(lo, t[..j]);
    SameMembers(hi, t[j + 1..]);
    SortedAround(lo, t[j], hi);
    assert multiset(whole) == multiset(t[..j]) + multiset{t[j]} + multiset(t[j + 1..]);
    assert t == t[..j] + [t[j]] + t[j + 1..];
    SortedIsUnique(Sorted(s), whole);
    assert whole[j] == t[j];
  }

  function CountIf(s: seq<int>, p: int -> bool): (n: nat)
    ensures n <= |s|
  {
    if s == [] then 0 else One(p(s[0])) + CountIf(s[1..], p)
  }

  lemma {:induction false} CountJoined(s: seq<int>, t: seq<int>, p: int -> bool)
    ensures CountIf(s + t, p) == CountIf(s, p) + CountIf(t, p)
  {
    if s == [] {
      assert s + t == t;
    } else {
      assert (s + t)[1..] == s[1..] + t;
      CountJoined(s[1..], t, p);
    }
  }

  lemma {:induction false} CountAll(s: seq<int>, p: int -> bool)
    requires forall y | y in s :: p(y)
    ensures CountIf(s, p) == |s|
  {
    if s != [] {
      var first := s[0];
      assert first in s && p(first) && forall y | y in s[1..] :: y in s;
      CountAll(s[1..], p);
    }
  }

  lemma CutOut(s: seq<int>, t: seq<int>, i: nat)
    requires s != [] && i < |t| && t[i] == s[0] && multiset(s) == multiset(t)
    ensures multiset(s[1..]) == multiset(t[..i] + t[i + 1..])
  {
    var first := s[0];
    assert s == [first] + s[1..];
    assert t == t[..i] + [first] + t[i + 1..];
    assert multiset(t[..i] + t[i + 1..]) == multiset(t) - multiset{first};
    assert multiset(s[1..]) == multiset(s) - multiset{first};
  }

  lemma {:induction false} CountRearranged(s: seq<int>, t: seq<int>, p: int -> bool)
    requires multiset(s) == multiset(t)
    ensures CountIf(s, p) == CountIf(t, p)
  {
    SameMembers(s, t);
    if s != [] {
      var first := s[0];
      assert first in s && first in t;
      var i :| 0 <= i < |t| && t[i] == first;
      CutOut(s, t, i);
      CountRearranged(s[1..], t[..i] + t[i + 1..], p);
      CountJoined(t[..i], t[i + 1..], p);
      CountJoined(t[..i], [t[i]] + t[i + 1..], p);
      assert t == t[..i] + ([t[i]] + t[i + 1..]);
    }
  }

  function AtMost(x: int): int -> bool {
    y => y <= x
  }

  function AtLeast(x: int): int -> bool {
    y => y >= x
  }

  /** Of the elements, more than `k` are at most `x`, and all but `k` are at least `x`. */
  predicate HasRank(s: seq<int>, k: nat, x: int) {
    x in s && CountIf(s, AtMost(x)) > k && CountIf(s, AtLeast(x)) >= |s| - k
  }

  lemma SortedSides(t: seq<int>, k: nat)
    requires IsSorted(t) && k < |t|
    ensures AllAtMost(t[..k + 1], t[k]) && AllAtLeast(t[k..], t[k])
  {
  }

  lemma SortedCounts(t: seq<int>, k: nat)
    requires IsSorted(t) && k < |t|
    ensures CountIf(t, AtMost(t[k])) > k && CountIf(t, AtLeast(t[k])) >= |t| - k
  {
    var x, front, back := t[k], t[..k + 1], t[k..];
    SortedSides(t, k);
    hide IsSorted, CountIf;
    assert t == front + t[k + 1..] && t == t[..k] + back;
    CountAll(front, AtMost(x));
    CountAll(back, AtLeast(x));
    CountJoined(front, t[k + 1..], AtMost(x));
    CountJoined(t[..k], back, AtLeast(x));
  }

  /** What stands at a position after sorting has that rank. */
  lemma SortedHasRank(s: seq<int>, k: nat)
    requires k < |s|
    ensures HasRank(s, k, Sorted(s)[k])
  {
    hide Sorted, IsSorted, CountIf;
    var t := Sorted(s);
    SameMembers(s, t);
    SortedCounts(t, k);
    CountRearranged(s, t, AtMost(t[k]));
    CountRearranged(s, t, AtLeast(t[k]));
  }

  lemma {:induction false} Disjoint(s: seq<int>, p: int -> bool, q: int -> bool)
    requires forall y :: !(p(y) && q(y))
    ensures CountIf(s, p) + CountIf(s, q) <= |s|
  {
    if s != [] {
      Disjoint(s[1..], p, q);
    }
  }

  /** Only one element has a given rank, so rank and position after sorting are the same thing. */
  lemma RankIsUnique(s: seq<int>, k: nat, x: int, z: int)
    requires HasRank(s, k, x) && HasRank(s, k, z)
    ensures x == z
  {
    hide CountIf;
    if x < z {
      Disjoint(s, AtMost(x), AtLeast(z));
    } else if z < x {
      Disjoint(s, AtMost(z), AtLeast(x));
    }
  }

  // ---- the algorithm -----------------------------------------------------------------------

  /** Outside positions `left` to `right` nothing changed, and inside things were rearranged. */
  predicate Permuted(was: seq<int>, now: seq<int>, left: int, right: int)
    requires 0 <= left <= right + 1 <= |was|
  {
    && |now| == |was|
    && now[..left] == was[..left]
    && now[right + 1..] == was[right + 1..]
    && multiset(now[left..right + 1]) == multiset(was[left..right + 1])
  }

  lemma SwapKeepsMultiset(s: seq<int>, i: nat, j: nat)
    requires i < |s| && j < |s|
    ensures multiset(s[i := s[j]][j := s[i]]) == multiset(s)
  {
  }

  lemma SwapPermutes(was: seq<int>, i: int, j: int, left: int, right: int)
    requires 0 <= left <= i <= right < |was| && left <= j <= right
    ensures Permuted(was, was[i := was[j]][j := was[i]], left, right)
  {
    var now, part := was[i := was[j]][j := was[i]], was[left..right + 1];
    SwapKeepsMultiset(part, i - left, j - left);
    assert now[left..right + 1] == part[i - left := part[j - left]][j - left := part[i - left]];
  }

  /** Swapping two places in a range. */
  method Swap(a: array<int>, i: int, j: int, ghost left: int, ghost right: int)
    requires 0 <= left <= i <= right < a.Length && left <= j <= right
    modifies a
    ensures a[i] == old(a[j]) && a[j] == old(a[i])
    ensures forall k | 0 <= k < a.Length && k != i && k != j :: a[k] == old(a[k])
    ensures Permuted(old(a[..]), a[..], left, right)
  {
    hide Permuted;
    ghost var was := a[..];
    a[i], a[j] := a[j], a[i];
    SwapPermutes(was, i, j, left, right);
    assert a[..] == was[i := was[j]][j := was[i]];
  }

  method Partition(a: array<int>, left: int, right: int) returns (p: int)
    requires 0 <= left <= right < a.Length
    modifies a
    ensures left <= p <= right && Permuted(old(a[..]), a[..], left, right)
    ensures a[p] == old(a[right]) && Divides(a[..], left, p, right)
  {
    var pivot := a[right];
    p := left;
    for j := left to right
      invariant left <= p <= j && Permuted(old(a[..]), a[..], left, right) && a[right] == pivot
      invariant forall k | left <= k < p :: a[k] <= pivot
      invariant forall k | p <= k < j :: a[k] > pivot
    {
      if a[j] <= pivot {
        Swap(a, p, j, left, right);
        p := p + 1;
      }
    }
    Swap(a, p, right, left, right);
  }

  lemma ThreeParts(s: seq<int>, left: int, lo: int, hi: int, right: int)
    requires 0 <= left <= lo <= hi + 1 <= right + 1 <= |s|
    ensures s[left..lo] == s[..lo][left..] && s[hi + 1..right + 1] == s[hi + 1..][..right - hi]
    ensures s[..left] == s[..lo][..left] && s[right + 1..] == s[hi + 1..][right - hi..]
    ensures s[left..right + 1] == s[left..lo] + s[lo..hi + 1] + s[hi + 1..right + 1]
  {
  }

  lemma WiderPermutation(was: seq<int>, now: seq<int>, left: int, lo: int, hi: int, right: int)
    requires 0 <= left <= lo <= hi + 1 <= right + 1 <= |was| && Permuted(was, now, lo, hi)
    ensures Permuted(was, now, left, right)
    ensures now[left..lo] == was[left..lo] && now[hi + 1..right + 1] == was[hi + 1..right + 1]
  {
    ThreeParts(was, left, lo, hi, right);
    ThreeParts(now, left, lo, hi, right);
  }

  /** Rearranging one side of the pivot keeps that side on its side. */
  lemma SideKept(was: seq<int>, now: seq<int>, x: int)
    requires multiset(was) == multiset(now)
    ensures AllAtMost(was, x) ==> AllAtMost(now, x)
    ensures AllAtLeast(was, x) ==> AllAtLeast(now, x)
  {
    SameMembers(was, now);
  }

  /** Position `k` of the range divides it: nothing larger before it, nothing smaller after it. */
  predicate Divides(s: seq<int>, left: int, k: int, right: int)
    requires 0 <= left <= k <= right < |s|
  {
    AllAtMost(s[left..k], s[k]) && AllAtLeast(s[k + 1..right + 1], s[k])
  }

  lemma LeftSide(split: seq<int>, now: seq<int>, left: int, k: int, p: int, right: int)
    requires 0 <= left <= k < p <= right < |split|
    requires Divides(split, left, p, right)
    requires Permuted(split, now, left, p - 1) && Divides(now, left, k, p - 1)
    ensures Permuted(split, now, left, right) && Divides(now, left, k, right)
  {
    WiderPermutation(split, now, left, left, p - 1, right);
    SideKept(split[left..p], now[left..p], split[p]);
    assert now[k] == now[left..p][k - left] && now[k] in now[left..p];
    assert now[p..right + 1] == [split[p]] + split[p + 1..right + 1];
    assert now[k + 1..right + 1] == now[k + 1..p] + now[p..right + 1];
  }

  lemma RightSide(split: seq<int>, now: seq<int>, left: int, p: int, k: int, right: int)
    requires 0 <= left <= p < k <= right < |split|
    requires Divides(split, left, p, right)
    requires Permuted(split, now, p + 1, right) && Divides(now, p + 1, k, right)
    ensures Permuted(split, now, left, right) && Divides(now, left, k, right)
  {
    WiderPermutation(split, now, left, p + 1, right, right);
    SideKept(split[p + 1..right + 1], now[p + 1..right + 1], split[p]);
    assert now[k] == now[p + 1..right + 1][k - p - 1] && now[k] in now[p + 1..right + 1];
    assert now[left..p + 1] == split[left..p] + [split[p]];
    assert now[left..k] == now[left..p + 1] + now[p + 1..k];
  }

  /** What divides a rearranged range is its order statistic. */
  lemma DividerIsOrderStatistic(was: seq<int>, now: seq<int>, left: int, k: int, right: int)
    requires 0 <= left <= k <= right < |was|
    requires Permuted(was, now, left, right) && Divides(now, left, k, right)
    ensures now[k] == Sorted(was[left..right + 1])[k - left]
  {
    var t := now[left..right + 1];
    assert t[..k - left] == now[left..k] && t[k - left + 1..] == now[k + 1..right + 1];
    SelectedIsOrderStatistic(was[left..right + 1], t, k - left);
  }

  /** Element `k` of the range's sorted order, found in place. */
  method Quickselect(a: array<int>, left: int, right: int, k: int) returns (r: int)
    requires 0 <= left <= k <= right < a.Length
    modifies a
    ensures Permuted(old(a[..]), a[..], left, right) && Divides(a[..], left, k, right)
    ensures r == a[k] == Sorted(old(a[..])[left..right + 1])[k - left]
    decreases right - left
  {
    hide Sorted, Divides, Permuted;
    if left == right {
      r := a[left];
      Alone(a[..], left);
    } else {
      var p := Partition(a, left, right);
      ghost var split := a[..];
      if k == p {
        r := a[k];
      } else if k < p {
        r := Quickselect(a, left, p - 1, k);
        LeftSide(split, a[..], left, k, p, right);
        PermutedTwice(old(a[..]), split, a[..], left, right);
      } else {
        r := Quickselect(a, p + 1, right, k);
        RightSide(split, a[..], left, p, k, right);
        PermutedTwice(old(a[..]), split, a[..], left, right);
      }
    }
    DividerIsOrderStatistic(old(a[..]), a[..], left, k, right);
  }

  lemma Alone(s: seq<int>, left: int)
    requires 0 <= left < |s|
    ensures Permuted(s, s, left, left) && Divides(s, left, left, left)
  {
  }

  lemma PermutedTwice(s: seq<int>, t: seq<int>, u: seq<int>, left: int, right: int)
    requires 0 <= left <= right + 1 <= |s| && Permuted(s, t, left, right) && Permuted(t, u, left, right)
    ensures Permuted(s, u, left, right)
  {
  }
}
