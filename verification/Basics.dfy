/** Small facts about lists and counts that several modules share. */
module Basics {
  function One(b: bool): nat {
    if b then 1 else 0
  }

  predicate Distinct<T(==)>(l: seq<T>) {
    forall i, j | 0 <= i < j < |l| :: l[i] != l[j]
  }

  /** Cutting an element out of the tail of a list, with the head put back, cuts it out of the list. */
  lemma CutInTail<T>(l: seq<T>, i: nat)
    requires 0 < i < |l|
    ensures [l[0]] + (l[1..][..i - 1] + l[1..][i..]) == l[..i] + l[i + 1..]
  {
  }

  /** One more than the last position of `key` in the log; 0 when it is not there. */
  function LastTouch(log: seq<string>, key: string): (r: nat)
    ensures r <= |log|
  {
    if log == [] then 0
    else if log[|log| - 1] == key then |log|
    else LastTouch(log[..|log| - 1], key)
  }

  lemma LastTouchSnoc(log: seq<string>, k: string, key: string)
    ensures LastTouch(log + [k], key) == if k == key then |log| + 1 else LastTouch(log, key)
  {
    assert (log + [k])[..|log|] == log;
  }
}
