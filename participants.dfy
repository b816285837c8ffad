/** Operations on an activity's participant list: an ordered list of email
    strings in which insertion order is observable. */
module Participants {

  /** No email occurs twice in the list. */
  predicate Distinct<T(==)>(s: seq<T>) {
    forall i, j :: 0 <= i < j < |s| ==> s[i] != s[j]
  }

  /** Position of the first occurrence of `x` in `s`, or `|s|` when `x` does
      not occur (the scan behind a list membership test). */
  function FirstIndex<T(==)>(s: seq<T>, x: T): (i: nat)
    ensures i <= |s|
    ensures i < |s| ==> s[i] == x
    ensures forall k :: 0 <= k < i ==> s[k] != x
    ensures i == |s| <==> x !in s
  {
    if |s| == 0 then 0
    else if s[0] == x then 0
    else 1 + FirstIndex(s[1..], x)
  }

  /** The list with the first occurrence of `x` taken out (list removal by
      value). Exactly one copy of `x` goes; every other entry keeps its
      relative order. */
  function RemoveFirst<T(==)>(s: seq<T>, x: T): (r: seq<T>)
    requires x in s
    ensures |r| == |s| - 1
    ensures multiset(r) == multiset(s) - multiset{x}
    ensures var i := FirstIndex(s, x);
            r[..i] == s[..i] && r[i..] == s[i + 1..]
  {
    var i := FirstIndex(s, x);
    assert s == s[..i] + [s[i]] + s[i + 1..];
    s[..i] + s[i + 1..]
  }

  /** In a list without duplicates, removal leaves no copy of `x` behind and
      keeps the list duplicate-free. */
  lemma RemoveFirstOfDistinct<T>(s: seq<T>, x: T)
    requires x in s
    requires Distinct(s)
    ensures x !in RemoveFirst(s, x)
    ensures Distinct(RemoveFirst(s, x))
  {
  }

  /** Appending an email that is absent and then removing it gives back the
      original list, order included. */
  lemma RemoveFirstAfterAppend<T>(s: seq<T>, x: T)
    requires x !in s
    ensures RemoveFirst(s + [x], x) == s
  {
  }
}
