/** Orders of sequences. */
module Sequences {

  function Reversed<T>(s: seq<T>): seq<T> {
    seq(|s|, k requires 0 <= k < |s| => s[|s| - 1 - k])
  }

  lemma ReversedStep<T>(s: seq<T>, lo: nat, hi: nat)
    requires lo < hi <= |s|
    ensures Reversed(s[lo + 1..hi]) + [s[lo]] == Reversed(s[lo..hi])
  {}

  ghost predicate Increasing(s: seq<nat>) {
    forall j, k :: 0 <= j < k < |s| ==> s[j] < s[k]
  }
}
