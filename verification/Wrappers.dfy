/** Optional and fallible values, and the increasing sequences that histories are made of. */
module Wrappers {

  datatype Option<+T> = None | Some(value: T)

  datatype Result<+T, +E> = Ok(value: T) | Err(error: E)

  predicate StrictlyIncreasing(s: seq<int>) {
    forall i, j :: 0 <= i < j < |s| ==> s[i] < s[j]
  }

  lemma {:induction false} NeverDecreases(s: seq<int>, i: nat, j: nat)
    requires forall k :: 0 <= k < |s| - 1 ==> s[k] <= s[k + 1]
    requires i <= j < |s|
    ensures s[i] <= s[j]
  {
    if i < j {
      NeverDecreases(s, i, j - 1);
    }
  }

  /** No element exceeds the bound. */
  predicate AllAtMost(s: seq<int>, bound: int) {
    forall i :: 0 <= i < |s| ==> s[i] <= bound
  }
}
