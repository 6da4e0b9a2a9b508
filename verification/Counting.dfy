/** Sums of a weight over a sequence of process states. */
module Counting {

  function Sum<T>(s: seq<T>, weight: T -> nat): nat {
    if s == [] then 0 else Sum(s[..|s| - 1], weight) + weight(s[|s| - 1])
  }

  /** Replacing one element changes the sum by the difference of the two weights. */
  lemma {:induction false} SumUpdate<T>(s: seq<T>, i: nat, x: T, weight: T -> nat)
    requires i < |s|
    ensures Sum(s[i := x], weight) == Sum(s, weight) - weight(s[i]) + weight(x)
  {
    var n := |s| - 1;
    if i == n {
      assert s[i := x][..n] == s[..n];
    } else {
      SumUpdate(s[..n], i, x, weight);
      assert s[i := x][..n] == s[..n][i := x];
    }
  }

  /** A sum is at least the weight of any one element. */
  lemma {:induction false} SumAtLeast<T>(s: seq<T>, i: nat, weight: T -> nat)
    requires i < |s|
    ensures Sum(s, weight) >= weight(s[i])
  {
    if i == |s| - 1 {
    } else {
      SumAtLeast(s[..|s| - 1], i, weight);
    }
  }

  /** A weight that is zero everywhere sums to zero. */
  lemma {:induction false} SumZero<T>(s: seq<T>, weight: T -> nat)
    requires forall i :: 0 <= i < |s| ==> weight(s[i]) == 0
    ensures Sum(s, weight) == 0
  {
    if s == [] {
    } else {
      SumZero(s[..|s| - 1], weight);
    }
  }
}
