/** Sums of sample magnitudes: the reductions behind window power and channel power. */
module Sums {

  /** The sum of a sequence, accumulated left to right. */
  function Sum(s: seq<real>): (total: real)
    decreases |s|
  {
    if s == [] then 0.0 else Sum(s[..|s| - 1]) + s[|s| - 1]
  }

  ghost predicate NonNegative(s: seq<real>)
  {
    forall i :: 0 <= i < |s| ==> 0.0 <= s[i]
  }

  lemma {:induction false} SumNonNegative(s: seq<real>)
    requires NonNegative(s)
    ensures 0.0 <= Sum(s)
  {
    if s != [] {
      SumNonNegative(s[..|s| - 1]);
    }
  }

  lemma {:induction false} SumOfZeros(s: seq<real>)
    requires forall i :: 0 <= i < |s| ==> s[i] == 0.0
    ensures Sum(s) == 0.0
  {
    if s != [] {
      SumOfZeros(s[..|s| - 1]);
    }
  }

  /** A sum of non-negative terms is positive as soon as one term is. */
  lemma {:induction false} SumPositive(s: seq<real>, k: nat)
    requires NonNegative(s) && k < |s| && 0.0 < s[k]
    ensures 0.0 < Sum(s)
  {
    if k == |s| - 1 {
      SumNonNegative(s[..|s| - 1]);
    } else {
      SumPositive(s[..|s| - 1], k);
    }
  }

  /** A sum of non-negative terms is zero exactly when every term is. */
  lemma SumZeroIff(s: seq<real>)
    requires NonNegative(s)
    ensures Sum(s) == 0.0 <==> forall i :: 0 <= i < |s| ==> s[i] == 0.0
  {
    if exists k :: 0 <= k < |s| && s[k] != 0.0 {
      var k :| 0 <= k < |s| && s[k] != 0.0;
      SumPositive(s, k);
    } else {
      SumOfZeros(s);
    }
  }

  /** A sum of terms each multiplied by c is the sum multiplied by c. */
  lemma {:induction false} SumScaled(s: seq<real>, t: seq<real>, c: real)
    requires |s| == |t|
    requires forall i :: 0 <= i < |s| ==> t[i] == c * s[i]
    ensures Sum(t) == c * Sum(s)
  {
    if s != [] {
      var n := |s|;
      var s', t' := s[..n - 1], t[..n - 1];
      assert forall i :: 0 <= i < n - 1 ==> t'[i] == c * s'[i];
      SumScaled(s', t', c);
    }
  }

  /** Sums m[lo..hi] with a running total, as numpy's sum over a slice does. */
  method SumRange(m: seq<real>, lo: nat, hi: nat) returns (total: real)
    requires lo <= hi <= |m|
    ensures total == Sum(m[lo..hi])
  {
    total := 0.0;
    var i := lo;
    while i < hi
      invariant lo <= i <= hi
      invariant total == Sum(m[lo..i])
    {
      assert m[lo..i + 1][..i - lo] == m[lo..i];
      total := total + m[i];
      i := i + 1;
    }
  }
}
