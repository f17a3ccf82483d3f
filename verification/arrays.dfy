/**
 The array primitives `pr_auc_macro` relies on, over exact reals: slicing with a negative step,
 `np.unique(..., return_counts=True)`, and `np.average(..., weights=...)`.
 */
module Arrays {
  import opened Wrappers

  /** `a[::-1]`. */
  function Reverse<T>(s: seq<T>): (r: seq<T>)
    ensures |r| == |s|
    ensures forall i :: 0 <= i < |s| ==> r[i] == s[|s| - 1 - i]
  {
    if s == [] then [] else [s[|s| - 1]] + Reverse(s[..|s| - 1])
  }

  /** Reversing twice gives back the original array. */
  lemma ReverseInvolutive<T>(s: seq<T>)
    ensures Reverse(Reverse(s)) == s
  {
  }

  ghost predicate StrictlyIncreasing(s: seq<int>) {
    forall i, j :: 0 <= i < j < |s| ==> s[i] < s[j]
  }

  /** Number of occurrences of c in s. */
  function Count(s: seq<int>, c: int): (n: nat)
    ensures n <= |s|
    ensures n > 0 <==> c in s
  {
    if s == [] then 0
    else Count(s[..|s| - 1], c) + (if s[|s| - 1] == c then 1 else 0)
  }

  lemma CountSnoc(s: seq<int>, x: int, c: int)
    ensures Count(s + [x], c) == Count(s, c) + (if x == c then 1 else 0)
  {
    assert (s + [x])[..|s|] == s;
  }

  /** Adds x to a sorted, duplicate-free sequence, keeping it so. */
  function InsertSorted(s: seq<int>, x: int): (r: seq<int>)
    requires StrictlyIncreasing(s)
    ensures StrictlyIncreasing(r)
    ensures forall y :: y in r <==> y in s || y == x
  {
    if s == [] then [x]
    else if x < s[0] then
      ConsIncreasing(x, s);
      [x] + s
    else if x == s[0] then s
    else
      var tail := InsertSorted(s[1..], x);
      assert forall y :: y in s[1..] ==> s[0] < y;
      ConsIncreasing(s[0], tail);
      assert s == [s[0]] + s[1..];
      [s[0]] + tail
  }

  lemma ConsIncreasing(h: int, t: seq<int>)
    requires StrictlyIncreasing(t)
    requires forall y :: y in t ==> h < y
    ensures StrictlyIncreasing([h] + t)
  {
    var r := [h] + t;
    forall i, j | 0 <= i < j < |r|
      ensures r[i] < r[j]
    {
      assert r[j] == t[j - 1];
      if i > 0 {
        assert r[i] == t[i - 1];
      } else {
        assert t[j - 1] in t;
      }
    }
  }

  /** `np.unique(s)`: the distinct values of s in ascending order. */
  function Unique(s: seq<int>): (u: seq<int>)
    ensures StrictlyIncreasing(u)
    ensures forall y :: y in u <==> y in s
  {
    if s == [] then [] else InsertSorted(Unique(s[..|s| - 1]), s[|s| - 1])
  }

  /** In a duplicate-free sequence a member occurs exactly once. */
  lemma {:induction false} CountDistinct(u: seq<int>, x: int)
    requires StrictlyIncreasing(u) && x in u
    ensures Count(u, x) == 1
  {
    var last := u[|u| - 1];
    var prefix := u[..|u| - 1];
    assert u == prefix + [last];
    if x == last {
      assert x !in prefix;
    } else {
      CountDistinct(prefix, x);
    }
  }

  /** `counts` of `np.unique(s, return_counts=True)`, summed over the categories u. */
  function SumCounts(s: seq<int>, u: seq<int>): int {
    if u == [] then 0 else SumCounts(s, u[..|u| - 1]) + Count(s, u[|u| - 1])
  }

  lemma {:induction false} SumCountsSnoc(s: seq<int>, x: int, u: seq<int>)
    ensures SumCounts(s + [x], u) == SumCounts(s, u) + Count(u, x)
  {
    if u != [] {
      SumCountsSnoc(s, x, u[..|u| - 1]);
      CountSnoc(s, x, u[|u| - 1]);
    }
  }

  /** Over duplicate-free categories covering s, the counts add up to the length of s. */
  lemma {:induction false} CountsSumToLength(s: seq<int>, u: seq<int>)
    requires StrictlyIncreasing(u)
    requires forall x :: x in s ==> x in u
    ensures SumCounts(s, u) == |s|
  {
    if s == [] {
      ZeroCounts(u);
    } else {
      var prefix := s[..|s| - 1];
      var x := s[|s| - 1];
      assert s == prefix + [x];
      CountsSumToLength(prefix, u);
      SumCountsSnoc(prefix, x, u);
      CountDistinct(u, x);
    }
  }

  lemma {:induction false} ZeroCounts(u: seq<int>)
    ensures SumCounts([], u) == 0
  {
    if u != [] {
      ZeroCounts(u[..|u| - 1]);
    }
  }

  function Sum(s: seq<real>): real {
    if s == [] then 0.0 else Sum(s[..|s| - 1]) + s[|s| - 1]
  }

  /** Sum of the products `values[i] * weights[i]`. */
  function Dot(values: seq<real>, weights: seq<real>): real
    requires |values| == |weights|
  {
    if values == [] then 0.0
    else Dot(values[..|values| - 1], weights[..|weights| - 1]) + values[|values| - 1] * weights[|weights| - 1]
  }

  /** The smallest element of a non-empty sequence. */
  function Min(s: seq<real>): (m: real)
    requires |s| > 0
    ensures m in s
    ensures forall i :: 0 <= i < |s| ==> m <= s[i]
  {
    if |s| == 1 then s[0]
    else
      var m0 := Min(s[..|s| - 1]);
      if s[|s| - 1] < m0 then s[|s| - 1] else m0
  }

  /** The largest element of a non-empty sequence. */
  function Max(s: seq<real>): (m: real)
    requires |s| > 0
    ensures m in s
    ensures forall i :: 0 <= i < |s| ==> s[i] <= m
  {
    if |s| == 1 then s[0]
    else
      var m0 := Max(s[..|s| - 1]);
      if s[|s| - 1] > m0 then s[|s| - 1] else m0
  }

  predicate NonNegative(weights: seq<real>) {
    forall i :: 0 <= i < |weights| ==> weights[i] >= 0.0
  }

  /** Non-negative weights have a non-negative sum. */
  lemma {:induction false} SumNonNegative(weights: seq<real>)
    requires NonNegative(weights)
    ensures Sum(weights) >= 0.0
  {
    if weights != [] {
      SumNonNegative(weights[..|weights| - 1]);
    }
  }

  lemma StepAbove(lo: real, s: real, d: real, v: real, w: real)
    requires lo * s <= d && lo <= v && w >= 0.0
    ensures lo * (s + w) <= d + v * w
  {
    assert lo * w <= v * w;
  }

  lemma StepBelow(hi: real, s: real, d: real, v: real, w: real)
    requires d <= hi * s && v <= hi && w >= 0.0
    ensures d + v * w <= hi * (s + w)
  {
    assert v * w <= hi * w;
  }

  /** With non-negative weights and every value at least lo, the weighted sum is at least lo times the weight sum. */
  lemma {:induction false} DotAbove(values: seq<real>, weights: seq<real>, lo: real)
    requires |values| == |weights| && NonNegative(weights)
    requires forall i :: 0 <= i < |values| ==> lo <= values[i]
    ensures lo * Sum(weights) <= Dot(values, weights)
  {
    if values != [] {
      var n := |values| - 1;
      DotAbove(values[..n], weights[..n], lo);
      StepAbove(lo, Sum(weights[..n]), Dot(values[..n], weights[..n]), values[n], weights[n]);
    }
  }

  /** With non-negative weights and every value at most hi, the weighted sum is at most hi times the weight sum. */
  lemma {:induction false} DotBelow(values: seq<real>, weights: seq<real>, hi: real)
    requires |values| == |weights| && NonNegative(weights)
    requires forall i :: 0 <= i < |values| ==> values[i] <= hi
    ensures Dot(values, weights) <= hi * Sum(weights)
  {
    if values != [] {
      var n := |values| - 1;
      DotBelow(values[..n], weights[..n], hi);
      StepBelow(hi, Sum(weights[..n]), Dot(values[..n], weights[..n]), values[n], weights[n]);
    }
  }

  lemma DivideAbove(lo: real, d: real, s: real)
    requires s > 0.0 && lo * s <= d
    ensures lo <= d / s
  {
    assert (d / s) * s == d;
  }

  lemma DivideBelow(hi: real, d: real, s: real)
    requires s > 0.0 && d <= hi * s
    ensures d / s <= hi
  {
    assert (d / s) * s == d;
  }

  /** The two refusals of `np.average`: shapes that differ, and weights that sum to zero. */
  datatype AverageError = ShapeMismatch | ZeroWeightSum

  /**
   `np.average(values, weights=weights)` on one-dimensional arrays. With non-negative weights the
   average is a convex combination: it lies between the smallest and the largest value.
   */
  function Average(values: seq<real>, weights: seq<real>): (r: Result<real, AverageError>)
    ensures r.Success? && NonNegative(weights) ==>
      |values| > 0 && Min(values) <= r.value <= Max(values)
  {
    if |values| != |weights| then Failure(ShapeMismatch)
    else if Sum(weights) == 0.0 then Failure(ZeroWeightSum)
    else
      var q := Dot(values, weights) / Sum(weights);
      if NonNegative(weights) && values != [] then
        AverageBetween(values, weights, Min(values), Max(values));
        Success(q)
      else
        Success(q)
  }

  /** Lower and upper bounds on every value bound their weighted average. */
  lemma AverageBetween(values: seq<real>, weights: seq<real>, lo: real, hi: real)
    requires |values| == |weights| && NonNegative(weights) && Sum(weights) != 0.0
    requires forall i :: 0 <= i < |values| ==> lo <= values[i] <= hi
    ensures lo <= Dot(values, weights) / Sum(weights) <= hi
  {
    SumNonNegative(weights);
    AverageAbove(values, weights, lo);
    AverageBelow(values, weights, hi);
  }

  lemma AverageAbove(values: seq<real>, weights: seq<real>, lo: real)
    requires |values| == |weights| && NonNegative(weights) && Sum(weights) > 0.0
    requires forall i :: 0 <= i < |values| ==> lo <= values[i]
    ensures lo <= Dot(values, weights) / Sum(weights)
  {
    DotAbove(values, weights, lo);
    DivideAbove(lo, Dot(values, weights), Sum(weights));
  }

  lemma AverageBelow(values: seq<real>, weights: seq<real>, hi: real)
    requires |values| == |weights| && NonNegative(weights) && Sum(weights) > 0.0
    requires forall i :: 0 <= i < |values| ==> values[i] <= hi
    ensures Dot(values, weights) / Sum(weights) <= hi
  {
    DotBelow(values, weights, hi);
    DivideBelow(hi, Dot(values, weights), Sum(weights));
  }
}
