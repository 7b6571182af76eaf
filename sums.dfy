/** Finite sums over sequences of reals (np.sum in exact arithmetic) and the facts about them
    that the semblance bounds rest on. */
module Sums {

  function Sum(s: seq<real>): real
  {
    if |s| == 0 then 0.0 else Sum(s[..|s| - 1]) + s[|s| - 1]
  }

  function SumSq(s: seq<real>): real
  {
    if |s| == 0 then 0.0 else SumSq(s[..|s| - 1]) + s[|s| - 1] * s[|s| - 1]
  }

  /** A sum of squares is never negative. */
  lemma {:induction false} SumSqNonNegative(s: seq<real>)
    ensures SumSq(s) >= 0.0
  {
    if |s| > 0 {
      var p, z := s[..|s| - 1], s[|s| - 1];
      SumSqNonNegative(p);
      SquareNonNegative(z);
    }
  }

  lemma SquareNonNegative(z: real)
    ensures z * z >= 0.0
  {
    if z < 0.0 {
      assert z * z == (-z) * (-z);
    }
  }

  lemma {:induction false} SumNonNegative(s: seq<real>)
    requires forall k :: 0 <= k < |s| ==> s[k] >= 0.0
    ensures Sum(s) >= 0.0
  {
    if |s| > 0 {
      SumNonNegative(s[..|s| - 1]);
    }
  }

  /** A sum of non-negative terms one of which is positive is positive. */
  lemma {:induction false} SumPositive(s: seq<real>, i: nat)
    requires forall k :: 0 <= k < |s| ==> s[k] >= 0.0
    requires i < |s| && s[i] > 0.0
    ensures Sum(s) > 0.0
  {
    var p := s[..|s| - 1];
    if i == |s| - 1 {
      SumNonNegative(p);
    } else {
      SumPositive(p, i);
    }
  }

  /** Sum over (s[k] - y)^2, expanded, is non-negative. */
  lemma {:induction false} DeviationNonNegative(s: seq<real>, y: real)
    ensures SumSq(s) - 2.0 * y * Sum(s) + |s| as real * y * y >= 0.0
  {
    if |s| > 0 {
      var p, z := s[..|s| - 1], s[|s| - 1];
      DeviationNonNegative(p, y);
      DeviationStep(SumSq(p), Sum(p), |p| as real, z, y, SumSq(s), Sum(s), |s| as real);
    }
  }

  lemma DeviationStep(q: real, a: real, m: real, z: real, y: real, q': real, a': real, m': real)
    requires q - 2.0 * y * a + m * y * y >= 0.0
    requires q' == q + z * z && a' == a + z && m' == m + 1.0
    ensures q' - 2.0 * y * a' + m' * y * y >= 0.0
  {
    assert q' - 2.0 * y * a' + m' * y * y
        == (q - 2.0 * y * a + m * y * y) + (z - y) * (z - y);
  }

  /** Cauchy-Schwarz for a sum: (sum of s)^2 <= |s| * (sum of squares of s). */
  lemma {:induction false} SquareOfSumBound(s: seq<real>)
    ensures Sum(s) * Sum(s) <= |s| as real * SumSq(s)
  {
    if |s| > 0 {
      var p, z := s[..|s| - 1], s[|s| - 1];
      assert s[..|s| - 1] == p;
      var q, a := SumSq(s), Sum(s);
      assert q == SumSq(p) + z * z && a == Sum(p) + z;
      SquareOfSumBound(p);
      DeviationNonNegative(p, z);
      SquareOfSumStep(SumSq(p), Sum(p), |p| as real, z, q, a, |s| as real);
    }
  }

  lemma SquareOfSumStep(q: real, a: real, m: real, z: real, q': real, a': real, m': real)
    requires a * a <= m * q
    requires q - 2.0 * z * a + m * z * z >= 0.0
    requires q' == q + z * z && a' == a + z && m' == m + 1.0
    ensures a' * a' <= m' * q'
  {
    assert m' * q' - a' * a' == (m * q - a * a) + (q - 2.0 * z * a + m * z * z);
  }

  /** Term-wise a[k]^2 <= c * b[k] carries over to the sums. */
  lemma {:induction false} SumSqDominated(a: seq<real>, b: seq<real>, c: real)
    requires |a| == |b|
    requires forall k :: 0 <= k < |a| ==> a[k] * a[k] <= c * b[k]
    ensures SumSq(a) <= c * Sum(b)
  {
    if |a| > 0 {
      SumSqDominated(a[..|a| - 1], b[..|b| - 1], c);
    }
  }

  /** Scaling every term by c scales the sum of squares by c^2. */
  lemma {:induction false} SumSqScaled(a: seq<real>, b: seq<real>, c: real)
    requires |a| == |b|
    requires forall k :: 0 <= k < |a| ==> a[k] == c * b[k]
    ensures SumSq(a) == c * c * SumSq(b)
  {
    if |a| > 0 {
      SumSqScaled(a[..|a| - 1], b[..|b| - 1], c);
      var x := b[|b| - 1];
      assert a[|a| - 1] * a[|a| - 1] == c * c * (x * x);
    }
  }

  /** A sum of c * b[k]^2 is c times the sum of squares of b. */
  lemma {:induction false} SumOfScaledSquares(a: seq<real>, b: seq<real>, c: real)
    requires |a| == |b|
    requires forall k :: 0 <= k < |a| ==> a[k] == c * (b[k] * b[k])
    ensures Sum(a) == c * SumSq(b)
  {
    if |a| > 0 {
      SumOfScaledSquares(a[..|a| - 1], b[..|b| - 1], c);
    }
  }

  /** n copies of x sum to n * x, and their squares to n * x^2. */
  lemma {:induction false} SumConstant(s: seq<real>, x: real)
    requires forall k :: 0 <= k < |s| ==> s[k] == x
    ensures Sum(s) == |s| as real * x
    ensures SumSq(s) == |s| as real * (x * x)
  {
    if |s| > 0 {
      SumConstant(s[..|s| - 1], x);
    }
  }

  lemma ProductNonNegative(x: real, y: real)
    requires x >= 0.0 && y >= 0.0
    ensures x * y >= 0.0
  {
  }

  /** The prefix of m items sums to the prefix of m - 1 items plus item m - 1. */
  lemma PrefixSumStep(s: seq<real>, m: nat)
    requires 0 < m <= |s|
    ensures Sum(s[..m]) == Sum(s[..m - 1]) + s[m - 1]
  {
    assert s[..m][..m - 1] == s[..m - 1];
  }

  lemma QuotientNonNegative(a: real, b: real, n: real)
    requires a >= 0.0 && b > 0.0 && n > 0.0
    ensures a / b / n >= 0.0
  {
  }

  /** The semblance ratio a / b / n of a dominated numerator lies in [0, 1]. */
  lemma RatioAtMostOne(a: real, b: real, n: real)
    requires 0.0 <= a <= n * b && b > 0.0 && n > 0.0
    ensures 0.0 <= a / b / n <= 1.0
  {
    assert a / b <= n;
  }

  /** n^2 x over n x, divided by n, is 1. */
  lemma SquareRatioIsOne(q: real, b: real, n: real, x: real)
    requires n > 0.0 && b > 0.0 && q == n * n * x && b == n * x
    ensures q / b / n == 1.0
  {
    assert q == n * b;
    assert q / b == n;
  }

  /** c * s[k] at every k. */
  function Scaled(s: seq<real>, c: real): (r: seq<real>)
    ensures |r| == |s|
  {
    seq(|s|, k requires 0 <= k < |s| => c * s[k])
  }

  /** c * s[k]^2 at every k. */
  function ScaledSquares(s: seq<real>, c: real): (r: seq<real>)
    ensures |r| == |s|
  {
    seq(|s|, k requires 0 <= k < |s| => c * (s[k] * s[k]))
  }

  lemma ScaledSlice(s: seq<real>, c: real, i: nat, j: nat)
    requires i <= j <= |s|
    ensures Scaled(s, c)[i..j] == Scaled(s[i..j], c)
    ensures ScaledSquares(s, c)[i..j] == ScaledSquares(s[i..j], c)
  {
    assert forall k :: 0 <= k < j - i ==> Scaled(s, c)[i..j][k] == Scaled(s[i..j], c)[k];
    assert forall k :: 0 <= k < j - i ==> ScaledSquares(s, c)[i..j][k] == ScaledSquares(s[i..j], c)[k];
  }

  lemma ScaledSumSq(s: seq<real>, c: real)
    ensures SumSq(Scaled(s, c)) == c * c * SumSq(s)
  {
    SumSqScaled(Scaled(s, c), s, c);
  }

  lemma ScaledSquaresSum(s: seq<real>, c: real)
    ensures Sum(ScaledSquares(s, c)) == c * SumSq(s)
  {
    SumOfScaledSquares(ScaledSquares(s, c), s, c);
  }

  /** np.abs on one value. */
  function Abs(x: real): (a: real)
    ensures a >= 0.0 && (a == x || a == -x)
  {
    if x < 0.0 then -x else x
  }
}
