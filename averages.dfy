/** Arithmetic means over price sequences: the `calculateAverage` helper of the analyzer.
    Prices are exact reals, so sums and divisions carry no rounding. */
module Averages {

  /** Sum of the prices, folded from the oldest to the newest starting at 0,
      the way `prices.reduce((a, b) => a + b, 0)` accumulates. */
  function Sum(s: seq<real>): (r: real)
    ensures s == [] ==> r == 0.0
    ensures |s| == 1 ==> r == s[0]
  {
    if s == [] then 0.0 else Sum(s[..|s| - 1]) + s[|s| - 1]
  }

  /** Mean of the prices; 0 for the empty sequence. */
  function Average(s: seq<real>): (r: real)
    ensures s == [] ==> r == 0.0
    ensures s != [] ==> r * (|s| as real) == Sum(s)
  {
    if |s| == 0 then 0.0 else Sum(s) / (|s| as real)
  }

  /** The total of a concatenation is the sum of the two totals. */
  lemma {:induction false} SumAppend(a: seq<real>, b: seq<real>)
    ensures Sum(a + b) == Sum(a) + Sum(b)
  {
    if b == [] {
      assert a + b == a;
    } else {
      var b' := b[..|b| - 1];
      assert (a + b)[..|a + b| - 1] == a + b';
      SumAppend(a, b');
    }
  }

  /** The mean of a concatenation is the mean of the two means, weighted by their lengths. */
  lemma AverageAppend(a: seq<real>, b: seq<real>)
    ensures Average(a + b) * ((|a| + |b|) as real)
         == Average(a) * (|a| as real) + Average(b) * (|b| as real)
  {
    SumAppend(a, b);
    assert Average(a) * (|a| as real) == Sum(a);
    assert Average(b) * (|b| as real) == Sum(b);
    assert Average(a + b) * (|a + b| as real) == Sum(a + b);
  }

  /** Every price at least `lo` puts the total at least `lo * n`. */
  lemma {:induction false} SumAtLeast(s: seq<real>, lo: real)
    requires forall i :: 0 <= i < |s| ==> lo <= s[i]
    ensures lo * (|s| as real) <= Sum(s)
  {
    if s != [] {
      SumAtLeast(s[..|s| - 1], lo);
    }
  }

  /** Every price at most `hi` puts the total at most `hi * n`. */
  lemma {:induction false} SumAtMost(s: seq<real>, hi: real)
    requires forall i :: 0 <= i < |s| ==> s[i] <= hi
    ensures Sum(s) <= hi * (|s| as real)
  {
    if s != [] {
      SumAtMost(s[..|s| - 1], hi);
    }
  }

  /** The mean of a non-empty sequence is at least any lower bound of its prices. */
  lemma AverageAtLeast(s: seq<real>, lo: real)
    requires s != []
    requires forall i :: 0 <= i < |s| ==> lo <= s[i]
    ensures lo <= Average(s)
  {
    SumAtLeast(s, lo);
    assert (Average(s) - lo) * (|s| as real) >= 0.0;
  }

  /** The mean of a non-empty sequence is at most any upper bound of its prices. */
  lemma AverageAtMost(s: seq<real>, hi: real)
    requires s != []
    requires forall i :: 0 <= i < |s| ==> s[i] <= hi
    ensures Average(s) <= hi
  {
    SumAtMost(s, hi);
    assert (hi - Average(s)) * (|s| as real) >= 0.0;
  }

  /** A sequence bounded above by `t` with one element strictly below has its total below `t * n`. */
  lemma {:induction false} SumBelow(s: seq<real>, t: real, k: nat)
    requires forall i :: 0 <= i < |s| ==> s[i] <= t
    requires k < |s| && s[k] < t
    ensures Sum(s) < t * (|s| as real)
  {
    var init := s[..|s| - 1];
    if k == |s| - 1 {
      SumAtMost(init, t);
    } else {
      SumBelow(init, t, k);
    }
  }

  /** A sequence bounded above by `t` with one element strictly below has its mean below `t`. */
  lemma AverageBelow(s: seq<real>, t: real, k: nat)
    requires forall i :: 0 <= i < |s| ==> s[i] <= t
    requires k < |s| && s[k] < t
    ensures Average(s) < t
  {
    SumBelow(s, t, k);
    assert (t - Average(s)) * (|s| as real) > 0.0;
  }

  /** The mean of a run of equal prices is that price. */
  lemma AverageConstant(s: seq<real>, c: real)
    requires s != []
    requires forall i :: 0 <= i < |s| ==> s[i] == c
    ensures Average(s) == c
  {
    AverageAtLeast(s, c);
    AverageAtMost(s, c);
  }
}
