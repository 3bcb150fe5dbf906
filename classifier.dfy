/** The signal decision of the analyzer: a fresh comparison of the fast and slow
    moving averages on every warm tick, with no memory of earlier decisions. */
module Classifier {
  import opened Averages

  datatype Direction = Buy | Sell | Hold

  /** BUY when the fast mean is above the slow one, SELL when below, HOLD on exact equality. */
  function Classify(fastMean: real, slowMean: real): (d: Direction)
    ensures d == Buy <==> fastMean > slowMean
    ensures d == Sell <==> fastMean < slowMean
    ensures d == Hold <==> fastMean == slowMean
  {
    if fastMean > slowMean then Buy
    else if fastMean < slowMean then Sell
    else Hold
  }

  /** The last `n` prices of a window, oldest first (`history.slice(-n)` for 0 < n <= |h|). */
  function Recent(h: seq<real>, n: nat): (r: seq<real>)
    requires n <= |h|
    ensures |r| == n
    ensures h[..|h| - n] + r == h
  {
    h[|h| - n..]
  }

  /** The direction a warm window yields: the mean of its last `fastWindow` prices
      against the mean of the whole window. */
  function Decide(h: seq<real>, fastWindow: nat): (d: Direction)
    requires 0 < fastWindow <= |h|
    ensures fastWindow == |h| ==> d == Hold
  {
    Classify(Average(Recent(h, fastWindow)), Average(h))
  }

  /** Comparing the recent mean with the whole-window mean is the same as comparing it with
      the mean of the older prices alone: the whole mean is a weighted blend of the two. */
  lemma DecideComparesRecentWithOlder(h: seq<real>, fastWindow: nat)
    requires 0 < fastWindow < |h|
    ensures Decide(h, fastWindow)
         == Classify(Average(Recent(h, fastWindow)), Average(h[..|h| - fastWindow]))
  {
    var older, recent := h[..|h| - fastWindow], Recent(h, fastWindow);
    AverageAppend(older, recent);
    var f, g := fastWindow as real, (|h| - fastWindow) as real;
    var r, o, s := Average(recent), Average(older), Average(h);
    assert s * (f + g) == o * g + r * f;
    // (r - s) * (f + g) == (r - o) * g, and both f + g and g are positive
    assert (r - s) * (f + g) == (r - o) * g;
    SameSign(r - s, f + g, r - o, g);
  }

  /** Two products equal with positive second factors have first factors of the same sign. */
  lemma SameSign(x: real, a: real, y: real, b: real)
    requires a > 0.0 && b > 0.0 && x * a == y * b
    ensures x > 0.0 <==> y > 0.0
    ensures x < 0.0 <==> y < 0.0
  {
  }

  /** A window of equal prices never signals. */
  lemma FlatWindowHolds(h: seq<real>, fastWindow: nat, c: real)
    requires 0 < fastWindow <= |h|
    requires forall i :: 0 <= i < |h| ==> h[i] == c
    ensures Decide(h, fastWindow) == Hold
  {
    AverageConstant(h, c);
    AverageConstant(Recent(h, fastWindow), c);
  }

  /** When every recent price is at least `t` and every older price at most `t`, with one
      older price strictly below, the window says BUY. */
  lemma RiseOverOlderBuys(h: seq<real>, fastWindow: nat, t: real, k: nat)
    requires 0 < fastWindow < |h|
    requires forall i :: |h| - fastWindow <= i < |h| ==> h[i] >= t
    requires forall i :: 0 <= i < |h| - fastWindow ==> h[i] <= t
    requires k < |h| - fastWindow && h[k] < t
    ensures Decide(h, fastWindow) == Buy
  {
    var older, recent := h[..|h| - fastWindow], Recent(h, fastWindow);
    DecideComparesRecentWithOlder(h, fastWindow);
    assert Average(recent) >= t by {
      forall i | 0 <= i < |recent| ensures t <= recent[i] {
        assert recent[i] == h[|h| - fastWindow + i];
      }
      AverageAtLeast(recent, t);
    }
    assert Average(older) < t by {
      AverageBelow(older, t, k);
    }
  }
}
