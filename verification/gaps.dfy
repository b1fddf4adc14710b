/** Consecutive gaps of a date sequence and their mean. */
module GapStatistics {

  function Sum(xs: seq<real>): real {
    if |xs| == 0 then 0.0 else xs[0] + Sum(xs[1..])
  }

  /** `Enumerable.Average`: the sum divided by the count. */
  function Mean(xs: seq<real>): real
    requires |xs| > 0
  {
    Sum(xs) / |xs| as real
  }

  /** Bounds on every element bound the sum, once per element. */
  lemma {:induction false} SumBounds(xs: seq<real>, lo: real, hi: real)
    requires forall i | 0 <= i < |xs| :: lo <= xs[i] <= hi
    ensures lo * |xs| as real <= Sum(xs) <= hi * |xs| as real
  {
    if |xs| > 0 {
      SumBounds(xs[1..], lo, hi);
      assert lo <= xs[0] <= hi;
      assert lo * |xs| as real == lo + lo * (|xs| - 1) as real;
      assert hi * |xs| as real == hi + hi * (|xs| - 1) as real;
    }
  }

  /**
   * The mean lies between any lower and upper bound of the elements; in
   * particular the mean of equal elements is that element.
   */
  lemma MeanWithinBounds(xs: seq<real>, lo: real, hi: real)
    requires |xs| > 0
    requires forall i | 0 <= i < |xs| :: lo <= xs[i] <= hi
    ensures lo <= Mean(xs) <= hi
  {
    SumBounds(xs, lo, hi);
    var n := |xs| as real;
    assert lo * n <= Sum(xs) <= hi * n;
    DivideBounds(Sum(xs), n, lo, hi);
  }

  lemma DivideBounds(total: real, n: real, lo: real, hi: real)
    requires n > 0.0 && lo * n <= total <= hi * n
    ensures lo <= total / n <= hi
  {
  }

  /**
   * The differences `d[i+1] - d[i]` of neighbouring elements, as produced by
   * zipping `d` with `d.Skip(1)`.
   */
  function Gaps(d: seq<real>): (r: seq<real>)
    ensures |r| == if |d| == 0 then 0 else |d| - 1
    ensures forall i | 0 <= i < |r| :: r[i] == d[i + 1] - d[i]
  {
    if |d| < 2 then [] else [d[1] - d[0]] + Gaps(d[1..])
  }

  /** The gaps telescope: together they span from the first element to the last. */
  lemma {:induction false} GapsTelescope(d: seq<real>)
    requires |d| > 0
    ensures Sum(Gaps(d)) == d[|d| - 1] - d[0]
  {
    if |d| >= 2 {
      GapsTelescope(d[1..]);
      var g := Gaps(d);
      assert g[1..] == Gaps(d[1..]);
    }
  }

  /** Distance from the first element to the last. */
  function Span(d: seq<real>): real
    requires |d| > 0
  {
    d[|d| - 1] - d[0]
  }

  lemma MeanOfSum(xs: seq<real>, total: real, n: nat)
    requires |xs| == n > 0 && Sum(xs) == total
    ensures Mean(xs) == total / n as real
  {
  }

  /** The mean gap of at least two points is their span over the number of gaps. */
  lemma MeanGap(d: seq<real>)
    requires |d| >= 2
    ensures Mean(Gaps(d)) == Span(d) / (|d| - 1) as real
  {
    GapsTelescope(d);
    MeanOfSum(Gaps(d), Span(d), |d| - 1);
  }
}
