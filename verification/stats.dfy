/** Sums, means, squared deviations and per-row maxima (the numeric helpers
    that numpy and pandas provide to the engine), and the first minimum that
    Python's built-in `min` returns, written over `real` (no floating-point
    rounding). */
module Stats {

  /** Left-to-right sum of a sequence (numpy `sum` / pandas `mean` numerator). */
  function Sum(xs: seq<real>): real
    decreases |xs|
  {
    if |xs| == 0 then 0.0 else Sum(xs[..|xs| - 1]) + xs[|xs| - 1]
  }

  /** A sum of non-negative terms is non-negative. */
  lemma {:induction false} SumNonNegative(xs: seq<real>)
    requires forall i :: 0 <= i < |xs| ==> xs[i] >= 0.0
    ensures Sum(xs) >= 0.0
  {
    if |xs| > 0 {
      SumNonNegative(xs[..|xs| - 1]);
    }
  }

  /** A sum of non-negative terms is zero exactly when every term is zero. */
  lemma {:induction false} SumZeroIff(xs: seq<real>)
    requires forall i :: 0 <= i < |xs| ==> xs[i] >= 0.0
    ensures Sum(xs) == 0.0 <==> forall i :: 0 <= i < |xs| ==> xs[i] == 0.0
  {
    if |xs| > 0 {
      var init := xs[..|xs| - 1];
      SumZeroIff(init);
      SumNonNegative(init);
      if Sum(xs) == 0.0 {
        assert Sum(init) == 0.0 && xs[|xs| - 1] == 0.0;
        forall i | 0 <= i < |xs|
          ensures xs[i] == 0.0
        {
          if i < |xs| - 1 {
            assert init[i] == xs[i];
          }
        }
      }
      if forall i :: 0 <= i < |xs| ==> xs[i] == 0.0 {
        assert forall i :: 0 <= i < |init| ==> init[i] == xs[i];
      }
    }
  }

  /** Bounds on every term bound the sum. */
  lemma {:induction false} SumBounds(xs: seq<real>, lo: real, hi: real)
    requires forall i :: 0 <= i < |xs| ==> lo <= xs[i] <= hi
    ensures |xs| as real * lo <= Sum(xs) <= |xs| as real * hi
  {
    if |xs| > 0 {
      SumBounds(xs[..|xs| - 1], lo, hi);
    }
  }

  /** Division undone by multiplication. */
  lemma QuotientTimesDivisor(a: real, n: real)
    requires n != 0.0
    ensures (a / n) * n == a
  {}

  /** A non-negative amount shared out stays non-negative. */
  lemma QuotientNonNegative(a: real, n: real)
    requires a >= 0.0 && n > 0.0
    ensures a / n >= 0.0
  {}

  /** Arithmetic mean (numpy `mean`) of a non-empty sequence. */
  function Mean(xs: seq<real>): (m: real)
    requires |xs| > 0
    ensures (forall i :: 0 <= i < |xs| ==> xs[i] > 0.0) ==> m > 0.0
  {
    SumPositive(xs);
    Sum(xs) / |xs| as real
  }

  /** A non-empty sum of positive terms is positive. */
  lemma {:induction false} SumPositive(xs: seq<real>)
    ensures |xs| > 0 && (forall i :: 0 <= i < |xs| ==> xs[i] > 0.0) ==> Sum(xs) > 0.0
  {
    if |xs| > 1 {
      SumPositive(xs[..|xs| - 1]);
    }
  }

  /** The mean lies between any lower and upper bound of the terms. */
  lemma MeanBounds(xs: seq<real>, lo: real, hi: real)
    requires |xs| > 0
    requires forall i :: 0 <= i < |xs| ==> lo <= xs[i] <= hi
    ensures lo <= Mean(xs) <= hi
  {
    SumBounds(xs, lo, hi);
  }

  /** Sum of squared deviations of the terms from `m`
      (numpy `sum((x - m)**2)`). */
  function SquaredDeviations(xs: seq<real>, m: real): real
    decreases |xs|
  {
    if |xs| == 0 then 0.0
    else SquaredDeviations(xs[..|xs| - 1], m) + (xs[|xs| - 1] - m) * (xs[|xs| - 1] - m)
  }

  lemma {:induction false} SquaredDeviationsNonNegative(xs: seq<real>, m: real)
    ensures SquaredDeviations(xs, m) >= 0.0
  {
    if |xs| > 0 {
      SquaredDeviationsNonNegative(xs[..|xs| - 1], m);
      var d := xs[|xs| - 1] - m;
      assert d * d >= 0.0;
    }
  }

  /** Per-draw maximum of a non-empty row (pandas `max(axis=1)`). */
  function RowMax(row: seq<real>): (r: real)
    requires |row| > 0
    ensures forall j :: 0 <= j < |row| ==> row[j] <= r
    ensures exists j :: 0 <= j < |row| && row[j] == r
    decreases |row|
  {
    if |row| == 1 then row[0]
    else
      var rest := RowMax(row[1..]);
      assert forall j :: 1 <= j < |row| ==> row[j] == row[1..][j - 1];
      if row[0] >= rest then row[0] else rest
  }

  /** Index of the first minimum of a non-empty sequence, as Python's `min`
      returns the first key whose value is minimal. */
  function FirstArgMin(xs: seq<real>): (i: nat)
    requires |xs| > 0
    ensures i < |xs|
    ensures forall j :: 0 <= j < |xs| ==> xs[i] <= xs[j]
    ensures forall j :: 0 <= j < i ==> xs[j] > xs[i]
  {
    ArgMinScan(xs, 0, 1)
  }

  /** The scan behind `FirstArgMin`: `best` is the first minimum of
      `xs[..k]`, and it is replaced only by a strictly smaller value. */
  function ArgMinScan(xs: seq<real>, best: nat, k: nat): (i: nat)
    requires best < k <= |xs|
    requires forall j :: 0 <= j < k ==> xs[best] <= xs[j]
    requires forall j :: 0 <= j < best ==> xs[j] > xs[best]
    ensures i < |xs|
    ensures forall j :: 0 <= j < |xs| ==> xs[i] <= xs[j]
    ensures forall j :: 0 <= j < i ==> xs[j] > xs[i]
    decreases |xs| - k
  {
    if k == |xs| then best
    else if xs[k] < xs[best] then ArgMinScan(xs, k, k + 1)
    else ArgMinScan(xs, best, k + 1)
  }
}
