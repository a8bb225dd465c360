/**
 * The distribution helpers of `DataTools`: normalising to probabilities,
 * cumulative probabilities and integer histograms.
 */
module DataStats {
  import opened Common
  import DataTools

  // ---------------------------------------------------------------------------
  // Probabilities
  // ---------------------------------------------------------------------------

  /** Dividing every element by `c` divides the sum by `c`. */
  lemma {:induction false} SumScaled(s: seq<real>, t: seq<real>, c: real)
    requires c != 0.0 && |s| == |t|
    requires forall i :: 0 <= i < |s| ==> t[i] == s[i] / c
    ensures Sum(t) == Sum(s) / c
    decreases |s|
  {
    if s != [] {
      SumScaled(s[..|s| - 1], t[..|t| - 1], c);
    }
  }

  /**
   * `Normalise2Probabilites`: divides every value by the total. A zero total
   * gives the all-zero vector. For non-negative data with a non-zero total the
   * result is a probability distribution: every entry lies in [0, 1] and they
   * add up to 1.
   */
  method Normalise2Probabilites(data: seq<real>) returns (probs: seq<real>)
    ensures |probs| == |data|
    ensures Sum(data) == 0.0 ==> forall i :: 0 <= i < |probs| ==> probs[i] == 0.0
    ensures Sum(data) != 0.0 ==> forall i :: 0 <= i < |probs| ==> probs[i] == data[i] / Sum(data)
    ensures (forall i :: 0 <= i < |data| ==> data[i] >= 0.0) && Sum(data) != 0.0 ==>
      Sum(probs) == 1.0 && forall i :: 0 <= i < |probs| ==> 0.0 <= probs[i] <= 1.0
  {
    var length := |data|;
    var sum := 0.0;
    for i := 0 to length
      invariant sum == Sum(data[..i])
    {
      SumExtend(data, 0, i);
      sum := sum + data[i];
    }
    assert data[..length] == data;
    var a := new real[length](_ => 0.0);
    if sum == 0.0 {
      return a[..];
    }
    for i := 0 to length
      invariant forall k :: 0 <= k < i ==> a[k] == data[k] / sum
    {
      a[i] := data[i] / sum;
    }
    probs := a[..];
    if forall i :: 0 <= i < |data| ==> data[i] >= 0.0 {
      SumScaled(data, probs, sum);
      SumNonNegative(data);
      DivSelf(sum);
      forall i | 0 <= i < |probs|
        ensures 0.0 <= probs[i] <= 1.0
      {
        SumBoundsElement(data, i);
        FractionWithin(data[i], sum);
      }
    }
  }

  lemma DivSelf(x: real)
    requires x != 0.0
    ensures x / x == 1.0
  {
  }

  /** A share of a positive total lies in [0, 1]. */
  lemma FractionWithin(x: real, total: real)
    requires 0.0 <= x <= total && total > 0.0
    ensures 0.0 <= x / total <= 1.0
  {
    assert x / total * total == x;
  }

  /**
   * `ConvertProbabilityDistribution2CummulativeProbabilites`: entry `i` is the
   * sum of the first `i + 1` values. For non-negative data the result is
   * non-decreasing and ends at the total.
   */
  method ConvertProbabilityDistribution2CummulativeProbabilites(data: seq<real>) returns (probs: seq<real>)
    ensures |probs| == |data|
    ensures forall i :: 0 <= i < |probs| ==> probs[i] == Sum(data[..i + 1])
    ensures |data| > 0 ==> probs[|data| - 1] == Sum(data)
    ensures (forall i :: 0 <= i < |data| ==> data[i] >= 0.0) ==> DataTools.NonDecreasing(probs)
  {
    var length := |data|;
    var sum := 0.0;
    var a := new real[length](_ => 0.0);
    for i := 0 to length
      invariant sum == Sum(data[..i])
      invariant forall k :: 0 <= k < i ==> a[k] == Sum(data[..k + 1])
    {
      SumExtend(data, 0, i);
      sum := sum + data[i];
      a[i] := sum;
    }
    probs := a[..];
    if length > 0 {
      assert data[..length] == data;
    }
    if forall i :: 0 <= i < |data| ==> data[i] >= 0.0 {
      forall i, j | 0 <= i <= j < |probs|
        ensures probs[i] <= probs[j]
      {
        SumSplit(data, 0, i + 1, j + 1);
        SumNonNegative(data[i + 1..j + 1]);
      }
    }
  }

  // ---------------------------------------------------------------------------
  // Histograms
  // ---------------------------------------------------------------------------

  /** C#'s integer division, which truncates towards zero. */
  function TruncDiv(a: int, b: int): (q: int)
    requires b != 0
    ensures a >= 0 && b > 0 ==> q == a / b
    ensures -b < a < b ==> q == 0
  {
    if a >= 0 then (if b > 0 then a / b else -(a / -b))
    else (if b > 0 then -((-a) / b) else (-a) / (-b))
  }

  /** The bin `Data2Bins` computes for value `x`. */
  function BinOf(x: int, min: int, binWidth: int): int
    requires binWidth != 0
  {
    TruncDiv(x - min, binWidth)
  }

  /** How many values fall into `bin`. */
  function BinCount(data: seq<int>, min: int, binWidth: int, bin: int): (n: nat)
    requires binWidth != 0
    ensures n <= |data|
  {
    if data == [] then 0
    else BinCount(data[..|data| - 1], min, binWidth, bin) + (if BinOf(data[|data| - 1], min, binWidth) == bin then 1 else 0)
  }

  /** The bin counts `0 .. numBins - 1`. */
  function Histogram(data: seq<int>, min: int, binWidth: int, numBins: nat): (h: seq<int>)
    requires binWidth != 0
    ensures |h| == numBins
  {
    seq(numBins, b requires 0 <= b < numBins => BinCount(data, min, binWidth, b))
  }

  /** Every value falls into one of the `numBins` bins. */
  predicate AllInBins(data: seq<int>, min: int, binWidth: int, numBins: int)
    requires binWidth != 0
  {
    forall i :: 0 <= i < |data| ==> 0 <= BinOf(data[i], min, binWidth) < numBins
  }

  /** Adding `d` to one element adds `d` to the sum. */
  lemma {:induction false} SumIntUpdate(s: seq<int>, k: int, d: int)
    requires 0 <= k < |s|
    ensures SumInt(s[k := s[k] + d]) == SumInt(s) + d
    decreases |s|
  {
    var n := |s| - 1;
    var t := s[k := s[k] + d];
    assert t[..n] == if k < n then s[..n][k := s[k] + d] else s[..n];
    if k < n {
      SumIntUpdate(s[..n], k, d);
    }
  }

  /** Counting one more value increments exactly its own bin. */
  lemma HistogramStep(data: seq<int>, min: int, binWidth: int, numBins: nat, i: int)
    requires binWidth != 0 && 0 <= i < |data|
    requires 0 <= BinOf(data[i], min, binWidth) < numBins
    ensures var b := BinOf(data[i], min, binWidth);
      var h := Histogram(data[..i], min, binWidth, numBins);
      Histogram(data[..i + 1], min, binWidth, numBins) == h[b := h[b] + 1]
  {
    assert data[..i + 1][..i] == data[..i];
  }

  /** When every value has a bin, the counts add up to the number of values. */
  lemma {:induction false} HistogramTotal(data: seq<int>, min: int, binWidth: int, numBins: nat)
    requires binWidth != 0 && AllInBins(data, min, binWidth, numBins)
    ensures SumInt(Histogram(data, min, binWidth, numBins)) == |data|
    decreases |data|
  {
    if data == [] {
      var h := Histogram(data, min, binWidth, numBins);
      assert forall b :: 0 <= b < numBins ==> h[b] == 0;
      SumIntZero(h);
    } else {
      var n := |data| - 1;
      assert AllInBins(data[..n], min, binWidth, numBins) by {
        assert forall i :: 0 <= i < n ==> data[..n][i] == data[i];
      }
      HistogramTotal(data[..n], min, binWidth, numBins);
      HistogramStep(data, min, binWidth, numBins, n);
      assert data[..n + 1] == data;
      var h := Histogram(data[..n], min, binWidth, numBins);
      SumIntUpdate(h, BinOf(data[n], min, binWidth), 1);
    }
  }

  lemma {:induction false} SumIntZero(s: seq<int>)
    requires forall i :: 0 <= i < |s| ==> s[i] == 0
    ensures SumInt(s) == 0
    decreases |s|
  {
    if s != [] {
      SumIntZero(s[..|s| - 1]);
    }
  }

  /**
   * `Data2Bins`: counts the values per bin, where a value's bin is its offset
   * from `min` divided by `binWidth` with C#'s truncating division (so values
   * just below `min` land in bin 0). A negative bin count fails when the array
   * is allocated, a zero width fails at the first value, and a value whose bin
   * is outside the array fails at that value.
   */
  method Data2Bins(data: seq<int>, min: int, binWidth: int, numBins: int) returns (r: Outcome<seq<int>>)
    ensures numBins < 0 ==> r == Fail(NegativeSize)
    ensures numBins >= 0 && binWidth == 0 ==> r == if |data| == 0 then Ok(seq(numBins, _ => 0)) else Fail(DivideByZero)
    ensures numBins >= 0 && binWidth != 0 ==>
      if AllInBins(data, min, binWidth, numBins) then r == Ok(Histogram(data, min, binWidth, numBins))
      else r == Fail(IndexOutOfRange)
  {
    if numBins < 0 {
      return Fail(NegativeSize);
    }
    var binCounts := new int[numBins](_ => 0);
    if |data| > 0 && binWidth == 0 {
      return Fail(DivideByZero);
    }
    if binWidth == 0 {
      assert binCounts[..] == seq(numBins, _ => 0);
      return Ok(binCounts[..]);
    }
    for i := 0 to |data|
      invariant binCounts[..] == Histogram(data[..i], min, binWidth, numBins)
      invariant forall k :: 0 <= k < i ==> 0 <= BinOf(data[k], min, binWidth) < numBins
    {
      var bin := TruncDiv(data[i] - min, binWidth);
      if !(0 <= bin < numBins) {
        return Fail(IndexOutOfRange);
      }
      HistogramStep(data, min, binWidth, numBins, i);
      binCounts[bin] := binCounts[bin] + 1;
    }
    assert data[..|data|] == data;
    r := Ok(binCounts[..]);
  }
}
