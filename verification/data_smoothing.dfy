/**
 * The moving-average filter of `DataTools`: a dispatcher that returns short
 * signals unchanged and otherwise runs an even-width or an odd-width filter.
 * Each filter keeps a running sum over three parts of the signal: the leading
 * edge, the centre and the trailing edge, each filled by one method below.
 *
 * The filtered signal is a fresh array local to each filter whose every
 * position is written exactly once: the leading edge and the centre from the
 * front, the trailing edge from the back. It is modelled as the sequence the
 * first two parts build by appending, followed by the sequence the trailing
 * edge builds by prepending.
 */
module DataSmoothing {
  import opened Common

  // ---------------------------------------------------------------------------
  // Window sums
  // ---------------------------------------------------------------------------

  /** The sum of `signal[lo .. hi - 1]`, accumulated from the left as the filters' loops do. */
  function RangeSum(signal: seq<real>, lo: int, hi: int): real
    requires 0 <= lo <= hi <= |signal|
    decreases hi - lo
  {
    if lo == hi then 0.0 else RangeSum(signal, lo, hi - 1) + signal[hi - 1]
  }

  /** The mean of `signal[lo .. hi - 1]`. */
  function WindowMean(signal: seq<real>, lo: int, hi: int): real
    requires 0 <= lo < hi <= |signal|
  {
    RangeSum(signal, lo, hi) / (hi - lo) as real
  }

  /** Dropping the first value of a window subtracts it from the sum. */
  lemma {:induction false} RangeSumDropFirst(signal: seq<real>, lo: int, hi: int)
    requires 0 <= lo < hi <= |signal|
    ensures RangeSum(signal, lo + 1, hi) == RangeSum(signal, lo, hi) - signal[lo]
    decreases hi - lo
  {
    if lo + 1 < hi {
      RangeSumDropFirst(signal, lo, hi - 1);
    }
  }

  /** A window sum is the sum of the slice it covers. */
  lemma {:induction false} RangeSumIsSum(signal: seq<real>, lo: int, hi: int)
    requires 0 <= lo <= hi <= |signal|
    ensures RangeSum(signal, lo, hi) == Sum(signal[lo..hi])
    decreases hi - lo
  {
    if lo < hi {
      RangeSumIsSum(signal, lo, hi - 1);
      SumExtend(signal, lo, hi - 1);
    } else {
      assert signal[lo..hi] == [];
    }
  }

  /** The mean of any window lies between the smallest and the largest value of the signal. */
  lemma WindowMeanBounded(signal: seq<real>, lo: int, hi: int)
    requires 0 <= lo < hi <= |signal|
    ensures MinOf(signal) <= WindowMean(signal, lo, hi) <= MaxOf(signal)
  {
    RangeSumIsSum(signal, lo, hi);
    assert |signal[lo..hi]| == hi - lo;
    assert WindowMean(signal, lo, hi) == Mean(signal[lo..hi]);
    WindowMeanWithin(signal, lo, hi);
  }

  // ---------------------------------------------------------------------------
  // Reference definitions
  // ---------------------------------------------------------------------------

  /**
   * The filters: the even-width and the odd-width filter as the source writes
   * them, and each one with its evident slips corrected.
   */
  datatype Variant = Even | EvenAsWritten | Odd | OddAsWritten

  /** The half width `edge` suits the signal: an even width `2 * edge` or an odd width `2 * edge + 1`, below the length. */
  predicate Fits(v: Variant, signal: seq<real>, edge: int)
  {
    match v
    case Even | EvenAsWritten => 1 <= edge && 2 * edge < |signal|
    case Odd | OddAsWritten => 0 <= edge && 2 * edge + 1 < |signal|
  }

  /**
   * The mean of the values within `edge` positions of `p`, clipped to the
   * signal: the centred moving average of width `2 * edge + 1`.
   */
  function CentredMean(signal: seq<real>, edge: int, p: int): real
    requires 0 <= edge && 0 <= p < |signal|
  {
    var lo := if p - edge < 0 then 0 else p - edge;
    var hi := if p + edge + 1 > |signal| then |signal| else p + edge + 1;
    WindowMean(signal, lo, hi)
  }

  /**
   * The value filter `v` stores at position `p`. Both filters give position
   * `p <= edge` the mean of `signal[0 .. p + edge]`. In the centre the even
   * filter averages the `2 * edge` values `signal[p - edge .. p + edge - 1]`
   * and the odd filter the centred window; on the trailing edge the
   * corrected filters average from the same left end to the end of the
   * signal.
   *
   * The even filter as written drops the wrong value on its first centre
   * step, so `signal[0]` stays in its sum for good and `signal[2 * edge]`
   * is cancelled once it has entered; on its trailing edge it counts
   * `signal[length - edge]` twice. The odd filter as written starts each
   * trailing window one position to the right of the centred one.
   */
  function Value(v: Variant, signal: seq<real>, edge: int, p: int): real
    requires Fits(v, signal, edge) && 0 <= p < |signal|
  {
    var length := |signal|;
    if p <= edge then WindowMean(signal, 0, p + edge + 1)
    else if p < length - edge then
      match v
      case Even => WindowMean(signal, p - edge, p + edge)
      case EvenAsWritten =>
        (signal[0] - signal[2 * edge] + RangeSum(signal, p - edge + 1, p + edge + 1)) / (2 * edge) as real
      case Odd | OddAsWritten => WindowMean(signal, p - edge, p + edge + 1)
    else
      match v
      case Even => WindowMean(signal, p - edge - 1, length)
      case EvenAsWritten =>
        (RangeSum(signal, length - edge - 1, length) + RangeSum(signal, p - edge + 1, length - edge + 1))
          / (length - p + edge + 1) as real
      case Odd => WindowMean(signal, p - edge, length)
      case OddAsWritten => WindowMean(signal, p - edge + 1, length)
  }

  /** The first `n` values of the filtered signal. */
  function Front(v: Variant, signal: seq<real>, edge: int, n: nat): (f: seq<real>)
    requires Fits(v, signal, edge) && n <= |signal|
    ensures |f| == n
  {
    if n == 0 then [] else Front(v, signal, edge, n - 1) + [Value(v, signal, edge, n - 1)]
  }

  /** The last `n` values of the filtered signal. */
  function Back(v: Variant, signal: seq<real>, edge: int, n: nat): (b: seq<real>)
    requires Fits(v, signal, edge) && n <= |signal|
    ensures |b| == n
  {
    if n == 0 then [] else [Value(v, signal, edge, |signal| - n)] + Back(v, signal, edge, n - 1)
  }

  /** The signal filtered by `v` with half width `edge`. */
  function Filtered(v: Variant, signal: seq<real>, edge: int): (fs: seq<real>)
    requires Fits(v, signal, edge)
    ensures |fs| == |signal|
  {
    Front(v, signal, edge, |signal|)
  }

  lemma {:induction false} FrontAt(v: Variant, signal: seq<real>, edge: int, n: nat, p: int)
    requires Fits(v, signal, edge) && n <= |signal| && 0 <= p < n
    ensures Front(v, signal, edge, n)[p] == Value(v, signal, edge, p)
    decreases n
  {
    if p < n - 1 {
      FrontAt(v, signal, edge, n - 1, p);
    }
  }

  lemma {:induction false} BackAt(v: Variant, signal: seq<real>, edge: int, n: nat, p: int)
    requires Fits(v, signal, edge) && n <= |signal| && 0 <= p < n
    ensures Back(v, signal, edge, n)[p] == Value(v, signal, edge, |signal| - n + p)
    decreases n
  {
    if p > 0 {
      BackAt(v, signal, edge, n - 1, p - 1);
    }
  }

  /** Position `p` of the filtered signal holds `Value(v, signal, edge, p)`. */
  lemma FilteredAt(v: Variant, signal: seq<real>, edge: int, p: int)
    requires Fits(v, signal, edge) && 0 <= p < |signal|
    ensures Filtered(v, signal, edge)[p] == Value(v, signal, edge, p)
  {
    FrontAt(v, signal, edge, |signal|, p);
  }

  /** Filling the first `|signal| - n` values from the front and the last `n` from the back gives the filtered signal. */
  lemma {:induction false} FrontThenBack(v: Variant, signal: seq<real>, edge: int, n: nat)
    requires Fits(v, signal, edge) && n <= |signal|
    ensures Front(v, signal, edge, |signal| - n) + Back(v, signal, edge, n) == Filtered(v, signal, edge)
    decreases n
  {
    if n == 0 {
      assert Back(v, signal, edge, n) == [];
    } else {
      var m := |signal| - n;
      var front := Front(v, signal, edge, m);
      var x := [Value(v, signal, edge, m)];
      var back := Back(v, signal, edge, n - 1);
      assert Back(v, signal, edge, n) == x + back;
      assert Front(v, signal, edge, m + 1) == front + x;
      assert front + (x + back) == (front + x) + back;
      FrontThenBack(v, signal, edge, n - 1);
    }
  }

  // ---------------------------------------------------------------------------
  // Running sums
  // ---------------------------------------------------------------------------

  /** Sliding a window one place drops its first value and adds the next one. */
  lemma SlideWindow(signal: seq<real>, lo: int, hi: int)
    requires 0 <= lo < hi < |signal|
    ensures RangeSum(signal, lo, hi) - signal[lo] + signal[hi] == RangeSum(signal, lo + 1, hi + 1)
  {
    RangeSumDropFirst(signal, lo, hi);
  }

  /** The sum of the first `n` values, as the filters' "sum the start" loops compute it. */
  method SumStart(signal: seq<real>, n: int) returns (sum: real)
    requires 0 <= n <= |signal|
    ensures sum == RangeSum(signal, 0, n)
  {
    sum := 0.0;
    for i := 0 to n
      invariant sum == RangeSum(signal, 0, i)
    {
      sum := sum + signal[i];
    }
  }

  /** The sum of the last `n` values, as the filters' "sum trailing edge" loops compute it. */
  method SumEnd(signal: seq<real>, n: int) returns (sum: real)
    requires 0 <= n <= |signal|
    ensures sum == RangeSum(signal, |signal| - n, |signal|)
  {
    var length := |signal|;
    sum := 0.0;
    for i := 0 to n
      invariant sum == RangeSum(signal, length - i, length)
    {
      RangeSumDropFirst(signal, length - i - 1, length);
      sum := sum + signal[length - i - 1];
    }
  }

  // ---------------------------------------------------------------------------
  // The parts of the filters. Each step lemma states, in the terms its loop
  // uses, that one step keeps the running sum and extends the filled part.
  // ---------------------------------------------------------------------------

  lemma LeadingStep(v: Variant, signal: seq<real>, edge: int, i: int, hi: int, sum: real, head: seq<real>)
    requires Fits(v, signal, edge) && 0 <= i <= edge && hi == edge + i
    requires sum == RangeSum(signal, 0, hi) && head == Front(v, signal, edge, i)
    ensures sum + signal[edge + i] == RangeSum(signal, 0, hi + 1)
    ensures head + [(sum + signal[edge + i]) / (edge + i + 1) as real] == Front(v, signal, edge, i + 1)
  {
  }

  /**
   * The leading edge, the same in both filters: after the sum of the first
   * `edge` values, step `i` adds `signal[edge + i]` and stores the mean of
   * the `edge + i + 1` values summed so far.
   */
  method LeadingEdge(signal: seq<real>, edge: int, ghost v: Variant) returns (head: seq<real>)
    requires Fits(v, signal, edge)
    ensures head == Front(v, signal, edge, edge + 1)
  {
    head := [];
    var sum := SumStart(signal, edge);
    ghost var hi := edge;
    for i := 0 to edge + 1
      invariant hi == edge + i && sum == RangeSum(signal, 0, hi)
      invariant head == Front(v, signal, edge, i)
    {
      LeadingStep(v, signal, edge, i, hi, sum, head);
      sum := sum + signal[edge + i];
      head := head + [sum / (edge + i + 1) as real];
      hi := hi + 1;
    }
  }

  lemma CentreEvenAsWrittenStep(signal: seq<real>, edge: int, i: int, lo: int, hi: int, sum: real, head: seq<real>)
    requires Fits(EvenAsWritten, signal, edge) && edge < i < |signal| - edge
    requires lo == i - edge && hi == i + edge
    requires sum == signal[0] - signal[2 * edge] + RangeSum(signal, lo, hi) && head == Front(EvenAsWritten, signal, edge, i)
    ensures sum - signal[i - edge] + signal[i + edge] == signal[0] - signal[2 * edge] + RangeSum(signal, lo + 1, hi + 1)
    ensures head + [(sum - signal[i - edge] + signal[i + edge]) / (2 * edge) as real] == Front(EvenAsWritten, signal, edge, i + 1)
  {
    SlideWindow(signal, lo, hi);
  }

  /** The centre of the even filter as written: each step drops `signal[i - edge]` and adds `signal[i + edge]`. */
  method CentreEvenAsWritten(signal: seq<real>, edge: int, head0: seq<real>) returns (head: seq<real>)
    requires Fits(EvenAsWritten, signal, edge) && head0 == Front(EvenAsWritten, signal, edge, edge + 1)
    ensures head == Front(EvenAsWritten, signal, edge, |signal| - edge)
  {
    var width := 2 * edge;
    var length := |signal|;
    head := head0;
    var sum := SumStart(signal, width);
    RangeSumDropFirst(signal, 0, width);
    ghost var lo, hi := 1, width + 1;
    for i := edge + 1 to length - edge
      invariant lo == i - edge && hi == i + edge
      invariant sum == signal[0] - signal[width] + RangeSum(signal, lo, hi)
      invariant head == Front(EvenAsWritten, signal, edge, i)
    {
      CentreEvenAsWrittenStep(signal, edge, i, lo, hi, sum, head);
      sum := sum - signal[i - edge] + signal[i + edge];
      head := head + [sum / width as real];
      lo, hi := lo + 1, hi + 1;
    }
  }

  lemma CentreEvenStep(signal: seq<real>, edge: int, i: int, lo: int, hi: int, sum: real, head: seq<real>)
    requires Fits(Even, signal, edge) && edge < i < |signal| - edge
    requires lo == i - 1 - edge && hi == i - 1 + edge
    requires sum == RangeSum(signal, lo, hi) && head == Front(Even, signal, edge, i)
    ensures sum - signal[i - edge - 1] + signal[i + edge - 1] == RangeSum(signal, lo + 1, hi + 1)
    ensures head + [(sum - signal[i - edge - 1] + signal[i + edge - 1]) / (2 * edge) as real] == Front(Even, signal, edge, i + 1)
  {
    SlideWindow(signal, lo, hi);
  }

  /**
   * The centre of the even filter, corrected to drop `signal[i - edge - 1]`
   * and add `signal[i + edge - 1]`, so that the sum always holds the `width`
   * values `signal[i - edge .. i + edge - 1]`.
   */
  method CentreEven(signal: seq<real>, edge: int, head0: seq<real>) returns (head: seq<real>)
    requires Fits(Even, signal, edge) && head0 == Front(Even, signal, edge, edge + 1)
    ensures head == Front(Even, signal, edge, |signal| - edge)
  {
    var width := 2 * edge;
    var length := |signal|;
    head := head0;
    var sum := SumStart(signal, width);
    ghost var lo, hi := 0, width;
    for i := edge + 1 to length - edge
      invariant lo == i - 1 - edge && hi == i - 1 + edge
      invariant sum == RangeSum(signal, lo, hi)
      invariant head == Front(Even, signal, edge, i)
    {
      CentreEvenStep(signal, edge, i, lo, hi, sum, head);
      sum := sum - signal[i - edge - 1] + signal[i + edge - 1];
      head := head + [sum / width as real];
      lo, hi := lo + 1, hi + 1;
    }
  }

  lemma CentreOddStep(v: Variant, signal: seq<real>, edge: int, i: int, lo: int, hi: int, sum: real, head: seq<real>)
    requires (v == Odd || v == OddAsWritten) && Fits(v, signal, edge) && edge < i < |signal| - edge
    requires lo == i - 1 - edge && hi == i + edge
    requires sum == RangeSum(signal, lo, hi) && head == Front(v, signal, edge, i)
    ensures sum - signal[i - edge - 1] + signal[i + edge] == RangeSum(signal, lo + 1, hi + 1)
    ensures head + [(sum - signal[i - edge - 1] + signal[i + edge]) / (2 * edge + 1) as real] == Front(v, signal, edge, i + 1)
  {
    SlideWindow(signal, lo, hi);
  }

  /**
   * The centre of the odd filter (`width == 2 * edge + 1`), the same in both
   * variants: each step drops `signal[i - edge - 1]` and adds
   * `signal[i + edge]`.
   */
  method CentreOdd(signal: seq<real>, edge: int, ghost v: Variant, head0: seq<real>) returns (head: seq<real>)
    requires (v == Odd || v == OddAsWritten) && Fits(v, signal, edge)
    requires head0 == Front(v, signal, edge, edge + 1)
    ensures head == Front(v, signal, edge, |signal| - edge)
  {
    var width := 2 * edge + 1;
    var length := |signal|;
    head := head0;
    var sum := SumStart(signal, width);
    ghost var lo, hi := 0, width;
    for i := edge + 1 to length - edge
      invariant lo == i - 1 - edge && hi == i + edge
      invariant sum == RangeSum(signal, lo, hi)
      invariant head == Front(v, signal, edge, i)
    {
      CentreOddStep(v, signal, edge, i, lo, hi, sum, head);
      sum := sum - signal[i - edge - 1] + signal[i + edge];
      head := head + [sum / width as real];
      lo, hi := lo + 1, hi + 1;
    }
  }

  lemma TrailingEvenAsWrittenStep(signal: seq<real>, edge: int, i: int, lo: int, tail0: real, sum: real, tail: seq<real>)
    requires Fits(EvenAsWritten, signal, edge) && 0 <= i < edge
    requires lo == |signal| - edge - i + 1 && tail0 == RangeSum(signal, |signal| - edge - 1, |signal|)
    requires sum == tail0 + RangeSum(signal, lo, |signal| - edge + 1) && tail == Back(EvenAsWritten, signal, edge, i)
    ensures sum + signal[|signal| - edge - i] == tail0 + RangeSum(signal, lo - 1, |signal| - edge + 1)
    ensures [(sum + signal[|signal| - edge - i]) / (edge + i + 2) as real] + tail == Back(EvenAsWritten, signal, edge, i + 1)
  {
    RangeSumDropFirst(signal, lo - 1, |signal| - edge + 1);
  }

  /**
   * The trailing edge of the even filter as written: the sum of the last
   * `edge + 1` values, then step `i` adds `signal[length - edge - i]` and
   * stores the sum divided by `edge + i + 2` at `length - i - 1`.
   */
  method TrailingEvenAsWritten(signal: seq<real>, edge: int) returns (tail: seq<real>)
    requires Fits(EvenAsWritten, signal, edge)
    ensures tail == Back(EvenAsWritten, signal, edge, edge)
  {
    var length := |signal|;
    tail := [];
    var sum := SumEnd(signal, edge + 1);
    ghost var tail0 := sum;
    ghost var lo := length - edge + 1;
    for i := 0 to edge
      invariant lo == length - edge - i + 1
      invariant sum == tail0 + RangeSum(signal, lo, length - edge + 1)
      invariant tail == Back(EvenAsWritten, signal, edge, i)
    {
      TrailingEvenAsWrittenStep(signal, edge, i, lo, tail0, sum, tail);
      sum := sum + signal[length - edge - i];
      tail := [sum / (edge + i + 2) as real] + tail;
      lo := lo - 1;
    }
  }

  lemma TrailingEvenStep(signal: seq<real>, edge: int, i: int, lo: int, sum: real, tail: seq<real>)
    requires Fits(Even, signal, edge) && 0 <= i < edge
    requires lo == |signal| - edge - 1 - i && sum == RangeSum(signal, lo, |signal|) && tail == Back(Even, signal, edge, i)
    ensures sum + signal[|signal| - edge - i - 2] == RangeSum(signal, lo - 1, |signal|)
    ensures [(sum + signal[|signal| - edge - i - 2]) / (edge + i + 2) as real] + tail == Back(Even, signal, edge, i + 1)
  {
    RangeSumDropFirst(signal, lo - 1, |signal|);
  }

  /**
   * The trailing edge of the even filter, corrected to add
   * `signal[length - edge - i - 2]`, so that position `length - i - 1` holds
   * the mean of the `edge + i + 2` values summed.
   */
  method TrailingEven(signal: seq<real>, edge: int) returns (tail: seq<real>)
    requires Fits(Even, signal, edge)
    ensures tail == Back(Even, signal, edge, edge)
  {
    var length := |signal|;
    tail := [];
    var sum := SumEnd(signal, edge + 1);
    ghost var lo := length - edge - 1;
    for i := 0 to edge
      invariant lo == length - edge - 1 - i && sum == RangeSum(signal, lo, length)
      invariant tail == Back(Even, signal, edge, i)
    {
      TrailingEvenStep(signal, edge, i, lo, sum, tail);
      sum := sum + signal[length - edge - i - 2];
      tail := [sum / (edge + i + 2) as real] + tail;
      lo := lo - 1;
    }
  }

  lemma TrailingOddAsWrittenStep(signal: seq<real>, edge: int, i: int, lo: int, sum: real, tail: seq<real>)
    requires Fits(OddAsWritten, signal, edge) && 0 <= i < edge
    requires lo == |signal| - edge - i + 1 && sum == RangeSum(signal, lo, |signal|) && tail == Back(OddAsWritten, signal, edge, i)
    ensures sum + signal[|signal| - edge - i] == RangeSum(signal, lo - 1, |signal|)
    ensures [(sum + signal[|signal| - edge - i]) / (edge + i) as real] + tail == Back(OddAsWritten, signal, edge, i + 1)
  {
    RangeSumDropFirst(signal, lo - 1, |signal|);
  }

  /**
   * The trailing edge of the odd filter as written: the sum of the last
   * `edge - 1` values, then step `i` adds `signal[length - edge - i]` and
   * stores the sum divided by `edge + i`, so each position averages one value
   * fewer on the left than its centred window holds.
   */
  method TrailingOddAsWritten(signal: seq<real>, edge: int) returns (tail: seq<real>)
    requires Fits(OddAsWritten, signal, edge)
    ensures tail == Back(OddAsWritten, signal, edge, edge)
  {
    var length := |signal|;
    tail := [];
    var sum := 0.0;
    if edge >= 1 {
      sum := SumEnd(signal, edge - 1);
    }
    ghost var lo := length - edge + 1;
    for i := 0 to edge
      invariant lo == length - edge - i + 1
      invariant edge >= 1 ==> sum == RangeSum(signal, lo, length)
      invariant tail == Back(OddAsWritten, signal, edge, i)
    {
      TrailingOddAsWrittenStep(signal, edge, i, lo, sum, tail);
      sum := sum + signal[length - edge - i];
      tail := [sum / (edge + i) as real] + tail;
      lo := lo - 1;
    }
  }

  lemma TrailingOddStep(signal: seq<real>, edge: int, i: int, lo: int, sum: real, tail: seq<real>)
    requires Fits(Odd, signal, edge) && 0 <= i < edge
    requires lo == |signal| - edge - i && sum == RangeSum(signal, lo, |signal|) && tail == Back(Odd, signal, edge, i)
    ensures sum + signal[|signal| - edge - i - 1] == RangeSum(signal, lo - 1, |signal|)
    ensures [(sum + signal[|signal| - edge - i - 1]) / (edge + i + 1) as real] + tail == Back(Odd, signal, edge, i + 1)
  {
    RangeSumDropFirst(signal, lo - 1, |signal|);
  }

  /**
   * The trailing edge of the odd filter, corrected to start from the last
   * `edge` values, add `signal[length - edge - i - 1]` and divide by
   * `edge + i + 1`, mirroring the leading edge.
   */
  method TrailingOdd(signal: seq<real>, edge: int) returns (tail: seq<real>)
    requires Fits(Odd, signal, edge)
    ensures tail == Back(Odd, signal, edge, edge)
  {
    var length := |signal|;
    tail := [];
    var sum := SumEnd(signal, edge);
    ghost var lo := length - edge;
    for i := 0 to edge
      invariant lo == length - edge - i && sum == RangeSum(signal, lo, length)
      invariant tail == Back(Odd, signal, edge, i)
    {
      TrailingOddStep(signal, edge, i, lo, sum, tail);
      sum := sum + signal[length - edge - i - 1];
      tail := [sum / (edge + i + 1) as real] + tail;
      lo := lo - 1;
    }
  }

  // ---------------------------------------------------------------------------
  // The filters
  // ---------------------------------------------------------------------------

  /**
   * `filterMovingAverageEven` for an even `width`: the leading edge, the
   * centre and the trailing edge, corrected as described at `Value`.
   */
  method FilterMovingAverageEven(signal: array<real>, width: int) returns (fs: seq<real>)
    requires width % 2 == 0 && 2 <= width < signal.Length
    ensures fs == Filtered(Even, signal[..], width / 2)
  {
    var s := signal[..];
    var edge := width / 2;
    var head := LeadingEdge(s, edge, Even);
    head := CentreEven(s, edge, head);
    var tail := TrailingEven(s, edge);
    FrontThenBack(Even, s, edge, edge);
    fs := head + tail;
  }

  /** `filterMovingAverageEven` as the source writes it. */
  method FilterMovingAverageEvenAsWritten(signal: array<real>, width: int) returns (fs: seq<real>)
    requires width % 2 == 0 && 2 <= width < signal.Length
    ensures fs == Filtered(EvenAsWritten, signal[..], width / 2)
  {
    var s := signal[..];
    var edge := width / 2;
    var head := LeadingEdge(s, edge, EvenAsWritten);
    head := CentreEvenAsWritten(s, edge, head);
    var tail := TrailingEvenAsWritten(s, edge);
    FrontThenBack(EvenAsWritten, s, edge, edge);
    fs := head + tail;
  }

  /**
   * The three-point smoothing `filterMovingAverageOdd` applies to a signal of
   * length 3, whatever the width. Each assignment reads the values the
   * previous ones have just overwritten.
   */
  function ThreePointSmoothed(s: seq<real>): (t: seq<real>)
    requires |s| == 3
    ensures |t| == 3
  {
    var a := (s[0] + s[1]) / 2.0;
    var b := (a + s[1] + s[2]) / 3.0;
    var c := (b + s[2]) / 2.0;
    [a, b, c]
  }

  lemma MeanOfTwoWithin(x: real, y: real, lo: real, hi: real)
    requires lo <= x <= hi && lo <= y <= hi
    ensures lo <= (x + y) / 2.0 <= hi
  {
  }

  lemma MeanOfThreeWithin(x: real, y: real, z: real, lo: real, hi: real)
    requires lo <= x <= hi && lo <= y <= hi && lo <= z <= hi
    ensures lo <= (x + y + z) / 3.0 <= hi
  {
  }

  /** Three values within `[lo, hi]` smooth to three values within `[lo, hi]`. */
  lemma ThreePointSmoothedWithin(s: seq<real>, lo: real, hi: real)
    requires |s| == 3 && lo <= s[0] <= hi && lo <= s[1] <= hi && lo <= s[2] <= hi
    ensures var t := ThreePointSmoothed(s); lo <= t[0] <= hi && lo <= t[1] <= hi && lo <= t[2] <= hi
  {
    var a := (s[0] + s[1]) / 2.0;
    MeanOfTwoWithin(s[0], s[1], lo, hi);
    var b := (a + s[1] + s[2]) / 3.0;
    MeanOfThreeWithin(a, s[1], s[2], lo, hi);
    MeanOfTwoWithin(b, s[2], lo, hi);
  }

  /** The three smoothed values stay within the range of the signal. */
  lemma ThreePointSmoothedWithinRange(s: seq<real>, k: int)
    requires |s| == 3 && 0 <= k < 3
    ensures MinOf(s) <= ThreePointSmoothed(s)[k] <= MaxOf(s)
  {
    var lo, hi := MinOf(s), MaxOf(s);
    assert lo <= s[0] <= hi && lo <= s[1] <= hi && lo <= s[2] <= hi;
    ThreePointSmoothedWithin(s, lo, hi);
    var t := ThreePointSmoothed(s);
    if k == 0 {
      assert lo <= t[0] <= hi;
    } else if k == 1 {
      assert lo <= t[1] <= hi;
    } else {
      assert lo <= t[2] <= hi;
    }
  }

  /** Smooths a signal of length 3 in place, as `filterMovingAverageOdd` does. */
  method SmoothThreePoints(signal: array<real>)
    requires signal.Length == 3
    modifies signal
    ensures signal[..] == ThreePointSmoothed(old(signal[..]))
  {
    signal[0] := (signal[0] + signal[1]) / 2.0;
    signal[1] := (signal[0] + signal[1] + signal[2]) / 3.0;
    signal[2] := (signal[1] + signal[2]) / 2.0;
  }

  /**
   * `filterMovingAverageOdd` for an odd `width`, with its trailing edge
   * corrected. A signal of length 3 is smoothed in place and returned;
   * any other signal is left alone and a new filtered signal returned.
   */
  method FilterMovingAverageOdd(signal: array<real>, width: int) returns (fs: seq<real>)
    requires width % 2 == 1 && 1 <= width < signal.Length
    modifies signal
    ensures signal.Length == 3 ==> fs == ThreePointSmoothed(old(signal[..])) && signal[..] == fs
    ensures signal.Length != 3 ==> fs == Filtered(Odd, old(signal[..]), width / 2) && signal[..] == old(signal[..])
  {
    if signal.Length == 3 {
      SmoothThreePoints(signal);
      return signal[..];
    }
    var s := signal[..];
    var edge := width / 2;
    var head := LeadingEdge(s, edge, Odd);
    head := CentreOdd(s, edge, Odd, head);
    var tail := TrailingOdd(s, edge);
    FrontThenBack(Odd, s, edge, edge);
    fs := head + tail;
  }

  /** `filterMovingAverageOdd` as the source writes it. */
  method FilterMovingAverageOddAsWritten(signal: array<real>, width: int) returns (fs: seq<real>)
    requires width % 2 == 1 && 1 <= width < signal.Length
    modifies signal
    ensures signal.Length == 3 ==> fs == ThreePointSmoothed(old(signal[..])) && signal[..] == fs
    ensures signal.Length != 3 ==> fs == Filtered(OddAsWritten, old(signal[..]), width / 2) && signal[..] == old(signal[..])
  {
    if signal.Length == 3 {
      SmoothThreePoints(signal);
      return signal[..];
    }
    var s := signal[..];
    var edge := width / 2;
    var head := LeadingEdge(s, edge, OddAsWritten);
    head := CentreOdd(s, edge, OddAsWritten, head);
    var tail := TrailingOddAsWritten(s, edge);
    FrontThenBack(OddAsWritten, s, edge, edge);
    fs := head + tail;
  }

  /**
   * What `filterMovingAverageOdd` returns for width -1 on a signal of more
   * than three values: the first value, then the first value minus each
   * later one.
   */
  predicate DriftFromFirst(signal: seq<real>, fs: seq<real>)
  {
    |fs| == |signal| > 0 && fs[0] == signal[0] &&
    forall i :: 1 <= i < |signal| ==> fs[i] == signal[0] - signal[i]
  }

  /**
   * `filterMovingAverageOdd` with width -1 on more than three values. The
   * half width is 0, so the leading edge stores `signal[0]`; the centre sum
   * starts from nothing and telescopes to `signal[i] - signal[0]`, which the
   * division by the width negates; the trailing loops do not run.
   */
  method FilterWidthMinusOne(signal: array<real>) returns (fs: seq<real>)
    requires signal.Length > 3
    ensures DriftFromFirst(signal[..], fs)
  {
    var width := -1;
    var length := signal.Length;
    var sum := 0.0 + signal[0];
    fs := [sum / 1.0];
    sum := 0.0;
    for i := 1 to length
      invariant |fs| == i && fs[0] == signal[0]
      invariant sum == signal[i - 1] - signal[0]
      invariant forall k :: 1 <= k < i ==> fs[k] == signal[0] - signal[k]
    {
      sum := sum - signal[i - 1] + signal[i];
      fs := fs + [sum / width as real];
    }
  }

  /**
   * `filterMovingAverage`: a width not below the length, or a signal shorter
   * than 3, returns the signal unchanged; otherwise the even or the odd
   * filter runs as written. A width of 0 divides zero sums by zero, which
   * the model reports as a failure instead of NaN values. A negative even
   * width makes the first centre step read before the start of the signal;
   * so does a negative odd width below -1, unless the signal has three
   * values, which are smoothed in place whatever the width.
   */
  method FilterMovingAverage(signal: array<real>, width: int) returns (r: Outcome<seq<real>>)
    modifies signal
    ensures width >= signal.Length || signal.Length < 3 ==> r == Ok(old(signal[..])) && signal[..] == old(signal[..])
    ensures width < signal.Length && signal.Length >= 3 && width % 2 == 0 ==>
      signal[..] == old(signal[..]) &&
      r == if width == 0 then Fail(NotANumber)
           else if width < 0 then Fail(IndexOutOfRange)
           else Ok(Filtered(EvenAsWritten, old(signal[..]), width / 2))
    ensures width < signal.Length == 3 && width % 2 == 1 ==>
      r == Ok(ThreePointSmoothed(old(signal[..]))) && signal[..] == ThreePointSmoothed(old(signal[..]))
    ensures 0 < width < signal.Length && signal.Length > 3 && width % 2 == 1 ==>
      r == Ok(Filtered(OddAsWritten, old(signal[..]), width / 2)) && signal[..] == old(signal[..])
    ensures width == -1 && signal.Length > 3 ==> r.Ok? && DriftFromFirst(old(signal[..]), r.value) && signal[..] == old(signal[..])
    ensures width < -1 && signal.Length > 3 && width % 2 == 1 ==> r == Fail(IndexOutOfRange) && signal[..] == old(signal[..])
  {
    var length := signal.Length;
    if width >= length || length < 3 {
      return Ok(signal[..]);
    }
    if width % 2 == 0 {
      if width == 0 {
        return Fail(NotANumber);
      }
      if width < 0 {
        return Fail(IndexOutOfRange);
      }
      var fs := FilterMovingAverageEvenAsWritten(signal, width);
      return Ok(fs);
    }
    if width > 0 {
      var fs := FilterMovingAverageOddAsWritten(signal, width);
      return Ok(fs);
    }
    if length == 3 {
      SmoothThreePoints(signal);
      return Ok(signal[..]);
    }
    if width == -1 {
      var fs := FilterWidthMinusOne(signal);
      return Ok(fs);
    }
    return Fail(IndexOutOfRange);
  }

  // ---------------------------------------------------------------------------
  // Properties
  // ---------------------------------------------------------------------------

  /** Every value of a corrected filter is the mean of a window of the signal. */
  lemma CorrectedWindow(v: Variant, signal: seq<real>, edge: int, p: int) returns (lo: int, hi: int)
    requires (v == Even || v == Odd) && Fits(v, signal, edge) && 0 <= p < |signal|
    ensures 0 <= lo < hi <= |signal| && Value(v, signal, edge, p) == WindowMean(signal, lo, hi)
  {
    var length := |signal|;
    if p <= edge {
      lo, hi := 0, p + edge + 1;
    } else if p < length - edge {
      lo, hi := p - edge, if v == Even then p + edge else p + edge + 1;
    } else {
      lo, hi := if v == Even then p - edge - 1 else p - edge, length;
    }
  }

  /** Every value the corrected filters produce lies within the range of the signal. */
  lemma FilteredWithinRange(v: Variant, signal: seq<real>, edge: int, p: int)
    requires (v == Even || v == Odd) && Fits(v, signal, edge) && 0 <= p < |signal|
    ensures MinOf(signal) <= Filtered(v, signal, edge)[p] <= MaxOf(signal)
  {
    FilteredAt(v, signal, edge, p);
    var lo, hi := CorrectedWindow(v, signal, edge, p);
    WindowMeanBounded(signal, lo, hi);
  }

  /**
   * The corrected odd filter is the centred moving average: every position,
   * edges included, holds the mean of the values within `edge` of it.
   */
  lemma FilteredOddIsCentred(signal: seq<real>, edge: int, p: int)
    requires Fits(Odd, signal, edge) && 0 <= p < |signal|
    ensures Filtered(Odd, signal, edge)[p] == CentredMean(signal, edge, p)
  {
    FilteredAt(Odd, signal, edge, p);
  }

  /**
   * The even filter as written leaves the range of its signal: position 3 of
   * `[1, 0, -1, 1, 1, 0]` filtered with width 2 exceeds every value, where
   * the corrected filter gives the mean of `signal[2 .. 3]`.
   */
  lemma EvenAsWrittenLeavesRange()
    ensures var s := [1.0, 0.0, -1.0, 1.0, 1.0, 0.0];
      Filtered(EvenAsWritten, s, 1)[3] == 2.0 && (forall i :: 0 <= i < |s| ==> s[i] < 2.0) &&
      Filtered(Even, s, 1)[3] == 0.0
  {
    var s := [1.0, 0.0, -1.0, 1.0, 1.0, 0.0];
    FilteredAt(EvenAsWritten, s, 1, 3);
    FilteredAt(Even, s, 1, 3);
  }

  /**
   * The odd filter as written is not centred on its trailing edge: the last
   * position of `[0, 0, 0, 1]` filtered with width 3 averages the last value
   * alone instead of the last two.
   */
  lemma OddAsWrittenNotCentred()
    ensures var s := [0.0, 0.0, 0.0, 1.0];
      Filtered(OddAsWritten, s, 1)[3] == 1.0 && CentredMean(s, 1, 3) == 0.5
  {
    var s := [0.0, 0.0, 0.0, 1.0];
    FilteredAt(OddAsWritten, s, 1, 3);
  }
}
