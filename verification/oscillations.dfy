/**
 * The discrete control logic of `Oscillations2014`: which spectrogram
 * columns feed each frequency bin, how a bin's signal is cut into windows,
 * how each candidate spectrum votes for one oscillation rate, how many
 * singular vectors the SVD variant keeps, and how the accumulated vector is
 * averaged and floored. The numerical transforms (z-scores,
 * autocorrelation, FFT, wavelet packets, SVD, log10) are parameters.
 */
module Oscillations {
  import opened Common
  import DataTools
  import DataStats

  /** The parts of a singular value decomposition the detector reads. */
  datatype Svd = Svd(singularValues: seq<real>, leftSingularVectors: seq<seq<real>>)

  /** A matrix held as its columns, with its row count. */
  datatype ColumnMatrix = ColumnMatrix(rowCount: nat, columns: seq<seq<real>>)

  /** The numerical library calls the detector makes, taken as given functions. */
  datatype Transforms = Transforms(
    zScores: seq<real> -> seq<real>,          // DataTools.Vector2Zscores
    autoCorrelation: seq<real> -> seq<real>,  // AutoAndCrossCorrelation.AutoCorrelationOldJavaVersion
    fftSpectrum: seq<real> -> seq<real>,      // DiffFromMean, then a Hamming-windowed FFT
    wpdSpectrum: seq<real> -> seq<real>,      // DiffFromMean, then the wavelet packet energy spectrum without DC
    svd: ColumnMatrix -> Svd,                 // the singular value decomposition of the matrix
    log10: real -> real)

  // ---------------------------------------------------------------------------
  // The three spectrogram columns behind each frequency bin
  // ---------------------------------------------------------------------------

  /**
   * The first of the three neighbouring columns averaged for `bin`: columns
   * 0..2 for the first bin, `bin - 2 .. bin` for the last and
   * `bin - 1 .. bin + 1` otherwise. With at least three bins the three
   * columns exist and include `bin`.
   */
  function NeighbourhoodStart(bin: int, freqBinCount: int): (first: int)
    ensures 3 <= freqBinCount && 0 <= bin < freqBinCount ==>
      0 <= first && first + 2 < freqBinCount && first <= bin <= first + 2
    ensures 0 < bin < freqBinCount - 1 ==> first + 1 == bin
  {
    if bin == 0 then 0
    else if bin == freqBinCount - 1 then bin - 2
    else bin - 1
  }

  /** Every frame of the spectrogram has `binCount` values, as in a `double[,]`. */
  predicate Rectangular(spectrogram: seq<seq<real>>, binCount: int)
  {
    forall f :: 0 <= f < |spectrogram| ==> |spectrogram[f]| == binCount
  }

  /** Per frame, the mean of the three columns from `first` on. */
  function BinAverages(spectrogram: seq<seq<real>>, binCount: int, first: int): (avg: seq<real>)
    requires Rectangular(spectrogram, binCount) && 0 <= first && first + 2 < binCount
    ensures |avg| == |spectrogram|
  {
    seq(|spectrogram|, f requires 0 <= f < |spectrogram| =>
      (spectrogram[f][first] + spectrogram[f][first + 1] + spectrogram[f][first + 2]) / 3.0)
  }

  // ---------------------------------------------------------------------------
  // Non-overlapping windows and the autocorrelation matrix
  // ---------------------------------------------------------------------------

  /** Window `s` of a signal cut into pieces of `sampleLength` lies inside the signal. */
  lemma WindowInBounds(length: int, sampleLength: int, s: int)
    requires 0 <= length && 0 < sampleLength && 0 <= s < length / sampleLength
    ensures 0 <= s * sampleLength && s * sampleLength + sampleLength <= length
  {
    MulMonotone(s + 1, length / sampleLength, sampleLength);
    DivBounds(length, sampleLength);
    MulSucc(s, sampleLength);
  }

  /** Earlier windows end before later ones begin. */
  lemma WindowsDisjoint(sampleLength: int, s: int, u: int)
    requires 0 < sampleLength && 0 <= s < u
    ensures (s + 1) * sampleLength <= u * sampleLength
  {
    MulMonotone(s + 1, u, sampleLength);
  }

  /** The windows cover the signal except for fewer than `sampleLength` trailing samples. */
  lemma TrailingSamplesDropped(length: int, sampleLength: int)
    requires 0 <= length && 0 < sampleLength
    ensures 0 <= length - (length / sampleLength) * sampleLength < sampleLength
  {
    DivBounds(length, sampleLength);
  }

  /** Window `s`: the `sampleLength` values from `s * sampleLength` on. */
  function Window(z: seq<real>, sampleLength: int, s: int): (w: seq<real>)
    requires 0 < sampleLength && 0 <= s < |z| / sampleLength
    ensures |w| == sampleLength
    ensures forall i :: 0 <= i < sampleLength ==> s * sampleLength + i < |z| && w[i] == z[s * sampleLength + i]
  {
    WindowInBounds(|z|, sampleLength, s);
    var start := s * sampleLength;
    z[start..start + sampleLength]
  }

  /**
   * The autocorrelation matrix of a bin's signal: the z-scored signal cut
   * into `length / sampleLength` windows, one autocorrelation per column.
   * A zero sample length divides by zero; a negative one allocates a matrix
   * with a negative dimension.
   */
  function XcorrByTime(signal: seq<real>, sampleLength: int, t: Transforms): (r: Outcome<ColumnMatrix>)
    ensures r.Ok? <==> sampleLength > 0
    ensures r.Ok? ==> r.value.rowCount == sampleLength && |r.value.columns| == |t.zScores(signal)| / sampleLength
  {
    if sampleLength == 0 then Fail(DivideByZero)
    else if sampleLength < 0 then Fail(NegativeSize)
    else Ok(ColumnMatrix(sampleLength, WindowAutocorrelations(t, t.zScores(signal), sampleLength)))
  }

  /** Column `s` is the autocorrelation of window `s`. */
  function WindowAutocorrelations(t: Transforms, z: seq<real>, sampleLength: int): (columns: seq<seq<real>>)
    requires sampleLength > 0
    ensures |columns| == |z| / sampleLength
  {
    seq(|z| / sampleLength, s requires 0 <= s < |z| / sampleLength => t.autoCorrelation(Window(z, sampleLength, s)))
  }

  /** `GetXcorrByTimeMatrix`: one autocorrelation column per complete window. */
  method GetXcorrByTimeMatrix(signal: seq<real>, sampleLength: int, t: Transforms) returns (r: Outcome<ColumnMatrix>)
    ensures r == XcorrByTime(signal, sampleLength, t)
  {
    var z := t.zScores(signal);
    if sampleLength == 0 {
      return Fail(DivideByZero);
    }
    if sampleLength < 0 {
      return Fail(NegativeSize);
    }
    var sampleCount := |z| / sampleLength;
    var columns: seq<seq<real>> := [];
    ghost var expected := WindowAutocorrelations(t, z, sampleLength);
    for s := 0 to sampleCount
      invariant columns == expected[..s]
    {
      var start := s * sampleLength;
      WindowInBounds(|z|, sampleLength, s);
      var cut := DataTools.SubarrayTruncated(z, start, sampleLength);
      var subArray := cut.value;
      ghost var window := Window(z, sampleLength, s);
      assert subArray == window;
      assert expected[..s + 1] == expected[..s] + [t.autoCorrelation(window)];
      columns := columns + [t.autoCorrelation(subArray)];
    }
    assert expected[..sampleCount] == expected;
    r := Ok(ColumnMatrix(sampleLength, columns));
  }

  // ---------------------------------------------------------------------------
  // Candidate spectra
  // ---------------------------------------------------------------------------

  /** The factor that damps the first coefficient, which would otherwise dominate. */
  const Damping: real := 0.66

  predicate NonNegative(s: seq<real>)
  {
    forall i :: 0 <= i < |s| ==> s[i] >= 0.0
  }

  /** Element-wise squares, as `DataTools.SquareValues` computes them. */
  function Squares(s: seq<real>): (sq: seq<real>)
    ensures |sq| == |s| && NonNegative(sq)
  {
    seq(|s|, i requires 0 <= i < |s| => s[i] * s[i])
  }

  method SquareValues(data: seq<real>) returns (squared: seq<real>)
    ensures squared == Squares(data)
  {
    var a := new real[|data|];
    for i := 0 to |data|
      invariant forall k :: 0 <= k < i ==> a[k] == data[k] * data[k]
    {
      a[i] := data[i] * data[i];
    }
    squared := a[..];
    assert forall k :: 0 <= k < |data| ==> squared[k] == Squares(data)[k];
  }

  /** The power spectrum after damping the first coefficient. */
  function DampedPower(s: seq<real>): (p: seq<real>)
    requires |s| > 0
    ensures |p| == |s| && NonNegative(p)
  {
    Squares(s[0 := s[0] * Damping])
  }

  /**
   * The FFT spectrum as the FFT and SVD detectors use it: the DC coefficient
   * and the last coefficient are dropped, then the damped power is taken.
   * A spectrum of fewer than two values makes `Subarray` allocate a negative
   * length, and one of exactly two leaves nothing to damp.
   */
  function PreparedSpectrum(raw: seq<real>): (r: Outcome<seq<real>>)
    ensures r.Ok? <==> |raw| >= 3
    ensures r.Ok? ==> |r.value| == |raw| - 2 && NonNegative(r.value)
  {
    if |raw| < 2 then Fail(NegativeSize)
    else if |raw| == 2 then Fail(IndexOutOfRange)
    else Ok(DampedPower(raw[1..|raw| - 1]))
  }

  method PrepareSpectrum(raw: seq<real>) returns (r: Outcome<seq<real>>)
    ensures r == PreparedSpectrum(raw)
  {
    var cut := DataTools.SubarrayTruncated(raw, 1, |raw| - 2);
    if cut.Fail? {
      return Fail(cut.fault);
    }
    var spectrum := cut.value;
    if |spectrum| == 0 {
      return Fail(IndexOutOfRange);
    }
    assert spectrum == raw[1..|raw| - 1];
    spectrum := spectrum[0 := spectrum[0] * Damping];
    spectrum := SquareValues(spectrum);
    return Ok(spectrum);
  }

  /**
   * The power around the peak `m` in the FFT and SVD detectors: the first
   * three values when the peak is first (which needs three values), the
   * peak counted twice beside its left neighbour when it is last, and the
   * peak with both neighbours otherwise.
   */
  function PowerAroundPeak(s: seq<real>, m: int): (r: Outcome<real>)
    requires 0 <= m < |s|
    ensures r.Fail? <==> m == 0 && |s| < 3
  {
    if m == 0 then (if |s| >= 3 then Ok(s[0] + s[1] + s[2]) else Fail(IndexOutOfRange))
    else if m >= |s| - 1 then Ok(s[m] + (s[m - 1] + s[m]))
    else Ok(s[m] + (s[m - 1] + s[m + 1]))
  }

  /**
   * The power around the peak in the wavelet packet detector: a missing
   * neighbour is replaced by the peak itself.
   */
  function WpdPowerAroundPeak(s: seq<real>, m: int): real
    requires 0 <= m < |s|
  {
    s[m] + (if m == 0 then s[m] else s[m - 1]) + (if m >= |s| - 1 then s[m] else s[m + 1])
  }

  /**
   * The relative power of the peak exceeds the sensitivity. A zero total
   * makes the source's quotient NaN, which exceeds nothing.
   */
  predicate Significant(power: real, total: real, sensitivity: real)
  {
    total != 0.0 && power / total > sensitivity
  }

  /** Three distinct values of a non-negative sequence add up to at most its sum. */
  lemma {:induction false} ThreeWithinSum(s: seq<real>, i: int, j: int, k: int)
    requires NonNegative(s) && 0 <= i < j < k < |s|
    ensures s[i] + s[j] + s[k] <= Sum(s)
    decreases |s|
  {
    var n := |s| - 1;
    var front := s[..n];
    assert NonNegative(front);
    if k < n {
      ThreeWithinSum(front, i, j, k);
    } else {
      TwoWithinSum(front, i, j);
    }
  }

  lemma {:induction false} TwoWithinSum(s: seq<real>, i: int, j: int)
    requires NonNegative(s) && 0 <= i < j < |s|
    ensures s[i] + s[j] <= Sum(s)
    decreases |s|
  {
    var n := |s| - 1;
    var front := s[..n];
    assert NonNegative(front);
    if j < n {
      TwoWithinSum(front, i, j);
    } else {
      SumBoundsElement(front, i);
      SumNonNegative(front);
    }
  }

  /**
   * Away from the last index the power around the peak is part of the total,
   * so its relative power is at most 1; at the last index the peak is
   * counted twice and the bound is the total plus the peak.
   */
  lemma PowerAroundPeakBounded(s: seq<real>, m: int)
    requires NonNegative(s) && 0 <= m < |s| && PowerAroundPeak(s, m).Ok?
    ensures m < |s| - 1 ==> PowerAroundPeak(s, m).value <= Sum(s)
    ensures m == |s| - 1 ==> PowerAroundPeak(s, m).value <= Sum(s) + s[m]
    ensures PowerAroundPeak(s, m).value >= s[m]
  {
    if m == 0 {
      ThreeWithinSum(s, 0, 1, 2);
    } else if m < |s| - 1 {
      ThreeWithinSum(s, m - 1, m, m + 1);
    } else {
      TwoWithinSum(s, m - 1, m);
    }
  }

  /** The double-counted last peak can reach twice the total power: `[0, 0, 1]`. */
  lemma LastPeakCountedTwice()
    ensures var s := [0.0, 0.0, 1.0];
      DataTools.ArgMax(s) == 2 && PowerAroundPeak(s, 2) == Ok(2.0) && Sum(s) == 1.0
  {
    var s := [0.0, 0.0, 1.0];
    assert DataTools.IsFirstMax(s, 2);
    DataTools.FirstMaxUnique(s, DataTools.ArgMax(s), 2);
    assert s[..2] == [0.0, 0.0] && s[..2][..1] == [0.0];
    SumOne(0.0);
    assert Sum(s[..2]) == 0.0;
  }

  /** Which detector a candidate goes through. */
  datatype Detector = Fft | Wpd

  /**
   * One candidate spectrum's vote: the peak of the prepared spectrum (its
   * first maximum) gains the power around it when that power is significant.
   * The FFT detector indexes the vector without a check; the wavelet packet
   * detector skips a peak beyond the vector.
   */
  function Step(d: Detector, vector: seq<real>, raw: seq<real>, sensitivity: real): (r: Outcome<seq<real>>)
    ensures r.Ok? ==> |r.value| == |vector|
  {
    match d
    case Fft =>
      (match PreparedSpectrum(raw)
       case Fail(f) => Fail(f)
       case Ok(s) =>
         var m := DataTools.ArgMax(s);
         match PowerAroundPeak(s, m)
         case Fail(f) => Fail(f)
         case Ok(p) =>
           if !Significant(p, Sum(s), sensitivity) then Ok(vector)
           else if m < |vector| then Ok(vector[m := vector[m] + p])
           else Fail(IndexOutOfRange))
    case Wpd =>
      if raw == [] then Fail(IndexOutOfRange)
      else
        var s := DampedPower(raw);
        var m := DataTools.ArgMax(s);
        var p := WpdPowerAroundPeak(s, m);
        if Significant(p, Sum(s), sensitivity) && m < |vector| then Ok(vector[m := vector[m] + p])
        else Ok(vector)
  }

  /**
   * A vote changes at most one slot, the peak of the prepared spectrum, and
   * never lowers it.
   */
  lemma StepChangesOnlyThePeak(d: Detector, vector: seq<real>, raw: seq<real>, sensitivity: real)
    requires Step(d, vector, raw, sensitivity).Ok?
    ensures var w := Step(d, vector, raw, sensitivity).value;
      var s := if d == Fft then PreparedSpectrum(raw).value else DampedPower(raw);
      var m := DataTools.ArgMax(s);
      (forall i :: 0 <= i < |vector| && i != m ==> w[i] == vector[i]) &&
      (m < |vector| ==> w[m] >= vector[m])
  {
    var s := if d == Fft then PreparedSpectrum(raw).value else DampedPower(raw);
    var m := DataTools.ArgMax(s);
    if d == Fft {
      PowerAroundPeakBounded(s, m);
    }
  }

  /** The candidates' votes in order, stopping at the first fault. */
  function Accumulated(d: Detector, vector: seq<real>, spectra: seq<Outcome<seq<real>>>, sensitivity: real): (r: Outcome<seq<real>>)
    ensures r.Ok? ==> |r.value| == |vector|
    decreases |spectra|
  {
    if spectra == [] then Ok(vector)
    else
      match Accumulated(d, vector, spectra[..|spectra| - 1], sensitivity)
      case Fail(f) => Fail(f)
      case Ok(w) =>
        match spectra[|spectra| - 1]
        case Fail(f) => Fail(f)
        case Ok(raw) => Step(d, w, raw, sensitivity)
  }

  /** Votes only add non-negative power: a non-negative vector stays non-negative. */
  lemma {:induction false} AccumulatedNonNegative(d: Detector, vector: seq<real>, spectra: seq<Outcome<seq<real>>>, sensitivity: real)
    requires NonNegative(vector) && Accumulated(d, vector, spectra, sensitivity).Ok?
    ensures NonNegative(Accumulated(d, vector, spectra, sensitivity).value)
    decreases |spectra|
  {
    if spectra != [] {
      var n := |spectra| - 1;
      AccumulatedNonNegative(d, vector, spectra[..n], sensitivity);
      var w := Accumulated(d, vector, spectra[..n], sensitivity).value;
      StepChangesOnlyThePeak(d, w, spectra[n].value, sensitivity);
    }
  }

  /** A fault stops the accumulation for good. */
  lemma {:induction false} AccumulatedFaultStays(d: Detector, vector: seq<real>, spectra: seq<Outcome<seq<real>>>, sensitivity: real, n: int)
    requires 0 <= n <= |spectra| && Accumulated(d, vector, spectra[..n], sensitivity).Fail?
    ensures Accumulated(d, vector, spectra, sensitivity) == Accumulated(d, vector, spectra[..n], sensitivity)
    decreases |spectra| - n
  {
    if n < |spectra| {
      assert spectra[..n + 1][..n] == spectra[..n];
      AccumulatedFaultStays(d, vector, spectra, sensitivity, n + 1);
    } else {
      assert spectra[..n] == spectra;
    }
  }

  /** One more candidate extends the accumulation by one vote. */
  lemma AccumulatedExtend(d: Detector, vector: seq<real>, spectra: seq<Outcome<seq<real>>>, sensitivity: real, e: int)
    requires 0 <= e < |spectra|
    ensures Accumulated(d, vector, spectra[..e + 1], sensitivity) ==
      match Accumulated(d, vector, spectra[..e], sensitivity)
      case Fail(f) => Fail(f)
      case Ok(w) => (match spectra[e] case Fail(f) => Fail(f) case Ok(raw) => Step(d, w, raw, sensitivity))
  {
    assert spectra[..e + 1][..e] == spectra[..e];
  }

  /**
   * The peak of a prepared FFT spectrum and the power around it, as the FFT
   * and SVD detectors find them.
   */
  method FftPeakPower(spectrum: seq<real>) returns (maxIndex: int, power: Outcome<real>)
    requires |spectrum| > 0
    ensures maxIndex == DataTools.ArgMax(spectrum) && power == PowerAroundPeak(spectrum, maxIndex)
  {
    var found := DataTools.GetMaxIndex(spectrum);
    maxIndex := found.value;
    DataTools.FirstMaxUnique(spectrum, maxIndex, DataTools.ArgMax(spectrum));
    var powerAtMax := spectrum[maxIndex];
    if maxIndex == 0 {
      if |spectrum| < 3 {
        return maxIndex, Fail(IndexOutOfRange);
      }
      powerAtMax := powerAtMax + (spectrum[1] + spectrum[2]);
    } else if maxIndex >= |spectrum| - 1 {
      powerAtMax := powerAtMax + (spectrum[maxIndex - 1] + spectrum[maxIndex]);
    } else {
      powerAtMax := powerAtMax + (spectrum[maxIndex - 1] + spectrum[maxIndex + 1]);
    }
    power := Ok(powerAtMax);
  }

  /**
   * One candidate of the FFT and SVD detectors: prepare the spectrum, find
   * its first maximum, add up the power around it and, when that power is
   * significant, add it to the peak's slot.
   */
  method AddFftCandidate(vector: array<real>, raw: seq<real>, sensitivity: real) returns (fault: Option<Fault>)
    modifies vector
    ensures Step(Fft, old(vector[..]), raw, sensitivity) == if fault.None? then Ok(vector[..]) else Fail(fault.value)
    ensures fault.Some? ==> vector[..] == old(vector[..])
  {
    var prepared := PrepareSpectrum(raw);
    if prepared.Fail? {
      return Some(prepared.fault);
    }
    var spectrum := prepared.value;
    var sumOfSquares := Sum(spectrum);
    var maxIndex, power := FftPeakPower(spectrum);
    if power.Fail? {
      return Some(power.fault);
    }
    var powerAtMax := power.value;
    if sumOfSquares != 0.0 && powerAtMax / sumOfSquares > sensitivity {
      if maxIndex >= vector.Length {
        return Some(IndexOutOfRange);
      }
      vector[maxIndex] := vector[maxIndex] + powerAtMax;
    }
    return None;
  }

  /** One candidate of the wavelet packet detector. */
  method AddWpdCandidate(vector: array<real>, raw: seq<real>, sensitivity: real) returns (fault: Option<Fault>)
    modifies vector
    ensures Step(Wpd, old(vector[..]), raw, sensitivity) == if fault.None? then Ok(vector[..]) else Fail(fault.value)
    ensures fault.Some? ==> vector[..] == old(vector[..])
  {
    if |raw| == 0 {
      return Some(IndexOutOfRange);
    }
    var spectrum := raw[0 := raw[0] * Damping];
    spectrum := SquareValues(spectrum);
    var sumOfSquares := Sum(spectrum);
    var found := DataTools.GetMaxIndex(spectrum);
    var maxIndex := found.value;
    DataTools.FirstMaxUnique(spectrum, maxIndex, DataTools.ArgMax(spectrum));
    assert spectrum == DampedPower(raw);
    var powerAtMax := spectrum[maxIndex];
    if maxIndex == 0 {
      powerAtMax := powerAtMax + spectrum[maxIndex];
    } else {
      powerAtMax := powerAtMax + spectrum[maxIndex - 1];
    }
    if maxIndex >= |spectrum| - 1 {
      powerAtMax := powerAtMax + spectrum[maxIndex];
    } else {
      powerAtMax := powerAtMax + spectrum[maxIndex + 1];
    }
    assert powerAtMax == WpdPowerAroundPeak(spectrum, DataTools.ArgMax(spectrum));
    if sumOfSquares != 0.0 && powerAtMax / sumOfSquares > sensitivity {
      if maxIndex < vector.Length {
        vector[maxIndex] := vector[maxIndex] + powerAtMax;
      }
    }
    return None;
  }

  // ---------------------------------------------------------------------------
  // Averaging and the log floor
  // ---------------------------------------------------------------------------

  /** Averaged power below this floor is set to zero. */
  const PowerFloor: real := 0.1

  /** One entry after averaging over `sampleCount` samples and flooring. */
  function LogScaled(v: real, sampleCount: int, log10: real -> real): real
    requires sampleCount != 0
  {
    var average := v / sampleCount as real;
    if average < PowerFloor then 0.0 else log10(1.0 + average)
  }

  /**
   * The vector after `LogTransformOscillationVector`. Dividing a non-empty
   * vector by a zero count gives NaN and infinite values, which the model
   * reports as a failure.
   */
  function LogTransformed(vector: seq<real>, sampleCount: int, log10: real -> real): (r: Outcome<seq<real>>)
    ensures r.Fail? <==> vector != [] && sampleCount == 0
    ensures r.Ok? ==> |r.value| == |vector|
  {
    if vector == [] then Ok([])
    else if sampleCount == 0 then Fail(NotANumber)
    else Ok(seq(|vector|, i requires 0 <= i < |vector| => LogScaled(vector[i], sampleCount, log10)))
  }

  /** Entries whose average power is below the floor become zero; the others their log. */
  lemma LogTransformedFloor(vector: seq<real>, sampleCount: int, log10: real -> real, i: int)
    requires sampleCount != 0 && 0 <= i < |vector|
    ensures var w := LogTransformed(vector, sampleCount, log10).value;
      (vector[i] / sampleCount as real < PowerFloor ==> w[i] == 0.0) &&
      (vector[i] / sampleCount as real >= PowerFloor ==> w[i] == log10(1.0 + vector[i] / sampleCount as real))
  {
  }

  /** `LogTransformOscillationVector`: averages and floors the vector in place. */
  method LogTransformOscillationVector(vector: array<real>, sampleCount: int, log10: real -> real) returns (r: Outcome<seq<real>>)
    modifies vector
    ensures r == LogTransformed(old(vector[..]), sampleCount, log10)
    ensures r.Ok? ==> vector[..] == r.value
    ensures r.Fail? ==> vector[..] == old(vector[..])
  {
    if vector.Length > 0 && sampleCount == 0 {
      return Fail(NotANumber);
    }
    ghost var original := vector[..];
    for i := 0 to vector.Length
      invariant forall k :: 0 <= k < i ==> vector[k] == LogScaled(original[k], sampleCount, log10)
      invariant forall k :: i <= k < vector.Length ==> vector[k] == original[k]
    {
      vector[i] := vector[i] / sampleCount as real;
      if vector[i] < PowerFloor {
        vector[i] := 0.0;
      } else {
        vector[i] := log10(1.0 + vector[i]);
      }
    }
    if vector.Length > 0 {
      var expected := LogTransformed(original, sampleCount, log10).value;
      assert forall k :: 0 <= k < vector.Length ==> vector[..][k] == expected[k];
      assert vector[..] == expected;
    }
    return Ok(vector[..]);
  }

  // ---------------------------------------------------------------------------
  // The detectors
  // ---------------------------------------------------------------------------

  /** A detector's result: the votes of all candidates, averaged over `sampleCount` and floored. */
  function Detected(d: Detector, size: nat, spectra: seq<Outcome<seq<real>>>, sensitivity: real, sampleCount: int, log10: real -> real): (r: Outcome<seq<real>>)
    ensures r.Ok? ==> |r.value| == size
  {
    match Accumulated(d, DataTools.Zeros(size), spectra, sensitivity)
    case Fail(f) => Fail(f)
    case Ok(v) => LogTransformed(v, sampleCount, log10)
  }

  /** The detector output never holds negative averaged power before the log. */
  lemma DetectedVotesNonNegative(d: Detector, size: nat, spectra: seq<Outcome<seq<real>>>, sensitivity: real)
    requires Accumulated(d, DataTools.Zeros(size), spectra, sensitivity).Ok?
    ensures NonNegative(Accumulated(d, DataTools.Zeros(size), spectra, sensitivity).value)
  {
    AccumulatedNonNegative(d, DataTools.Zeros(size), spectra, sensitivity);
  }

  function FftSpectra(t: Transforms, columns: seq<seq<real>>): (spectra: seq<Outcome<seq<real>>>)
    ensures |spectra| == |columns|
  {
    seq(|columns|, e requires 0 <= e < |columns| => Ok(t.fftSpectrum(columns[e])))
  }

  function WpdSpectra(t: Transforms, columns: seq<seq<real>>): (spectra: seq<Outcome<seq<real>>>)
    ensures |spectra| == |columns|
  {
    seq(|columns|, e requires 0 <= e < |columns| => Ok(t.wpdSpectrum(columns[e])))
  }

  /** `GetOscillationArrayUsingFft`: one FFT candidate per autocorrelation column. */
  method GetOscillationArrayUsingFft(xcorr: ColumnMatrix, sensitivity: real, t: Transforms) returns (r: Outcome<seq<real>>)
    ensures r == Detected(Fft, xcorr.rowCount / 2, FftSpectra(t, xcorr.columns), sensitivity, |xcorr.columns|, t.log10)
  {
    var xCorrLength := xcorr.rowCount;
    var sampleCount := |xcorr.columns|;
    var vector := new real[xCorrLength / 2](_ => 0.0);
    ghost var spectra := FftSpectra(t, xcorr.columns);
    ghost var zeros := DataTools.Zeros(xCorrLength / 2);
    assert vector[..] == zeros;
    for e := 0 to sampleCount
      invariant Accumulated(Fft, zeros, spectra[..e], sensitivity) == Ok(vector[..])
    {
      var autocor := xcorr.columns[e];
      var raw := t.fftSpectrum(autocor);
      AccumulatedExtend(Fft, zeros, spectra, sensitivity, e);
      var fault := AddFftCandidate(vector, raw, sensitivity);
      if fault.Some? {
        AccumulatedFaultStays(Fft, zeros, spectra, sensitivity, e + 1);
        return Fail(fault.value);
      }
    }
    assert spectra[..sampleCount] == spectra;
    r := LogTransformOscillationVector(vector, sampleCount, t.log10);
  }

  /** `GetOscillationArrayUsingWpd`: one wavelet packet candidate per autocorrelation column. */
  method GetOscillationArrayUsingWpd(xcorr: ColumnMatrix, sensitivity: real, t: Transforms) returns (r: Outcome<seq<real>>)
    ensures r == Detected(Wpd, xcorr.rowCount / 2, WpdSpectra(t, xcorr.columns), sensitivity, |xcorr.columns|, t.log10)
  {
    var xCorrLength := xcorr.rowCount;
    var sampleCount := |xcorr.columns|;
    var vector := new real[xCorrLength / 2](_ => 0.0);
    ghost var spectra := WpdSpectra(t, xcorr.columns);
    ghost var zeros := DataTools.Zeros(xCorrLength / 2);
    assert vector[..] == zeros;
    for e := 0 to sampleCount
      invariant Accumulated(Wpd, zeros, spectra[..e], sensitivity) == Ok(vector[..])
    {
      var autocor := xcorr.columns[e];
      var spectrum := t.wpdSpectrum(autocor);
      AccumulatedExtend(Wpd, zeros, spectra, sensitivity, e);
      var fault := AddWpdCandidate(vector, spectrum, sensitivity);
      if fault.Some? {
        AccumulatedFaultStays(Wpd, zeros, spectra, sensitivity, e + 1);
        return Fail(fault.value);
      }
    }
    assert spectra[..sampleCount] == spectra;
    r := LogTransformOscillationVector(vector, sampleCount, t.log10);
  }

  // ---------------------------------------------------------------------------
  // The SVD detector
  // ---------------------------------------------------------------------------

  /** The share of the energy a significant prefix must exceed. */
  const SignificanceThreshold: real := 0.9

  /**
   * The first `k` singular values hold more than the threshold share of the
   * total energy. A zero total makes the source's fraction NaN.
   */
  predicate HoldsShare(sv: seq<real>, k: int)
    requires 0 <= k <= |sv|
  {
    SumOfSquares(sv) != 0.0 && SumOfSquares(sv[..k]) / SumOfSquares(sv) > SignificanceThreshold
  }

  /** The first prefix length after `n` that holds the share, or 0. */
  function FirstShareFrom(sv: seq<real>, n: int): nat
    requires 0 <= n <= |sv|
    decreases |sv| - n
  {
    if n == |sv| then 0
    else if HoldsShare(sv, n + 1) then n + 1
    else FirstShareFrom(sv, n + 1)
  }

  /** The number of significant singular values. */
  function SignificantCount(sv: seq<real>): nat
  {
    FirstShareFrom(sv, 0)
  }

  lemma {:induction false} FirstShareFromIsFirst(sv: seq<real>, n: int)
    requires 0 <= n <= |sv|
    ensures var c := FirstShareFrom(sv, n);
      (c == 0 || n < c <= |sv|) &&
      (c > 0 ==> HoldsShare(sv, c) && forall k :: n < k < c ==> !HoldsShare(sv, k)) &&
      (c == 0 ==> forall k :: n < k <= |sv| ==> !HoldsShare(sv, k))
    decreases |sv| - n
  {
    if n < |sv| && !HoldsShare(sv, n + 1) {
      FirstShareFromIsFirst(sv, n + 1);
    }
  }

  /**
   * The count is the length of the shortest prefix whose energy exceeds 90 %
   * of the total. It is never more than the number of singular values, and
   * it is zero exactly when the total energy is zero.
   */
  lemma SignificantCountIsShortest(sv: seq<real>)
    ensures var c := SignificantCount(sv);
      c <= |sv| &&
      (c > 0 ==> HoldsShare(sv, c) && forall k :: 1 <= k < c ==> !HoldsShare(sv, k)) &&
      (c == 0 <==> SumOfSquares(sv) == 0.0)
  {
    FirstShareFromIsFirst(sv, 0);
    if SumOfSquares(sv) != 0.0 {
      WholeHoldsShare(sv);
    }
  }

  /** All singular values together hold the whole energy, more than the threshold share. */
  lemma WholeHoldsShare(sv: seq<real>)
    requires SumOfSquares(sv) != 0.0
    ensures HoldsShare(sv, |sv|)
  {
    var total := SumOfSquares(sv);
    assert sv[..|sv|] == sv;
    DataStats.DivSelf(total);
  }

  /** The counting loops of `GetOscillationArrayUsingSvdAndFft`. */
  method CountSignificantSingularValues(singularValues: seq<real>) returns (count: nat)
    ensures count == SignificantCount(singularValues)
  {
    var energySum := 0.0;
    for n := 0 to |singularValues|
      invariant energySum == SumOfSquares(singularValues[..n])
    {
      SumOfSquaresExtend(singularValues, n);
      energySum := energySum + singularValues[n] * singularValues[n];
    }
    assert singularValues[..|singularValues|] == singularValues;
    var energy := 0.0;
    count := 0;
    for n := 0 to |singularValues|
      invariant energy == SumOfSquares(singularValues[..n])
      invariant SignificantCount(singularValues) == FirstShareFrom(singularValues, n)
    {
      SumOfSquaresExtend(singularValues, n);
      energy := energy + singularValues[n] * singularValues[n];
      if energySum != 0.0 && energy / energySum > SignificanceThreshold {
        count := n + 1;
        return;
      }
    }
  }

  /** A left singular vector with its sign flipped when its first component is negative. */
  function SignNormalised(u: seq<real>): (w: seq<real>)
    requires |u| > 0
    ensures |w| == |u| && w[0] >= 0.0
    ensures w == u || forall i :: 0 <= i < |u| ==> w[i] == -u[i]
  {
    if u[0] < 0.0 then seq(|u|, i requires 0 <= i < |u| => -u[i]) else u
  }

  /** Flips the sign of a vector in place when its first component is negative. */
  method NormaliseSign(autocor: array<real>)
    requires autocor.Length > 0
    modifies autocor
    ensures autocor[..] == SignNormalised(old(autocor[..]))
  {
    if autocor[0] < 0.0 {
      ghost var original := autocor[..];
      for i := 0 to autocor.Length
        invariant forall k :: 0 <= k < i ==> autocor[k] == -original[k]
        invariant forall k :: i <= k < autocor.Length ==> autocor[k] == original[k]
      {
        autocor[i] := autocor[i] * -1.0;
      }
    }
  }

  /**
   * The spectra of the SVD detector: the FFT of each significant left
   * singular vector after sign normalisation. A missing or empty vector is
   * an index fault.
   */
  function SvdSpectra(t: Transforms, svd: Svd, count: nat): (spectra: seq<Outcome<seq<real>>>)
    ensures |spectra| == count
  {
    seq(count, e requires 0 <= e < count =>
      if e < |svd.leftSingularVectors| && |svd.leftSingularVectors[e]| > 0
      then Ok(t.fftSpectrum(SignNormalised(svd.leftSingularVectors[e])))
      else Fail(IndexOutOfRange))
  }

  function SvdDetected(xcorr: ColumnMatrix, sensitivity: real, t: Transforms): (r: Outcome<seq<real>>)
    ensures r.Ok? ==> |r.value| == xcorr.rowCount / 2
  {
    var svd := t.svd(xcorr);
    var count := SignificantCount(svd.singularValues);
    Detected(Fft, xcorr.rowCount / 2, SvdSpectra(t, svd, count), sensitivity, count, t.log10)
  }

  /**
   * `GetOscillationArrayUsingSvdAndFft`: one FFT candidate per significant
   * left singular vector, averaged over the number of significant values.
   */
  method GetOscillationArrayUsingSvdAndFft(xcorr: ColumnMatrix, sensitivity: real, t: Transforms) returns (r: Outcome<seq<real>>)
    ensures r == SvdDetected(xcorr, sensitivity, t)
  {
    var xCorrLength := xcorr.rowCount;
    var svd := t.svd(xcorr);
    var count := CountSignificantSingularValues(svd.singularValues);
    var uMatrix := svd.leftSingularVectors;
    var vector := new real[xCorrLength / 2](_ => 0.0);
    ghost var spectra := SvdSpectra(t, svd, count);
    ghost var zeros := DataTools.Zeros(xCorrLength / 2);
    assert vector[..] == zeros;
    for e := 0 to count
      invariant Accumulated(Fft, zeros, spectra[..e], sensitivity) == Ok(vector[..])
    {
      AccumulatedExtend(Fft, zeros, spectra, sensitivity, e);
      if e >= |uMatrix| || |uMatrix[e]| == 0 {
        AccumulatedFaultStays(Fft, zeros, spectra, sensitivity, e + 1);
        return Fail(IndexOutOfRange);
      }
      var column := uMatrix[e];
      var autocor := new real[|column|](i requires 0 <= i < |column| => column[i]);
      assert autocor[..] == column;
      NormaliseSign(autocor);
      var raw := t.fftSpectrum(autocor[..]);
      var fault := AddFftCandidate(vector, raw, sensitivity);
      if fault.Some? {
        AccumulatedFaultStays(Fft, zeros, spectra, sensitivity, e + 1);
        return Fail(fault.value);
      }
    }
    assert spectra[..count] == spectra;
    r := LogTransformOscillationVector(vector, count, t.log10);
  }

  // ---------------------------------------------------------------------------
  // The frequency by oscillation-rate matrix
  // ---------------------------------------------------------------------------

  /** The detector named by `algorithm`; any other name leaves the column null. */
  function OscillationsFor(algorithm: string, xcorr: ColumnMatrix, sensitivity: real, t: Transforms): (r: Outcome<seq<real>>)
    ensures r.Ok? ==> |r.value| == xcorr.rowCount / 2
  {
    if algorithm == "autocorr-fft" then
      Detected(Fft, xcorr.rowCount / 2, FftSpectra(t, xcorr.columns), sensitivity, |xcorr.columns|, t.log10)
    else if algorithm == "autocorr-svd-fft" then SvdDetected(xcorr, sensitivity, t)
    else if algorithm == "Autocorr-WPD" then
      Detected(Wpd, xcorr.rowCount / 2, WpdSpectra(t, xcorr.columns), sensitivity, |xcorr.columns|, t.log10)
    else Fail(NullReference)
  }

  /** The column of frequency bin `bin`. */
  function BinColumn(spectrogram: seq<seq<real>>, binCount: int, bin: int, sensitivity: real, sampleLength: int,
                     algorithm: string, t: Transforms): (r: Outcome<seq<real>>)
    requires Rectangular(spectrogram, binCount) && 0 <= bin < binCount
    ensures r.Ok? ==> sampleLength > 0 && |r.value| == sampleLength / 2
  {
    var first := NeighbourhoodStart(bin, binCount);
    if first < 0 || first + 2 >= binCount then Fail(IndexOutOfRange)
    else
      match XcorrByTime(BinAverages(spectrogram, binCount, first), sampleLength, t)
      case Fail(f) => Fail(f)
      case Ok(xcorr) => OscillationsFor(algorithm, xcorr, sensitivity, t)
  }

  /** Every bin's column, or the fault that stops it. */
  function BinOutcomes(spectrogram: seq<seq<real>>, binCount: int, sensitivity: real, sampleLength: int,
                       algorithm: string, t: Transforms): (outcomes: seq<Outcome<seq<real>>>)
    requires Rectangular(spectrogram, binCount) && 0 <= binCount
    ensures |outcomes| == binCount
  {
    seq(binCount, b requires 0 <= b < binCount => BinColumn(spectrogram, binCount, b, sensitivity, sampleLength, algorithm, t))
  }

  /**
   * The columns computed one after another: all of them when every one
   * succeeds, otherwise the first fault.
   */
  function Collected(outcomes: seq<Outcome<seq<real>>>): (r: Outcome<seq<seq<real>>>)
    ensures r.Ok? ==> |r.value| == |outcomes| && forall b :: 0 <= b < |outcomes| ==> outcomes[b] == Ok(r.value[b])
    ensures r.Fail? ==> exists b :: 0 <= b < |outcomes| && outcomes[b] == Fail(r.fault)
    decreases |outcomes|
  {
    if outcomes == [] then Ok([])
    else
      var n := |outcomes| - 1;
      match Collected(outcomes[..n])
      case Fail(f) => Fail(f)
      case Ok(columns) =>
        match outcomes[n]
        case Fail(f) => Fail(f)
        case Ok(column) => Ok(columns + [column])
  }

  /** When every bin yields a column, the result holds exactly those columns. */
  lemma {:induction false} CollectedAllOk(outcomes: seq<Outcome<seq<real>>>, columns: seq<seq<real>>)
    requires |columns| == |outcomes| && forall b :: 0 <= b < |outcomes| ==> outcomes[b] == Ok(columns[b])
    ensures Collected(outcomes) == Ok(columns)
    decreases |outcomes|
  {
    if outcomes != [] {
      var n := |outcomes| - 1;
      CollectedAllOk(outcomes[..n], columns[..n]);
      assert columns[..n] + [columns[n]] == columns;
    }
  }

  /** The first bin that fails decides the fault of the whole matrix. */
  lemma {:induction false} CollectedFirstFault(outcomes: seq<Outcome<seq<real>>>, n: int)
    requires 0 <= n < |outcomes| && outcomes[n].Fail?
    requires forall b :: 0 <= b < n ==> outcomes[b].Ok?
    ensures Collected(outcomes) == Fail(outcomes[n].fault)
    decreases |outcomes|
  {
    var last := |outcomes| - 1;
    if n == last {
      CollectedAllOk(outcomes[..n], seq(n, b requires 0 <= b < n => outcomes[b].value));
    } else {
      CollectedFirstFault(outcomes[..last], n);
    }
  }

  /** C#'s `sampleLength / 2`, which truncates towards zero. */
  function HalfLength(sampleLength: int): int
  {
    if sampleLength >= 0 then sampleLength / 2 else -((-sampleLength) / 2)
  }

  /**
   * The frequency by oscillation-rate matrix as columns, one per bin; a
   * negative row count fails when the matrix is allocated.
   */
  function FrequencyByOscillations(spectrogram: seq<seq<real>>, binCount: int, sensitivity: real, sampleLength: int,
                                   algorithm: string, t: Transforms): Outcome<seq<seq<real>>>
    requires Rectangular(spectrogram, binCount) && 0 <= binCount
  {
    if HalfLength(sampleLength) < 0 then Fail(NegativeSize)
    else Collected(BinOutcomes(spectrogram, binCount, sensitivity, sampleLength, algorithm, t))
  }

  /** Column `b` of `m` holds `columns[b]`. */
  predicate HoldsColumns(m: array2<real>, columns: seq<seq<real>>)
    reads m
  {
    m.Length1 == |columns| && HoldsFirstColumns(m, columns)
  }

  /** The first `|columns|` columns of `m` hold `columns`. */
  predicate HoldsFirstColumns(m: array2<real>, columns: seq<seq<real>>)
    reads m
  {
    |columns| <= m.Length1 &&
    (forall b :: 0 <= b < |columns| ==> |columns[b]| == m.Length0) &&
    (forall i, b :: 0 <= i < m.Length0 && 0 <= b < |columns| ==> m[i, b] == columns[b][i])
  }

  /**
   * `MatrixTools.SetColumn` as the matrix loop uses it: writes the next
   * column after those already in place.
   */
  method SetColumn(m: array2<real>, c: int, column: seq<real>, ghost columns: seq<seq<real>>)
    requires HoldsFirstColumns(m, columns) && c == |columns| < m.Length1 && |column| == m.Length0
    modifies m
    ensures HoldsFirstColumns(m, columns + [column])
  {
    for i := 0 to m.Length0
      invariant forall p, b :: 0 <= p < m.Length0 && 0 <= b < c ==> m[p, b] == old(m[p, b])
      invariant forall p :: 0 <= p < i ==> m[p, c] == column[p]
    {
      m[i, c] := column[i];
    }
    ghost var next := columns + [column];
    assert forall b :: 0 <= b < c ==> next[b] == columns[b];
    assert next[c] == column;
    assert HoldsFirstColumns(m, next);
  }

  /**
   * `GetFrequencyByOscillationsMatrix`: a `(sampleLength / 2) x binCount`
   * matrix whose column `bin` is the detector output for the three
   * spectrogram columns around `bin`.
   */
  method GetFrequencyByOscillationsMatrix(spectrogram: seq<seq<real>>, binCount: nat, sensitivity: real, sampleLength: int,
                                          algorithm: string, t: Transforms) returns (r: Outcome<array2<real>>)
    requires Rectangular(spectrogram, binCount)
    ensures var expected := FrequencyByOscillations(spectrogram, binCount, sensitivity, sampleLength, algorithm, t);
      match r
      case Fail(f) => expected == Fail(f)
      case Ok(m) => expected.Ok? && fresh(m) && m.Length0 == HalfLength(sampleLength) && HoldsColumns(m, expected.value)
  {
    var rowCount := HalfLength(sampleLength);
    if rowCount < 0 {
      return Fail(NegativeSize);
    }
    var freqByOscMatrix := new real[rowCount, binCount];
    ghost var outcomes := BinOutcomes(spectrogram, binCount, sensitivity, sampleLength, algorithm, t);
    ghost var columns: seq<seq<real>> := [];
    for bin := 0 to binCount
      invariant |columns| == bin
      invariant forall b :: 0 <= b < bin ==> outcomes[b] == Ok(columns[b])
      invariant HoldsFirstColumns(freqByOscMatrix, columns)
    {
      var oscillationsSpectrum := GetOscillationColumn(spectrogram, binCount, bin, sensitivity, sampleLength, algorithm, t);
      if oscillationsSpectrum.Fail? {
        CollectedFirstFault(outcomes, bin);
        return Fail(oscillationsSpectrum.fault);
      }
      var column := oscillationsSpectrum.value;
      SetColumn(freqByOscMatrix, bin, column, columns);
      columns := columns + [column];
    }
    CollectedAllOk(outcomes, columns);
    return Ok(freqByOscMatrix);
  }

  /** The loop body of `GetFrequencyByOscillationsMatrix`: the detector output for one bin. */
  method GetOscillationColumn(spectrogram: seq<seq<real>>, binCount: int, bin: int, sensitivity: real, sampleLength: int,
                              algorithm: string, t: Transforms) returns (r: Outcome<seq<real>>)
    requires Rectangular(spectrogram, binCount) && 0 <= bin < binCount
    ensures r == BinColumn(spectrogram, binCount, bin, sensitivity, sampleLength, algorithm, t)
  {
    var first := NeighbourhoodStart(bin, binCount);
    if first < 0 || first + 2 >= binCount {
      return Fail(IndexOutOfRange);
    }
    var freqBin := BinAverages(spectrogram, binCount, first);
    var xcorr := GetXcorrByTimeMatrix(freqBin, sampleLength, t);
    if xcorr.Fail? {
      return Fail(xcorr.fault);
    }
    if algorithm == "autocorr-fft" {
      r := GetOscillationArrayUsingFft(xcorr.value, sensitivity, t);
    } else if algorithm == "autocorr-svd-fft" {
      r := GetOscillationArrayUsingSvdAndFft(xcorr.value, sensitivity, t);
    } else if algorithm == "Autocorr-WPD" {
      r := GetOscillationArrayUsingWpd(xcorr.value, sensitivity, t);
    } else {
      r := Fail(NullReference);
    }
  }
}
