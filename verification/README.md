# Audio-analysis core, modelled in Dafny

This project models the discrete logic at the centre of the QUT Ecoacoustics
audio-analysis tool set, and proves what that logic promises. It covers six
pieces:

- **Oscillation detection** (`Oscillations2014`). Each frequency bin of a spectrogram yields one column of a
  frequency-by-oscillation matrix:
  - the bin is averaged with two neighbours;
  - the result is cut into non-overlapping windows;
  - each window's autocorrelation is turned into a spectrum;
  - the peak of each spectrum and its neighbours vote into one slot of an oscillation vector, when the peak holds
    enough of the power;
  - the votes are averaged and log-scaled.

  Three variants are modelled: FFT, wavelet packets, and SVD followed by FFT. The SVD variant first selects the
  singular vectors that hold 90 % of the energy.
- **The `DataTools` array toolbox**:
  - sub-arrays, reversal, bounding, transposition and flattening of matrices;
  - arg-max, arg-min and selection-sort ranking;
  - peaks and troughs, threshold segmentation, run lengths and gap lengths;
  - moving-average filters;
  - probability normalisation, cumulative sums and histograms;
  - bisection, string padding and the power-of-two test.
- **Event boxes** (`EventBasedRepresentation`):
  - the integer pixel geometry of an acoustic event;
  - the selection of the events whose centroid lies inside a query rectangle;
  - the in-place clipping of those events;
  - the frequency filter applied to candidate events after the query is sorted by start time.
- **Zoomed spectrogram tiles** (`ZoomTiledSpectrograms`):
  - padding and trimming a list of frames to an expected length;
  - aligning a recording start to a tile boundary;
  - blending frame data with index data in place.
- **Kiwi-call scoring** (`LSKiwiROC`):
  - greedy one-to-one matching of predicted calls to labelled ground truth;
  - the TP, FP and FN rows and counts;
  - the exclusion-rule filter;
  - the counters, best accuracy and area of the ROC curve.
- **Recording URIs** (`RecordingFetcher`): splitting a file name into sensor, recording and extension, and building
  the recording's URI on the sensor server.

## How the model is laid out

| file | module | what it holds |
|---|---|---|
| `common.dfy` | `Common` | `Option`, `Outcome` (a result, or the `Fault` the source would throw), C#'s truncating double-to-int conversion, sums, minimum and maximum |
| `data_tools.dfy` | `DataTools` | copying, reversal, bounding, matrix flattening and transposition, concatenation, reduction, padding, arg-max/arg-min, ranking, bisection, power of two |
| `data_events.dfy` | `DataEvents` | threshold segmentation, peaks and troughs, counting, run lengths and gap lengths |
| `data_stats.dfy` | `DataStats` | probability normalisation, cumulative probabilities, histogram binning |
| `data_smoothing.dfy` | `DataSmoothing` | the moving-average filters, as written and corrected |
| `oscillations.dfy` | `Oscillations` | the oscillation-detection pipeline |
| `event_representation.dfy` | `EventRepresentation` | event geometry, selection and clipping |
| `zoom_tiles.dfy` | `ZoomTiles` | frame-list repair, tile alignment, frame/index blending |
| `kiwi_roc.dfy` | `KiwiRoc` | prediction matching, counts, rule filter, ROC scan |
| `recording_fetcher.dfy` | `RecordingFetcher` | file-name parsing and URI building |

**Values and operations.**
- `double` is modelled as `real`.
- A C# exception becomes an `Outcome.Fail` carrying the matching `Fault`: index out of range, negative array size,
  null reference, division by zero, a bad number format or a missing data-table column.
- Where the source would compute NaN or an infinity, the model returns `Fail(NotANumber)`, because reals have no
  NaN.
- Loops that fill fresh arrays or lists are methods with `while`/`for` loops. Each is proved equal to a function
  that states the result, and the properties are proved as lemmas about that function.
- Code that rewrites an argument in place works on an `array` or a class field. This covers:
  - the log transform and sign flip of oscillation vectors;
  - the three-point smoothing;
  - the clipped events;
  - the frame list;
  - the ground-truth rows;
  - the matrix being blended.

**Library code** the core calls but does not define becomes a function-valued parameter, so each theorem holds for
any implementation of it. This covers:
- FFT, SVD, autocorrelation, wavelet packet decomposition;
- z-scores, `DiffFromMean`, `log10`, `Math.Sqrt`, `double.Parse`;
- `StatisticalAnalysis.checkBoundary`.

## Model

| member | source | states |
|---|---|---|
| Common.Truncate | AudioAnalysis/Dong.Felt/Representations/EventBasedRepresentation.cs:71-75 | C#'s `(int)` cast of a double: the result is the integer next to the value on the side of zero |
| Common.MinOf | src/TowseyLibrary/DataTools.cs:4336-4351 | the least element of a non-empty sequence is one of its elements and at most every element |
| Common.MaxOf | src/TowseyLibrary/DataTools.cs:4314-4329 | the greatest element of a non-empty sequence is one of its elements and at least every element |
| Common.WindowMeanWithin | src/TowseyLibrary/DataTools.cs:4836-4858 | the mean of any window of a signal lies between the signal's minimum and maximum |
| DataTools.IsPowerOfTwoCorrect | src/TowseyLibrary/DataTools.cs:86-89 | the bit test `x != 0 && (x & (x-1)) == 0` on a 64-bit unsigned value holds exactly when x is 2^k for some k |
| DataTools.PowerOfTwoPasses | src/TowseyLibrary/DataTools.cs:86-89 | every power of two is non-zero and shares no bit with its predecessor |
| DataTools.PassesIsPowerOfTwo | src/TowseyLibrary/DataTools.cs:86-89 | a non-zero value that shares no bit with its predecessor is a power of two (the exponent is returned) |
| DataTools.Subarray | src/TowseyLibrary/DataTools.cs:97-140 | the generic and int overloads: null exactly when `start+length-1` reaches past the end. Otherwise a negative length fails at the allocation, and a negative start with a positive length fails with an index fault. Every other input gives `length` elements, element i being `source[start+i]` |
| DataTools.SubarrayTruncated | src/TowseyLibrary/DataTools.cs:149-168 | the double overload: the length is cut to what remains after `start`. A negative cut length (a start past the end, or a negative length) fails at the allocation, and a negative start with a positive cut length fails with an index fault. In-range arguments always succeed, and element i is `A[start+i]` |
| DataTools.Submatrix | src/TowseyLibrary/DataTools.cs:181-197 | a fresh `(r2-r1+1) x (c2-c1+1)` matrix whose cell (i, j) is `M[r1+i, c1+j]` |
| DataTools.ReversedAt | src/TowseyLibrary/DataTools.cs:764-775 | element k of the reversal is element `L-1-k` of the input |
| DataTools.Reversed | src/TowseyLibrary/DataTools.cs:764-775 | the reversal has the length of the input |
| DataTools.ReversedTwice | src/TowseyLibrary/DataTools.cs:764-788 | reversing twice gives back the original |
| DataTools.ReverseArray | src/TowseyLibrary/DataTools.cs:764-788 | both overloads produce the reversal of the input |
| DataTools.BoundArray | src/TowseyLibrary/DataTools.cs:797-819 | each value is clamped into `[min, max]`; values already inside are kept; with `min <= max` every output lies in the range |
| DataTools.Matrix2Array | src/TowseyLibrary/DataTools.cs:329-345 | the result is the matrix's columns laid end to end |
| DataTools.ColumnMajorLayout | src/TowseyLibrary/DataTools.cs:329-345 | cell (r, c) lands at position `c*height + r` of the flattened vector |
| DataTools.CopyColumn | src/TowseyLibrary/DataTools.cs:338-341 | copying one column writes exactly that column after what was written, and leaves the rest of the vector alone |
| DataTools.Matrix2Array3AsWritten | src/TowseyLibrary/DataTools.cs:413-433 | the 3-D flattening as written: it fails with an index fault exactly when `d2 > d3` and there is a plane; otherwise it copies only `d2` values per fibre and leaves the rest of the vector zero |
| DataTools.Matrix2Array3LosesValues | src/TowseyLibrary/DataTools.cs:425 | on a 1x1x2 matrix holding 0 and 1, the written loop returns `[0, 0]` where row-major flattening gives `[0, 1]` |
| DataTools.Matrix2Array3 | src/TowseyLibrary/DataTools.cs:413-433 | the corrected 3-D flattening: `d1*d2*d3` values, the planes' fibres in row-major order |
| DataTools.CopyPlanes | src/TowseyLibrary/DataTools.cs:421-431 | the corrected loops write the whole flattening as a prefix of the vector and leave the rest alone |
| DataTools.RowMajorLayout3 | src/TowseyLibrary/DataTools.cs:413-433 | cell (i, j, k) lands at position `(i*d2 + j)*d3 + k` of the corrected flattening |
| DataTools.MatrixTranspose | src/TowseyLibrary/DataTools.cs:2553-2568 | a fresh matrix with swapped dimensions whose cell (c, r) is `M[r, c]` |
| DataTools.TransposeTwice | src/TowseyLibrary/DataTools.cs:2553-2568 | transposing twice gives back the matrix's dimensions and values |
| DataTools.ConcatenateVectors | src/TowseyLibrary/DataTools.cs:1973-1994 | the output's length is the sum of the vectors' lengths and it is the vectors laid end to end |
| DataTools.CopyVector | src/TowseyLibrary/DataTools.cs:1986-1990 | copying one vector writes it right after what the output already holds |
| DataTools.ConcatLength | src/TowseyLibrary/DataTools.cs:1975-1979 | the length computed in the first loop equals the length of the concatenation |
| DataTools.ConcatPrefix | src/TowseyLibrary/DataTools.cs:1983-1990 | the concatenation of the first k vectors is a prefix of the whole concatenation |
| DataTools.ReduceBlocks | src/TowseyLibrary/DataTools.cs:527-542 | for a positive factor, `L / factor` values, each the mean of one block of `factor` consecutive inputs |
| DataTools.VectorReduceLength | src/TowseyLibrary/DataTools.cs:525-543 | factor 0 divides by zero. A negative factor yields an empty vector when the vector is shorter than the factor's magnitude; otherwise its negative truncated length fails at the allocation. A positive factor gives `L / factor` block means |
| DataTools.PadStringPre | src/TowseyLibrary/DataTools.cs:5178-5186 | the string, padded with leading spaces to `width` when it is shorter |
| DataTools.PadStringPost | src/TowseyLibrary/DataTools.cs:5193-5201 | the string, padded with trailing spaces to `width` when it is shorter |
| DataTools.ArgMax | src/TowseyLibrary/DataTools.cs:4314-4329 | the first index of the largest value |
| DataTools.FirstMaxUnique | src/TowseyLibrary/DataTools.cs:4314-4329 | "first index of the maximum" determines a single index |
| DataTools.GetMaxIndex | src/TowseyLibrary/DataTools.cs:4314-4329 | an index fault exactly on an empty array (`data[0]`); otherwise the smallest index holding the maximum value |
| DataTools.GetMinIndex | src/TowseyLibrary/DataTools.cs:4336-4351 | an index fault exactly on an empty array (`data[0]`); otherwise the smallest index holding the minimum value |
| DataTools.RankingStep | src/TowseyLibrary/DataTools.cs:908-917 | one selection step keeps the ranking invariant: the chosen index is unused, and its value is at most every value ranked before |
| DataTools.SortArray | src/TowseyLibrary/DataTools.cs:903-920 | the input is left unchanged. When every value exceeds the sentinel `-double.MaxValue`: `rankOrder` is a permutation of the indices, `sort` is non-increasing, `sort[i] == values[rankOrder[i]]`, and ties keep index order |
| DataTools.WhichSideOfCentre | src/TowseyLibrary/DataTools.cs:5234-5262 | the returned index lies in `[lower, upper]`; the value before it is at most the reference value and the value at it is above |
| DataTools.WhichSideOfCentreSplits | src/TowseyLibrary/DataTools.cs:5234-5262 | on sorted data, the index splits the range into values at most the reference and values above it |
| DataEvents.SegmentArrayOnThreshold | src/TowseyLibrary/DataTools.cs:205-240 | each event starts at a frame above the threshold after a frame at or below it, stays above to its end frame, and ends at the first frame at or below it. Its average is the mean of its frames. Events are ordered and disjoint, and every falling edge ends an event |
| DataEvents.OpenEventNotEmitted | src/TowseyLibrary/DataTools.cs:212-237 | when the last frame is above the threshold, no emitted event reaches it: the open event is dropped |
| DataEvents.SumRange | src/TowseyLibrary/DataTools.cs:227-231 | the inner loop sums the frames of the event |
| DataEvents.GetPeaks | src/TowseyLibrary/DataTools.cs:1312-1327 | index i is marked exactly when its value is above both neighbours; the first and last indices are never marked |
| DataEvents.GetPeaksAbove | src/TowseyLibrary/DataTools.cs:1332-1347 | index i is marked exactly when it is a peak and its value is above the threshold |
| DataEvents.GetTroughs | src/TowseyLibrary/DataTools.cs:1349-1368 | index i is marked exactly when its value is below both neighbours |
| DataEvents.PeaksSeparated | src/TowseyLibrary/DataTools.cs:1312-1327 | a peak's neighbours are not peaks, and a peak is not a trough |
| DataEvents.TrueCountAll | src/TowseyLibrary/DataTools.cs:1150-1162 | the count of trues equals the length exactly when every entry is true |
| DataEvents.CountTrues | src/TowseyLibrary/DataTools.cs:1150-1162 | the number of true entries |
| DataEvents.CountPositives | src/TowseyLibrary/DataTools.cs:1122-1134 | the number of positive entries; it equals the length exactly when all are positive |
| DataEvents.Runs | src/TowseyLibrary/DataTools.cs:1179-1210 | the maximal runs of trues in order; every run length is at least 1, and a final true closes a run |
| DataEvents.RunsSum | src/TowseyLibrary/DataTools.cs:1179-1210 | the run lengths add up to the number of trues |
| DataEvents.GetEventLengths | src/TowseyLibrary/DataTools.cs:1179-1210 | an empty array is an index fault; otherwise the lengths of the maximal runs of trues, in order |
| DataEvents.MarkedIndices | src/TowseyLibrary/DataTools.cs:1518-1538 | the marked positions from index 1 on, strictly increasing |
| DataEvents.GapsSum | src/TowseyLibrary/DataTools.cs:1518-1538 | the gaps add up to the distance from the first to the last marked position |
| DataEvents.GapsPositive | src/TowseyLibrary/DataTools.cs:1518-1538 | the gaps between strictly increasing positions are at least 1 |
| DataEvents.GapLengths | src/TowseyLibrary/DataTools.cs:1518-1538 | the boolean overload: the differences between consecutive true positions, index 0 ignored, each at least 1 |
| DataEvents.GapLengthsOfOnes | src/TowseyLibrary/DataTools.cs:1493-1513 | the double overload: the same, with entries equal to 1.0 as the marks |
| DataStats.Normalise2Probabilites | src/TowseyLibrary/DataTools.cs:3505-3527 | each value is divided by the total, or is 0 when the total is 0; for non-negative data with a non-zero total the result lies in [0, 1] and sums to 1 |
| DataStats.SumScaled | src/TowseyLibrary/DataTools.cs:3505-3527 | dividing every value by c divides the sum by c |
| DataStats.ConvertProbabilityDistribution2CummulativeProbabilites | src/TowseyLibrary/DataTools.cs:3535-3549 | element i is the sum of the first i+1 values; the last is the total; non-negative data gives a non-decreasing result |
| DataStats.TruncDiv | src/TowseyLibrary/DataTools.cs:4499 | C#'s integer division, truncating towards zero: it agrees with floor division on non-negative operands and is 0 when the dividend is smaller in size than the divisor |
| DataStats.BinCount | src/TowseyLibrary/DataTools.cs:4497-4501 | no bin counts more data than there are |
| DataStats.Histogram | src/TowseyLibrary/DataTools.cs:4487-4504 | one count per bin |
| DataStats.HistogramStep | src/TowseyLibrary/DataTools.cs:4497-4501 | one datum increments exactly its own bin |
| DataStats.HistogramTotal | src/TowseyLibrary/DataTools.cs:4487-4504 | when every datum falls in a bin, the bin counts add up to the number of data |
| DataStats.Data2Bins | src/TowseyLibrary/DataTools.cs:4487-4504 | the possible outcomes: a negative bin count is a negative-size fault; a zero bin width with data is a division fault; a datum outside the bins is an index fault; otherwise the histogram of the data |
| DataSmoothing.WindowMeanBounded | src/TowseyLibrary/DataTools.cs:4860-4972 | a window mean lies between the signal's minimum and maximum |
| DataSmoothing.FrontThenBack | src/TowseyLibrary/DataTools.cs:4860-4972 | the leading and central part, followed by the trailing edge, is the whole filtered signal |
| DataSmoothing.Filtered | src/TowseyLibrary/DataTools.cs:4860-4972 | a filtered signal has the length of the signal |
| DataSmoothing.FilteredAt | src/TowseyLibrary/DataTools.cs:4860-4972 | position p of a filtered signal is the filter's value for p |
| DataSmoothing.LeadingEdge | src/TowseyLibrary/DataTools.cs:4868-4879 | the leading-edge loops give, for p <= edge, the mean of the first `edge+p+1` values |
| DataSmoothing.CentreEvenAsWritten | src/TowseyLibrary/DataTools.cs:4881-4895 | the even centre loop as written: its running sum starts one window early, so each value includes `signal[0]` and drops `signal[2*edge]` |
| DataSmoothing.CentreEven | src/TowseyLibrary/DataTools.cs:4881-4895 | the corrected even centre loop: the mean of the `width` values `signal[i-edge .. i+edge-1]` |
| DataSmoothing.CentreOdd | src/TowseyLibrary/DataTools.cs:4943-4955 | the odd centre loop: the mean of the `width` values centred on i |
| DataSmoothing.TrailingEvenAsWritten | src/TowseyLibrary/DataTools.cs:4897-4909 | the even trailing loops as written: `signal[L-edge]` is counted twice |
| DataSmoothing.TrailingEven | src/TowseyLibrary/DataTools.cs:4897-4909 | the corrected even trailing edge: position `L-1-i` holds the mean of the last `edge+i+2` values |
| DataSmoothing.TrailingOddAsWritten | src/TowseyLibrary/DataTools.cs:4957-4969 | the odd trailing loops as written: position `L-1-i` holds the sum of `signal[L-edge-i ..]` divided by `edge+i`, which is not the centred mean |
| DataSmoothing.TrailingOdd | src/TowseyLibrary/DataTools.cs:4957-4969 | the corrected odd trailing edge: position `L-1-i` holds the mean of the last `edge+i+1` values |
| DataSmoothing.ThreePointSmoothed | src/TowseyLibrary/DataTools.cs:4917-4923 | three values give three smoothed values |
| DataSmoothing.ThreePointSmoothedWithin | src/TowseyLibrary/DataTools.cs:4917-4923 | every smoothed value stays within any bounds that hold for the three inputs |
| DataSmoothing.FilterMovingAverageEvenAsWritten | src/TowseyLibrary/DataTools.cs:4860-4912 | the even filter as written equals the as-written specification |
| DataSmoothing.FilterMovingAverageEven | src/TowseyLibrary/DataTools.cs:4860-4912 | the corrected even filter: every value is the mean of a window of the signal |
| DataSmoothing.ThreePointSmoothedWithinRange | src/TowseyLibrary/DataTools.cs:4917-4923 | the in-place three-point smoothing, which reuses already-updated values, keeps every value within the original minimum and maximum |
| DataSmoothing.SmoothThreePoints | src/TowseyLibrary/DataTools.cs:4917-4923 | a three-value signal is smoothed in place, each step reading the values already updated |
| DataSmoothing.FilterMovingAverageOddAsWritten | src/TowseyLibrary/DataTools.cs:4914-4972 | the odd filter as written: three values are smoothed in place; otherwise the as-written filter, with the input unchanged |
| DataSmoothing.FilterMovingAverageOdd | src/TowseyLibrary/DataTools.cs:4914-4972 | the corrected odd filter, with the same three-value case |
| DataSmoothing.FilterWidthMinusOne | src/TowseyLibrary/DataTools.cs:4914-4972 | the odd filter with width -1 on more than three values: the first value, then the first value minus each later value |
| DataSmoothing.FilterMovingAverage | src/TowseyLibrary/DataTools.cs:4836-4858 | the dispatcher, calling the filters as written. A width of at least the length, or fewer than 3 values, returns the signal itself. Width 0 divides by zero (NaN). A positive even width gives the even filter as written, and a negative even width an index fault. On three values any odd width smooths in place. On more values a positive odd width gives the odd filter as written, width -1 the differences from the first value, and a lower odd width an index fault |
| DataSmoothing.CorrectedWindow | src/TowseyLibrary/DataTools.cs:4860-4972 | every value of a corrected filter is the mean of a non-empty window of the signal |
| DataSmoothing.FilteredWithinRange | src/TowseyLibrary/DataTools.cs:4860-4972 | every value of a corrected filter lies between the signal's minimum and maximum |
| DataSmoothing.FilteredOddIsCentred | src/TowseyLibrary/DataTools.cs:4914-4972 | the corrected odd filter is the centred moving average at every position, edges included |
| DataSmoothing.EvenAsWrittenLeavesRange | src/TowseyLibrary/DataTools.cs:4881-4895 | on `[1, 0, -1, 1, 1, 0]` with width 2, the even filter as written gives 2 at position 3, above every input value, where the corrected filter gives 0 |
| DataSmoothing.OddAsWrittenNotCentred | src/TowseyLibrary/DataTools.cs:4957-4969 | on `[0, 0, 0, 1]` with width 3, the odd filter as written gives 1 at the last position, where the centred mean is 0.5 |
| Oscillations.NeighbourhoodStart | src/AudioAnalysisTools/Oscillations2014.cs:392-405 | the three averaged columns are always in range when there are at least 3 bins, and contain the bin; an inner bin is their centre |
| Oscillations.BinAverages | src/AudioAnalysisTools/Oscillations2014.cs:407 | one average per frame |
| Oscillations.WindowInBounds | src/AudioAnalysisTools/Oscillations2014.cs:459-472 | window s, `[s*sampleLength, (s+1)*sampleLength)`, lies inside the signal |
| Oscillations.WindowsDisjoint | src/AudioAnalysisTools/Oscillations2014.cs:459-472 | an earlier window ends before a later one starts |
| Oscillations.TrailingSamplesDropped | src/AudioAnalysisTools/Oscillations2014.cs:459 | fewer than `sampleLength` trailing samples are left out |
| Oscillations.Window | src/AudioAnalysisTools/Oscillations2014.cs:466-467 | window s holds exactly the samples `s*sampleLength + i` |
| Oscillations.XcorrByTime | src/AudioAnalysisTools/Oscillations2014.cs:453-476 | a positive sample length gives a matrix with `sampleLength` rows and one column per complete window; a zero or negative sample length is a fault |
| Oscillations.GetXcorrByTimeMatrix | src/AudioAnalysisTools/Oscillations2014.cs:453-476 | the column-by-column loop computes that matrix |
| Oscillations.WindowAutocorrelations | src/AudioAnalysisTools/Oscillations2014.cs:462-472 | one autocorrelation column per complete window |
| Oscillations.SquareValues | src/AudioAnalysisTools/Oscillations2014.cs:642 | the squared spectrum has the same length and is non-negative |
| Oscillations.Squares | src/AudioAnalysisTools/Oscillations2014.cs:642 | squaring keeps the length and gives non-negative values |
| Oscillations.DampedPower | src/AudioAnalysisTools/Oscillations2014.cs:690-692 | the wavelet spectrum, with its first coefficient damped and then squared, keeps its length and is non-negative |
| Oscillations.PreparedSpectrum | src/AudioAnalysisTools/Oscillations2014.cs:635-642 | dropping the DC bin and the last bin, damping the first coefficient and squaring succeeds exactly for spectra of at least 3 values, giving `L-2` non-negative values |
| Oscillations.PrepareSpectrum | src/AudioAnalysisTools/Oscillations2014.cs:635-642 | the imperative preparation computes that spectrum |
| Oscillations.PowerAroundPeak | src/AudioAnalysisTools/Oscillations2014.cs:646-660 | the power around the peak faults exactly when the peak is at 0 with fewer than 3 values |
| Oscillations.PowerAroundPeakBounded | src/AudioAnalysisTools/Oscillations2014.cs:646-660 | the power is at least the peak. It is at most the spectrum's total, except at the last index, where it is at most the total plus the peak |
| Oscillations.LastPeakCountedTwice | src/AudioAnalysisTools/Oscillations2014.cs:653-656 | on the spectrum `[0, 0, 1]` the peak is last and its power is 2, twice the spectrum's total |
| Oscillations.Step | src/AudioAnalysisTools/Oscillations2014.cs:646-669 | one candidate keeps the vector length when it succeeds |
| Oscillations.Accumulated | src/AudioAnalysisTools/Oscillations2014.cs:624-670 | accumulating the candidates keeps the vector length when it succeeds |
| Oscillations.StepChangesOnlyThePeak | src/AudioAnalysisTools/Oscillations2014.cs:666-669 | one candidate changes the oscillation vector only at the peak index, and only upwards |
| Oscillations.AccumulatedNonNegative | src/AudioAnalysisTools/Oscillations2014.cs:624-670 | votes accumulated onto a non-negative vector keep it non-negative |
| Oscillations.AccumulatedFaultStays | src/AudioAnalysisTools/Oscillations2014.cs:624-670 | once a candidate faults, later candidates do not change the outcome |
| Oscillations.AccumulatedExtend | src/AudioAnalysisTools/Oscillations2014.cs:624-670 | accumulating one more candidate is one more step |
| Oscillations.FftPeakPower | src/AudioAnalysisTools/Oscillations2014.cs:646-660 | the peak found is the first maximum, and the power is the power around that peak, with its fault |
| Oscillations.AddFftCandidate | src/AudioAnalysisTools/Oscillations2014.cs:626-669 | one FFT candidate updates the vector in place as one step does; a fault leaves it unchanged |
| Oscillations.AddWpdCandidate | src/AudioAnalysisTools/Oscillations2014.cs:684-727 | one wavelet candidate does the same, skipping a peak beyond the vector |
| Oscillations.LogTransformed | src/AudioAnalysisTools/Oscillations2014.cs:808-827 | the transform keeps the length; a zero sample count with a non-empty vector is a fault |
| Oscillations.LogTransformedFloor | src/AudioAnalysisTools/Oscillations2014.cs:808-827 | each averaged value below 0.1 becomes 0; any other value v becomes `log10(1 + v)` |
| Oscillations.LogTransformOscillationVector | src/AudioAnalysisTools/Oscillations2014.cs:808-827 | rewrites the vector in place to the transform; on a fault the vector is unchanged |
| Oscillations.Detected | src/AudioAnalysisTools/Oscillations2014.cs:615-673 | a successful detection has the requested length |
| Oscillations.DetectedVotesNonNegative | src/AudioAnalysisTools/Oscillations2014.cs:621-672 | the votes accumulated from a zero vector are non-negative |
| Oscillations.GetOscillationArrayUsingFft | src/AudioAnalysisTools/Oscillations2014.cs:615-673 | a `rows/2` vector of accumulated FFT votes, log-scaled over the sample count |
| Oscillations.GetOscillationArrayUsingWpd | src/AudioAnalysisTools/Oscillations2014.cs:675-732 | the same with wavelet-packet spectra |
| Oscillations.FirstShareFromIsFirst | src/AudioAnalysisTools/Oscillations2014.cs:517-529 | the scan from n finds the first prefix length holding more than 90 % of the energy, or 0 when none does |
| Oscillations.SignificantCountIsShortest | src/AudioAnalysisTools/Oscillations2014.cs:517-529 | the count is the shortest prefix holding more than 90 % of the squared singular values; it is 0 exactly when the energy is 0; it never exceeds the number of values |
| Oscillations.WholeHoldsShare | src/AudioAnalysisTools/Oscillations2014.cs:517-529 | with non-zero energy the whole sequence holds the share |
| Oscillations.CountSignificantSingularValues | src/AudioAnalysisTools/Oscillations2014.cs:510-529 | the running-energy loop computes that count |
| Oscillations.SignNormalised | src/AudioAnalysisTools/Oscillations2014.cs:556-562 | the first component is non-negative afterwards, and the vector is either unchanged or negated |
| Oscillations.NormaliseSign | src/AudioAnalysisTools/Oscillations2014.cs:556-562 | the in-place sign flip computes that vector |
| Oscillations.SvdDetected | src/AudioAnalysisTools/Oscillations2014.cs:495-607 | the SVD variant yields `rows/2` values |
| Oscillations.GetOscillationArrayUsingSvdAndFft | src/AudioAnalysisTools/Oscillations2014.cs:495-607 | the significant left singular vectors vote as in the FFT variant, and the votes are log-scaled over their count |
| Oscillations.OscillationsFor | src/AudioAnalysisTools/Oscillations2014.cs:413-438 | the selected algorithm yields `sampleLength/2` values |
| Oscillations.BinColumn | src/AudioAnalysisTools/Oscillations2014.cs:390-438 | one bin's column has `sampleLength/2` values and needs a positive sample length |
| Oscillations.Collected | src/AudioAnalysisTools/Oscillations2014.cs:387-442 | all columns, when every bin succeeds; otherwise a fault one of the bins produced |
| Oscillations.CollectedFirstFault | src/AudioAnalysisTools/Oscillations2014.cs:387-442 | the fault reported is that of the first failing bin |
| Oscillations.CollectedAllOk | src/AudioAnalysisTools/Oscillations2014.cs:387-442 | when every bin succeeds, the result is the columns in bin order |
| Oscillations.SetColumn | src/AudioAnalysisTools/Oscillations2014.cs:441 | writing column c keeps the columns before it and adds the new one |
| Oscillations.GetFrequencyByOscillationsMatrix | src/AudioAnalysisTools/Oscillations2014.cs:380-445 | a fresh `(sampleLength/2) x binCount` matrix whose column b is bin b's oscillation column; otherwise the fault of the first failing bin |
| Oscillations.GetOscillationColumn | src/AudioAnalysisTools/Oscillations2014.cs:390-438 | the per-bin body computes that bin's column |
| EventRepresentation.EventBoxWellFormed | AudioAnalysis/Dong.Felt/Representations/EventBasedRepresentation.cs:64-78 | for positive scales and ordered bounds, the box has positive size and its centroid lies inside it |
| EventRepresentation.Event.constructor | AudioAnalysis/Dong.Felt/Representations/EventBasedRepresentation.cs:64-78 | the event records its bounds; its box is the truncated pixel geometry; its centroid is `(Left + Width/2, Bottom + Height/2)` and its area `Width*Height` |
| EventRepresentation.Kept | AudioAnalysis/Dong.Felt/Representations/EventBasedRepresentation.cs:215-238 | the kept events are never more than the events |
| EventRepresentation.KeptMembers | AudioAnalysis/Dong.Felt/Representations/EventBasedRepresentation.cs:215-238 | an event is kept exactly when it is in the list and its centroid is strictly inside the query |
| EventRepresentation.KeptExtend | AudioAnalysis/Dong.Felt/Representations/EventBasedRepresentation.cs:215-238 | the kept list grows in input order, one event at a time |
| EventRepresentation.ClippedToQuery | AudioAnalysis/Dong.Felt/Representations/EventBasedRepresentation.cs:221-236 | the clipped box lies inside the query and inside the original box; the box is unchanged exactly when it was already inside |
| EventRepresentation.ClippedToQueryIdempotent | AudioAnalysis/Dong.Felt/Representations/EventBasedRepresentation.cs:221-236 | clipping a second time changes nothing |
| EventRepresentation.ClipToQuery | AudioAnalysis/Dong.Felt/Representations/EventBasedRepresentation.cs:221-236 | the event's box becomes the clipped box, and its area is not recomputed |
| EventRepresentation.ReadQueryAsAcousticEventList | AudioAnalysis/Dong.Felt/Representations/EventBasedRepresentation.cs:210-242 | the kept events, in input order. Each kept event is clipped in place and each rejected event is left as it was; no area changes |
| EventRepresentation.SelectClipped | AudioAnalysis/Dong.Felt/Representations/EventBasedRepresentation.cs:264-279 | the selection clip: bottom and left are raised to the window and width is cut to its right edge. A box reaching over the top gets height `maxFreq - height` |
| EventRepresentation.SelectClippedCanOverflow | AudioAnalysis/Dong.Felt/Representations/EventBasedRepresentation.cs:268-271 | with the height rule as written, a clipped box can still reach over the window's top, and clipping it again gives back the original box |
| EventRepresentation.SelectedTimesAdd | AudioAnalysis/Dong.Felt/Representations/EventBasedRepresentation.cs:264-279 | clipping j times and then k times is clipping j+k times |
| EventRepresentation.SelectedFromCompose | AudioAnalysis/Dong.Felt/Representations/EventBasedRepresentation.cs:264-280 | states reached by repeated selection compose |
| EventRepresentation.SelectInPlace | AudioAnalysis/Dong.Felt/Representations/EventBasedRepresentation.cs:264-280 | one selected event gets the clipped box and area `Width*Height` |
| EventRepresentation.SelectEvents | AudioAnalysis/Dong.Felt/Representations/EventBasedRepresentation.cs:245-287 | when both boundary checks pass: the events whose centroid is strictly inside, in order, otherwise nothing. Each event ends clipped once for every time it is listed and selected, and untouched otherwise |
| EventRepresentation.SelectIfInside | AudioAnalysis/Dong.Felt/Representations/EventBasedRepresentation.cs:260-282 | an event is selected exactly when its centroid is strictly inside the window, and then it is selected once |
| EventRepresentation.SelectStep | AudioAnalysis/Dong.Felt/Representations/EventBasedRepresentation.cs:258-284 | after one more entry every event of the list has been selected as often as it occurs among the entries handled, and the result gains the entry when its centroid is inside |
| EventRepresentation.SelectionsAt | AudioAnalysis/Dong.Felt/Representations/EventBasedRepresentation.cs:298-306 | selection j of the lists is the selection of list j |
| EventRepresentation.Selections | AudioAnalysis/Dong.Felt/Representations/EventBasedRepresentation.cs:298-306 | one selection per list |
| EventRepresentation.AddSelectedEventLists | AudioAnalysis/Dong.Felt/Representations/EventBasedRepresentation.cs:289-307 | fewer than four lists is an index fault; otherwise the four selections, one per list. Every event of the four lists is clipped once per occurrence when selected |
| EventRepresentation.SelectListStep | AudioAnalysis/Dong.Felt/Representations/EventBasedRepresentation.cs:298-305 | after one more list every event of the first four lists has been selected as often as it occurs in the lists handled, and the result gains that list's selection |
| EventRepresentation.SortByStart | AudioAnalysis/Dong.Felt/Representations/EventBasedRepresentation.cs:390-393 | the query events are rearranged in place into start-time order (a permutation) |
| EventRepresentation.InsertLast | AudioAnalysis/Dong.Felt/Representations/EventBasedRepresentation.cs:392 | one insertion step extends the start-ordered prefix by one entry and keeps the same entries |
| EventRepresentation.SwapWithPrevious | AudioAnalysis/Dong.Felt/Representations/EventBasedRepresentation.cs:392 | one exchange of neighbouring events: the list is rearranged, not changed |
| EventRepresentation.SortedFirstIsEarliest | AudioAnalysis/Dong.Felt/Representations/EventBasedRepresentation.cs:392-394 | after the sort the first event has the earliest start |
| EventRepresentation.NearInFrequency | AudioAnalysis/Dong.Felt/Representations/EventBasedRepresentation.cs:396-402 | the candidates kept are exactly those whose centroid frequency is within the offset |
| EventRepresentation.ExtractPotentialCandidateEvents | AudioAnalysis/Dong.Felt/Representations/EventBasedRepresentation.cs:387-404 | the query list is sorted in place by start time. An empty query list is an index fault; otherwise the candidates near the first query event, in order |
| ZoomTiles.PaddedShape | AudioAnalysis/AudioAnalysisTools/LongDurationSpectrograms/Zooming/ZoomTiledSpectrograms.cs:642-653 | padding fails exactly for an empty list that must grow. Otherwise the count becomes `max(count, expected)`, the old frames stay first and every added frame is the old last frame |
| ZoomTiles.PadEndOfListOfFrames | AudioAnalysis/AudioAnalysisTools/LongDurationSpectrograms/Zooming/ZoomTiledSpectrograms.cs:642-653 | the list is padded in place; a fault leaves it unchanged |
| ZoomTiles.TrimmedShape | AudioAnalysis/AudioAnalysisTools/LongDurationSpectrograms/Zooming/ZoomTiledSpectrograms.cs:661-669 | trimming fails exactly for a negative expected count. Otherwise the count becomes `min(count, expected)` and the kept frames are a prefix |
| ZoomTiles.TrimEndOfListOfFrames | AudioAnalysis/AudioAnalysisTools/LongDurationSpectrograms/Zooming/ZoomTiledSpectrograms.cs:661-669 | the list is trimmed in place; a fault leaves it unchanged |
| ZoomTiles.PadThenTrimExact | AudioAnalysis/AudioAnalysisTools/LongDurationSpectrograms/Zooming/ZoomTiledSpectrograms.cs:578-579 | padding and then trimming a non-empty list leaves exactly the expected count: the old frames, then copies of the last |
| ZoomTiles.PadEmptyFails | AudioAnalysis/AudioAnalysisTools/LongDurationSpectrograms/Zooming/ZoomTiledSpectrograms.cs:645-647 | an empty list cannot be padded to a positive count |
| ZoomTiles.TimeOfDay | AudioAnalysis/AudioAnalysisTools/LongDurationSpectrograms/Zooming/ZoomTiledSpectrograms.cs:266 | the time of day lies in `[0, 86400)` seconds |
| ZoomTiles.NearestTileBoundary | AudioAnalysis/AudioAnalysisTools/LongDurationSpectrograms/Zooming/ZoomTiledSpectrograms.cs:262-274 | a zero tile duration is reported as a NaN fault, and only then |
| ZoomTiles.AlignDownBounds | AudioAnalysis/AudioAnalysisTools/LongDurationSpectrograms/Zooming/ZoomTiledSpectrograms.cs:266-272 | for a positive period the aligned time is no later than the start, within one period of it, and a whole number of periods after midnight |
| ZoomTiles.NearestTileBoundaryAligned | AudioAnalysis/AudioAnalysisTools/LongDurationSpectrograms/Zooming/ZoomTiledSpectrograms.cs:262-274 | the tiling start is no later than the recording start and less than one tile duration before it, on a tile boundary of the day |
| ZoomTiles.AlignDownIdempotent | AudioAnalysis/AudioAnalysisTools/LongDurationSpectrograms/Zooming/ZoomTiledSpectrograms.cs:266-272 | aligning an aligned time changes nothing |
| ZoomTiles.NearestTileBoundaryIdempotent | AudioAnalysis/AudioAnalysisTools/LongDurationSpectrograms/Zooming/ZoomTiledSpectrograms.cs:262-274 | a tiling start is its own tile boundary |
| ZoomTiles.NearestTileBoundaryNegativePeriod | AudioAnalysis/AudioAnalysisTools/LongDurationSpectrograms/Zooming/ZoomTiledSpectrograms.cs:266-272 | a negative tile duration moves the start later instead of earlier |
| ZoomTiles.FirstBadCell | AudioAnalysis/AudioAnalysisTools/LongDurationSpectrograms/Zooming/ZoomTiledSpectrograms.cs:300-308 | the first cell the blending loops cannot reach lies inside the iteration range |
| ZoomTiles.FirstBadCellIsFirst | AudioAnalysis/AudioAnalysisTools/LongDurationSpectrograms/Zooming/ZoomTiledSpectrograms.cs:300-308 | that cell is out of range, and every cell visited before it is in range (all cells are, when there is none) |
| ZoomTiles.CombineFrameDataWithIndexData | AudioAnalysis/AudioAnalysisTools/LongDurationSpectrograms/Zooming/ZoomTiledSpectrograms.cs:294-311 | the cells visited before the loops stop become `indexWt*index + frameWt*sqrt(frame)`, and every other cell keeps its value. The columns from the index column count on are untouched. A shape mismatch stops with an index fault |
| KiwiRoc.PredictedSexTags | src/AnalysisPrograms/LSKiwiROC.cs:186-198 | the predicted sex is "M" exactly for names ending "(m)", "F" exactly for names ending "(f)", and "???" for the rest |
| KiwiRoc.PredictedSexOfTagged | src/AnalysisPrograms/LSKiwiROC.cs:186-198 | any name ending "(m)" or "(f)" gets that sex |
| KiwiRoc.FirstMatch | src/AnalysisPrograms/LSKiwiROC.cs:225-238 | the first unused row whose start is in `[start-10, start+20]` with the same sex; none exactly when no row matches |
| KiwiRoc.Matched | src/AnalysisPrograms/LSKiwiROC.cs:165-253 | one output row per prediction; the ground truth keeps its length |
| KiwiRoc.CountAppend | src/AnalysisPrograms/LSKiwiROC.cs:240-251 | the counts of appended row lists add up |
| KiwiRoc.UnusedConsume | src/AnalysisPrograms/LSKiwiROC.cs:232 | marking an unused row as used lowers the number of unused rows by one |
| KiwiRoc.MatchedCounts | src/AnalysisPrograms/LSKiwiROC.cs:165-253 | every prediction is TP or FP: their counts add up to the number of predictions. No FN rows come from predictions, and each TP uses up one ground-truth row |
| KiwiRoc.MatchedOnlyClears | src/AnalysisPrograms/LSKiwiROC.cs:232 | matching only ever marks ground-truth rows as used; it changes nothing else |
| KiwiRoc.FalseNegativeCounts | src/AnalysisPrograms/LSKiwiROC.cs:255-282 | one FN row per unused ground-truth row, and no TP or FP among them |
| KiwiRoc.RecallPrecisionTotals | src/AnalysisPrograms/LSKiwiROC.cs:165-282 | over the whole output: TP + FP is the prediction count, and TP + FN is the number of ground-truth rows that started unused |
| KiwiRoc.UnusedAll | src/AnalysisPrograms/LSKiwiROC.cs:255-282 | with every begin time present, every ground-truth row is unused |
| KiwiRoc.MatchPrediction | src/AnalysisPrograms/LSKiwiROC.cs:186-251 | one prediction: its output row, and the ground truth with the first match marked used. It is TP exactly when a match exists |
| KiwiRoc.AppendFalseNegatives | src/AnalysisPrograms/LSKiwiROC.cs:255-282 | appends one FN row per unused ground-truth row and keeps the counts equal to the rows' flags |
| KiwiRoc.CalculateRecallPrecision | src/AnalysisPrograms/LSKiwiROC.cs:165-282 | the output is the matched rows followed by the false negatives; the ground truth is left with the matched rows marked; TP, FP and FN count the output's flags |
| KiwiRoc.FilteredMeaning | src/AnalysisPrograms/LSKiwiROC.cs:298-327 | the filter drops the event exactly when some rule fires after all earlier rules passed. It returns the same event, unchanged, exactly when no rule fires. Otherwise it faults |
| KiwiRoc.FilterEvent | src/AnalysisPrograms/LSKiwiROC.cs:298-327 | the rule loop computes that filter |
| KiwiRoc.Rate | src/AnalysisPrograms/LSKiwiROC.cs:371-372 | a rate over a positive total is non-negative |
| KiwiRoc.AreaStep | src/AnalysisPrograms/LSKiwiROC.cs:395 | with non-negative specificity and non-decreasing recall, the area step is non-negative |
| KiwiRoc.RocCounters | src/AnalysisPrograms/LSKiwiROC.cs:358-369 | after the scan, cumulativeTP and cumulativeFP count the rows flagged TP and FP; they never decrease along the scan; count is the number of rows |
| KiwiRoc.RocAreaIsCurveSum | src/AnalysisPrograms/LSKiwiROC.cs:371-404 | for positive totals the area is the sum of the curve's steps and non-negative; the best accuracy is non-negative; the last recall is cumulativeTP over the positive total |
| KiwiRoc.RateMonotone | src/AnalysisPrograms/LSKiwiROC.cs:371-372 | a larger count gives a larger rate |
| KiwiRoc.RocCurve | src/AnalysisPrograms/LSKiwiROC.cs:336-417 | the loop computes the scan's area, curve, best accuracy and its position. A zero total over a non-empty table is a NaN fault |
| KiwiRoc.ScanRow | src/AnalysisPrograms/LSKiwiROC.cs:358-405 | one table row advances the scan by exactly one step of the ROC scan |
| RecordingFetcher.ReplaceMeaning | src/AudioAnalysisTools/WavTools/RecordingFetcher.cs:32 | after replacing '/' no '/' is left; a text without '/' is unchanged |
| RecordingFetcher.ReplaceConcat | src/AudioAnalysisTools/WavTools/RecordingFetcher.cs:32 | replacement works piece by piece |
| RecordingFetcher.Replace | src/AudioAnalysisTools/WavTools/RecordingFetcher.cs:32 | replacing characters keeps the length |
| RecordingFetcher.IndexFrom | src/AudioAnalysisTools/WavTools/RecordingFetcher.cs:34 | a separator found from k lies at or after k, inside the text |
| RecordingFetcher.Split | src/AudioAnalysisTools/WavTools/RecordingFetcher.cs:34 | a split always has at least one piece |
| RecordingFetcher.IndexFromMeaning | src/AudioAnalysisTools/WavTools/RecordingFetcher.cs:34 | the separator search finds the first separator after k, or reports that none is left |
| RecordingFetcher.PieceAt | src/AudioAnalysisTools/WavTools/RecordingFetcher.cs:34 | the first piece of a split runs to the first separator. There is a second piece exactly when a separator follows, and the rest are the split after it |
| RecordingFetcher.SplitAtSeparator | src/AudioAnalysisTools/WavTools/RecordingFetcher.cs:34 | splitting `a + sep + b`, where a holds no separator, gives a followed by the pieces of b |
| RecordingFetcher.SplitPrefix | src/AudioAnalysisTools/WavTools/RecordingFetcher.cs:34 | a separator-free prefix joins the first piece |
| RecordingFetcher.TwoPieces | src/AudioAnalysisTools/WavTools/RecordingFetcher.cs:34-36 | when there are two pieces, the text starts with piece 0, a separator, piece 1, and then ends or has another separator |
| RecordingFetcher.SplitFileId | src/AudioAnalysisTools/WavTools/RecordingFetcher.cs:38-40 | splitting `recording.extension` on '.', with any tail starting with '.', gives the recording and then the extension |
| RecordingFetcher.ParseFilename | src/AudioAnalysisTools/WavTools/RecordingFetcher.cs:30-41 | parsing fails only with an index fault |
| RecordingFetcher.ParseFilenameNoSeparator | src/AudioAnalysisTools/WavTools/RecordingFetcher.cs:34-36 | a name with neither '_' nor '/' fails with an index fault |
| RecordingFetcher.ParseFilenameShape | src/AudioAnalysisTools/WavTools/RecordingFetcher.cs:30-41 | a parsed name is plain, and `sensor_recording.extension` is a prefix of the name (with '/' read as '_'), followed by its end, '_' or '.' |
| RecordingFetcher.ParseFilenameCompose | src/AudioAnalysisTools/WavTools/RecordingFetcher.cs:30-41 | parsing `sensor` + '_' or '/' + `recording.extension`, with any tail starting '_', '/' or '.', gives back the three parts |
| RecordingFetcher.ConvertToUri | src/AudioAnalysisTools/WavTools/RecordingFetcher.cs:21-28 | the URI fails exactly when parsing fails |
| RecordingFetcher.ComposeWithSlashes | src/AudioAnalysisTools/WavTools/RecordingFetcher.cs:25 | for plain parts, `sensor/recording.extension` is the composed name with '_' turned into '/' |
| RecordingFetcher.ConvertToUriCompose | src/AudioAnalysisTools/WavTools/RecordingFetcher.cs:21-28 | the URI of `sensor_recording.extension` is the server, '/', `sensor/recording.extension` |

## Left out

- Foreign numerics are not modelled; they are parameters of the model. This covers FFT with its Hamming window,
  MathNet's SVD, `AutoCorrelationOldJavaVersion`, `WaveletPacketDecomposition`, `Vector2Zscores`, `DiffFromMean`,
  `Math.Log10` and `Math.Sqrt`. `GetOscillationUsingDct` and `GetOscillationArrayUsingCwt` are not part of this
  model.
- `MatrixTools` (`Submatrix`, `GetRowAverages`, `GetColumn`, `SetColumn`) and `StatisticalAnalysis.checkBoundary`
  are not part of this model. The row averages are written out directly, `checkBoundary` is a parameter, and
  `SetColumn` writes a column whose length matches the matrix height.
- Floating point: reals replace doubles, so rounding is not modelled. Where the source produces NaN or an infinity,
  the model reports `Fail(NotANumber)` instead of carrying the value on. This covers a zero sample count in the log
  transform, a zero moving-average width, a zero tile duration and zero ROC totals. Integer overflow is not
  modelled.
- DataTools.Matrix2Array: only the `double[,]` overload is modelled. The `int[,]`, generic and `byte[,]` overloads
  run the same loops over other element types. The `int[,,]` overload (DataTools.cs:438-457) bounds its innermost
  loop by `d3`, so it computes what the corrected `Matrix2Array3` does; it is not modelled separately.
- DataTools.GetMaxIndex: the `int[]` and `List<double>` overloads run the same scan and are represented by the
  `double[]` one.
- DataTools.ConcatenateVectors: the `params double[][]` overload copies blocks with `Buffer.BlockCopy` into the same
  concatenation and is represented by the `List<double[]>` one.
- DataTools.MatrixTranspose: the three overloads differ only in element type; the model is generic.
- DataTools.SortArray: without the `AboveSentinel` condition only lengths and index ranges are stated. A value equal
  to `-double.MaxValue` makes the source rank a sentinel slot again.
- The `write*` and `writeBarGraph` console output, the ROC console report, and `scoreAtMax`, `recallAtMax`,
  `precisionAtMax` and `specificityAtMax` are not modelled: they feed only the printed report.
- KiwiRoc.RocCurve: the table is taken in the order given. `DataTableTools.SortTable` (sorting by normalised score)
  is not part of this model. A precision of 0/0 is skipped rather than computed, which gives the same result,
  since a NaN never exceeds the best accuracy.
- KiwiRoc.CalculateRecallPrecision: the data tables become sequences of records. Ground-truth rows are objects
  (`GroundTruthRow`) whose begin time becomes `None` where the source writes NaN. The rows are required to be
  distinct objects, as rows of one `DataTable` are. Only the TP, FP and FN flags, the predicted and true sex, and
  the harmonics and quality columns of the output are modelled; the score columns are copied data. The
  recall/precision console line and the final `ROCCurve` call are left out.
- KiwiRoc.FilterEvent: rule values are parsed by a `double.Parse` parameter. The intensity and delta rules use `>`
  under the operator name "LT", as written.
- LSKiwiROC's `Main` and `WriteSee5DataFiles` (CSV I/O) are not part of this model.
- EventRepresentation.SelectEvents: the height rule `Height = maxFreq - Height` is kept as written (see
  `SelectClippedCanOverflow`). It is not listed as a finding, because the intended value cannot be told from the
  code.
- EventRepresentation.AddSelectedEventLists: the four consecutive `SelectEvents` calls are written as a loop over
  k = 0..3. A missing list faults after the earlier lists were selected, as the source's straight-line calls do.
- `List.Sort` in `ExtractPotentialCandidateEvents` is unstable; the model only promises some start-time order that
  is a permutation of the input, which is all `List.Sort` guarantees.
- `EventBasedRepresentation`'s other builders (`AcousticEventsToEventBasedRepresentations`,
  `ExtractFixedAcousticEventList`) are not part of this model. The `Query` class is represented by its four pixel
  bounds.
- ZoomTiles.NearestTileBoundary: times are reals in seconds. The millisecond rounding of `TimeSpan.FromSeconds`,
  the range limits of `DateTimeOffset` and time-zone offsets are not modelled. Tile drawing and spectrogram loading
  are left out.
- ZoomTiles.CombineFrameDataWithIndexData: the square root is a parameter, so the model says nothing about the
  square root of negative frame values.
- RecordingFetcher.ConvertToUri: `new Uri` parsing is not modelled; the model returns the URI text.
  `GetRecordingByFileName` downloads over the network and is left out.
- Culture-sensitive `string.EndsWith` is modelled as an ordinal suffix test.
- ZoomTiles.TrimEndOfListOfFrames: the `Log.Warn` message issued after frames are trimmed is logging only and is
  not modelled.
- EventRepresentation.EventBox: the height reads `FreqRange`, which the base class `AcousticEvent` defines. That
  class is not part of this model; the model takes `FreqRange` to be `maxFrequency - minFrequency`.
- DataSmoothing.FilterMovingAverageEven, FilterMovingAverageOdd and their as-written versions take the widths the
  dispatcher passes them: positive and below the length. `FilterMovingAverage` models the other widths itself.

## Findings

| source | as written | input that shows it | evidently intended | confidence | as-written member | corrected member |
|---|---|---|---|---|---|---|
| src/TowseyLibrary/DataTools.cs:425 | the innermost loop of `Matrix2Array(double[,,])` runs `col2` up to `d2` instead of `d3` | a 1x1x2 matrix holding 0 and 1 flattens to `[0, 0]` (with `d2 > d3` the loop indexes out of range) | all `d1*d2*d3` values in row-major order, `[0, 1]` here | high, not executed | DataTools.Matrix2Array3LosesValues | DataTools.Matrix2Array3 |
| src/TowseyLibrary/DataTools.cs:4881-4909 | `filterMovingAverageEven` starts the central running sum over `signal[0..width)` and then subtracts `signal[i-edge]`, so every centre value includes `signal[0]` and drops `signal[2*edge]`. The trailing edge adds `signal[L-edge]` twice | `[1, 0, -1, 1, 1, 0]` with width 2 gives 2 at position 3, above every input value | each value is the mean of a window of `width` neighbouring values (0 here), within the signal's range | high, not executed | DataSmoothing.EvenAsWrittenLeavesRange | DataSmoothing.FilteredWithinRange |
| src/TowseyLibrary/DataTools.cs:4956-4968 | `filterMovingAverageOdd` sums only `edge-1` trailing values before the trailing loop and divides by `edge+i`, so the trailing values are not centred means | `[0, 0, 0, 1]` with width 3 gives 1 at the last position | the centred mean of the values within `edge` of the position, 0.5 here | high, not executed | DataSmoothing.OddAsWrittenNotCentred | DataSmoothing.FilteredOddIsCentred |
