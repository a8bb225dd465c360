/**
 * Frame-list repair, tile alignment and frame/index blending used when
 * zoomed spectrogram tiles are drawn from one-minute frame spectrograms.
 */
module ZoomTiles {
  import opened Common

  // ---------------------------------------------------------------------------
  // Frame lists
  // ---------------------------------------------------------------------------

  /** One spectral frame, shared by reference as the source's `double[]` is. */
  type Frame = array<real>

  /** A growable list of frames, edited in place (the source's `List<double[]>`). */
  class FrameList {
    var frames: seq<Frame>

    constructor (frames: seq<Frame>)
      ensures this.frames == frames
    {
      this.frames := frames;
    }
  }

  /** `n` copies of `f`. */
  function Repeat(f: Frame, n: nat): (r: seq<Frame>)
    ensures |r| == n && forall i :: 0 <= i < n ==> r[i] == f
  {
    if n == 0 then [] else Repeat(f, n - 1) + [f]
  }

  /**
   * The frames after padding to `expected`: a short list is extended with
   * references to its last frame; padding an empty list is an index fault.
   */
  function Padded(frames: seq<Frame>, expected: int): Outcome<seq<Frame>>
  {
    var discrepancy := expected - |frames|;
    if discrepancy > 0 then
      if |frames| == 0 then Fail(IndexOutOfRange) else Ok(frames + Repeat(frames[|frames| - 1], discrepancy))
    else Ok(frames)
  }

  /** Padding reaches `max(count, expected)`, keeps the frames it had and repeats the last one. */
  lemma PaddedShape(frames: seq<Frame>, expected: int)
    ensures Padded(frames, expected).Fail? <==> frames == [] && expected > 0
    ensures Padded(frames, expected).Ok? ==>
      var p := Padded(frames, expected).value;
      |p| == (if expected > |frames| then expected else |frames|) &&
      p[..|frames|] == frames &&
      forall i :: |frames| <= i < |p| ==> p[i] == frames[|frames| - 1]
  {
  }

  /**
   * The frames after trimming to `expected`: the frames beyond it are removed.
   * A negative `expected` makes the removal start at a negative index, which
   * is an index fault.
   */
  function Trimmed(frames: seq<Frame>, expected: int): Outcome<seq<Frame>>
  {
    var discrepancy := |frames| - expected;
    if discrepancy > 0 then
      if expected < 0 then Fail(IndexOutOfRange) else Ok(frames[..expected])
    else Ok(frames)
  }

  /** Trimming reaches `min(count, expected)` and keeps a prefix. */
  lemma TrimmedShape(frames: seq<Frame>, expected: int)
    ensures Trimmed(frames, expected).Fail? <==> expected < 0
    ensures Trimmed(frames, expected).Ok? ==>
      var t := Trimmed(frames, expected).value;
      |t| == (if expected < |frames| then expected else |frames|) && t == frames[..|t|]
  {
  }

  /**
   * Padding and then trimming a non-empty list, as done before a frame
   * spectrogram is drawn, leaves exactly `expected` frames: the old ones
   * first, then copies of the old last frame.
   */
  lemma PadThenTrimExact(frames: seq<Frame>, expected: int)
    requires |frames| > 0 && expected >= 0
    ensures Padded(frames, expected).Ok?
    ensures var t := Trimmed(Padded(frames, expected).value, expected);
      t.Ok? && |t.value| == expected &&
      forall i :: 0 <= i < expected ==> t.value[i] == if i < |frames| then frames[i] else frames[|frames| - 1]
  {
    PaddedShape(frames, expected);
  }

  /** An empty list cannot be repaired to a positive length. */
  lemma PadEmptyFails(expected: int)
    requires expected > 0
    ensures Padded([], expected) == Fail(IndexOutOfRange)
  {
  }

  /**
   * `PadEndOfListOfFrames`: appends the last frame until the list holds
   * `expectedFrameCount` frames. The fault leaves the list unchanged.
   */
  method PadEndOfListOfFrames(frameList: FrameList, expectedFrameCount: int) returns (fault: Option<Fault>)
    modifies frameList
    ensures match Padded(old(frameList.frames), expectedFrameCount)
      case Ok(p) => fault.None? && frameList.frames == p
      case Fail(f) => fault == Some(f) && frameList.frames == old(frameList.frames)
  {
    fault := None;
    var frameDiscrepancy := expectedFrameCount - |frameList.frames|;
    if frameDiscrepancy > 0 {
      if |frameList.frames| == 0 {
        return Some(IndexOutOfRange);
      }
      var frame := frameList.frames[|frameList.frames| - 1];
      for d := 0 to frameDiscrepancy
        invariant frameList.frames == old(frameList.frames) + Repeat(frame, d)
      {
        frameList.frames := frameList.frames + [frame];
      }
    }
  }

  /**
   * `TrimEndOfListOfFrames`: removes the frames beyond `expectedFrameCount`.
   * The fault leaves the list unchanged.
   */
  method TrimEndOfListOfFrames(frameList: FrameList, expectedFrameCount: int) returns (fault: Option<Fault>)
    modifies frameList
    ensures match Trimmed(old(frameList.frames), expectedFrameCount)
      case Ok(t) => fault.None? && frameList.frames == t
      case Fail(f) => fault == Some(f) && frameList.frames == old(frameList.frames)
  {
    fault := None;
    var frameDiscrepancy := |frameList.frames| - expectedFrameCount;
    if frameDiscrepancy > 0 {
      var index := |frameList.frames| - frameDiscrepancy;
      if index < 0 {
        return Some(IndexOutOfRange);
      }
      frameList.frames := frameList.frames[..index];
    }
  }

  // ---------------------------------------------------------------------------
  // Tile alignment
  // ---------------------------------------------------------------------------

  const SecondsPerDay: real := 86400.0

  /** The clock time of a moment given in seconds, as seconds since its midnight. */
  function TimeOfDay(t: real): (d: real)
    ensures 0.0 <= d < SecondsPerDay
  {
    t - (t / SecondsPerDay).Floor as real * SecondsPerDay
  }

  /**
   * The latest moment at or before `start` whose clock time is a whole
   * number of periods after midnight (for a positive period).
   */
  function AlignDown(period: real, start: real): real
    requires period != 0.0
  {
    var timeOfDay := TimeOfDay(start);
    var previousBoundary := (timeOfDay / period).Floor as real * period;
    var gap := timeOfDay - previousBoundary;
    start - gap
  }

  /**
   * `GetNearestTileBoundary`: moves the recording start back to the latest
   * clock time that is a whole number of tile durations (`scale * tileWidth`
   * seconds) after midnight. A zero tile duration divides by zero; the
   * resulting NaN span is refused, which the model reports as a fault.
   */
  function NearestTileBoundary(tileWidth: int, scale: real, recordingStart: real): (r: Outcome<real>)
    ensures r.Fail? <==> scale * tileWidth as real == 0.0
    ensures r.Fail? ==> r.fault == NotANumber
  {
    var period := scale * tileWidth as real;
    if period == 0.0 then Fail(NotANumber) else Ok(AlignDown(period, recordingStart))
  }

  /**
   * For a positive period the aligned moment is no later than the start,
   * less than one period before it, and a whole number of periods after the
   * start's midnight.
   */
  lemma AlignDownBounds(period: real, start: real)
    requires period > 0.0
    ensures var r := AlignDown(period, start);
      var midnight := start - TimeOfDay(start);
      r <= start && start - r < period &&
      midnight <= r && ((r - midnight) / period).Floor as real * period == r - midnight
  {
    var timeOfDay := TimeOfDay(start);
    var k := (timeOfDay / period).Floor;
    FloorBounds(timeOfDay / period);
    MulBelow(timeOfDay, period, k);
    assert k >= 0;
    var r := start - (timeOfDay - k as real * period);
    var midnight := start - timeOfDay;
    assert r - midnight == k as real * period;
    assert (k as real * period) / period == k as real;
    assert (k as real).Floor == k;
  }

  /** `GetNearestTileBoundary` with a positive tile duration: see `AlignDownBounds`. */
  lemma NearestTileBoundaryAligned(tileWidth: int, scale: real, recordingStart: real)
    requires scale * tileWidth as real > 0.0
    ensures var r := NearestTileBoundary(tileWidth, scale, recordingStart);
      var period := scale * tileWidth as real;
      var midnight := recordingStart - TimeOfDay(recordingStart);
      r.Ok? && r.value <= recordingStart && recordingStart - r.value < period &&
      midnight <= r.value && ((r.value - midnight) / period).Floor as real * period == r.value - midnight
  {
    AlignDownBounds(scale * tileWidth as real, recordingStart);
  }

  /** An aligned moment is its own boundary. */
  lemma AlignDownIdempotent(period: real, start: real)
    requires period > 0.0
    ensures AlignDown(period, AlignDown(period, start)) == AlignDown(period, start)
  {
    var timeOfDay := TimeOfDay(start);
    var k := (timeOfDay / period).Floor;
    FloorBounds(timeOfDay / period);
    MulBelow(timeOfDay, period, k);
    var day := (start / SecondsPerDay).Floor;
    var r := start - (timeOfDay - k as real * period);
    assert AlignDown(period, start) == r;
    assert r == day as real * SecondsPerDay + k as real * period;
    assert (r / SecondsPerDay).Floor == day by {
      assert day as real <= r / SecondsPerDay < day as real + 1.0;
    }
    var t2 := TimeOfDay(r);
    assert t2 == k as real * period;
    assert t2 / period == k as real;
    assert (t2 / period).Floor == k;
  }

  /** Aligning the tile boundary again changes nothing. */
  lemma NearestTileBoundaryIdempotent(tileWidth: int, scale: real, recordingStart: real)
    requires scale * tileWidth as real > 0.0
    ensures var r := NearestTileBoundary(tileWidth, scale, recordingStart);
      r.Ok? && NearestTileBoundary(tileWidth, scale, r.value) == r
  {
    AlignDownIdempotent(scale * tileWidth as real, recordingStart);
  }

  /** `x.Floor` lies within one below `x`. */
  lemma FloorBounds(x: real)
    ensures x - 1.0 < x.Floor as real <= x
  {
  }

  /** Scaling the floor bounds of `t / p` by a positive `p`. */
  lemma MulBelow(t: real, p: real, k: int)
    requires p > 0.0 && t / p - 1.0 < k as real <= t / p
    ensures t - p < k as real * p <= t
  {
    var q := t / p;
    assert q * p == t;
    var a := q - k as real;
    var b := k as real + 1.0 - q;
    assert a >= 0.0 && b > 0.0;
    assert a * p >= 0.0;
    assert b * p > 0.0;
    assert a * p == t - k as real * p;
    assert b * p == k as real * p + p - t;
  }

  /** A negative tile duration moves the start later instead (the gap is negative). */
  lemma NearestTileBoundaryNegativePeriod(tileWidth: int, scale: real, recordingStart: real)
    requires scale * tileWidth as real < 0.0
    ensures var r := NearestTileBoundary(tileWidth, scale, recordingStart);
      r.Ok? && recordingStart <= r.value
  {
    var period := scale * tileWidth as real;
    var timeOfDay := TimeOfDay(recordingStart);
    var k := (timeOfDay / period).Floor;
    FloorBounds(timeOfDay / period);
    assert k as real * period >= timeOfDay by {
      assert timeOfDay == (timeOfDay / period) * period;
      assert (timeOfDay / period - k as real) * period <= 0.0;
    }
  }

  // ---------------------------------------------------------------------------
  // Blending frame data with index data
  // ---------------------------------------------------------------------------

  /** One blended cell: the weighted index value plus the weighted root of the frame value. */
  function Blended(indexValue: real, frameValue: real, frameWt: real, indexWt: real, sqrt: real -> real): real
  {
    indexWt * indexValue + frameWt * sqrt(frameValue)
  }

  /**
   * The first cell, in the column-by-column order of the loops, at which the
   * blend indexes outside `indexData` (too few rows) or outside `frameData`
   * (too few columns), as (column, row); `None` when every cell is in range.
   */
  function FirstBadCell(rowCount: nat, colCount: nat, indexRows: nat, frameCols: nat): (bad: Option<(nat, nat)>)
    ensures bad.Some? ==> bad.value.0 < colCount && bad.value.1 < rowCount
  {
    if rowCount == 0 || colCount == 0 then None
    else if indexRows < rowCount then Some((0, if frameCols == 0 then 0 else indexRows))
    else if frameCols < colCount then Some((frameCols, 0))
    else None
  }

  /** The cell (column `c`, row `r`) can be read and written. */
  predicate InRange(c: int, r: int, indexRows: nat, frameCols: nat)
  {
    r < indexRows && c < frameCols
  }

  /** The cell is visited before the cell (column `bc`, row `br`). */
  predicate VisitedBefore(c: int, r: int, bc: int, br: int)
  {
    c < bc || (c == bc && r < br)
  }

  /**
   * `FirstBadCell` is the first out-of-range cell: it is out of range, every
   * cell visited before it is in range, and with no bad cell every cell is.
   */
  lemma FirstBadCellIsFirst(rowCount: nat, colCount: nat, indexRows: nat, frameCols: nat)
    ensures match FirstBadCell(rowCount, colCount, indexRows, frameCols)
      case None =>
        forall c, r :: 0 <= c < colCount && 0 <= r < rowCount ==> InRange(c, r, indexRows, frameCols)
      case Some(cell) =>
        !InRange(cell.0, cell.1, indexRows, frameCols) &&
        forall c, r :: 0 <= c < colCount && 0 <= r < rowCount && VisitedBefore(c, r, cell.0, cell.1) ==>
          InRange(c, r, indexRows, frameCols)
  {
  }

  /** The cell was blended before the run stopped (at its end or at the first bad cell). */
  predicate Blends(c: int, r: int, rowCount: nat, colCount: nat, indexRows: nat, frameCols: nat)
  {
    c < colCount &&
    match FirstBadCell(rowCount, colCount, indexRows, frameCols)
      case None => true
      case Some(cell) => VisitedBefore(c, r, cell.0, cell.1)
  }

  /**
   * `CombineFrameDataWithIndexData`: blends the first `indexData` columns of
   * `frameData` in place, column by column. Columns from the `indexData`
   * column count on are untouched. When `indexData` has fewer rows than
   * `frameData` or `frameData` fewer columns than `indexData`, the run stops
   * with an index fault at the first bad cell, leaving the cells before it
   * blended. `sqrt` stands for the library square root.
   */
  method CombineFrameDataWithIndexData(frameData: array2<real>, indexData: array2<real>, frameWt: real, indexWt: real,
                                       sqrt: real -> real) returns (fault: Option<Fault>)
    modifies frameData
    ensures var bad := FirstBadCell(frameData.Length0, indexData.Length1, indexData.Length0, frameData.Length1);
      fault == if bad.Some? then Some(IndexOutOfRange) else None
    ensures forall r, c :: 0 <= r < frameData.Length0 && 0 <= c < frameData.Length1 ==>
      frameData[r, c] ==
        if Blends(c, r, frameData.Length0, indexData.Length1, indexData.Length0, frameData.Length1)
        then Blended(old(indexData[r, c]), old(frameData[r, c]), frameWt, indexWt, sqrt)
        else old(frameData[r, c])
  {
    var rowCount := frameData.Length0;
    var colCount := indexData.Length1;
    ghost var bad := FirstBadCell(rowCount, colCount, indexData.Length0, frameData.Length1);
    FirstBadCellIsFirst(rowCount, colCount, indexData.Length0, frameData.Length1);
    fault := None;
    for c := 0 to colCount
      invariant bad.Some? ==> c <= bad.value.0
      invariant forall i, j :: 0 <= i < rowCount && 0 <= j < frameData.Length1 ==>
        frameData[i, j] ==
          if j < c then Blended(old(indexData[i, j]), old(frameData[i, j]), frameWt, indexWt, sqrt)
          else old(frameData[i, j])
    {
      for r := 0 to rowCount
        invariant bad.Some? ==> VisitedBefore(c, r - 1, bad.value.0, bad.value.1) || r == 0
        invariant forall i, j :: 0 <= i < rowCount && 0 <= j < frameData.Length1 ==>
          frameData[i, j] ==
            if j < c || (j == c && i < r) then Blended(old(indexData[i, j]), old(frameData[i, j]), frameWt, indexWt, sqrt)
            else old(frameData[i, j])
      {
        if r >= indexData.Length0 || c >= frameData.Length1 {
          return Some(IndexOutOfRange);
        }
        frameData[r, c] := Blended(indexData[r, c], frameData[r, c], frameWt, indexWt, sqrt);
      }
    }
  }
}
