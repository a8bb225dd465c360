/**
 * The parts of `DataTools` that turn a signal or a boolean track into events:
 * threshold segmentation, local peaks and troughs, runs of `true`, gaps
 * between marks, and counts.
 */
module DataEvents {
  import opened Common

  // ---------------------------------------------------------------------------
  // Threshold segmentation
  // ---------------------------------------------------------------------------

  /** One event of `SegmentArrayOnThreshold`: first frame, end frame and mean score. */
  datatype Segment = Segment(startFrame: int, endFrame: int, average: real)

  /**
   * Frames `s .. e - 1` are a maximal run above `threshold` and frame `e` is
   * the first frame after it, at or below the threshold.
   */
  predicate IsClosedEvent(values: seq<real>, threshold: real, s: int, e: int)
  {
    0 <= s < e < |values| &&
    values[s] > threshold && (s == 0 || values[s - 1] <= threshold) &&
    (forall k :: s <= k < e ==> values[k] > threshold) &&
    values[e] <= threshold
  }

  /** Frame `j` is where the signal falls from above the threshold to at or below it. */
  predicate FallingEdge(values: seq<real>, threshold: real, j: int)
  {
    0 < j < |values| && values[j - 1] > threshold && values[j] <= threshold
  }

  /** A found event: a closed run ending before frame `i`, with the mean of the run and its closing frame. */
  predicate ClosedBefore(values: seq<real>, threshold: real, e: Segment, i: int)
  {
    IsClosedEvent(values, threshold, e.startFrame, e.endFrame) &&
    e.endFrame < i &&
    e.average == Mean(values[e.startFrame..e.endFrame + 1])
  }

  /** The events found so far: each closed before frame `i`, with its mean, and in order. */
  predicate EventsBefore(values: seq<real>, threshold: real, events: seq<Segment>, i: int)
  {
    (forall k :: 0 <= k < |events| ==> ClosedBefore(values, threshold, events[k], i)) &&
    (forall k :: 0 <= k < |events| - 1 ==> events[k].endFrame < events[k + 1].startFrame)
  }

  /** Every falling edge before frame `i` ends one of the events. */
  ghost predicate EdgesCovered(values: seq<real>, threshold: real, events: seq<Segment>, i: int)
  {
    forall j :: FallingEdge(values, threshold, j) && j < i ==>
      exists k :: 0 <= k < |events| && events[k].endFrame == j
  }

  /** Appending the event that frame `i` closes keeps every earlier falling edge covered and adds `i`. */
  lemma CoverEdge(values: seq<real>, threshold: real, events: seq<Segment>, e: Segment, i: int)
    requires EdgesCovered(values, threshold, events, i)
    requires e.endFrame == i
    ensures EdgesCovered(values, threshold, events + [e], i + 1)
  {
    var events' := events + [e];
    forall j | FallingEdge(values, threshold, j) && j < i + 1
      ensures exists k :: 0 <= k < |events'| && events'[k].endFrame == j
    {
      if j < i {
        var k :| 0 <= k < |events| && events[k].endFrame == j;
        assert events'[k].endFrame == j;
      } else {
        assert events'[|events|].endFrame == j;
      }
    }
  }

  /** Closing the open run at frame `i` yields a valid event that follows the earlier ones. */
  lemma CloseEvent(values: seq<real>, threshold: real, events: seq<Segment>, startFrame: int, i: int, av: real)
    requires EventsBefore(values, threshold, events, i)
    requires 0 <= startFrame < i < |values|
    requires values[startFrame] > threshold && (startFrame == 0 || values[startFrame - 1] <= threshold)
    requires forall k :: startFrame <= k < i ==> values[k] > threshold
    requires values[i] <= threshold
    requires |events| > 0 ==> events[|events| - 1].endFrame < startFrame
    requires av == Sum(values[startFrame..i + 1])
    ensures EventsBefore(values, threshold, events + [Segment(startFrame, i, av / (i - startFrame + 1) as real)], i + 1)
  {
    var e := Segment(startFrame, i, av / (i - startFrame + 1) as real);
    assert IsClosedEvent(values, threshold, startFrame, i);
    MeanOfRange(values, startFrame, i + 1, av);
    AppendEvent(values, threshold, events, e, i);
  }

  /** A running sum over `values[lo .. hi - 1]` divided by the count is that window's mean. */
  lemma MeanOfRange(values: seq<real>, lo: int, hi: int, sum: real)
    requires 0 <= lo < hi <= |values| && sum == Sum(values[lo..hi])
    ensures sum / (hi - lo) as real == Mean(values[lo..hi])
  {
  }

  /** Appending a valid event that ends at frame `i`, after the earlier ones, keeps the events valid. */
  lemma AppendEvent(values: seq<real>, threshold: real, events: seq<Segment>, e: Segment, i: int)
    requires EventsBefore(values, threshold, events, i)
    requires IsClosedEvent(values, threshold, e.startFrame, e.endFrame) && e.endFrame == i
    requires e.average == Mean(values[e.startFrame..e.endFrame + 1])
    requires |events| > 0 ==> events[|events| - 1].endFrame < e.startFrame
    ensures EventsBefore(values, threshold, events + [e], i + 1)
  {
    var events' := events + [e];
    forall k | 0 <= k < |events'|
      ensures ClosedBefore(values, threshold, events'[k], i + 1)
    {
      if k < |events| {
        assert events'[k] == events[k];
      }
    }
    forall k | 0 <= k < |events'| - 1
      ensures events'[k].endFrame < events'[k + 1].startFrame
    {
      assert events'[k] == events[k];
      if k + 1 < |events| {
        assert events'[k + 1] == events[k + 1];
      }
    }
  }

  /** Moving past a frame keeps the events found so far valid. */
  lemma EventsStillBefore(values: seq<real>, threshold: real, events: seq<Segment>, i: int)
    requires EventsBefore(values, threshold, events, i)
    ensures EventsBefore(values, threshold, events, i + 1)
  {
  }

  /** A frame below the threshold that ends no run adds no falling edge. */
  lemma NoNewEdge(values: seq<real>, threshold: real, events: seq<Segment>, i: int)
    requires EdgesCovered(values, threshold, events, i)
    requires 0 <= i < |values| && !FallingEdge(values, threshold, i)
    ensures EdgesCovered(values, threshold, events, i + 1)
  {
  }

  /** Whether the frames before `i` end in a run above the threshold, and where that run starts. */
  predicate RunState(values: seq<real>, threshold: real, isHit: bool, startFrame: int, i: int)
    requires 0 <= i <= |values|
  {
    (isHit <==> i > 0 && values[i - 1] > threshold) &&
    (isHit ==>
      0 <= startFrame < i &&
      values[startFrame] > threshold && (startFrame == 0 || values[startFrame - 1] <= threshold) &&
      forall k :: startFrame <= k < i ==> values[k] > threshold)
  }

  /** The state of the `SegmentArrayOnThreshold` loop before frame `i`. */
  ghost predicate SegmentState(values: seq<real>, threshold: real, isHit: bool, startFrame: int, events: seq<Segment>, i: int)
    requires 0 <= i <= |values|
  {
    RunState(values, threshold, isHit, startFrame, i) &&
    EventsBefore(values, threshold, events, i) &&
    (isHit && |events| > 0 ==> events[|events| - 1].endFrame < startFrame) &&
    EdgesCovered(values, threshold, events, i)
  }

  /** A frame above the threshold after one at or below it opens a run. */
  lemma SegmentOpen(values: seq<real>, threshold: real, isHit: bool, startFrame: int, events: seq<Segment>, i: int)
    requires 0 <= i < |values| && SegmentState(values, threshold, isHit, startFrame, events, i)
    requires !isHit && values[i] > threshold
    ensures SegmentState(values, threshold, true, i, events, i + 1)
  {
    NoNewEdge(values, threshold, events, i);
    EventsStillBefore(values, threshold, events, i);
  }

  /** A frame at or below the threshold ends the open run, which becomes the next event. */
  lemma SegmentClose(values: seq<real>, threshold: real, isHit: bool, startFrame: int, events: seq<Segment>, i: int, av: real)
    requires 0 <= i < |values| && SegmentState(values, threshold, isHit, startFrame, events, i)
    requires isHit && values[i] <= threshold && av == Sum(values[startFrame..i + 1])
    ensures SegmentState(values, threshold, false, startFrame,
      events + [Segment(startFrame, i, av / (i - startFrame + 1) as real)], i + 1)
  {
    CoverEdge(values, threshold, events, Segment(startFrame, i, av / (i - startFrame + 1) as real), i);
    CloseEvent(values, threshold, events, startFrame, i, av);
  }

  /** Any other frame extends the open run, or the gap between runs. */
  lemma SegmentSkip(values: seq<real>, threshold: real, isHit: bool, startFrame: int, events: seq<Segment>, i: int)
    requires 0 <= i < |values| && SegmentState(values, threshold, isHit, startFrame, events, i)
    requires isHit <==> values[i] > threshold
    ensures SegmentState(values, threshold, isHit, startFrame, events, i + 1)
  {
    NoNewEdge(values, threshold, events, i);
    EventsStillBefore(values, threshold, events, i);
  }

  /** The sum of `values[lo .. hi - 1]`, as the event-closing loop accumulates it. */
  method SumRange(values: seq<real>, lo: int, hi: int) returns (sum: real)
    requires 0 <= lo <= hi <= |values|
    ensures sum == Sum(values[lo..hi])
  {
    sum := 0.0;
    for n := lo to hi
      invariant sum == Sum(values[lo..n])
    {
      SumExtend(values, lo, n);
      sum := sum + values[n];
    }
  }

  /**
   * `SegmentArrayOnThreshold`: the events, in order, are exactly the runs
   * above `threshold` that have ended by the last frame. Each records its
   * start, the frame that ended it, and the mean of the values from the start
   * through that end frame inclusive.
   */
  method SegmentArrayOnThreshold(values: seq<real>, threshold: real) returns (events: seq<Segment>)
    ensures forall k :: 0 <= k < |events| ==>
      IsClosedEvent(values, threshold, events[k].startFrame, events[k].endFrame) &&
      events[k].average == Mean(values[events[k].startFrame..events[k].endFrame + 1])
    ensures forall k :: 0 <= k < |events| - 1 ==> events[k].endFrame < events[k + 1].startFrame
    ensures forall j :: FallingEdge(values, threshold, j) ==>
      exists k :: 0 <= k < |events| && events[k].endFrame == j
  {
    var count := |values|;
    events := [];
    var isHit := false;
    var startFrame := 0;
    for i := 0 to count
      invariant SegmentState(values, threshold, isHit, startFrame, events, i)
    {
      if !isHit && values[i] > threshold {
        SegmentOpen(values, threshold, isHit, startFrame, events, i);
        isHit := true;
        startFrame := i;
      } else if isHit && values[i] <= threshold {
        var av := SumRange(values, startFrame, i + 1);
        SegmentClose(values, threshold, isHit, startFrame, events, i, av);
        isHit := false;
        events := events + [Segment(startFrame, i, av / (i - startFrame + 1) as real)];
      } else {
        SegmentSkip(values, threshold, isHit, startFrame, events, i);
      }
    }
  }

  /** A run still above the threshold at the last frame produces no event. */
  lemma OpenEventNotEmitted(values: seq<real>, threshold: real, events: seq<Segment>, k: int)
    requires forall k :: 0 <= k < |events| ==>
      IsClosedEvent(values, threshold, events[k].startFrame, events[k].endFrame)
    requires |values| > 0 && values[|values| - 1] > threshold
    requires 0 <= k < |events|
    ensures events[k].endFrame < |values| - 1
  {
  }

  // ---------------------------------------------------------------------------
  // Peaks and troughs
  // ---------------------------------------------------------------------------

  /** An interior index whose value is strictly above both neighbours. */
  predicate IsPeak(data: seq<real>, i: int)
  {
    0 < i < |data| - 1 && data[i - 1] < data[i] && data[i + 1] < data[i]
  }

  /** An interior index whose value is strictly below both neighbours. */
  predicate IsTrough(data: seq<real>, i: int)
  {
    0 < i < |data| - 1 && data[i] < data[i - 1] && data[i] < data[i + 1]
  }

  /**
   * `GetPeaks(double[])`: marks exactly the local maxima. The first and last
   * indices are never marked.
   */
  method GetPeaks(data: seq<real>) returns (peaks: seq<bool>)
    ensures |peaks| == |data|
    ensures forall i :: 0 <= i < |data| ==> (peaks[i] <==> IsPeak(data, i))
    ensures |data| > 0 ==> !peaks[0] && !peaks[|data| - 1]
  {
    var length := |data|;
    var a := new bool[length](_ => false);
    var i := 1;
    while i < length - 1
      invariant 1 <= i && (length >= 2 ==> i <= length - 1)
      invariant forall k :: 0 <= k < length ==> (a[k] <==> k < i && IsPeak(data, k))
    {
      var dm := data[i] - data[i - 1];
      var dp := data[i + 1] - data[i];
      if dm > 0.0 && dp < 0.0 {
        a[i] := true;
      }
      i := i + 1;
    }
    peaks := a[..];
  }

  /** `GetPeaks(double[], double)`: the local maxima whose value exceeds `threshold`. */
  method GetPeaksAbove(data: seq<real>, threshold: real) returns (peaks: seq<bool>)
    ensures |peaks| == |data|
    ensures forall i :: 0 <= i < |data| ==> (peaks[i] <==> IsPeak(data, i) && data[i] > threshold)
  {
    var length := |data|;
    var a := new bool[length](_ => false);
    var i := 1;
    while i < length - 1
      invariant 1 <= i && (length >= 2 ==> i <= length - 1)
      invariant forall k :: 0 <= k < length ==> (a[k] <==> k < i && IsPeak(data, k) && data[k] > threshold)
    {
      var dm := data[i] - data[i - 1];
      var dp := data[i + 1] - data[i];
      if dm > 0.0 && dp < 0.0 && data[i] > threshold {
        a[i] := true;
      }
      i := i + 1;
    }
    peaks := a[..];
  }

  /** `GetTroughs`: marks exactly the local minima. */
  method GetTroughs(data: seq<real>) returns (troughs: seq<bool>)
    ensures |troughs| == |data|
    ensures forall i :: 0 <= i < |data| ==> (troughs[i] <==> IsTrough(data, i))
  {
    var length := |data|;
    var a := new bool[length](_ => false);
    var i := 1;
    while i < length - 1
      invariant 1 <= i && (length >= 2 ==> i <= length - 1)
      invariant forall k :: 0 <= k < length ==> (a[k] <==> k < i && IsTrough(data, k))
    {
      var deltaMinus := data[i] - data[i - 1];
      var deltaPlus := data[i + 1] - data[i];
      if deltaMinus < 0.0 && deltaPlus > 0.0 {
        a[i] := true;
      } else {
        a[i] := false;
      }
      i := i + 1;
    }
    troughs := a[..];
  }

  /** Two neighbouring indices are never both peaks, and no index is both a peak and a trough. */
  lemma PeaksSeparated(data: seq<real>, i: int)
    requires IsPeak(data, i)
    ensures !IsPeak(data, i + 1) && !IsPeak(data, i - 1) && !IsTrough(data, i)
  {
  }

  // ---------------------------------------------------------------------------
  // Counting
  // ---------------------------------------------------------------------------

  /** Number of `true` entries. */
  function TrueCount(b: seq<bool>): (n: nat)
    ensures n <= |b|
  {
    if b == [] then 0 else TrueCount(b[..|b| - 1]) + (if b[|b| - 1] then 1 else 0)
  }

  /** All entries are `true` exactly when the count equals the length. */
  lemma {:induction false} TrueCountAll(b: seq<bool>)
    ensures TrueCount(b) == |b| <==> forall i :: 0 <= i < |b| ==> b[i]
    decreases |b|
  {
    if b != [] {
      var p := b[..|b| - 1];
      TrueCountAll(p);
      assert forall i :: 0 <= i < |p| ==> p[i] == b[i];
    }
  }

  /** `CountTrues`. */
  method CountTrues(peaks: seq<bool>) returns (count: int)
    ensures count == TrueCount(peaks)
  {
    count := 0;
    for i := 0 to |peaks|
      invariant count == TrueCount(peaks[..i])
    {
      assert peaks[..i + 1][..i] == peaks[..i];
      if peaks[i] {
        count := count + 1;
      }
    }
    assert peaks[..|peaks|] == peaks;
  }

  /** Which entries are strictly positive. */
  function Positives(values: seq<real>): (mask: seq<bool>)
    ensures |mask| == |values|
  {
    seq(|values|, i requires 0 <= i < |values| => values[i] > 0.0)
  }

  /** `CountPositives(double[])`: how many values are strictly above zero. */
  method CountPositives(values: seq<real>) returns (count: int)
    ensures count == TrueCount(Positives(values))
    ensures count == |values| <==> forall i :: 0 <= i < |values| ==> values[i] > 0.0
  {
    count := 0;
    ghost var mask := Positives(values);
    for i := 0 to |values|
      invariant count == TrueCount(mask[..i])
    {
      assert mask[..i + 1][..i] == mask[..i];
      if values[i] > 0.0 {
        count := count + 1;
      }
    }
    assert mask[..|values|] == mask;
    TrueCountAll(mask);
    assert forall i :: 0 <= i < |values| ==> (mask[i] <==> values[i] > 0.0);
  }

  // ---------------------------------------------------------------------------
  // Runs of true
  // ---------------------------------------------------------------------------

  /** The lengths of the maximal runs of `true`, in order. */
  function Runs(b: seq<bool>): (r: seq<int>)
    ensures forall k :: 0 <= k < |r| ==> r[k] >= 1
    ensures |b| > 0 && b[|b| - 1] ==> |r| > 0
    decreases |b|
  {
    if b == [] then []
    else
      var p := Runs(b[..|b| - 1]);
      if !b[|b| - 1] then p
      else if |b| >= 2 && b[|b| - 2] then p[..|p| - 1] + [p[|p| - 1] + 1]
      else p + [1]
  }

  /** The run lengths add up to the number of `true` entries. */
  lemma {:induction false} RunsSum(b: seq<bool>)
    ensures SumInt(Runs(b)) == TrueCount(b)
    decreases |b|
  {
    if b != [] {
      var q := b[..|b| - 1];
      var p := Runs(q);
      RunsSum(q);
      if b[|b| - 1] && |b| >= 2 && b[|b| - 2] {
        var init := p[..|p| - 1];
        assert (init + [p[|p| - 1] + 1])[..|init|] == init;
        assert SumInt(p) == SumInt(init) + p[|p| - 1];
      }
    }
  }

  /** The runs of a prefix one longer: a `false` changes nothing, a `true` extends the last run or starts one. */
  lemma RunsExtend(b: seq<bool>, i: int)
    requires 0 <= i < |b|
    ensures var p := Runs(b[..i]);
      Runs(b[..i + 1]) == if !b[i] then p else if i >= 1 && b[i - 1] then p[..|p| - 1] + [p[|p| - 1] + 1] else p + [1]
  {
    assert b[..i + 1][..i] == b[..i];
  }

  /**
   * `GetEventLengths`: the lengths of the runs of `true`, in order. The source
   * reads the last element after the loop, so an empty array throws.
   */
  method GetEventLengths(boolArray: seq<bool>) returns (r: Outcome<seq<int>>)
    ensures r.Fail? <==> |boolArray| == 0
    ensures r.Fail? ==> r.fault == IndexOutOfRange
    ensures r.Ok? ==> r.value == Runs(boolArray)
  {
    var L := |boolArray|;
    var list := [];
    var inEvent := false;
    var counter := 0;
    for i := 0 to L
      invariant inEvent <==> i > 0 && boolArray[i - 1]
      invariant !inEvent ==> counter == 0
      invariant (if inEvent then list + [counter] else list) == Runs(boolArray[..i])
    {
      RunsExtend(boolArray, i);
      if boolArray[i] {
        counter := counter + 1;
        if !inEvent {
          inEvent := true;
        }
      } else if !boolArray[i] && inEvent {
        list := list + [counter];
        inEvent := false;
        counter := 0;
      }
    }
    if L == 0 {
      return Fail(IndexOutOfRange);
    }
    assert boolArray[..L] == boolArray;
    if boolArray[L - 1] && inEvent {
      list := list + [counter];
    }
    r := Ok(list);
  }

  // ---------------------------------------------------------------------------
  // Gaps between marks
  // ---------------------------------------------------------------------------

  /**
   * The marked indices from 1 on, in increasing order. Index 0 never counts,
   * because `GapLengths` uses position 0 to mean "no mark seen yet".
   */
  function MarkedIndices(b: seq<bool>): (m: seq<int>)
    ensures forall k :: 0 <= k < |m| ==> 1 <= m[k] < |b| && b[m[k]]
    ensures forall k :: 0 <= k < |m| - 1 ==> m[k] < m[k + 1]
    decreases |b|
  {
    if |b| <= 1 then []
    else MarkedIndices(b[..|b| - 1]) + (if b[|b| - 1] then [|b| - 1] else [])
  }

  /** Differences between consecutive entries. */
  function Gaps(m: seq<int>): (g: seq<int>)
    ensures |g| == if |m| <= 1 then 0 else |m| - 1
  {
    if |m| <= 1 then [] else seq(|m| - 1, k requires 0 <= k < |m| - 1 => m[k + 1] - m[k])
  }

  lemma GapsAppend(m: seq<int>, x: int)
    requires |m| > 0
    ensures Gaps(m + [x]) == Gaps(m) + [x - m[|m| - 1]]
  {
    var g, g' := Gaps(m), Gaps(m + [x]);
    assert |g'| == |g| + 1;
    forall k | 0 <= k < |g'|
      ensures g'[k] == (g + [x - m[|m| - 1]])[k]
    {
      if k < |g| {
        assert g'[k] == (m + [x])[k + 1] - (m + [x])[k];
      }
    }
  }

  /** The gaps of an increasing sequence telescope to the distance from its first to its last entry. */
  lemma {:induction false} GapsSum(m: seq<int>)
    requires |m| > 0
    ensures SumInt(Gaps(m)) == m[|m| - 1] - m[0]
    decreases |m|
  {
    if |m| > 1 {
      var p := m[..|m| - 1];
      GapsSum(p);
      assert m == p + [m[|m| - 1]];
      GapsAppend(p, m[|m| - 1]);
      var g := Gaps(p) + [m[|m| - 1] - p[|p| - 1]];
      assert g[..|g| - 1] == Gaps(p);
    }
  }

  /** Looking at one more entry appends its index when it is marked. */
  lemma MarkedStep(b: seq<bool>, i: int)
    requires 1 <= i < |b|
    ensures MarkedIndices(b[..i + 1]) == MarkedIndices(b[..i]) + (if b[i] then [i] else [])
  {
    assert b[..i + 1][..i] == b[..i];
  }

  /** The state of the `GapLengths` loop after the entries before `i`: the last mark seen and the gaps so far. */
  ghost predicate GapState(b: seq<bool>, i: int, prev: int, gaps: seq<int>)
    requires 1 <= i <= |b|
  {
    var m := MarkedIndices(b[..i]);
    prev == (if m == [] then 0 else m[|m| - 1]) && gaps == Gaps(m)
  }

  /** A step of the `GapLengths` loop over an unmarked entry changes nothing. */
  lemma GapStepUnmarked(b: seq<bool>, i: int, prev: int, gaps: seq<int>)
    requires 1 <= i < |b| && GapState(b, i, prev, gaps) && !b[i]
    ensures GapState(b, i + 1, prev, gaps)
  {
    MarkedStep(b, i);
  }

  /** The first mark records its index and no gap. */
  lemma GapStepFirst(b: seq<bool>, i: int, prev: int, gaps: seq<int>)
    requires 1 <= i < |b| && GapState(b, i, prev, gaps) && b[i] && prev <= 0
    ensures GapState(b, i + 1, i, gaps)
  {
    MarkedStep(b, i);
    var m := MarkedIndices(b[..i]);
    assert m == [];
    assert MarkedIndices(b[..i + 1]) == [i];
  }

  /** Every later mark appends its distance from the previous one. */
  lemma GapStepNext(b: seq<bool>, i: int, prev: int, gaps: seq<int>)
    requires 1 <= i < |b| && GapState(b, i, prev, gaps) && b[i] && prev > 0
    ensures GapState(b, i + 1, i, gaps + [i - prev])
  {
    MarkedStep(b, i);
    var m := MarkedIndices(b[..i]);
    assert m != [] && m[|m| - 1] == prev;
    assert MarkedIndices(b[..i + 1]) == m + [i];
    GapsAppend(m, i);
  }

  /**
   * `GapLengths(bool[])`: the distances between consecutive marked indices
   * (ignoring index 0). Every gap is at least 1.
   */
  method GapLengths(binaryArray: seq<bool>) returns (gaps: seq<int>)
    ensures gaps == Gaps(MarkedIndices(binaryArray))
    ensures forall k :: 0 <= k < |gaps| ==> gaps[k] >= 1
  {
    gaps := [];
    var prev := 0;
    var n := |binaryArray|;
    if n >= 1 {
      for i := 1 to n
        invariant GapState(binaryArray, i, prev, gaps)
      {
        if binaryArray[i] && prev > 0 {
          GapStepNext(binaryArray, i, prev, gaps);
          gaps := gaps + [i - prev];
          prev := i;
        } else if binaryArray[i] {
          GapStepFirst(binaryArray, i, prev, gaps);
          prev := i;
        } else {
          GapStepUnmarked(binaryArray, i, prev, gaps);
        }
      }
      assert binaryArray[..n] == binaryArray;
    }
    GapsPositive(MarkedIndices(binaryArray));
  }

  /** The gaps of a strictly increasing sequence are all at least 1. */
  lemma GapsPositive(m: seq<int>)
    requires forall k :: 0 <= k < |m| - 1 ==> m[k] < m[k + 1]
    ensures forall k :: 0 <= k < |Gaps(m)| ==> Gaps(m)[k] >= 1
  {
  }

  /** Which entries equal exactly 1.0. */
  function Ones(binaryArray: seq<real>): (mask: seq<bool>)
    ensures |mask| == |binaryArray|
  {
    seq(|binaryArray|, i requires 0 <= i < |binaryArray| => binaryArray[i] == 1.0)
  }

  /** `GapLengths(double[])`: the same rule, where a mark is an entry equal to 1.0. */
  method GapLengthsOfOnes(binaryArray: seq<real>) returns (gaps: seq<int>)
    ensures gaps == Gaps(MarkedIndices(Ones(binaryArray)))
    ensures forall k :: 0 <= k < |gaps| ==> gaps[k] >= 1
  {
    gaps := GapLengths(Ones(binaryArray));
  }
}
