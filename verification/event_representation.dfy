/**
 * Acoustic events as pixel boxes (`EventBasedRepresentation`): the integer
 * geometry derived from an event's time and frequency bounds, the selection
 * of events whose centroid lies inside a query rectangle, the in-place
 * clipping of the selected events to that rectangle, and the frequency
 * filter applied to candidate events.
 */
module EventRepresentation {
  import opened Common
  import DataStats

  datatype Point = Point(x: int, y: int)

  /** A box in pixels: bottom row, left column, width and height. */
  datatype Box = Box(bottom: int, left: int, width: int, height: int)

  /** A selection rectangle in pixels; a query or the bounds given to `SelectEvents`. */
  datatype Window = Window(leftInPixel: int, rightInPixel: int, bottomInPixel: int, topInPixel: int)

  // ---------------------------------------------------------------------------
  // Geometry
  // ---------------------------------------------------------------------------

  /** The pixel box of an event, as the constructor derives it. */
  function EventBox(timeScale: real, freqScale: real, maxFrequency: real, minFrequency: real,
                    startTime: real, endTime: real): Box
    requires timeScale != 0.0 && freqScale != 0.0
  {
    Box(Truncate(minFrequency / freqScale) + 1,
        Truncate(startTime / timeScale) + 1,
        Truncate((endTime - startTime) / timeScale) + 1,
        Truncate((maxFrequency - minFrequency) / freqScale) + 1 + 1)
  }

  /** The centroid: the box's corner plus half its width and height, in integer division. */
  function Centroid(b: Box): Point
  {
    Point(b.left + DataStats.TruncDiv(b.width, 2), b.bottom + DataStats.TruncDiv(b.height, 2))
  }

  /**
   * For an event with non-negative bounds, positive scales and its end not
   * before its start, the box starts at pixel 1 or later, is at least one
   * pixel wide and two high, and the centroid lies inside it, strictly above
   * the bottom row. The area is then at least 2.
   */
  lemma EventBoxWellFormed(timeScale: real, freqScale: real, maxFrequency: real, minFrequency: real,
                           startTime: real, endTime: real)
    requires timeScale > 0.0 && freqScale > 0.0
    requires 0.0 <= minFrequency <= maxFrequency && 0.0 <= startTime <= endTime
    ensures var b := EventBox(timeScale, freqScale, maxFrequency, minFrequency, startTime, endTime);
      var c := Centroid(b);
      b.bottom >= 1 && b.left >= 1 && b.width >= 1 && b.height >= 2 &&
      b.left <= c.x < b.left + b.width && b.bottom < c.y < b.bottom + b.height &&
      b.width * b.height >= 2
  {
    var b := EventBox(timeScale, freqScale, maxFrequency, minFrequency, startTime, endTime);
    assert minFrequency / freqScale >= 0.0 && startTime / timeScale >= 0.0;
    assert (endTime - startTime) / timeScale >= 0.0 && (maxFrequency - minFrequency) / freqScale >= 0.0;
    MulMonotone(1, b.width, b.height);
  }

  /** An acoustic event with its pixel geometry; clipping updates the geometry in place. */
  class Event {
    const maxFreq: real
    const minFreq: real
    const timeStart: real
    const duration: real
    const centroid: Point
    var bottom: int
    var left: int
    var width: int
    var height: int
    var area: int

    function Extent(): Box
      reads this
    {
      Box(bottom, left, width, height)
    }

    /** The constructor: stores the bounds and derives box, centroid and area from them. */
    constructor (timeScale: real, freqScale: real, maxFrequency: real, minFrequency: real, startTime: real, endTime: real)
      requires timeScale != 0.0 && freqScale != 0.0
      ensures maxFreq == maxFrequency && minFreq == minFrequency
      ensures timeStart == startTime && duration == endTime - startTime
      ensures Extent() == EventBox(timeScale, freqScale, maxFrequency, minFrequency, startTime, endTime)
      ensures centroid == Centroid(Extent()) && area == width * height
    {
      maxFreq := maxFrequency;
      minFreq := minFrequency;
      timeStart := startTime;
      duration := endTime - startTime;
      var b := Truncate(minFrequency / freqScale) + 1;
      var l := Truncate(startTime / timeScale) + 1;
      var w := Truncate((endTime - startTime) / timeScale) + 1;
      var h := Truncate((maxFrequency - minFrequency) / freqScale) + 1 + 1;
      bottom, left, width, height := b, l, w, h;
      centroid := Point(l + DataStats.TruncDiv(w, 2), b + DataStats.TruncDiv(h, 2));
      area := w * h;
    }
  }

  // ---------------------------------------------------------------------------
  // Selection by centroid
  // ---------------------------------------------------------------------------

  /** The centroid lies strictly inside the window. */
  predicate CentroidInside(c: Point, w: Window)
  {
    w.leftInPixel < c.x < w.rightInPixel && w.bottomInPixel < c.y < w.topInPixel
  }

  /** The events whose centroid lies strictly inside the window, in their order. */
  function Kept(events: seq<Event>, w: Window): (kept: seq<Event>)
    ensures |kept| <= |events|
  {
    if events == [] then []
    else
      var n := |events| - 1;
      Kept(events[..n], w) + (if CentroidInside(events[n].centroid, w) then [events[n]] else [])
  }

  /** An event is kept exactly when it is in the list and its centroid lies inside the window. */
  lemma {:induction false} KeptMembers(events: seq<Event>, w: Window)
    ensures forall e :: e in Kept(events, w) <==> e in events && CentroidInside(e.centroid, w)
  {
    if events != [] {
      var n := |events| - 1;
      KeptMembers(events[..n], w);
      assert events == events[..n] + [events[n]];
    }
  }

  lemma KeptExtend(events: seq<Event>, w: Window, i: int)
    requires 0 <= i < |events|
    ensures Kept(events[..i + 1], w) ==
      Kept(events[..i], w) + (if CentroidInside(events[i].centroid, w) then [events[i]] else [])
  {
    assert events[..i + 1][..i] == events[..i];
  }

  // ---------------------------------------------------------------------------
  // Clipping to a query
  // ---------------------------------------------------------------------------

  /** The box lies inside the window. */
  predicate BoxInside(b: Box, w: Window)
  {
    w.bottomInPixel <= b.bottom && b.bottom + b.height <= w.topInPixel &&
    w.leftInPixel <= b.left && b.left + b.width <= w.rightInPixel
  }

  /**
   * The clipping of `ReadQueryAsAcousticEventList`: the bottom and left edges
   * are raised to the query's, then the height and width are cut so that the
   * box ends at the query's top and right edges. The result lies inside the
   * query, never grows, and equals the box exactly when the box already lies
   * inside.
   */
  function ClippedToQuery(b: Box, q: Window): (c: Box)
    ensures BoxInside(c, q)
    ensures c.bottom >= b.bottom && c.left >= b.left && c.height <= b.height && c.width <= b.width
    ensures c == b <==> BoxInside(b, q)
  {
    var bottom := if b.bottom < q.bottomInPixel then q.bottomInPixel else b.bottom;
    var height := if bottom + b.height > q.topInPixel then q.topInPixel - bottom else b.height;
    var left := if b.left < q.leftInPixel then q.leftInPixel else b.left;
    var width := if left + b.width > q.rightInPixel then q.rightInPixel - left else b.width;
    Box(bottom, left, width, height)
  }

  /** Clipping twice is clipping once, so an event listed twice is clipped as if listed once. */
  lemma ClippedToQueryIdempotent(b: Box, q: Window)
    ensures ClippedToQuery(ClippedToQuery(b, q), q) == ClippedToQuery(b, q)
  {
    assert BoxInside(ClippedToQuery(b, q), q);
  }

  /** Clips one event to the query in place. */
  method ClipToQuery(e: Event, q: Window)
    modifies e
    ensures e.Extent() == ClippedToQuery(old(e.Extent()), q)
    ensures e.area == old(e.area)
  {
    if e.bottom < q.bottomInPixel {
      e.bottom := q.bottomInPixel;
    }
    if e.bottom + e.height > q.topInPixel {
      e.height := q.topInPixel - e.bottom;
    }
    if e.left < q.leftInPixel {
      e.left := q.leftInPixel;
    }
    if e.left + e.width > q.rightInPixel {
      e.width := q.rightInPixel - e.left;
    }
  }

  /**
   * `ReadQueryAsAcousticEventList`: keeps the events whose centroid lies
   * strictly inside the query, in order, and clips each kept event in place
   * to the query. Rejected events are not changed.
   */
  method ReadQueryAsAcousticEventList(events: seq<Event>, query: Window) returns (result: seq<Event>)
    modifies events
    ensures result == Kept(events, query)
    ensures forall e :: e in events ==> e.area == old(e.area)
    ensures forall e :: e in events ==>
      e.Extent() == if CentroidInside(e.centroid, query) then ClippedToQuery(old(e.Extent()), query) else old(e.Extent())
  {
    result := [];
    for i := 0 to |events|
      invariant result == Kept(events[..i], query)
      invariant forall e :: e in events ==> e.area == old(e.area)
      invariant forall e :: e in events ==>
        e.Extent() == if e in events[..i] && CentroidInside(e.centroid, query)
                      then ClippedToQuery(old(e.Extent()), query) else old(e.Extent())
    {
      var e := events[i];
      KeptExtend(events, query, i);
      assert events[..i + 1] == events[..i] + [e];
      if e.centroid.x > query.leftInPixel && e.centroid.x < query.rightInPixel {
        if e.centroid.y > query.bottomInPixel && e.centroid.y < query.topInPixel {
          ClippedToQueryIdempotent(old(e.Extent()), query);
          ClipToQuery(e, query);
          result := result + [e];
        }
      }
    }
    assert events[..|events|] == events;
  }

  // ---------------------------------------------------------------------------
  // Selection with the frequency quirk
  // ---------------------------------------------------------------------------

  /**
   * The clipping of `SelectEvents`. Bottom, left and width are clipped as for
   * a query, but when the box overflows the top the new height is the top
   * minus the old height, not minus the bottom.
   */
  function SelectClipped(b: Box, w: Window): (c: Box)
    ensures c.bottom >= w.bottomInPixel && c.bottom >= b.bottom
    ensures c.left >= w.leftInPixel && c.left + c.width <= w.rightInPixel
    ensures c.bottom + b.height > w.topInPixel ==> c.height == w.topInPixel - b.height
    ensures c.bottom + b.height <= w.topInPixel ==> c.height == b.height
  {
    var bottom := if b.bottom < w.bottomInPixel then w.bottomInPixel else b.bottom;
    var height := if bottom + b.height > w.topInPixel then w.topInPixel - b.height else b.height;
    var left := if b.left < w.leftInPixel then w.leftInPixel else b.left;
    var width := if left + b.width > w.rightInPixel then w.rightInPixel - left else b.width;
    Box(bottom, left, width, height)
  }

  /**
   * Because of the height rule a selected event can still reach above the
   * top, and selecting it again restores its old height: bottom 10 and
   * height 4 under a top of 12 become height 8, then 4 again.
   */
  lemma SelectClippedCanOverflow()
    ensures var w := Window(0, 100, 0, 12);
      var b := Box(10, 0, 1, 4);
      var c := SelectClipped(b, w);
      c.height == 8 && c.bottom + c.height > w.topInPixel && !BoxInside(c, w) &&
      SelectClipped(c, w) == b
  {
  }

  /** The box after `k` selections. */
  function SelectedTimes(b: Box, w: Window, k: nat): Box
  {
    if k == 0 then b else SelectClipped(SelectedTimes(b, w, k - 1), w)
  }

  lemma {:induction false} SelectedTimesAdd(b: Box, w: Window, j: nat, k: nat)
    ensures SelectedTimes(SelectedTimes(b, w, j), w, k) == SelectedTimes(b, w, j + k)
    decreases k
  {
    if k > 0 {
      SelectedTimesAdd(b, w, j, k - 1);
    }
  }

  /**
   * An event went from extent `before` and area `beforeArea` to `after` and
   * `afterArea` by `n` selections: each selection clips the extent and
   * recomputes the area, none leaves both untouched.
   */
  predicate SelectedFrom(before: Box, beforeArea: int, after: Box, afterArea: int, w: Window, n: nat)
  {
    after == SelectedTimes(before, w, n) && afterArea == if n > 0 then after.width * after.height else beforeArea
  }

  /** `j` selections followed by `k` more are `j + k` selections. */
  lemma SelectedFromCompose(b0: Box, a0: int, b1: Box, a1: int, b2: Box, a2: int, w: Window, j: nat, k: nat)
    requires SelectedFrom(b0, a0, b1, a1, w, j) && SelectedFrom(b1, a1, b2, a2, w, k)
    ensures SelectedFrom(b0, a0, b2, a2, w, j + k)
  {
    SelectedTimesAdd(b0, w, j, k);
  }

  /** Selects one event in place: clip with the height rule, then recompute the area. */
  method SelectInPlace(c: Event, w: Window)
    modifies c
    ensures c.Extent() == SelectClipped(old(c.Extent()), w)
    ensures c.area == c.width * c.height
  {
    if c.bottom < w.bottomInPixel {
      c.bottom := w.bottomInPixel;
    }
    if c.bottom + c.height > w.topInPixel {
      c.height := w.topInPixel - c.height;
    }
    if c.left < w.leftInPixel {
      c.left := w.leftInPixel;
    }
    if c.left + c.width > w.rightInPixel {
      c.width := w.rightInPixel - c.left;
    }
    c.area := c.width * c.height;
  }

  /** The selection window of `SelectEvents`: time as the horizontal, frequency as the vertical axis. */
  function SelectionWindow(minFreq: int, maxFreq: int, startTime: int, endTime: int): Window
  {
    Window(startTime, endTime, minFreq, maxFreq)
  }

  /** How often `SelectEvents` has selected `e` after the first `i` entries of the list. */
  function SelectedCount(events: seq<Event>, i: int, e: Event, w: Window): nat
    requires 0 <= i <= |events|
  {
    if CentroidInside(e.centroid, w) then multiset(events[..i])[e] else 0
  }

  /** Every event of `events` went from its extent in `orig` to its present one by as many selections as `SelectEvents` has made of it after `i` entries. */
  ghost predicate SelectedSoFar(events: seq<Event>, i: int, w: Window, orig: map<Event, (Box, int)>)
    requires 0 <= i <= |events|
    reads set e | e in events
  {
    forall e :: e in events ==>
      e in orig && SelectedFrom(orig[e].0, orig[e].1, e.Extent(), e.area, w, SelectedCount(events, i, e, w))
  }

  /**
   * One entry of `SelectEvents`' loop: the event at `i` is selected in place
   * when its centroid is strictly inside the window, and appended to the
   * result; every event has then been selected as often as it occurs in
   * the first `i + 1` entries.
   */
  method SelectStep(events: seq<Event>, i: int, w: Window, result: seq<Event>, ghost orig: map<Event, (Box, int)>)
    returns (result': seq<Event>)
    requires 0 <= i < |events|
    requires SelectedSoFar(events, i, w, orig)
    modifies events[i]
    ensures SelectedSoFar(events, i + 1, w, orig)
    ensures result' == result + if CentroidInside(events[i].centroid, w) then [events[i]] else []
  {
    var c := events[i];
    var selected := SelectIfInside(c, w);
    result' := if selected then result + [c] else result;
    assert events[..i + 1] == events[..i] + [c];
    forall e | e in events
      ensures e in orig && SelectedFrom(orig[e].0, orig[e].1, e.Extent(), e.area, w, SelectedCount(events, i + 1, e, w))
    {
      assert e in orig && SelectedFrom(orig[e].0, orig[e].1, old(e.Extent()), old(e.area), w, SelectedCount(events, i, e, w));
      if e == c {
        SelectedFromCompose(orig[e].0, orig[e].1, old(e.Extent()), old(e.area), e.Extent(), e.area, w,
                            SelectedCount(events, i, e, w), if selected then 1 else 0);
      }
    }
  }

  /** One entry of `SelectEvents`' loop: an event whose centroid is strictly inside the window is selected in place. */
  method SelectIfInside(c: Event, w: Window) returns (selected: bool)
    modifies c
    ensures selected == CentroidInside(c.centroid, w)
    ensures SelectedFrom(old(c.Extent()), old(c.area), c.Extent(), c.area, w, if selected then 1 else 0)
  {
    selected := false;
    if c.centroid.x > w.leftInPixel && c.centroid.x < w.rightInPixel {
      if c.centroid.y > w.bottomInPixel && c.centroid.y < w.topInPixel {
        SelectInPlace(c, w);
        selected := true;
      }
    }
  }

  /**
   * `SelectEvents`: when both corners pass the boundary check (an external
   * rule, taken as a parameter), keeps the events whose centroid lies
   * strictly inside the window, in order, selecting each kept event in
   * place once per occurrence in the list and recomputing its area.
   */
  method SelectEvents(eventList: seq<Event>, minFreq: int, maxFreq: int, startTime: int, endTime: int,
                      maxFrequency: int, maxFrame: int, checkBoundary: (int, int, int, int) -> bool)
    returns (result: seq<Event>)
    modifies eventList
    ensures var w := SelectionWindow(minFreq, maxFreq, startTime, endTime);
      var ok := checkBoundary(minFreq, startTime, maxFrequency, maxFrame) && checkBoundary(maxFreq, endTime, maxFrequency, maxFrame);
      result == (if ok then Kept(eventList, w) else []) &&
      forall e :: e in eventList ==>
        var n := if ok && CentroidInside(e.centroid, w) then multiset(eventList)[e] else 0;
        SelectedFrom(old(e.Extent()), old(e.area), e.Extent(), e.area, w, n)
  {
    var w := SelectionWindow(minFreq, maxFreq, startTime, endTime);
    ghost var orig := map e | e in eventList :: (e.Extent(), e.area);
    result := [];
    if checkBoundary(minFreq, startTime, maxFrequency, maxFrame) && checkBoundary(maxFreq, endTime, maxFrequency, maxFrame) {
      assert eventList[..0] == [];
      for i := 0 to |eventList|
        invariant result == Kept(eventList[..i], w)
        invariant SelectedSoFar(eventList, i, w, orig)
      {
        KeptExtend(eventList, w, i);
        result := SelectStep(eventList, i, w, result, orig);
      }
      assert eventList[..|eventList|] == eventList;
    }
  }

  /** How often `e` occurs in the first `n` lists. */
  function Occurrences(lists: seq<seq<Event>>, n: int, e: Event): nat
    requires 0 <= n <= |lists|
  {
    if n == 0 then 0 else Occurrences(lists, n - 1, e) + multiset(lists[n - 1])[e]
  }

  /** The events of the first four lists. */
  function FirstFourEvents(lists: seq<seq<Event>>): set<Event>
  {
    set k, e | 0 <= k < |lists| && k < 4 && e in lists[k] :: e
  }

  lemma InFirstFour(lists: seq<seq<Event>>, k: int)
    requires 0 <= k < |lists| && k < 4
    ensures forall e :: e in lists[k] ==> e in FirstFourEvents(lists)
  {
  }

  /** The selections of the first `k` lists, in order; none passes when the boundary check fails. */
  function Selections(lists: seq<seq<Event>>, k: int, w: Window, ok: bool): (r: seq<seq<Event>>)
    requires 0 <= k <= |lists|
    ensures |r| == k
  {
    if k == 0 then [] else Selections(lists, k - 1, w, ok) + [if ok then Kept(lists[k - 1], w) else []]
  }

  /** The `j`-th selection is the `j`-th list filtered by the window. */
  lemma {:induction false} SelectionsAt(lists: seq<seq<Event>>, k: int, w: Window, ok: bool)
    requires 0 <= k <= |lists|
    ensures forall j :: 0 <= j < k ==> Selections(lists, k, w, ok)[j] == if ok then Kept(lists[j], w) else []
  {
    if k > 0 {
      var prefix := Selections(lists, k - 1, w, ok);
      SelectionsAt(lists, k - 1, w, ok);
      forall j | 0 <= j < k
        ensures Selections(lists, k, w, ok)[j] == if ok then Kept(lists[j], w) else []
      {
        if j < k - 1 {
          assert Selections(lists, k, w, ok)[j] == prefix[j];
        }
      }
    }
  }

  /** The number of orientation lists `AddSelectedEventLists` reads: four, or all of them when fewer. */
  function FirstFour(lists: seq<seq<Event>>): (n: nat)
    ensures n <= |lists| && n <= 4 && (n == 4 || n == |lists|)
  {
    if |lists| < 4 then |lists| else 4
  }

  /** How often `AddSelectedEventLists` has selected `e` after the first `k` lists. */
  function ListCount(lists: seq<seq<Event>>, k: int, e: Event, w: Window, ok: bool): nat
    requires 0 <= k <= |lists|
  {
    if ok && CentroidInside(e.centroid, w) then Occurrences(lists, k, e) else 0
  }

  /** Every event of the first four lists went from its extent in `orig` to its present one by as many selections as the first `k` lists make of it. */
  ghost predicate ListsSelectedSoFar(lists: seq<seq<Event>>, k: int, w: Window, ok: bool, orig: map<Event, (Box, int)>)
    requires 0 <= k <= |lists|
    reads FirstFourEvents(lists)
  {
    forall e :: e in FirstFourEvents(lists) ==>
      e in orig && SelectedFrom(orig[e].0, orig[e].1, e.Extent(), e.area, w, ListCount(lists, k, e, w, ok))
  }

  /** One round of `AddSelectedEventLists`' loop: `SelectEvents` on the `k`-th list, appended to the result. */
  method SelectListStep(lists: seq<seq<Event>>, k: int, minFreq: int, maxFreq: int, startTime: int, endTime: int,
                        maxFrequency: int, maxFrame: int, checkBoundary: (int, int, int, int) -> bool,
                        result: seq<seq<Event>>, ghost ok: bool, ghost orig: map<Event, (Box, int)>)
    returns (result': seq<seq<Event>>)
    requires 0 <= k < |lists| && k < 4
    requires ok == (checkBoundary(minFreq, startTime, maxFrequency, maxFrame) && checkBoundary(maxFreq, endTime, maxFrequency, maxFrame))
    requires ListsSelectedSoFar(lists, k, SelectionWindow(minFreq, maxFreq, startTime, endTime), ok, orig)
    modifies lists[k]
    ensures ListsSelectedSoFar(lists, k + 1, SelectionWindow(minFreq, maxFreq, startTime, endTime), ok, orig)
    ensures result' == result + [if ok then Kept(lists[k], SelectionWindow(minFreq, maxFreq, startTime, endTime)) else []]
  {
    var w := SelectionWindow(minFreq, maxFreq, startTime, endTime);
    InFirstFour(lists, k);
    var selected := SelectEvents(lists[k], minFreq, maxFreq, startTime, endTime, maxFrequency, maxFrame, checkBoundary);
    result' := result + [selected];
    forall e | e in FirstFourEvents(lists)
      ensures e in orig && SelectedFrom(orig[e].0, orig[e].1, e.Extent(), e.area, w, ListCount(lists, k + 1, e, w, ok))
    {
      var before := ListCount(lists, k, e, w, ok);
      var now := if ok && CentroidInside(e.centroid, w) then multiset(lists[k])[e] else 0;
      assert e in orig && SelectedFrom(orig[e].0, orig[e].1, old(e.Extent()), old(e.area), w, before);
      if e !in lists[k] {
        assert multiset(lists[k])[e] == 0;
      }
      assert SelectedFrom(old(e.Extent()), old(e.area), e.Extent(), e.area, w, now);
      SelectedFromCompose(orig[e].0, orig[e].1, old(e.Extent()), old(e.area), e.Extent(), e.area, w, before, now);
    }
  }

  /**
   * `AddSelectedEventLists`: `SelectEvents` on each of the four orientation
   * lists in turn. With fewer than four lists the missing list is an index
   * fault, raised after the lists before it have been selected.
   */
  method AddSelectedEventLists(eventList: seq<seq<Event>>, minFreq: int, maxFreq: int, startTime: int, endTime: int,
                               maxFrequency: int, maxFrame: int, checkBoundary: (int, int, int, int) -> bool)
    returns (r: Outcome<seq<seq<Event>>>)
    modifies FirstFourEvents(eventList)
    ensures var w := SelectionWindow(minFreq, maxFreq, startTime, endTime);
      var ok := checkBoundary(minFreq, startTime, maxFrequency, maxFrame) && checkBoundary(maxFreq, endTime, maxFrequency, maxFrame);
      var n := FirstFour(eventList);
      (r.Fail? <==> |eventList| < 4) &&
      (r.Ok? ==> r.value == Selections(eventList, 4, w, ok)) &&
      forall e :: e in FirstFourEvents(eventList) ==>
        var times := if ok && CentroidInside(e.centroid, w) then Occurrences(eventList, n, e) else 0;
        SelectedFrom(old(e.Extent()), old(e.area), e.Extent(), e.area, w, times)
  {
    var w := SelectionWindow(minFreq, maxFreq, startTime, endTime);
    ghost var ok := checkBoundary(minFreq, startTime, maxFrequency, maxFrame) && checkBoundary(maxFreq, endTime, maxFrequency, maxFrame);
    ghost var orig := map e | e in FirstFourEvents(eventList) :: (e.Extent(), e.area);
    var result: seq<seq<Event>> := [];
    for k := 0 to 4
      invariant k <= |eventList|
      invariant result == Selections(eventList, k, w, ok)
      invariant ListsSelectedSoFar(eventList, k, w, ok, orig)
    {
      if k >= |eventList| {
        return Fail(IndexOutOfRange);
      }
      InFirstFour(eventList, k);
      result := SelectListStep(eventList, k, minFreq, maxFreq, startTime, endTime, maxFrequency, maxFrame, checkBoundary, result, ok, orig);
    }
    r := Ok(result);
  }

  // ---------------------------------------------------------------------------
  // Candidate events near the query in frequency
  // ---------------------------------------------------------------------------

  /** The events in `s` are ordered by start time. */
  predicate SortedByStart(s: seq<Event>)
  {
    forall i, j :: 0 <= i < j < |s| ==> s[i].timeStart <= s[j].timeStart
  }

  /** Exchanges two neighbouring entries of `a`. */
  method SwapWithPrevious(a: array<Event>, j: int)
    requires 0 < j < a.Length
    modifies a
    ensures a[..] == old(a[..])[j - 1 := old(a[j])][j := old(a[j - 1])]
    ensures multiset(a[..]) == multiset(old(a[..]))
  {
    a[j - 1], a[j] := a[j], a[j - 1];
  }

  /**
   * Sorts the query list by start time in place (by insertion). The library
   * sort the system calls is not stable; the model promises only what the
   * comparison fixes: the order of start times and the same entries.
   */
  method SortByStart(a: array<Event>)
    modifies a
    ensures SortedByStart(a[..]) && multiset(a[..]) == multiset(old(a[..]))
  {
    for i := 0 to a.Length
      invariant forall p, q :: 0 <= p < q < i ==> a[p].timeStart <= a[q].timeStart
      invariant multiset(a[..]) == multiset(old(a[..]))
    {
      InsertLast(a, i);
    }
  }

  /** One insertion step: the entry at `i` moves down past the later-starting entries before it. */
  method InsertLast(a: array<Event>, i: int)
    requires 0 <= i < a.Length
    requires forall p, q :: 0 <= p < q < i ==> a[p].timeStart <= a[q].timeStart
    modifies a
    ensures forall p, q :: 0 <= p < q <= i ==> a[p].timeStart <= a[q].timeStart
    ensures multiset(a[..]) == multiset(old(a[..]))
  {
    var j := i;
    while j > 0 && a[j - 1].timeStart > a[j].timeStart
      invariant 0 <= j <= i
      invariant forall p, q :: 0 <= p < q < j ==> a[p].timeStart <= a[q].timeStart
      invariant forall p, q :: j <= p < q <= i ==> a[p].timeStart <= a[q].timeStart
      invariant forall p, q :: 0 <= p < j < q <= i ==> a[p].timeStart <= a[q].timeStart
      invariant multiset(a[..]) == multiset(old(a[..]))
    {
      SwapWithPrevious(a, j);
      j := j - 1;
    }
  }

  /** `|a - b|` on integers. */
  function Abs(a: int): nat
  {
    if a < 0 then -a else a
  }

  /** The candidates whose centroid frequency is within `offset` of `y`, in order. */
  function NearInFrequency(candidates: seq<Event>, y: int, offset: int): (near: seq<Event>)
    ensures |near| <= |candidates|
    ensures forall i :: 0 <= i < |near| ==> near[i] in candidates && Abs(near[i].centroid.y - y) <= offset
    ensures forall i :: 0 <= i < |candidates| && Abs(candidates[i].centroid.y - y) <= offset ==> candidates[i] in near
  {
    if candidates == [] then []
    else
      var n := |candidates| - 1;
      NearInFrequency(candidates[..n], y, offset) + (if Abs(candidates[n].centroid.y - y) <= offset then [candidates[n]] else [])
  }

  /**
   * `ExtractPotentialCandidateEvents`: sorts the query events by start time
   * in place and keeps the candidates whose centroid frequency is within
   * `centroidFreqOffset` of the earliest query event's. An empty query list
   * is an index fault.
   */
  method ExtractPotentialCandidateEvents(queryRepresentations: array<Event>, candidateEventList: seq<Event>,
                                         centroidFreqOffset: int) returns (r: Outcome<seq<Event>>)
    modifies queryRepresentations
    ensures SortedByStart(queryRepresentations[..])
    ensures multiset(queryRepresentations[..]) == multiset(old(queryRepresentations[..]))
    ensures r.Fail? <==> queryRepresentations.Length == 0
    ensures r.Ok? ==> r.value == NearInFrequency(candidateEventList, queryRepresentations[0].centroid.y, centroidFreqOffset)
  {
    if queryRepresentations.Length > 0 {
      SortByStart(queryRepresentations);
    }
    if queryRepresentations.Length == 0 {
      return Fail(IndexOutOfRange);
    }
    var first := queryRepresentations[0];
    var potentialCandidateLocation: seq<Event> := [];
    for i := 0 to |candidateEventList|
      invariant potentialCandidateLocation == NearInFrequency(candidateEventList[..i], first.centroid.y, centroidFreqOffset)
    {
      var c := candidateEventList[i];
      assert candidateEventList[..i + 1][..i] == candidateEventList[..i];
      if Abs(c.centroid.y - first.centroid.y) <= centroidFreqOffset {
        potentialCandidateLocation := potentialCandidateLocation + [c];
      }
    }
    assert candidateEventList[..|candidateEventList|] == candidateEventList;
    r := Ok(potentialCandidateLocation);
  }

  /** The earliest query event starts no later than any other. */
  lemma SortedFirstIsEarliest(s: seq<Event>)
    requires SortedByStart(s) && |s| > 0
    ensures forall e :: e in s ==> s[0].timeStart <= e.timeStart
  {
    forall e | e in s
      ensures s[0].timeStart <= e.timeStart
    {
      var j :| 0 <= j < |s| && s[j] == e;
      if j > 0 {
        assert s[0].timeStart <= s[j].timeStart;
      }
    }
  }
}
