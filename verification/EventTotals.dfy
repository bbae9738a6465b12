/**
 Totals of one resource's projection (EventLedger.summarize): quantity x
 milliseconds per meter over confirmed segments, clipped to an optional window,
 and the unclipped length of the uncertain gaps.  Both are shown to be sums,
 millisecond by millisecond, of what the events say.
 */
module EventTotals {
  import opened Basics
  import opened EventFold

  datatype Window = Everything | Between(start: int, end: int)

  /** What is being added up: a meter's confirmed quantity, or uncertain milliseconds. */
  datatype Measure = ConfirmedMeter(meter: string) | UncertainTime

  function UseWeight(u: Use, x: Measure): nat {
    match x
    case ConfirmedMeter(m) => if u.certainty == Confirmed && m in u.quantity then u.quantity[m] else 0
    case UncertainTime => if u.certainty == Uncertain then 1 else 0
  }

  function Weight(u: Option<Use>, x: Measure): nat {
    if u.None? then 0 else UseWeight(u.value, x)
  }

  function Clipped(g: Segment, w: Window): int {
    match w
    case Everything => g.end - g.start
    case Between(a, b) => Max(0, Min(g.end, b) - Max(g.start, a))
  }

  /** The interval-arithmetic total. */
  function SegmentTotal(segments: seq<Segment>, x: Measure, w: Window): int {
    if segments == [] then 0
    else
      var g := segments[|segments| - 1];
      SegmentTotal(segments[..|segments| - 1], x, w) +
      UseWeight(Use(g.quantity, g.certainty), x) * Clipped(g, w)
  }

  /** The sum over [a, b) of what the events say at each millisecond. */
  function ReadingTotal(s: seq<Event>, x: Measure, a: int, b: int): nat
    decreases b - a
  {
    if b <= a then 0 else ReadingTotal(s, x, a, b - 1) + Weight(Reading(s, b - 1), x)
  }

  function PointTotal(segments: seq<Segment>, x: Measure, a: int, b: int): nat
    decreases b - a
  {
    if b <= a then 0 else PointTotal(segments, x, a, b - 1) + Weight(SegmentAt(segments, b - 1), x)
  }

  lemma {:induction false} PointTotalEmpty(x: Measure, a: int, b: int)
    ensures PointTotal([], x, a, b) == 0
    decreases b - a
  {
    if a < b { PointTotalEmpty(x, a, b - 1); }
  }

  /** Adding one more segment adds its weight once per millisecond of overlap. */
  lemma {:induction false} PointTotalAppend(segments: seq<Segment>, g: Segment, x: Measure, a: int, b: int)
    requires g.start < g.end && Tidy(segments, g.start)
    ensures PointTotal(segments + [g], x, a, b) ==
            PointTotal(segments, x, a, b) + UseWeight(Use(g.quantity, g.certainty), x) * Clipped(g, Between(a, b))
    decreases b - a
  {
    var k := UseWeight(Use(g.quantity, g.certainty), x);
    if a < b {
      PointTotalAppend(segments, g, x, a, b - 1);
      SegmentAtAppend(segments, g, b - 1);
      var before, after := Clipped(g, Between(a, b - 1)), Clipped(g, Between(a, b));
      if g.start <= b - 1 < g.end {
        NothingAtOrAfter(segments, g.start, b - 1);
        assert after == before + 1;
        assert k * (before + 1) == k * before + k;
      } else {
        assert after == before;
      }
    }
  }

  lemma {:induction false} PointsAddUp(segments: seq<Segment>, horizon: int, x: Measure, a: int, b: int)
    requires Tidy(segments, horizon)
    ensures SegmentTotal(segments, x, Between(a, b)) == PointTotal(segments, x, a, b)
  {
    if segments == [] {
      PointTotalEmpty(x, a, b);
    } else {
      var front, g := segments[..|segments| - 1], segments[|segments| - 1];
      assert segments == front + [g];
      PointsAddUp(front, g.start, x, a, b);
      PointTotalAppend(front, g, x, a, b);
    }
  }

  lemma {:induction false} PointsAreReadings(s: seq<Event>, x: Measure, a: int, b: int)
    requires Sorted(s) && CutsInTime(s)
    ensures PointTotal(Folded(s).segments, x, a, b) == ReadingTotal(s, x, a, b)
    decreases b - a
  {
    if a < b {
      PointsAreReadings(s, x, a, b - 1);
      FoldRefinesReading(s, b - 1);
    }
  }

  /**
   The windowed total is the pointwise integral of the events over the window:
   neither gaps, nor redundant switches, nor the order of arrival can make it differ.
   */
  lemma TotalIsIntegral(s: seq<Event>, x: Measure, a: int, b: int)
    requires Sorted(s) && CutsInTime(s)
    ensures SegmentTotal(Folded(s).segments, x, Between(a, b)) == ReadingTotal(s, x, a, b)
  {
    FoldTracks(s);
    var c := Current(s);
    PointsAddUp(Folded(s).segments, if c >= 0 then s[c].effective else 0, x, a, b);
    PointsAreReadings(s, x, a, b);
  }

  lemma {:induction false} ReadingTotalSplits(s: seq<Event>, x: Measure, a: int, m: int, b: int)
    requires a <= m <= b
    ensures ReadingTotal(s, x, a, b) == ReadingTotal(s, x, a, m) + ReadingTotal(s, x, m, b)
    decreases b - m
  {
    if m < b { ReadingTotalSplits(s, x, a, m, b - 1); }
  }

  /** Totals of adjacent windows add up to the total of their union. */
  lemma AdjacentWindowsAdd(s: seq<Event>, x: Measure, a: int, m: int, b: int)
    requires Sorted(s) && CutsInTime(s) && a <= m <= b
    ensures SegmentTotal(Folded(s).segments, x, Between(a, b)) ==
            SegmentTotal(Folded(s).segments, x, Between(a, m)) + SegmentTotal(Folded(s).segments, x, Between(m, b))
  {
    TotalIsIntegral(s, x, a, b);
    TotalIsIntegral(s, x, a, m);
    TotalIsIntegral(s, x, m, b);
    ReadingTotalSplits(s, x, a, m, b);
  }

  lemma {:induction false} WideWindow(segments: seq<Segment>, x: Measure, a: int, b: int)
    requires Tidy(segments, b) && forall g :: g in segments ==> a <= g.start
    ensures SegmentTotal(segments, x, Everything) == SegmentTotal(segments, x, Between(a, b))
  {
    if segments != [] {
      var front, g := segments[..|segments| - 1], segments[|segments| - 1];
      assert segments == front + [g];
      WideWindow(front, x, a, b);
      assert Clipped(g, Everything) == Clipped(g, Between(a, b));
      hide UseWeight, Clipped;
    }
  }

  lemma {:induction false} SegmentsStartAtEvents(s: seq<Event>)
    ensures forall g :: g in Folded(s).segments ==> 0 <= g.start
    ensures Folded(s).open.Some? ==> 0 <= Folded(s).open.value.start
  {
    if s != [] { SegmentsStartAtEvents(s[..|s| - 1]); }
  }

  /** The unwindowed total is the integral over all time up to the last event. */
  lemma WholeTotalIsIntegral(s: seq<Event>, x: Measure)
    requires Sorted(s) && CutsInTime(s) && s != []
    ensures SegmentTotal(Folded(s).segments, x, Everything) == ReadingTotal(s, x, 0, s[|s| - 1].effective)
  {
    var b := s[|s| - 1].effective;
    assert s[..|s|] == s;
    TidyInTime(s, |s|);
    SegmentsStartAtEvents(s);
    WideWindow(Folded(s).segments, x, 0, b);
    TotalIsIntegral(s, x, 0, b);
  }

  /** What summarize reports of one resource; ranges are the uncertain segments, unclipped. */
  datatype Summary = Summary(confirmed: map<string, int>, uncertainMs: int, ranges: seq<Segment>, open: Option<OpenSegment>)

  function UncertainOf(segments: seq<Segment>): seq<Segment> {
    if segments == [] then []
    else
      var g := segments[|segments| - 1];
      UncertainOf(segments[..|segments| - 1]) + (if g.certainty == Uncertain then [g] else [])
  }

  /** The ranges are the uncertain segments, in their order and each as often as it is projected. */
  lemma {:induction false} RangesAreUncertain(segments: seq<Segment>, g: Segment)
    ensures multiset(UncertainOf(segments))[g] == if g.certainty.Uncertain? then multiset(segments)[g] else 0
    ensures forall front, back :: segments == front + back ==> UncertainOf(segments) == UncertainOf(front) + UncertainOf(back)
  {
    if segments != [] {
      var n := |segments| - 1;
      assert segments == segments[..n] + [segments[n]];
      RangesAreUncertain(segments[..n], g);
    }
    forall front, back | segments == front + back ensures UncertainOf(segments) == UncertainOf(front) + UncertainOf(back) {
      RangesJoin(front, back);
    }
  }

  lemma {:induction false} RangesJoin(front: seq<Segment>, back: seq<Segment>)
    ensures UncertainOf(front + back) == UncertainOf(front) + UncertainOf(back)
    decreases |back|
  {
    if back == [] {
      assert front + back == front;
    } else {
      assert (front + back)[..|front + back| - 1] == front + back[..|back| - 1];
      RangesJoin(front, back[..|back| - 1]);
    }
  }

  /** The loop of summarize for one resource; a resource without usage is not reported. */
  method Totals(projection: Projection, w: Window) returns (summary: Option<Summary>)
    ensures summary.None? <==> projection.segments == [] && projection.open.None?
    ensures summary.Some? ==>
              && (forall m :: (if m in summary.value.confirmed then summary.value.confirmed[m] else 0) ==
                              SegmentTotal(projection.segments, ConfirmedMeter(m), w))
              && summary.value.uncertainMs == SegmentTotal(projection.segments, UncertainTime, Everything)
              && summary.value.ranges == UncertainOf(projection.segments)
              && summary.value.open == projection.open
  {
    var segments := projection.segments;
    if segments == [] && projection.open.None? { return None; }
    var confirmed, uncertainMs, ranges := map[], 0, [];
    for n := 0 to |segments|
      invariant forall m :: (if m in confirmed then confirmed[m] else 0) ==
                            SegmentTotal(segments[..n], ConfirmedMeter(m), w)
      invariant uncertainMs == SegmentTotal(segments[..n], UncertainTime, Everything)
      invariant ranges == UncertainOf(segments[..n])
    {
      var g := segments[n];
      assert segments[..n + 1][..n] == segments[..n];
      if g.certainty == Confirmed {
        var start, end := g.start, g.end;
        if w.Between? {
          start, end := Max(g.start, w.start), Min(g.end, w.end);
        }
        if start < end || w == Everything {
          confirmed := AddQuantities(confirmed, g.quantity, end - start);
        }
      } else {
        uncertainMs := uncertainMs + (g.end - g.start);
        ranges := ranges + [g];
      }
    }
    assert segments[..|segments|] == segments;
    summary := Some(Summary(confirmed, uncertainMs, ranges, projection.open));
  }

  method AddQuantities(totals: map<string, int>, quantity: Quantity, ms: int) returns (sum: map<string, int>)
    ensures forall m :: (if m in sum then sum[m] else 0) ==
                        (if m in totals then totals[m] else 0) + (if m in quantity then quantity[m] * ms else 0)
  {
    sum := totals;
    var todo := quantity.Keys;
    while todo != {}
      invariant todo <= quantity.Keys
      invariant forall m :: (if m in sum then sum[m] else 0) ==
                            (if m in totals then totals[m] else 0) +
                            (if m in quantity && m !in todo then quantity[m] * ms else 0)
    {
      var m :| m in todo;
      sum := sum[m := (if m in sum then sum[m] else 0) + quantity[m] * ms];
      todo := todo - {m};
    }
  }
}
