/**
 When the segments of a projection overlap: exactly when a lease claims to have been
 seen past its expiry, up to beyond the start of a later allocation that is billed.
 */
module FoldOverlap {
  import opened Basics
  import opened EventFold

  predicate Disjoint(segments: seq<Segment>) {
    forall i, j :: 0 <= i < j < |segments| ==>
      segments[i].end <= segments[j].start || segments[j].end <= segments[i].start
  }

  /** The allocation opened by event i has been ended and left a segment. */
  predicate Billed(s: seq<Event>, i: int)
    requires 0 <= i < |s|
  {
    var k := Terminator(s, i);
    && Opens(s[i].kind) && k < |s|
    && if s[k].kind != LeaseExpired then s[i].effective < s[k].effective
       else CutPoint(s, k).Some? && (CutPoint(s, k).value > s[i].effective || s[i].effective < s[k].effective)
  }

  /** The lease at j claims to have been seen past its expiry, and past x. */
  predicate Claimed(s: seq<Event>, j: int, x: int) { 0 <= j < |s| && LateCut(s, j) && CutPoint(s, j).value > x }

  /** The lease at j claims an observation inside the later, billed allocation i. */
  predicate Overreach(s: seq<Event>, j: int, i: int) {
    0 <= j < i < |s| && Claimed(s, j, s[i].effective) && Billed(s, i)
  }

  ghost predicate SomeClaimed(s: seq<Event>, x: int) { exists j :: Claimed(s, j, x) }

  predicate EndsAfter(segments: seq<Segment>, x: int) { exists i :: 0 <= i < |segments| && segments[i].end > x }

  /** Every segment is non-empty and starts by x. */
  predicate StartsBy(segments: seq<Segment>, x: int) {
    forall i :: 0 <= i < |segments| ==> segments[i].start < segments[i].end && segments[i].start <= x
  }

  predicate ChangesBy(s: seq<Event>, x: int) {
    forall k :: 0 <= k < |s| && Changes(s[k].kind) ==> s[k].effective <= x
  }

  /** What the last event adds to the segments. */
  function Added(st: FoldState, e: Event): seq<Segment> { FoldStep(st, e).segments[|st.segments|..] }

  lemma StepGrows(st: FoldState, e: Event)
    ensures |st.segments| <= |FoldStep(st, e).segments| && FoldStep(st, e).segments == st.segments + Added(st, e)
  {
  }

  /** What makes the last event bill the allocation in force. */
  predicate Bills(st: FoldState, e: Event) {
    && Changes(e.kind) && st.open.Some?
    && if e.kind != LeaseExpired then st.open.value.start < e.effective
       else LostFrom(e, st.heartbeat).Some? &&
            (LostFrom(e, st.heartbeat).value > st.open.value.start || st.open.value.start < e.effective)
  }

  lemma AddedWhenBilled(st: FoldState, e: Event)
    ensures Added(st, e) != [] <==> Bills(st, e)
    ensures Added(st, e) != [] ==> Added(st, e)[0].start == st.open.value.start
  {
  }

  lemma AddedShape(st: FoldState, e: Event)
    ensures |Added(st, e)| <= 2 && Disjoint(Added(st, e))
    ensures forall g :: g in Added(st, e) ==>
              st.open.Some? && g.start < g.end && st.open.value.start <= g.start <= Max(st.open.value.start, e.effective)
  {
  }

  lemma AddedEnds(st: FoldState, e: Event)
    requires st.open.Some? && st.open.value.start <= e.effective
    ensures forall g :: g in Added(st, e) ==>
              g.end <= e.effective || (e.kind == LeaseExpired && LostFrom(e, st.heartbeat) == Some(g.end))
  {
  }

  lemma StepAdds(st: FoldState, e: Event)
    ensures |st.segments| <= |FoldStep(st, e).segments| && FoldStep(st, e).segments == st.segments + Added(st, e)
    ensures |Added(st, e)| <= 2 && Disjoint(Added(st, e)) && (Added(st, e) != [] <==> Bills(st, e))
    ensures forall g :: g in Added(st, e) ==>
              Bills(st, e) && g.start < g.end && st.open.value.start <= g.start <= Max(st.open.value.start, e.effective)
    ensures Added(st, e) != [] ==> Added(st, e)[0].start == st.open.value.start
    ensures st.open.Some? && st.open.value.start <= e.effective ==>
              forall g :: g in Added(st, e) ==>
                g.end <= e.effective || (e.kind == LeaseExpired && LostFrom(e, st.heartbeat) == Some(g.end))
  {
    hide FoldStep, Added, Disjoint, Bills;
    StepGrows(st, e);
    AddedWhenBilled(st, e);
    AddedShape(st, e);
    if st.open.Some? && st.open.value.start <= e.effective { AddedEnds(st, e); }
  }

  /** Segments that outrun every change so far come from late cuts, and late cuts leave such segments. */
  lemma {:induction false} Outrunning(s: seq<Event>, x: int)
    requires Sorted(s) && ChangesBy(s, x)
    ensures StartsBy(Folded(s).segments, x)
    ensures EndsAfter(Folded(s).segments, x) <==> SomeClaimed(s, x)
  {
    hide FoldStep, Added, Claimed, SomeClaimed, EndsAfter, StartsBy;
    if s != [] {
      var front, e := s[..|s| - 1], s[|s| - 1];
      var st := Folded(front);
      assert Folded(s) == FoldStep(st, e);
      Outrunning(front, x);
      LastOutruns(s, x);
      StepAdds(st, e);
      EndsAfterAppend(st.segments, Added(st, e), x);
      StartsByAppend(st.segments, Added(st, e), x);
      AnyClaimed(s, x);
    } else {
      assert StartsBy(Folded(s).segments, x) && !EndsAfter(Folded(s).segments, x) && !SomeClaimed(s, x) by { NothingClaimed(x); }
    }
  }

  lemma NothingClaimed(x: int)
    ensures StartsBy([], x) && !EndsAfter([], x) && !SomeClaimed([], x)
  {
  }

  lemma StartsByAppend(a: seq<Segment>, b: seq<Segment>, x: int)
    ensures StartsBy(a + b, x) <==> StartsBy(a, x) && StartsBy(b, x)
  {
    if StartsBy(a + b, x) {
      forall i | 0 <= i < |a| ensures a[i].start < a[i].end && a[i].start <= x { assert (a + b)[i] == a[i]; }
      forall i | 0 <= i < |b| ensures b[i].start < b[i].end && b[i].start <= x { assert (a + b)[|a| + i] == b[i]; }
    }
  }

  lemma EndsAfterAppend(a: seq<Segment>, b: seq<Segment>, x: int)
    ensures EndsAfter(a + b, x) <==> EndsAfter(a, x) || EndsAfter(b, x)
  {
    if EndsAfter(a, x) { var i :| 0 <= i < |a| && a[i].end > x; assert (a + b)[i].end > x; }
    if EndsAfter(b, x) { var i :| 0 <= i < |b| && b[i].end > x; assert (a + b)[|a| + i].end > x; }
  }

  lemma ClaimedPrefix(s: seq<Event>, j: int, x: int)
    requires s != [] && 0 <= j < |s| - 1
    ensures Claimed(s, j, x) <==> Claimed(s[..|s| - 1], j, x)
  {
    LateCutPrefix(s, |s| - 1, j);
    assert s[..|s| - 1][..j] == s[..j];
  }

  lemma AnyClaimed(s: seq<Event>, x: int)
    requires s != []
    ensures SomeClaimed(s, x) <==> SomeClaimed(s[..|s| - 1], x) || Claimed(s, |s| - 1, x)
  {
    var front := s[..|s| - 1];
    if SomeClaimed(s, x) {
      var j :| Claimed(s, j, x);
      if j < |s| - 1 { ClaimedPrefix(s, j, x); }
    }
    if SomeClaimed(front, x) {
      var j :| Claimed(front, j, x);
      ClaimedPrefix(s, j, x);
    }
  }

  /** The allocation in force began with a change. */
  lemma OpenBy(s: seq<Event>, x: int)
    requires Sorted(s) && ChangesBy(s, x) && Follows(Folded(s), s)
    ensures Folded(s).open.Some? ==> Folded(s).open.value.start <= x
    ensures Folded(s).open.Some? && s != [] ==> Folded(s).open.value.start <= s[|s| - 1].effective
  {
    if Folded(s).open.Some? {
      var c := Current(s);
      SortedTimes(s, c, |s| - 1);
      assert Changes(s[c].kind);
    }
  }

  lemma ClaimedLast(s: seq<Event>, x: int)
    requires Sorted(s) && s != [] && (Changes(s[|s| - 1].kind) ==> s[|s| - 1].effective <= x)
    ensures var e, st := s[|s| - 1], Folded(s[..|s| - 1]);
            Claimed(s, |s| - 1, x) <==>
              e.kind == LeaseExpired && st.open.Some? && LostFrom(e, st.heartbeat).Some? && LostFrom(e, st.heartbeat).value > x
  {
    CutAtLast(s);
    FoldFollows(s[..|s| - 1]);
    hide LateCut, Current, Folded, LastHeartbeat, LostFrom;
  }

  lemma AddedOutruns(st: FoldState, e: Event, x: int)
    requires st.open.Some? ==> st.open.value.start <= x && st.open.value.start <= e.effective
    requires Changes(e.kind) ==> e.effective <= x
    ensures StartsBy(Added(st, e), x)
    ensures EndsAfter(Added(st, e), x) <==>
              e.kind == LeaseExpired && st.open.Some? && LostFrom(e, st.heartbeat).Some? && LostFrom(e, st.heartbeat).value > x
  {
    StepAdds(st, e);
    if e.kind == LeaseExpired && st.open.Some? && LostFrom(e, st.heartbeat).Some? && LostFrom(e, st.heartbeat).value > x {
      assert Added(st, e)[0].end > x;
    }
  }

  lemma LastOutruns(s: seq<Event>, x: int)
    requires Sorted(s) && ChangesBy(s, x) && s != []
    ensures EndsAfter(Added(Folded(s[..|s| - 1]), s[|s| - 1]), x) <==> Claimed(s, |s| - 1, x)
    ensures StartsBy(Added(Folded(s[..|s| - 1]), s[|s| - 1]), x)
  {
    hide FoldStep, Added, Claimed, EndsAfter, StartsBy, LostFrom;
    var front := s[..|s| - 1];
    FoldFollows(front);
    OpenBy(front, x);
    if front != [] { SortedTimes(s, |s| - 2, |s| - 1); }
    ClaimedLast(s, x);
    AddedOutruns(Folded(front), s[|s| - 1], x);
  }

  /** Once event n has taken effect, the allocation it ended is the one no earlier change had ended. */
  lemma EndedByLast(s: seq<Event>, i: int)
    requires Sorted(s) && s != [] && 0 <= i < |s| - 1 && Changes(s[i].kind)
    ensures Terminator(s, i) == |s| - 1 <==> Changes(s[|s| - 1].kind) && Current(s[..|s| - 1]) == i
  {
    var front, n := s[..|s| - 1], |s| - 1;
    assert s == front + [s[n]];
    TerminatorPrefix(front, s[n], i);
    var c := Current(front);
    NoneAfterCurrent(front, c);
    NothingSkipped(front, i);
  }

  /** What it takes for the last event to bill the allocation it ends. */
  lemma BilledByLast(s: seq<Event>)
    requires Sorted(s) && s != []
    ensures var front, e := s[..|s| - 1], s[|s| - 1];
            var st, c := Folded(front), Current(front);
            Added(st, e) != [] <==> c >= 0 && Changes(e.kind) && Billed(s, c)
  {
    var front, e, n := s[..|s| - 1], s[|s| - 1], |s| - 1;
    var st, c := Folded(front), Current(front);
    FoldFollows(front);
    StepAdds(st, e);
    hide FoldStep, Added, Folded, Current, LastHeartbeat, LostFrom, CutPoint, Terminator;
    if c >= 0 {
      EndedByLast(s, c);
      SortedTimes(s, c, n);
      NothingAfter(s, c);
    }
  }

  lemma NothingAfter(s: seq<Event>, c: int)
    requires s != [] && 0 <= c < |s| - 1 && c == Current(s[..|s| - 1])
    ensures Changes(s[c].kind) && CutPoint(s, |s| - 1) == LostFrom(s[|s| - 1], LastHeartbeat(s[..|s| - 1]))
  {
  }

  lemma BilledPrefix(s: seq<Event>, i: int)
    requires s != [] && 0 <= i < |s| - 1 && Terminator(s, i) < |s| - 1
    ensures Billed(s, i) <==> Billed(s[..|s| - 1], i)
  {
    var front, n := s[..|s| - 1], |s| - 1;
    assert s == front + [s[n]];
    TerminatorPrefix(front, s[n], i);
    var k := Terminator(s, i);
    assert s[..k] == front[..k];
  }

  ghost predicate SomeOverreach(s: seq<Event>) { exists j, i :: Overreach(s, j, i) }

  lemma OverreachStays(s: seq<Event>, j: int, i: int)
    requires s != []
    ensures Overreach(s[..|s| - 1], j, i) <==> Overreach(s, j, i) && Terminator(s, i) < |s| - 1
  {
    hide Claimed, Billed;
    var front, n := s[..|s| - 1], |s| - 1;
    if 0 <= j < i < n {
      ClaimedPrefix(s, j, s[i].effective);
      BilledEnded(front, i);
      TerminatorPrefix(front, s[n], i);
      assert s == front + [s[n]];
      if Terminator(s, i) < n { BilledPrefix(s, i); }
    } else if i == n {
      hide Terminator;
      TerminatorPast(s, n);
    }
  }

  lemma BilledEnded(s: seq<Event>, i: int)
    requires 0 <= i < |s|
    ensures Billed(s, i) ==> Opens(s[i].kind) && Terminator(s, i) < |s|
  {
  }

  lemma TerminatorPast(s: seq<Event>, i: int)
    requires 0 <= i < |s|
    ensures Terminator(s, i) > i
  {
  }

  lemma ClaimBefore(s: seq<Event>, j: int, x: int)
    requires Sorted(s) && Claimed(s, j, x) && Current(s) >= 0 && Opens(s[Current(s)].kind)
    ensures j < Current(s)
  {
    NothingSkipped(s, j);
  }

  /** The overreaches the last event completes are those into the allocation it ends. */
  lemma OverreachEnds(s: seq<Event>, j: int, i: int)
    requires Sorted(s) && s != []
    ensures var front, n := s[..|s| - 1], |s| - 1;
            Overreach(s, j, i) && Terminator(s, i) >= n <==>
              && i == Current(front) && i >= 0 && Changes(s[n].kind) && Billed(s, i) && Claimed(front, j, s[i].effective)
  {
    hide Claimed, Billed, Current, Terminator;
    var front, n := s[..|s| - 1], |s| - 1;
    if 0 <= i < |s| { BilledEnded(s, i); TerminatorPast(s, i); }
    if 0 <= j < n && 0 <= i < n {
      ClaimedPrefix(s, j, s[i].effective);
      if Changes(s[i].kind) { EndedByLast(s, i); }
      if i == Current(front) && Billed(s, i) && Claimed(front, j, s[i].effective) { ClaimBefore(front, j, s[i].effective); }
    }
    ClaimedWithin(front, j, if 0 <= i < |s| then s[i].effective else 0);
  }

  lemma ClaimedWithin(s: seq<Event>, j: int, x: int)
    ensures Claimed(s, j, x) ==> 0 <= j < |s|
  {
  }

  lemma OverreachSnoc(s: seq<Event>)
    requires Sorted(s) && s != []
    ensures var front, e := s[..|s| - 1], s[|s| - 1];
            var c := Current(front);
            SomeOverreach(s) <==>
              SomeOverreach(front) || (c >= 0 && Changes(e.kind) && Billed(s, c) && SomeClaimed(front, s[c].effective))
  {
    hide Overreach, Billed, Claimed;
    var front, e := s[..|s| - 1], s[|s| - 1];
    var c := Current(front);
    if SomeOverreach(s) {
      var j, i :| Overreach(s, j, i);
      OverreachStays(s, j, i);
      OverreachEnds(s, j, i);
    }
    if SomeOverreach(front) {
      var j, i :| Overreach(front, j, i);
      OverreachStays(s, j, i);
    }
    if c >= 0 && Changes(e.kind) && Billed(s, c) && SomeClaimed(front, s[c].effective) {
      var j :| Claimed(front, j, s[c].effective);
      OverreachEnds(s, j, c);
    }
  }

  lemma ChangesByCurrent(s: seq<Event>)
    requires Sorted(s) && Current(s) >= 0
    ensures ChangesBy(s, s[Current(s)].effective)
  {
    var c := Current(s);
    forall k | 0 <= k < |s| && Changes(s[k].kind) ensures s[k].effective <= s[c].effective {
      NothingSkipped(s, k);
      SortedTimes(s, k, c);
    }
  }

  lemma DisjointAppend(a: seq<Segment>, b: seq<Segment>, x: int)
    requires StartsBy(a, x) && Disjoint(b) && b != [] && b[0].start == x
    requires forall g :: g in b ==> x <= g.start < g.end
    ensures Disjoint(a + b) <==> Disjoint(a) && !EndsAfter(a, x)
  {
    var all := a + b;
    assert forall i :: 0 <= i < |a| ==> all[i] == a[i];
    assert forall i :: 0 <= i < |b| ==> all[|a| + i] == b[i] && b[i] in b;
    if Disjoint(all) {
      forall i | 0 <= i < |a| ensures a[i].end <= x { assert all[|a|] == b[0] && all[i] == a[i]; }
      forall i, j | 0 <= i < j < |a| ensures a[i].end <= a[j].start || a[j].end <= a[i].start { assert all[i] == a[i] && all[j] == a[j]; }
    }
  }

  /**
   The projection of any history has overlapping segments if and only if some lease
   claimed to have been seen past its expiry, up to beyond the start of a later
   allocation that is billed.
   */
  lemma {:induction false} DisjointExactly(s: seq<Event>)
    requires Sorted(s)
    ensures Disjoint(Folded(s).segments) <==> !SomeOverreach(s)
  {
    hide FoldStep, Added, Billed, SomeOverreach, SomeClaimed, EndsAfter, StartsBy, Disjoint;
    if s != [] {
      var front, e := s[..|s| - 1], s[|s| - 1];
      var st, c := Folded(front), Current(front);
      assert Folded(s) == FoldStep(st, e);
      DisjointExactly(front);
      OverreachSnoc(s);
      BilledByLast(s);
      StepAdds(st, e);
      FoldFollows(front);
      if Added(st, e) != [] {
        ChangesByCurrent(front);
        Outrunning(front, s[c].effective);
        DisjointAppend(st.segments, Added(st, e), s[c].effective);
      } else {
        assert st.segments + [] == st.segments;
      }
    } else {
      assert Disjoint([]) && !SomeOverreach([]) by { NothingOverlaps(); }
    }
  }

  lemma NothingOverlaps()
    ensures Disjoint([]) && !SomeOverreach([])
  {
  }

  /** Of any ledger: the projection of a resource's events, in whatever order they were appended. */
  lemma ProjectionDisjointExactly(events: seq<Event>)
    ensures Disjoint(Project(events).segments) <==> !SomeOverreach(FoldOrder(events))
  {
    FoldOrderSorts(events);
    DisjointExactly(FoldOrder(events));
  }

  function Sample(name: string, seqNo: nat, at: nat, kind: EventType, seen: Observed): Event {
    Event(Named(name), ResourceKey("sandbox", "s"), "runner", None, seqNo, at, kind, map["cpu" := 1], seen, "", None, None)
  }

  /** The smallest such history: lost at 10 but seen at 50, provisioned again at 20 and stopped at 30. */
  lemma LateClaimOverlaps()
    ensures var s := [Sample("a", 1, 0, ResourceProvisioned, Unstated), Sample("b", 2, 10, LeaseExpired, At(50)),
                      Sample("c", 3, 20, ResourceProvisioned, Unstated), Sample("d", 4, 30, RuntimeStopped, Unstated)];
            Folded(s).segments == [Segment(0, 50, map["cpu" := 1], Confirmed), Segment(20, 30, map["cpu" := 1], Confirmed)]
  {
    var a, b := Sample("a", 1, 0, ResourceProvisioned, Unstated), Sample("b", 2, 10, LeaseExpired, At(50));
    var c, d := Sample("c", 3, 20, ResourceProvisioned, Unstated), Sample("d", 4, 30, RuntimeStopped, Unstated);
    assert [a, b, c, d][..3] == [a, b, c] && [a, b, c][..2] == [a, b] && [a, b][..1] == [a] && [a][..0] == [];
    assert Folded([a]) == FoldState([], Some(OpenSegment(0, map["cpu" := 1])), None);
    assert Folded([a, b]) == FoldStep(Folded([a]), b);
    assert Folded([a, b, c]) == FoldStep(Folded([a, b]), c);
  }
}
