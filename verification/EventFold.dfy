/**
 The per-resource projection of scripts/resource_events.py: events are sorted by
 (effective time, confirmed before uncertain, append order) and folded into
 half-open usage segments.  Beside the fold stands an independent reading that
 says, millisecond by millisecond, what the events mean; the two are proved equal.
 */
module EventFold {
  import opened Basics

  datatype EventType =
    | OperationRequested | OperationSucceeded | OperationFailed
    | RuntimeStarted | RuntimeStopped
    | PolicyApplied
    | ResourceProvisioned | ResourceResized | ResourceReleased
    | VolumeTrashed | VolumePurged
    | HeartbeatConfirmed | LeaseExpired
    | SnapshotCreated | SnapshotExpired | SnapshotDeleted
    | CorrectionAccepted

  /** Event identifiers; the control plane builds its own from the row they report on. */
  datatype EventId =
    | Named(name: string)
    | OperationEvent(op: nat, kind: EventType)
    | LeaseEvent(sandbox: string, number: nat)

  datatype ResourceKey = ResourceKey(kind: string, id: string)

  /** payload.last_observed_at_ms: absent, present but null, or an instant. */
  datatype Observed = Unstated | Unknown | At(ms: int)

  type Quantity = map<string, nat>

  /** An event envelope.  `body` stands for the fields no rule here inspects;
      ledgerSeq and recordedAt are the two the control plane assigns. */
  datatype Event = Event(
    id: EventId,
    resource: ResourceKey,
    source: string,
    generation: Option<nat>,
    sourceSeq: nat,
    effective: nat,
    kind: EventType,
    quantity: Quantity,
    lastObserved: Observed,
    body: string,
    ledgerSeq: Option<nat>,
    recordedAt: Option<nat>)

  datatype Certainty = Confirmed | Uncertain

  datatype Segment = Segment(start: int, end: int, quantity: Quantity, certainty: Certainty)

  datatype OpenSegment = OpenSegment(start: int, quantity: Quantity)

  datatype FoldState = FoldState(segments: seq<Segment>, open: Option<OpenSegment>, heartbeat: Option<int>)

  datatype Projection = Projection(segments: seq<Segment>, open: Option<OpenSegment>)

  /** Closes the allocation in force and opens a new one. */
  predicate Opens(k: EventType) {
    k in {RuntimeStarted, PolicyApplied, ResourceProvisioned, ResourceResized, SnapshotCreated}
  }

  predicate Closes(k: EventType) {
    k in {RuntimeStopped, ResourceReleased, SnapshotDeleted, VolumePurged}
  }

  /** Ends whatever allocation was in force. */
  predicate Changes(k: EventType) {
    Opens(k) || Closes(k) || k == LeaseExpired
  }

  // ---------------------------------------------------------------- sorting

  /** Fold key order without the append index, which stability supplies. */
  predicate Before(a: Event, b: Event) {
    a.effective < b.effective ||
    (a.effective == b.effective && a.kind != LeaseExpired && b.kind == LeaseExpired)
  }

  predicate SameKey(a: Event, b: Event) {
    a.effective == b.effective && (a.kind == LeaseExpired <==> b.kind == LeaseExpired)
  }

  predicate Sorted(s: seq<Event>) {
    forall i, j :: 0 <= i < j < |s| ==> !Before(s[j], s[i])
  }

  /** Puts e behind every event that does not come strictly after it. */
  function Insert(s: seq<Event>, e: Event): seq<Event> {
    if |s| > 0 && Before(e, s[|s| - 1]) then Insert(s[..|s| - 1], e) + [s[|s| - 1]] else s + [e]
  }

  /** The stable sort of an append-ordered list. */
  function FoldOrder(events: seq<Event>): seq<Event> {
    if events == [] then [] else Insert(FoldOrder(events[..|events| - 1]), events[|events| - 1])
  }

  lemma {:induction false} InsertPermutes(s: seq<Event>, e: Event)
    ensures multiset(Insert(s, e)) == multiset(s) + multiset{e}
  {
    if |s| > 0 && Before(e, s[|s| - 1]) {
      InsertPermutes(s[..|s| - 1], e);
      assert s == s[..|s| - 1] + [s[|s| - 1]];
    }
  }

  lemma InsertMembers(s: seq<Event>, e: Event, x: Event)
    requires x in Insert(s, e)
    ensures x == e || x in s
  {
  }

  lemma {:induction false} InsertSorted(s: seq<Event>, e: Event)
    requires Sorted(s)
    ensures Sorted(Insert(s, e))
  {
    if |s| > 0 && Before(e, s[|s| - 1]) {
      var front, last := s[..|s| - 1], s[|s| - 1];
      InsertSorted(front, e);
      var inner := Insert(front, e);
      forall i | 0 <= i < |inner| ensures !Before(last, inner[i]) {
        InsertMembers(front, e, inner[i]);
      }
    } else {
      forall i | 0 <= i < |s| ensures !Before(e, s[i]) {
        assert i < |s| - 1 ==> !Before(s[|s| - 1], s[i]);
      }
    }
  }

  /** FoldOrder is a sorted rearrangement of the append order. */
  lemma {:induction false} FoldOrderSorts(events: seq<Event>)
    ensures Sorted(FoldOrder(events))
    ensures multiset(FoldOrder(events)) == multiset(events)
  {
    hide Insert, Before;
    if events != [] {
      var front, last := events[..|events| - 1], events[|events| - 1];
      FoldOrderSorts(front);
      InsertSorted(FoldOrder(front), last);
      InsertPermutes(FoldOrder(front), last);
      hide Sorted;
      assert events == front + [last];
      assert multiset(events) == multiset(front) + multiset{last};
    }
  }

  /** The events of s whose fold key is x's, in the order of s. */
  function Tied(s: seq<Event>, x: Event): seq<Event> {
    if s == [] then []
    else Tied(s[..|s| - 1], x) + (if SameKey(x, s[|s| - 1]) then [s[|s| - 1]] else [])
  }

  lemma {:induction false} InsertTied(s: seq<Event>, e: Event, x: Event)
    ensures Tied(Insert(s, e), x) == Tied(s, x) + (if SameKey(x, e) then [e] else [])
  {
    if |s| > 0 && Before(e, s[|s| - 1]) {
      var front, last := s[..|s| - 1], s[|s| - 1];
      InsertTied(front, e, x);
      var inner := Insert(front, e);
      assert (inner + [last])[..|inner|] == inner;
    } else {
      assert (s + [e])[..|s|] == s;
    }
  }

  /** The sort is stable: events with equal fold keys keep their append order. */
  lemma {:induction false} FoldOrderIsStable(events: seq<Event>, x: Event)
    ensures Tied(FoldOrder(events), x) == Tied(events, x)
  {
    if events != [] {
      FoldOrderIsStable(events[..|events| - 1], x);
      InsertTied(FoldOrder(events[..|events| - 1]), events[|events| - 1], x);
      hide Insert;
    }
  }

  /** A list already in fold order stays as it is. */
  lemma {:induction false} SortedStays(s: seq<Event>)
    requires Sorted(s)
    ensures FoldOrder(s) == s
  {
    if s != [] {
      var front := s[..|s| - 1];
      SortedStays(front);
      assert |s| > 1 ==> !Before(s[|s| - 1], s[|s| - 2]);
      assert s == front + [s[|s| - 1]];
    }
  }

  // ---------------------------------------------------------------- the fold

  function LostFrom(e: Event, heartbeat: Option<int>): Option<int> {
    match e.lastObserved
    case Unstated => heartbeat
    case Unknown => None
    case At(ms) => Some(ms)
  }

  function CloseAt(st: FoldState, now: int): seq<Segment> {
    if st.open.Some? && st.open.value.start < now
    then st.segments + [Segment(st.open.value.start, now, st.open.value.quantity, Confirmed)]
    else st.segments
  }

  /** A lease expiry confirms usage up to the last trusted instant and leaves the rest uncertain. */
  function CutAt(st: FoldState, e: Event): seq<Segment> {
    var lost := LostFrom(e, st.heartbeat);
    if st.open.None? || lost.None? then st.segments else
      var open := st.open.value;
      var cut := Max(lost.value, open.start);
      var sure := if open.start < cut then [Segment(open.start, cut, open.quantity, Confirmed)] else [];
      var unsure := if cut < e.effective then [Segment(cut, e.effective, open.quantity, Uncertain)] else [];
      st.segments + sure + unsure
  }

  function FoldStep(st: FoldState, e: Event): FoldState {
    if Opens(e.kind) then
      FoldState(CloseAt(st, e.effective), Some(OpenSegment(e.effective, e.quantity)), st.heartbeat)
    else if Closes(e.kind) then
      FoldState(CloseAt(st, e.effective), None, st.heartbeat)
    else if e.kind == HeartbeatConfirmed then
      st.(heartbeat := Some(e.effective))
    else if e.kind == LeaseExpired then
      FoldState(CutAt(st, e), None, st.heartbeat)
    else st
  }

  function Folded(sorted: seq<Event>): FoldState {
    if sorted == [] then FoldState([], None, None)
    else FoldStep(Folded(sorted[..|sorted| - 1]), sorted[|sorted| - 1])
  }

  function Project(events: seq<Event>): Projection {
    var st := Folded(FoldOrder(events));
    Projection(st.segments, st.open)
  }

  /** The folding loop of EventLedger._fold, run over the sorted list. */
  method Fold(events: seq<Event>) returns (p: Projection)
    ensures p == Project(events)
  {
    var ordered := FoldOrder(events);
    var segments: seq<Segment> := [];
    var open: Option<OpenSegment> := None;
    var lastHeartbeat: Option<int> := None;
    for n := 0 to |ordered|
      invariant FoldState(segments, open, lastHeartbeat) == Folded(ordered[..n])
    {
      var e := ordered[n];
      assert ordered[..n + 1][..n] == ordered[..n];
      var now := e.effective;
      if Opens(e.kind) {
        if open.Some? && open.value.start < now {
          segments := segments + [Segment(open.value.start, now, open.value.quantity, Confirmed)];
        }
        open := Some(OpenSegment(now, e.quantity));
      } else if Closes(e.kind) {
        if open.Some? && open.value.start < now {
          segments := segments + [Segment(open.value.start, now, open.value.quantity, Confirmed)];
        }
        open := None;
      } else if e.kind == HeartbeatConfirmed {
        lastHeartbeat := Some(now);
      } else if e.kind == LeaseExpired {
        var lost := LostFrom(e, lastHeartbeat);
        if open.Some? && lost.Some? {
          var cut := Max(lost.value, open.value.start);
          if open.value.start < cut {
            segments := segments + [Segment(open.value.start, cut, open.value.quantity, Confirmed)];
          }
          if cut < now {
            segments := segments + [Segment(cut, now, open.value.quantity, Uncertain)];
          }
        }
        open := None;
      }
    }
    assert ordered[..|ordered|] == ordered;
    p := Projection(segments, open);
  }

  // ------------------------------------------------- reading one millisecond

  datatype Use = Use(quantity: Quantity, certainty: Certainty)

  /** The event whose allocation state is in force at instant t: the last change effective by then. */
  function Opener(s: seq<Event>, t: int): (i: int)
    ensures -1 <= i < |s|
    ensures i >= 0 ==> Changes(s[i].kind) && s[i].effective <= t
  {
    if s == [] then -1
    else if Changes(s[|s| - 1].kind) && s[|s| - 1].effective <= t then |s| - 1
    else Opener(s[..|s| - 1], t)
  }

  /** The first change after event i, or |s| when there is none yet. */
  function Terminator(s: seq<Event>, i: int): (j: int)
    requires -1 <= i < |s|
    ensures i < j <= |s|
    ensures j < |s| ==> Changes(s[j].kind)
    ensures forall k :: i < k < j ==> !Changes(s[k].kind)
    decreases |s| - i
  {
    if i + 1 == |s| then |s|
    else if Changes(s[i + 1].kind) then i + 1
    else Terminator(s, i + 1)
  }

  function LastHeartbeat(s: seq<Event>): Option<int> {
    if s == [] then None
    else if s[|s| - 1].kind == HeartbeatConfirmed then Some(s[|s| - 1].effective)
    else LastHeartbeat(s[..|s| - 1])
  }

  /** The last instant vouched for when the lease at index j expired. */
  function CutPoint(s: seq<Event>, j: int): Option<int>
    requires 0 <= j < |s|
  {
    LostFrom(s[j], LastHeartbeat(s[..j]))
  }

  /** Was an allocation in force at t, and has it since been ended? */
  predicate EndedUse(s: seq<Event>, t: int) {
    var i := Opener(s, t);
    i >= 0 && Opens(s[i].kind) && Terminator(s, i) < |s|
  }

  /**
   What the events say about instant t on their own: nothing unless an allocation
   was in force and has been ended; confirmed if it ended by a trusted event or
   before the last trusted instant of a lost lease; uncertain after that.
   */
  function Reading(s: seq<Event>, t: int): Option<Use> {
    if !EndedUse(s, t) then None else
      var i := Opener(s, t);
      var j := Terminator(s, i);
      if s[j].kind != LeaseExpired then Some(Use(s[i].quantity, Confirmed)) else
        match CutPoint(s, j)
        case None => None
        case Some(lost) => Some(Use(s[i].quantity, if t < lost then Confirmed else Uncertain))
  }

  /** Was an allocation in force when the event at index j took effect? */
  predicate InForce(s: seq<Event>, j: int)
    requires 0 <= j < |s|
  {
    var c := Current(s[..j]);
    c >= 0 && Opens(s[c].kind)
  }

  /** A lease holding an allocation expired claiming to have been observed after that. */
  predicate LateCut(s: seq<Event>, j: int)
    requires 0 <= j < |s|
  {
    s[j].kind == LeaseExpired && InForce(s, j) && CutPoint(s, j).Some? && CutPoint(s, j).value > s[j].effective
  }

  predicate CutsInTime(s: seq<Event>) {
    forall j :: 0 <= j < |s| ==> !LateCut(s, j)
  }

  /** What the segments say about instant t. */
  function SegmentAt(segments: seq<Segment>, t: int): Option<Use> {
    if segments == [] then None
    else
      var g := segments[|segments| - 1];
      if g.start <= t < g.end then Some(Use(g.quantity, g.certainty))
      else SegmentAt(segments[..|segments| - 1], t)
  }

  /** Segments are non-empty, in time order, disjoint, and none reaches past `horizon`. */
  predicate Tidy(segments: seq<Segment>, horizon: int) {
    (forall i :: 0 <= i < |segments| ==> segments[i].start < segments[i].end <= horizon) &&
    (forall i, j :: 0 <= i < j < |segments| ==> segments[i].end <= segments[j].start)
  }

  lemma {:induction false} NothingAtOrAfter(segments: seq<Segment>, horizon: int, t: int)
    requires Tidy(segments, horizon) && horizon <= t
    ensures SegmentAt(segments, t) == None
  {
    if segments != [] {
      NothingAtOrAfter(segments[..|segments| - 1], horizon, t);
    }
  }

  /** The change in force once the whole list has been read. */
  function Current(s: seq<Event>): (c: int)
    ensures -1 <= c < |s|
  {
    if s == [] then -1 else Opener(s, s[|s| - 1].effective)
  }

  /** Open allocation and heartbeat of a fold, in terms of the events alone. */
  ghost predicate Follows(st: FoldState, s: seq<Event>) {
    var c := Current(s);
    && st.heartbeat == LastHeartbeat(s)
    && (st.open == if c >= 0 && Opens(s[c].kind) then Some(OpenSegment(s[c].effective, s[c].quantity)) else None)
  }

  ghost predicate Tracks(st: FoldState, s: seq<Event>) {
    var c := Current(s);
    && Follows(st, s)
    && (c < 0 ==> st.segments == [])
    && (c >= 0 ==> Tidy(st.segments, s[c].effective))
  }

  lemma SortedTimes(s: seq<Event>, i: int, j: int)
    requires Sorted(s) && 0 <= i <= j < |s|
    ensures s[i].effective <= s[j].effective
  {
  }

  lemma {:induction false} OpenerIs(p: seq<Event>, c: int, t: int)
    requires 0 <= c < |p| && Changes(p[c].kind) && p[c].effective <= t
    requires forall k :: c < k < |p| ==> !Changes(p[k].kind) || p[k].effective > t
    ensures Opener(p, t) == c
    decreases |p|
  {
    if c < |p| - 1 { OpenerIs(p[..|p| - 1], c, t); }
  }

  /** Past the last event of a sorted list the opener no longer depends on the instant asked about. */
  lemma {:induction false} OpenerSettles(s: seq<Event>, t: int)
    requires Sorted(s) && s != [] && s[|s| - 1].effective <= t
    ensures Opener(s, t) == Opener(s, s[|s| - 1].effective)
    decreases |s|
  {
    var front := s[..|s| - 1];
    if !Changes(s[|s| - 1].kind) && front != [] {
      SortedTimes(s, |s| - 2, |s| - 1);
      OpenerSettles(front, t);
      OpenerSettles(front, s[|s| - 1].effective);
    }
  }

  lemma PrefixCuts(s: seq<Event>, n: nat)
    requires n <= |s| && Sorted(s) && CutsInTime(s)
    ensures Sorted(s[..n]) && CutsInTime(s[..n])
  {
    var p := s[..n];
    forall j | 0 <= j < n ensures !LateCut(p, j) {
      LateCutPrefix(s, n, j);
    }
  }

  lemma LateCutPrefix(s: seq<Event>, n: nat, j: nat)
    requires j < n <= |s|
    ensures LateCut(s[..n], j) <==> LateCut(s, j)
  {
    assert s[..n][..j] == s[..j];
    assert j > 0 ==> s[..n][j - 1] == s[j - 1];
  }

  lemma SegmentAtAppend(segments: seq<Segment>, g: Segment, t: int)
    ensures SegmentAt(segments + [g], t) ==
            if g.start <= t < g.end then Some(Use(g.quantity, g.certainty)) else SegmentAt(segments, t)
  {
  }

  /** One step keeps the segments tidy, up to the new event. */
  lemma StepTidy(st: FoldState, horizon: int, e: Event)
    requires Tidy(st.segments, horizon) && horizon <= e.effective
    requires st.open.Some? ==> st.open.value.start == horizon
    requires e.kind == LeaseExpired && st.open.Some? && LostFrom(e, st.heartbeat).Some? ==>
               LostFrom(e, st.heartbeat).value <= e.effective
    ensures Changes(e.kind) ==> Tidy(FoldStep(st, e).segments, e.effective)
  {
  }

  /** Appending an event moves the current change exactly when the event is one. */
  lemma CurrentSnoc(s: seq<Event>)
    requires Sorted(s) && s != []
    ensures Current(s) == if Changes(s[|s| - 1].kind) then |s| - 1 else Current(s[..|s| - 1])
    ensures Current(s) >= 0 ==> s[Current(s)].effective <= s[|s| - 1].effective
  {
    var front := s[..|s| - 1];
    if front != [] {
      SortedTimes(s, |s| - 2, |s| - 1);
      OpenerSettles(front, s[|s| - 1].effective);
    }
    if Current(s) >= 0 { SortedTimes(s, Current(s), |s| - 1); }
  }

  lemma {:induction false} FoldFollows(s: seq<Event>)
    requires Sorted(s)
    ensures Follows(Folded(s), s)
  {
    if s != [] {
      FoldFollows(s[..|s| - 1]);
      CurrentSnoc(s);
    }
  }

  lemma {:induction false} FoldTracks(s: seq<Event>)
    requires Sorted(s) && CutsInTime(s)
    ensures Tracks(Folded(s), s)
  {
    FoldFollows(s);
    if s != [] {
      var front, e := s[..|s| - 1], s[|s| - 1];
      PrefixCuts(s, |s| - 1);
      FoldTracks(front);
      CutAtLast(s);
      CurrentSnoc(s);
      var c := Current(front);
      if c >= 0 {
        SortedTimes(s, c, |s| - 1);
        StepTidy(Folded(front), front[c].effective, e);
      }
    }
  }

  lemma CutAtLast(s: seq<Event>)
    requires Sorted(s) && s != []
    ensures var e, st := s[|s| - 1], Folded(s[..|s| - 1]);
            LateCut(s, |s| - 1) <==>
              e.kind == LeaseExpired && st.open.Some? && LostFrom(e, st.heartbeat).Some? &&
              LostFrom(e, st.heartbeat).value > e.effective
  {
    FoldFollows(s[..|s| - 1]);
  }

  /** New segments never reach back before the allocation they end. */
  lemma StepKeepsPast(st: FoldState, e: Event, t: int)
    requires st.open.None? || t < st.open.value.start
    ensures SegmentAt(FoldStep(st, e).segments, t) == SegmentAt(st.segments, t)
  {
    if st.open.Some? {
      var open := st.open.value;
      SegmentAtAppend(st.segments, Segment(open.start, e.effective, open.quantity, Confirmed), t);
      if LostFrom(e, st.heartbeat).Some? {
        var cut := Max(LostFrom(e, st.heartbeat).value, open.start);
        var sure := if open.start < cut then [Segment(open.start, cut, open.quantity, Confirmed)] else [];
        SegmentAtAppend(st.segments, Segment(open.start, cut, open.quantity, Confirmed), t);
        assert st.segments + [] == st.segments;
        assert st.segments + sure + [] == st.segments + sure;
        SegmentAtAppend(st.segments + sure, Segment(cut, e.effective, open.quantity, Uncertain), t);
      }
    }
  }

  /** Ending the allocation in force settles every instant since it began. */
  lemma StepSettles(st: FoldState, e: Event, t: int)
    requires Changes(e.kind) && st.open.Some? && st.open.value.start <= t < e.effective
    requires SegmentAt(st.segments, t) == None
    requires e.kind == LeaseExpired && LostFrom(e, st.heartbeat).Some? ==> LostFrom(e, st.heartbeat).value <= e.effective
    ensures SegmentAt(FoldStep(st, e).segments, t) ==
            if e.kind != LeaseExpired then Some(Use(st.open.value.quantity, Confirmed)) else
            match LostFrom(e, st.heartbeat)
            case None => None
            case Some(lost) => Some(Use(st.open.value.quantity, if t < lost then Confirmed else Uncertain))
  {
  }

  lemma OpenerPrefix(s: seq<Event>, t: int)
    requires s != []
    requires !(Changes(s[|s| - 1].kind) && s[|s| - 1].effective <= t)
    ensures Opener(s, t) == Opener(s[..|s| - 1], t)
  {
  }

  lemma {:induction false} TerminatorPrefix(front: seq<Event>, e: Event, i: int)
    requires -1 <= i < |front|
    ensures var j := Terminator(front, i);
            Terminator(front + [e], i) == if j < |front| then j else if Changes(e.kind) then |front| else |front| + 1
    decreases |front| - i
  {
    var s := front + [e];
    if i + 1 < |front| {
      assert s[i + 1] == front[i + 1];
      if !Changes(front[i + 1].kind) {
        TerminatorPrefix(front, e, i + 1);
      }
    } else {
      assert s[i + 1] == e;
    }
  }

  /** With the last event removed, a reading whose terminator survives is unchanged. */
  lemma ReadingPrefix(front: seq<Event>, e: Event, t: int)
    requires Opener(front + [e], t) == Opener(front, t)
    requires EndedUse(front, t) || !Changes(e.kind) || Opener(front, t) < 0 || !Opens(front[Opener(front, t)].kind)
    ensures Reading(front + [e], t) == Reading(front, t)
  {
    hide Opener, Terminator, LastHeartbeat, LostFrom;
    var s := front + [e];
    var i := Opener(front, t);
    if i >= 0 && Opens(front[i].kind) {
      TerminatorPrefix(front, e, i);
      var j := Terminator(front, i);
      if j < |front| {
        assert s[..j] == front[..j];
      }
    }
  }

  /** An instant that precedes the last change of the list has already been ended. */
  lemma {:induction false} EarlierIsEnded(s: seq<Event>, t: int)
    requires Sorted(s) && s != []
    requires Opener(s, t) >= 0 && Opener(s, s[|s| - 1].effective) >= 0
    requires t < s[Opener(s, s[|s| - 1].effective)].effective
    ensures Terminator(s, Opener(s, t)) <= Opener(s, s[|s| - 1].effective)
  {
  }

  /** An instant at or after the last change is governed by that change. */
  lemma {:induction false} LaterIsCurrent(s: seq<Event>, t: int)
    requires Sorted(s) && s != []
    requires Opener(s, s[|s| - 1].effective) >= 0 && s[Opener(s, s[|s| - 1].effective)].effective <= t
    ensures Opener(s, t) == Opener(s, s[|s| - 1].effective)
    decreases |s|
  {
    var last := s[|s| - 1];
    var c := Opener(s, last.effective);
    if c < |s| - 1 {
      var front := s[..|s| - 1];
      SortedTimes(s, |s| - 2, |s| - 1);
      OpenerSettles(front, last.effective);
      LaterIsCurrent(front, t);
    }
  }

  /** No change is later than the current one. */
  lemma {:induction false} NothingSkipped(s: seq<Event>, i: int)
    requires Sorted(s) && 0 <= i < |s| && Changes(s[i].kind)
    ensures i <= Current(s) && Changes(s[Current(s)].kind)
  {
    CurrentSnoc(s);
    if !Changes(s[|s| - 1].kind) { NothingSkipped(s[..|s| - 1], i); }
  }

  lemma {:induction false} NoneAfterCurrent(s: seq<Event>, i: int)
    requires Sorted(s) && s != [] && i == Opener(s, s[|s| - 1].effective)
    ensures forall k :: i < k < |s| ==> !Changes(s[k].kind)
    decreases |s|
  {
    if i < |s| - 1 {
      var front := s[..|s| - 1];
      assert !Changes(s[|s| - 1].kind);
      if front != [] {
        SortedTimes(s, |s| - 2, |s| - 1);
        OpenerSettles(front, s[|s| - 1].effective);
        NoneAfterCurrent(front, i);
        forall k | i < k < |s| ensures !Changes(s[k].kind) {
          if k < |s| - 1 { assert s[k] == front[k]; }
        }
      }
    }
  }

  /**
   The fold refines the per-millisecond reading: at every instant the folded
   segments say exactly what the events say.
   */
  lemma {:induction false} FoldRefinesReading(s: seq<Event>, t: int)
    requires Sorted(s) && CutsInTime(s)
    ensures SegmentAt(Folded(s).segments, t) == Reading(s, t)
  {
    if s != [] {
      var front, e := s[..|s| - 1], s[|s| - 1];
      assert s == front + [e];
      PrefixCuts(s, |s| - 1);
      FoldRefinesReading(front, t);
      FoldTracks(front);
      FoldTracks(s);
      if !Changes(e.kind) {
        OpenerPrefix(s, t);
        ReadingPrefix(front, e, t);
      } else if e.effective <= t {
        assert Opener(s, t) == |front|;
        assert Opener(s, e.effective) == |front|;
        NothingAtOrAfter(Folded(s).segments, e.effective, t);
      } else {
        OpenerPrefix(s, t);
        LastChangeReads(front, e, t);
      }
    }
  }

  /** An instant that the current change does not govern is settled. */
  lemma SettledBefore(front: seq<Event>, t: int)
    requires Sorted(front) && front != []
    requires var c := Current(front); c < 0 || t < front[c].effective || !Opens(front[c].kind)
    ensures var i := Opener(front, t); i < 0 || !Opens(front[i].kind) || EndedUse(front, t)
  {
    var c, i := Current(front), Opener(front, t);
    if i >= 0 {
      NothingSkipped(front, i);
      if t < front[c].effective { EarlierIsEnded(front, t); } else { LaterIsCurrent(front, t); }
    }
    hide Terminator, Opens;
  }

  lemma PastReads(front: seq<Event>, e: Event, t: int)
    requires Sorted(front) && front != [] && Opener(front + [e], t) == Opener(front, t)
    requires var c := Current(front); c < 0 || t < front[c].effective || !Opens(front[c].kind)
    requires Tracks(Folded(front), front) && SegmentAt(Folded(front).segments, t) == Reading(front, t)
    ensures SegmentAt(FoldStep(Folded(front), e).segments, t) == Reading(front + [e], t)
  {
    hide Reading, SegmentAt, FoldStep, Folded, Current, Opener, LastHeartbeat, Opens;
    SettledBefore(front, t);
    ReadingPrefix(front, e, t);
    StepKeepsPast(Folded(front), e, t);
  }

  lemma CurrentReads(front: seq<Event>, e: Event, t: int)
    requires Sorted(front + [e]) && CutsInTime(front + [e]) && Changes(e.kind) && t < e.effective
    requires Opener(front + [e], t) == Opener(front, t) && Sorted(front) && front != []
    requires var c := Current(front); c >= 0 && front[c].effective <= t && Opens(front[c].kind)
    requires Tracks(Folded(front), front)
    ensures SegmentAt(FoldStep(Folded(front), e).segments, t) == Reading(front + [e], t)
  {
    hide SegmentAt, FoldStep, Folded, LastHeartbeat, LostFrom, Tidy, Sorted, CutsInTime;
    var s, st, c := front + [e], Folded(front), Current(front);
    assert s[..|front|] == front;
    LaterIsCurrent(front, t);
    NoneAfterCurrent(front, c);
    TerminatorPrefix(front, e, c);
    NoneTerminates(front, c);
    NothingAtOrAfter(st.segments, front[c].effective, t);
    assert !LateCut(s, |front|) by { assert CutsInTime(s); NoLateCut(s, |front|); }
    hide Opener, Terminator, Current;
    CutAtLast(s);
    StepSettles(st, e, t);
  }

  lemma NoLateCut(s: seq<Event>, j: nat)
    requires CutsInTime(s) && j < |s|
    ensures !LateCut(s, j)
  {
  }

  lemma NoneTerminates(s: seq<Event>, c: int)
    requires 0 <= c < |s| && forall k :: c < k < |s| ==> !Changes(s[k].kind)
    ensures Terminator(s, c) == |s|
  {
  }

  /** The inductive step when the new event ends the allocation in force. */
  lemma LastChangeReads(front: seq<Event>, e: Event, t: int)
    requires Sorted(front + [e]) && CutsInTime(front + [e]) && Changes(e.kind) && t < e.effective
    requires Opener(front + [e], t) == Opener(front, t)
    requires Tracks(Folded(front), front)
    requires SegmentAt(Folded(front).segments, t) == Reading(front, t)
    ensures SegmentAt(FoldStep(Folded(front), e).segments, t) == Reading(front + [e], t)
  {
    assert (front + [e])[..|front|] == front;
    PrefixCuts(front + [e], |front|);
    if front == [] {
      assert Folded(front).segments == [] && Folded(front).open == None;
    } else {
      hide *;
      var c := Current(front);
      if c >= 0 && front[c].effective <= t && Opens(front[c].kind) {
        CurrentReads(front, e, t);
      } else {
        PastReads(front, e, t);
      }
    }
  }

  lemma TidyInTime(s: seq<Event>, n: nat)
    requires Sorted(s) && CutsInTime(s) && 0 < n <= |s|
    ensures Tidy(Folded(s[..n]).segments, s[n - 1].effective)
  {
    PrefixCuts(s, n);
    FoldTracks(s[..n]);
    CurrentSnoc(s[..n]);
  }

  lemma LateCutOverruns(s: seq<Event>, j: nat)
    requires Sorted(s) && j < |s| && LateCut(s, j)
    ensures !Tidy(Folded(s[..j + 1]).segments, s[j].effective)
  {
    var p := s[..j + 1];
    assert p[..j] == s[..j];
    LateCutPrefix(s, j + 1, j);
    CutAtLast(p);
    FoldFollows(s[..j]);
    var st, e := Folded(s[..j]), s[j];
    SortedTimes(s, Current(s[..j]), j);
    var g := Folded(p).segments[|st.segments|];
    assert g.end == LostFrom(e, st.heartbeat).value;
  }

  /**
   Segments stay tidy and never outrun the evidence, at every point of the event
   history, exactly when no lease in force claims an observation after its expiry.
   */
  lemma TidyExactly(s: seq<Event>)
    requires Sorted(s)
    ensures CutsInTime(s) <==>
            forall n :: 0 < n <= |s| ==> Tidy(Folded(s[..n]).segments, s[n - 1].effective)
  {
    if CutsInTime(s) {
      forall n | 0 < n <= |s| ensures Tidy(Folded(s[..n]).segments, s[n - 1].effective) {
        TidyInTime(s, n);
      }
    } else {
      var j :| 0 <= j < |s| && LateCut(s, j);
      LateCutOverruns(s, j);
    }
  }

  /**
   Every instant of an ended allocation is confirmed or uncertain, never both and
   never missing, except where a lease was lost with no trusted instant to cut at:
   there, and only there, the usage disappears from the projection.
   */
  lemma AccountedExactly(s: seq<Event>, t: int)
    requires Sorted(s) && CutsInTime(s) && EndedUse(s, t)
    ensures var j := Terminator(s, Opener(s, t));
            SegmentAt(Folded(s).segments, t).None? <==> s[j].kind == LeaseExpired && CutPoint(s, j).None?
    ensures SegmentAt(Folded(s).segments, t).Some? ==>
              SegmentAt(Folded(s).segments, t).value.quantity == s[Opener(s, t)].quantity
  {
    FoldRefinesReading(s, t);
  }

  /** At most one segment speaks for an instant. */
  lemma OneSegmentPerInstant(s: seq<Event>, t: int, i: nat, k: nat)
    requires Sorted(s) && CutsInTime(s)
    requires i < |Folded(s).segments| && k < |Folded(s).segments|
    requires Folded(s).segments[i].start <= t < Folded(s).segments[i].end
    requires Folded(s).segments[k].start <= t < Folded(s).segments[k].end
    ensures i == k
  {
    FoldTracks(s);
  }
}
