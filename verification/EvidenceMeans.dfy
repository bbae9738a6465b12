/**
 What each kind of event means for usage, kind by kind, and what a projection says in
 those terms: where an allocation starts, what ends it and how far it is confirmed.
 */
module EvidenceMeans {
  import opened Basics
  import opened EventFold

  /** A new allocation, or a new quantity, takes effect. */
  predicate Starts(k: EventType) {
    match k
    case RuntimeStarted => true
    case PolicyApplied => true
    case ResourceProvisioned => true
    case ResourceResized => true
    case SnapshotCreated => true
    case _ => false
  }

  /** The allocation is over, or its lease is. */
  predicate Ends(k: EventType) {
    match k
    case RuntimeStopped => true
    case ResourceReleased => true
    case SnapshotDeleted => true
    case VolumePurged => true
    case LeaseExpired => true
    case _ => Starts(k)
  }

  lemma KindsMean(k: EventType)
    ensures Starts(k) == Opens(k) && Ends(k) == Changes(k)
  {
  }

  /** Events are read by effective time, an expiry after everything else of its instant, and otherwise as appended. */
  lemma ReadingOrder(events: seq<Event>, i: int, j: int)
    requires 0 <= i < j < |FoldOrder(events)|
    ensures var a, b := FoldOrder(events)[i], FoldOrder(events)[j];
            a.effective < b.effective || (a.effective == b.effective && (a.kind.LeaseExpired? ==> b.kind.LeaseExpired?))
  {
    FoldOrderSorts(events);
  }

  /** Allocation i is ended by event j, the next one that starts or ends anything. */
  predicate EndedBy(s: seq<Event>, i: int, j: int) {
    0 <= i < j < |s| && Starts(s[i].kind) && Ends(s[j].kind) && forall k :: i < k < j ==> !Ends(s[k].kind)
  }

  /** The last heartbeat in front of event j; -1 where there is none. */
  predicate LastBeat(s: seq<Event>, j: int, h: int) {
    && -1 <= h < j <= |s|
    && (h >= 0 ==> s[h].kind == HeartbeatConfirmed)
    && forall k :: h < k < j ==> s[k].kind != HeartbeatConfirmed
  }

  /** How event j, with heartbeat h the last one before it, leaves the usage of quantity q at t. */
  function Left(s: seq<Event>, q: Quantity, j: int, h: int, t: int): Option<Use>
    requires 0 <= j < |s| && LastBeat(s, j, h)
  {
    if s[j].kind != LeaseExpired then Some(Use(q, Confirmed))
    else
      match s[j].lastObserved
      case At(seen) => Some(Use(q, if t < seen then Confirmed else Uncertain))
      case Unknown => None
      case Unstated => if h < 0 then None else Some(Use(q, if t < s[h].effective then Confirmed else Uncertain))
  }

  lemma {:induction false} LastBeatIs(s: seq<Event>, j: int, h: int)
    requires LastBeat(s, j, h)
    ensures LastHeartbeat(s[..j]) == if h < 0 then None else Some(s[h].effective)
    decreases j
  {
    if j > 0 && h < j - 1 {
      assert s[..j][..j - 1] == s[..j - 1];
      LastBeatIs(s, j - 1, h);
    }
  }

  lemma {:induction false} LastBeatExists(s: seq<Event>, j: int) returns (h: int)
    requires 0 <= j <= |s|
    ensures LastBeat(s, j, h)
    decreases j
  {
    if j == 0 {
      h := -1;
    } else if s[j - 1].kind == HeartbeatConfirmed {
      h := j - 1;
    } else {
      h := LastBeatExists(s, j - 1);
    }
  }

  lemma {:induction false} TerminatorAt(s: seq<Event>, i: int, j: int)
    requires -1 <= i < j <= |s| && (j < |s| ==> Changes(s[j].kind)) && forall k :: i < k < j ==> !Changes(s[k].kind)
    requires i < |s|
    ensures Terminator(s, i) == j
    decreases j - i
  {
    if i + 1 < j { TerminatorAt(s, i + 1, j); }
  }

  lemma ReadingLeft(s: seq<Event>, i: int, j: int, h: int, t: int)
    requires Sorted(s) && EndedBy(s, i, j) && LastBeat(s, j, h) && s[i].effective <= t < s[j].effective
    ensures Reading(s, t) == Left(s, s[i].quantity, j, h, t)
  {
    forall k { KindsMean(k); }
    forall k | j <= k < |s| ensures s[k].effective > t { SortedTimes(s, j, k); }
    OpenerIs(s, i, t);
    TerminatorAt(s, i, j);
    LastBeatIs(s, j, h);
    hide Opener, Terminator, LastHeartbeat;
  }

  /** What the segments of a projection say while an allocation lasts. */
  lemma BilledUntilEnded(events: seq<Event>, i: int, j: int, h: int, t: int)
    requires var s := FoldOrder(events);
             CutsInTime(s) && EndedBy(s, i, j) && LastBeat(s, j, h) && s[i].effective <= t < s[j].effective
    ensures var s := FoldOrder(events); SegmentAt(Project(events).segments, t) == Left(s, s[i].quantity, j, h, t)
  {
    FoldOrderSorts(events);
    FoldRefinesReading(FoldOrder(events), t);
    hide FoldOrder, Folded, Reading, CutsInTime, Left;
    ReadingLeft(FoldOrder(events), i, j, h, t);
  }

  /** And they say nothing about any other instant. */
  lemma BilledOnlyUntilEnded(events: seq<Event>, t: int) returns (i: int, j: int, h: int)
    requires CutsInTime(FoldOrder(events)) && SegmentAt(Project(events).segments, t).Some?
    ensures var s := FoldOrder(events);
            && EndedBy(s, i, j) && LastBeat(s, j, h) && s[i].effective <= t < s[j].effective
            && SegmentAt(Project(events).segments, t) == Left(s, s[i].quantity, j, h, t)
  {
    var s := FoldOrder(events);
    FoldOrderSorts(events);
    FoldRefinesReading(s, t);
    i := Opener(s, t);
    j := Terminator(s, i);
    forall k { KindsMean(k); }
    OpenerIsLast(s, t);
    hide FoldOrder, Folded, CutsInTime, Left, Reading, Opener, Terminator;
    h := LastBeatExists(s, j);
    BilledUntilEnded(events, i, j, h, t);
  }

  lemma {:induction false} OpenerIsLast(s: seq<Event>, t: int)
    ensures forall k :: Opener(s, t) < k < |s| ==> !Changes(s[k].kind) || s[k].effective > t
    decreases |s|
  {
    if s != [] { OpenerIsLast(s[..|s| - 1], t); }
  }

  /** What is still open: the last start, if nothing has ended it. */
  lemma StillOpen(events: seq<Event>, i: int)
    requires var s := FoldOrder(events);
             -1 <= i < |s| && (i >= 0 ==> Ends(s[i].kind)) && forall k :: i < k < |s| ==> !Ends(s[k].kind)
    ensures var s := FoldOrder(events);
            Project(events).open == if i >= 0 && Starts(s[i].kind) then Some(OpenSegment(s[i].effective, s[i].quantity)) else None
  {
    hide FoldOrder, Folded;
    FoldOrderSorts(events);
    LastEnds(FoldOrder(events), i);
    FoldFollows(FoldOrder(events));
    hide Current, Starts, Ends, Sorted, LastHeartbeat;
    if i >= 0 { KindsMean(FoldOrder(events)[i].kind); }
  }

  lemma LastEnds(s: seq<Event>, i: int)
    requires Sorted(s) && -1 <= i < |s| && (i >= 0 ==> Ends(s[i].kind)) && forall k :: i < k < |s| ==> !Ends(s[k].kind)
    ensures Current(s) == i
  {
    forall k { KindsMean(k); }
    if s != [] {
      NoneAfterCurrent(s, Current(s));
      if i >= 0 { NothingSkipped(s, i); }
    }
    hide Ends, Sorted;
  }
}
