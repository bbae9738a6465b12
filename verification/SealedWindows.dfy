/**
 When a correction past the sealed periods leaves their totals alone.  The ledger's own
 guard looks at the correction's instants only; what matters is how far the allocation
 the correction finds in force is confirmed before and after it.
 */
module SealedWindows {
  import opened Basics
  import opened EventFold
  import opened EventTotals
  import opened EventLedger
  import FoldOverlap

  /** Where the fold order puts e. */
  function Place(s: seq<Event>, e: Event): (k: nat)
    ensures k <= |s|
  {
    if |s| > 0 && Before(e, s[|s| - 1]) then Place(s[..|s| - 1], e) else |s|
  }

  lemma {:induction false} InsertAtPlace(s: seq<Event>, e: Event)
    ensures Insert(s, e) == s[..Place(s, e)] + [e] + s[Place(s, e)..]
    ensures forall i :: Place(s, e) <= i < |s| ==> Before(e, s[i]) || i > Place(s, e)
  {
    if |s| > 0 && Before(e, s[|s| - 1]) {
      var front := s[..|s| - 1];
      InsertAtPlace(front, e);
      var k := Place(front, e);
      assert s[k..] == front[k..] + [s[|s| - 1]] && s[..k] == front[..k];
    }
  }

  /** The allocation e finds in force, if any, began no earlier than b. */
  predicate FindsNothingOlder(s: seq<Event>, e: Event, b: int) {
    var c := Current(s[..Place(s, e)]);
    c < 0 || !Opens(s[c].kind) || s[c].effective >= b
  }

  predicate AllAfter(s: seq<Event>, t: int) { forall i :: 0 <= i < |s| ==> s[i].effective > t }

  lemma {:induction false} OpenerStays(p: seq<Event>, later: seq<Event>, t: int)
    requires AllAfter(later, t)
    ensures Opener(p + later, t) == Opener(p, t)
    decreases |later|
  {
    if later == [] {
      assert p + later == p;
    } else {
      var n := |later| - 1;
      OpenerStays(p, later[..n], t);
      assert (p + later)[..|p + later| - 1] == p + later[..n];
    }
  }

  /** What is settled about an instant is not changed by anything later. */
  lemma SettledStays(p: seq<Event>, later: seq<Event>, t: int)
    requires AllAfter(later, t)
    requires EndedUse(p, t) || Opener(p, t) < 0 || !Opens(p[Opener(p, t)].kind)
    ensures Reading(p + later, t) == Reading(p, t)
  {
    hide Opener, AllAfter, Terminator, LastHeartbeat, LostFrom;
    OpenerStays(p, later, t);
    if EndedUse(p, t) {
      var i := Opener(p, t);
      var j := Terminator(p, i);
      EndedLater(p, later, i);
      assert (p + later)[..j] == p[..j];
    }
  }

  lemma {:induction false} EndedLater(p: seq<Event>, later: seq<Event>, i: int)
    requires 0 <= i < |p| && Terminator(p, i) < |p|
    ensures Terminator(p + later, i) == Terminator(p, i)
    decreases |p| - i
  {
    if !Changes(p[i + 1].kind) { EndedLater(p, later, i + 1); }
  }

  /** If the allocation in force began no earlier than b, whatever was in force before b has been ended. */
  lemma SettledInFront(p: seq<Event>, b: int, t: int)
    requires Sorted(p) && t < b
    requires var c := Current(p); c < 0 || !Opens(p[c].kind) || p[c].effective >= b
    ensures EndedUse(p, t) || Opener(p, t) < 0 || !Opens(p[Opener(p, t)].kind)
  {
    var i := Opener(p, t);
    if i >= 0 && Opens(p[i].kind) {
      var c := Current(p);
      NothingSkipped(p, i);
      if i < c { EndedBy(p, i, c); }
    }
  }

  lemma FoundInFront(s: seq<Event>, e: Event, b: int, t: int)
    requires Sorted(s) && t < b && FindsNothingOlder(s, e, b)
    ensures var p := s[..Place(s, e)];
            EndedUse(p, t) || Opener(p, t) < 0 || !Opens(p[Opener(p, t)].kind)
  {
    AfterPlace(s, e);
    hide Opener, EndedUse, Current;
    SettledInFront(s[..Place(s, e)], b, t);
  }

  lemma SettledInserts(p: seq<Event>, e: Event, q: seq<Event>, t: int)
    requires AllAfter(q, t) && AllAfter([e] + q, t)
    requires EndedUse(p, t) || Opener(p, t) < 0 || !Opens(p[Opener(p, t)].kind)
    ensures Reading(p + [e] + q, t) == Reading(p + q, t)
  {
    SettledStays(p, [e] + q, t);
    SettledStays(p, q, t);
    assert p + [e] + q == p + ([e] + q);
    hide *;
  }

  /** A correction at or after b that finds no allocation from before b changes no reading before b. */
  lemma LateCorrectionSparesReading(s: seq<Event>, e: Event, b: int, t: int)
    requires Sorted(s) && t < b <= e.effective && FindsNothingOlder(s, e, b)
    ensures Reading(Insert(s, e), t) == Reading(s, t)
  {
    hide *;
    var k := Place(s, e);
    InsertAtPlace(s, e);
    AllLater(s, e, t);
    FoundInFront(s, e, b, t);
    SettledInserts(s[..k], e, s[k..], t);
    assert s == s[..k] + s[k..];
  }

  lemma AllLater(s: seq<Event>, e: Event, t: int)
    requires Sorted(s) && t < e.effective
    ensures AllAfter(s[Place(s, e)..], t) && AllAfter([e] + s[Place(s, e)..], t)
  {
    AfterPlace(s, e);
  }

  lemma {:induction false} AfterPlace(s: seq<Event>, e: Event)
    requires Sorted(s)
    ensures forall i :: Place(s, e) <= i < |s| ==> s[i].effective >= e.effective
    ensures Sorted(s[..Place(s, e)])
  {
    if |s| > 0 && Before(e, s[|s| - 1]) { AfterPlace(s[..|s| - 1], e); }
  }

  lemma {:induction false} EndedBy(s: seq<Event>, i: int, c: int)
    requires 0 <= i < c < |s| && Changes(s[c].kind)
    ensures Terminator(s, i) <= c
    decreases c - i
  {
    if i + 1 < c && !Changes(s[i + 1].kind) { EndedBy(s, i + 1, c); }
  }

  // ------------------------------------------- the allocation the correction finds

  /** How far a lease confirms an allocation that started at `from`, up to b. */
  function Upto(cut: Option<int>, from: int, b: int): Option<int> {
    if cut.None? then None else Some(Min(Max(cut.value, from), b))
  }

  /** How far allocation c is confirmed, up to b; None where nothing reports it. */
  function Ending(s: seq<Event>, c: int, b: int): Option<int>
    requires 0 <= c < |s|
  {
    var j := Terminator(s, c);
    if j == |s| then None
    else if s[j].kind != LeaseExpired then Some(b)
    else Upto(CutPoint(s, j), s[c].effective, b)
  }

  /** The same once e, which finds c in force, is in the list. */
  function EndingWith(s: seq<Event>, e: Event, c: int, b: int): Option<int>
    requires 0 <= c < |s|
  {
    var j := Terminator(s, c);
    if Changes(e.kind) then
      if e.kind != LeaseExpired then Some(b)
      else Upto(LostFrom(e, LastHeartbeat(s[..Place(s, e)])), s[c].effective, b)
    else if e.kind == HeartbeatConfirmed && j < |s| && s[j].kind == LeaseExpired && s[j].lastObserved.Unstated? then Some(b)
    else Ending(s, c, b)
  }

  /** e finds no allocation from before b, or confirms the one it finds just as far as it was confirmed. */
  predicate SparesReadings(s: seq<Event>, e: Event, b: int) {
    FindsNothingOlder(s, e, b) ||
    var c := Current(s[..Place(s, e)]); EndingWith(s, e, c, b) == Ending(s, c, b)
  }

  lemma {:induction false} HeartbeatsJoin(a: seq<Event>, r: seq<Event>)
    ensures LastHeartbeat(a + r) == if LastHeartbeat(r).Some? then LastHeartbeat(r) else LastHeartbeat(a)
    ensures LastHeartbeat(r).Some? ==> exists i :: 0 <= i < |r| && r[i].effective == LastHeartbeat(r).value
    decreases |r|
  {
    if r == [] {
      assert a + r == a;
    } else {
      var front := r[..|r| - 1];
      assert (a + r)[..|a + r| - 1] == a + front;
      HeartbeatsJoin(a, front);
      if r[|r| - 1].kind != HeartbeatConfirmed && LastHeartbeat(front).Some? {
        var i :| 0 <= i < |front| && front[i].effective == LastHeartbeat(front).value;
        assert r[i].effective == LastHeartbeat(r).value;
      }
    }
  }

  /** The next change of p + q after the last one of p, seen from q. */
  lemma {:induction false} TerminatorInTail(p: seq<Event>, q: seq<Event>, c: int)
    requires 0 <= c < |p| && forall k :: c < k < |p| ==> !Changes(p[k].kind)
    ensures Terminator(p + q, c) == |p| + FirstChange(q)
    decreases |p| - c
  {
    if c + 1 < |p| { TerminatorInTail(p, q, c + 1); } else { TerminatorFrom(p, q); }
  }

  function FirstChange(q: seq<Event>): (j: nat)
    ensures j <= |q| && (j < |q| ==> Changes(q[j].kind))
  {
    if q == [] || Changes(q[0].kind) then 0 else 1 + FirstChange(q[1..])
  }

  lemma {:induction false} TerminatorFrom(p: seq<Event>, q: seq<Event>)
    requires p != []
    ensures Terminator(p + q, |p| - 1) == |p| + FirstChange(q)
    decreases |q|
  {
    if q != [] && !Changes(q[0].kind) {
      TerminatorFrom(p + [q[0]], q[1..]);
      assert p + [q[0]] + q[1..] == p + q;
    }
  }

  /** How far the allocation that began at `from` is confirmed when p is followed by q. */
  function TailEnding(p: seq<Event>, q: seq<Event>, from: int, b: int): Option<int> {
    var j := FirstChange(q);
    if j == |q| then None
    else if q[j].kind != LeaseExpired then Some(b)
    else Upto(LostFrom(q[j], LastHeartbeat(p + q[..j])), from, b)
  }

  lemma EndingInTail(p: seq<Event>, q: seq<Event>, c: int, b: int)
    requires 0 <= c < |p| && forall k :: c < k < |p| ==> !Changes(p[k].kind)
    ensures Ending(p + q, c, b) == TailEnding(p, q, p[c].effective, b)
  {
    hide LastHeartbeat, FirstChange, Terminator, Upto, LostFrom;
    TerminatorInTail(p, q, c);
    assert (p + q)[..|p| + FirstChange(q)] == p + q[..FirstChange(q)];
  }

  /** A late heartbeat is the last one or is followed by later ones; other events hide none. */
  lemma BeatInserts(p: seq<Event>, e: Event, r: seq<Event>, b: int)
    requires b <= e.effective && forall i :: 0 <= i < |r| ==> r[i].effective >= b
    ensures var beat := LastHeartbeat(p + ([e] + r));
            if e.kind == HeartbeatConfirmed then beat.Some? && beat.value >= b else beat == LastHeartbeat(p + r)
  {
    SingleHeartbeat(e);
    HeartbeatsJoin(p, [e] + r);
    HeartbeatsJoin([e], r);
    HeartbeatsJoin(p, r);
    hide LastHeartbeat;
  }

  /** The late event ends the allocation itself. */
  lemma TailChange(p: seq<Event>, e: Event, q: seq<Event>, from: int, b: int)
    requires Changes(e.kind)
    ensures TailEnding(p, [e] + q, from, b) == if e.kind != LeaseExpired then Some(b) else Upto(LostFrom(e, LastHeartbeat(p)), from, b)
  {
    assert p + ([e] + q)[..0] == p && FirstChange([e] + q) == 0;
  }

  /** Anything but a heartbeat that is no change leaves the ending; a heartbeat confirms up to b what only heartbeats vouch for. */
  lemma TailOther(p: seq<Event>, e: Event, q: seq<Event>, from: int, b: int)
    requires !Changes(e.kind) && from < b <= e.effective && forall i :: 0 <= i < |q| ==> q[i].effective >= b
    ensures var j := FirstChange(q);
            TailEnding(p, [e] + q, from, b) ==
              if e.kind == HeartbeatConfirmed && j < |q| && q[j].kind == LeaseExpired && q[j].lastObserved.Unstated? then Some(b)
              else TailEnding(p, q, from, b)
  {
    var j := FirstChange(q);
    assert ([e] + q)[1..] == q && FirstChange([e] + q) == j + 1;
    assert ([e] + q)[..j + 1] == [e] + q[..j];
    if j < |q| { assert ([e] + q)[j + 1] == q[j]; }
    BeatInserts(p, e, q[..j], b);
    hide LastHeartbeat, FirstChange, Upto;
    forall v | v >= b ensures Upto(Some(v), from, b) == Some(b) { UptoFull(v, from, b); }
  }

  lemma SingleHeartbeat(e: Event)
    ensures LastHeartbeat([e]) == if e.kind == HeartbeatConfirmed then Some(e.effective) else None
  {
    assert [e][..0] == [];
  }

  lemma UptoFull(v: int, from: int, b: int)
    requires from < b <= v
    ensures Upto(Some(v), from, b) == Some(b)
  {
  }

  lemma EndingInserts(p: seq<Event>, e: Event, q: seq<Event>, c: int, b: int)
    requires 0 <= c < |p| && (forall k :: c < k < |p| ==> !Changes(p[k].kind)) && Place(p + q, e) == |p|
    requires p[c].effective < b <= e.effective && forall i :: 0 <= i < |q| ==> q[i].effective >= b
    ensures Ending(p + ([e] + q), c, b) == EndingWith(p + q, e, c, b)
  {
    hide *;
    EndingInTail(p, [e] + q, c, b);
    EndingWithInTail(p, e, q, c, b);
    if Changes(e.kind) { TailChange(p, e, q, p[c].effective, b); } else { TailOther(p, e, q, p[c].effective, b); }
  }

  lemma EndingWithInTail(p: seq<Event>, e: Event, q: seq<Event>, c: int, b: int)
    requires 0 <= c < |p| && (forall k :: c < k < |p| ==> !Changes(p[k].kind)) && Place(p + q, e) == |p|
    ensures var j := FirstChange(q);
            EndingWith(p + q, e, c, b) ==
              if Changes(e.kind) then
                if e.kind != LeaseExpired then Some(b) else Upto(LostFrom(e, LastHeartbeat(p)), p[c].effective, b)
              else if e.kind == HeartbeatConfirmed && j < |q| && q[j].kind == LeaseExpired && q[j].lastObserved.Unstated? then Some(b)
              else TailEnding(p, q, p[c].effective, b)
  {
    hide Ending, TailEnding, Terminator, Place, Upto, LastHeartbeat, FirstChange, LostFrom, Changes;
    EndingInTail(p, q, c, b);
    TerminatorInTail(p, q, c);
    assert (p + q)[..|p|] == p;
  }

  // ------------------------------------------- instant by instant

  lemma ReadingOf(s: seq<Event>, c: int, t: int, b: int)
    requires 0 <= c < |s| && Opens(s[c].kind) && Opener(s, t) == c && s[c].effective <= t < b
    ensures Reading(s, t) ==
            match Ending(s, c, b)
            case None => None
            case Some(v) => Some(Use(s[c].quantity, if t < v then Confirmed else Uncertain))
  {
    hide Opener, Terminator, CutPoint;
  }

  /** The allocation e finds: the last change before its place. */
  lemma Found(s: seq<Event>, e: Event)
    requires Sorted(s)
    ensures var p := s[..Place(s, e)]; var c := Current(p);
            c >= 0 ==> forall k :: c < k < |p| ==> !Changes(p[k].kind)
  {
    AfterPlace(s, e);
    var p := s[..Place(s, e)];
    hide Place;
    if p != [] { NoneAfterCurrent(p, Current(p)); }
  }

  /** The allocation in force at the end of p, read in front of any later events. */
  lemma ReadingAcross(p: seq<Event>, q: seq<Event>, c: int, b: int, t: int)
    requires 0 <= c < |p| && Opens(p[c].kind) && p[c].effective <= t < b
    requires (forall k :: c < k < |p| ==> !Changes(p[k].kind)) && AllAfter(q, t)
    ensures Reading(p + q, t) == Told(p[c].quantity, Ending(p + q, c, b), t)
  {
    hide Reading, Ending;
    OpenerIs(p + q, c, t);
    ReadingOf(p + q, c, t, b);
  }

  /** Before b only the allocation e finds can read differently, and it reads as its ending says. */
  lemma ReadingsBefore(s: seq<Event>, e: Event, b: int, t: int)
    requires Sorted(s) && b <= e.effective && !FindsNothingOlder(s, e, b) && t < b
    ensures var c := Current(s[..Place(s, e)]);
            if t < s[c].effective then Reading(Insert(s, e), t) == Reading(s, t)
            else
              && Reading(s, t) == Told(s[c].quantity, Ending(s, c, b), t)
              && Reading(Insert(s, e), t) == Told(s[c].quantity, EndingWith(s, e, c, b), t)
  {
    hide Reading, Ending, EndingWith, Current, Opener, Insert, Place, AllAfter;
    var k := Place(s, e);
    var p, q, c := s[..k], s[k..], Current(s[..k]);
    if t < s[c].effective {
      LateCorrectionSparesReading(s, e, s[c].effective, t);
    } else {
      InsertAtPlace(s, e);
      AfterPlace(s, e);
      AllLater(s, e, t);
      Found(s, e);
      hide Sorted, FindsNothingOlder;
      assert s == p + q && p + [e] + q == p + ([e] + q);
      EndingInserts(p, e, q, c, b);
      ReadingAcross(p, q, c, b, t);
      ReadingAcross(p, [e] + q, c, b, t);
    }
  }

  function Told(q: Quantity, end: Option<int>, t: int): Option<Use> {
    match end
    case None => None
    case Some(v) => Some(Use(q, if t < v then Confirmed else Uncertain))
  }

  lemma EndingWithin(s: seq<Event>, e: Event, c: int, b: int)
    requires 0 <= c < |s| && s[c].effective < b
    ensures Ending(s, c, b).Some? ==> s[c].effective <= Ending(s, c, b).value <= b
    ensures EndingWith(s, e, c, b).Some? ==> s[c].effective <= EndingWith(s, e, c, b).value <= b
  {
    hide Terminator, CutPoint, Place, LastHeartbeat;
  }

  ghost predicate SameReadings(s: seq<Event>, s': seq<Event>, b: int) {
    forall t :: t < b ==> Reading(s', t) == Reading(s, t)
  }

  /** The first instant at which two endings tell differently. */
  function Parting(from: int, u: Option<int>, v: Option<int>): int {
    if u.Some? && v.Some? then Min(u.value, v.value) else from
  }

  /** A correction at or after b changes no reading before b if and only if it spares b. */
  lemma ReadingsSparedExactly(s: seq<Event>, e: Event, b: int)
    requires Sorted(s) && b <= e.effective
    ensures SameReadings(s, Insert(s, e), b) <==> SparesReadings(s, e, b)
  {
    hide Reading, Ending, EndingWith, Insert, Place, Current;
    if FindsNothingOlder(s, e, b) {
      forall t | t < b ensures Reading(Insert(s, e), t) == Reading(s, t) { LateCorrectionSparesReading(s, e, b, t); }
    } else {
      var c := Current(s[..Place(s, e)]);
      EndingWithin(s, e, c, b);
      forall t | t < b && SparesReadings(s, e, b) ensures Reading(Insert(s, e), t) == Reading(s, t) { ReadingsBefore(s, e, b, t); }
      if !SparesReadings(s, e, b) {
        var t := Parting(s[c].effective, Ending(s, c, b), EndingWith(s, e, c, b));
        ReadingsBefore(s, e, b, t);
        assert Reading(Insert(s, e), t) != Reading(s, t);
      }
    }
  }

  // ------------------------------------------- totals

  ghost predicate SameTotals(s: seq<Event>, s': seq<Event>, b: int) {
    forall x, a, c :: c <= b ==> ReadingTotal(s', x, a, c) == ReadingTotal(s, x, a, c)
  }

  predicate UsesNothing(q: Quantity) { forall m :: m in q ==> q[m] == 0 }

  /** An ending as totals feel it: confirmed use of nothing weighs as little as unreported use. */
  function Felt(q: Quantity, end: Option<int>, b: int): Option<int> {
    if UsesNothing(q) && end.None? then Some(b) else end
  }

  /** e finds no allocation from before b, or totals feel no difference in how far the one it finds is confirmed. */
  predicate Spares(s: seq<Event>, e: Event, b: int) {
    FindsNothingOlder(s, e, b) ||
    var c := Current(s[..Place(s, e)]);
    Felt(s[c].quantity, EndingWith(s, e, c, b), b) == Felt(s[c].quantity, Ending(s, c, b), b)
  }

  lemma {:induction false} SameWeightsAddUp(s: seq<Event>, s': seq<Event>, x: Measure, a: int, c: int)
    requires forall t :: t < c ==> Weight(Reading(s', t), x) == Weight(Reading(s, t), x)
    ensures ReadingTotal(s', x, a, c) == ReadingTotal(s, x, a, c)
    decreases c - a
  {
    hide Reading, Weight;
    if a < c { SameWeightsAddUp(s, s', x, a, c - 1); }
  }

  lemma OneInstant(s: seq<Event>, x: Measure, t: int)
    ensures ReadingTotal(s, x, t, t + 1) == Weight(Reading(s, t), x)
  {
    hide Reading, Weight;
    assert ReadingTotal(s, x, t, t) == 0;
  }

  lemma FeltAlikeWeighsAlike(q: Quantity, u: Option<int>, v: Option<int>, b: int, t: int, x: Measure)
    requires Felt(q, u, b) == Felt(q, v, b) && t < b
    ensures Weight(Told(q, u, t), x) == Weight(Told(q, v, t), x)
  {
  }

  /** Endings that are felt differently weigh differently at some instant. */
  lemma FeltApart(q: Quantity, u: Option<int>, v: Option<int>, from: int, b: int) returns (x: Measure, t: int)
    requires Felt(q, u, b) != Felt(q, v, b) && from < b
    requires (u.Some? ==> from <= u.value <= b) && (v.Some? ==> from <= v.value <= b)
    ensures from <= t < b && Weight(Told(q, u, t), x) != Weight(Told(q, v, t), x)
  {
    t := Parting(from, Felt(q, u, b), Felt(q, v, b));
    if UsesNothing(q) {
      x := UncertainTime;
    } else {
      var m :| m in q && q[m] != 0;
      x := if Weight(Told(q, u, t), UncertainTime) != Weight(Told(q, v, t), UncertainTime) then UncertainTime else ConfirmedMeter(m);
    }
  }

  /**
   A correction at or after b leaves every total over every window ending by b alone if
   and only if it spares b.
   */
  lemma TotalsSparedExactly(s: seq<Event>, e: Event, b: int)
    requires Sorted(s) && b <= e.effective
    ensures SameTotals(s, Insert(s, e), b) <==> Spares(s, e, b)
  {
    hide Reading, Insert, Place, Current, Felt, Ending, EndingWith, ReadingTotal, Weight, Told;
    var c := Current(s[..Place(s, e)]);
    if Spares(s, e, b) {
      forall x, t | t < b ensures Weight(Reading(Insert(s, e), t), x) == Weight(Reading(s, t), x) {
        if FindsNothingOlder(s, e, b) {
          LateCorrectionSparesReading(s, e, b, t);
        } else {
          ReadingsBefore(s, e, b, t);
          FeltAlikeWeighsAlike(s[c].quantity, Ending(s, c, b), EndingWith(s, e, c, b), b, t, x);
        }
      }
      forall x, a, d | d <= b ensures ReadingTotal(Insert(s, e), x, a, d) == ReadingTotal(s, x, a, d) {
        SameWeightsAddUp(s, Insert(s, e), x, a, d);
      }
    } else {
      EndingWithin(s, e, c, b);
      var x, t := FeltApart(s[c].quantity, Ending(s, c, b), EndingWith(s, e, c, b), s[c].effective, b);
      ReadingsBefore(s, e, b, t);
      OneInstant(s, x, t);
      OneInstant(Insert(s, e), x, t);
      assert ReadingTotal(Insert(s, e), x, t, t + 1) != ReadingTotal(s, x, t, t + 1);
    }
  }

  // ------------------------------------------- sealed periods

  predicate SealedAt(periods: seq<Period>, t: int) {
    exists i :: 0 <= i < |periods| && Within(periods[i], t)
  }

  /** Every instant before b is sealed. */
  ghost predicate SealedUpTo(periods: seq<Period>, b: int) {
    forall t: nat :: t < b ==> SealedAt(periods, t)
  }

  lemma {:induction false} NotHit(e: Event, periods: seq<Period>, i: int)
    requires SealedHit(e, periods).None? && 0 <= i < |periods|
    ensures !Hits(periods[i], e)
    decreases i
  {
    if i > 0 { NotHit(e, periods[1..], i - 1); }
  }

  lemma UnflaggedIsLate(e: Event, periods: seq<Period>, b: int)
    requires SealedUpTo(periods, b) && SealedHit(e, periods).None?
    ensures b <= e.effective
  {
    if e.effective < b {
      assert SealedAt(periods, e.effective);
      var i :| 0 <= i < |periods| && Within(periods[i], e.effective);
      NotHit(e, periods, i);
    }
  }

  /**
   The promise that sealed totals are never restated, with everything before b sealed: a
   correction that is not flagged leaves every total over every window ending by b the
   same, as the events say them, if and only if it spares b.
   */
  lemma SealedTotalsExactly(events: seq<Event>, e: Event, periods: seq<Period>, b: int)
    requires SealedUpTo(periods, b) && SealedHit(e, periods).None?
    ensures SameTotals(FoldOrder(events), FoldOrder(events + [e]), b) <==> Spares(FoldOrder(events), e, b)
  {
    FoldOrderSorts(events);
    UnflaggedIsLate(e, periods, b);
    assert (events + [e])[..|events|] == events;
    TotalsSparedExactly(FoldOrder(events), e, b);
  }

  ghost predicate SameSegmentTotals(p: Projection, p': Projection, b: int) {
    forall x, a, c :: c <= b ==> SegmentTotal(p'.segments, x, Between(a, c)) == SegmentTotal(p.segments, x, Between(a, c))
  }

  /** The same of the clipped totals of the projected segments, where no lease claims an observation after its expiry. */
  lemma SealedSegmentsExactly(events: seq<Event>, e: Event, periods: seq<Period>, b: int)
    requires SealedUpTo(periods, b) && SealedHit(e, periods).None?
    requires CutsInTime(FoldOrder(events)) && CutsInTime(FoldOrder(events + [e]))
    ensures SameSegmentTotals(Project(events), Project(events + [e]), b) <==> Spares(FoldOrder(events), e, b)
  {
    SealedTotalsExactly(events, e, periods, b);
    FoldOrderSorts(events);
    FoldOrderSorts(events + [e]);
    var s, s' := FoldOrder(events), FoldOrder(events + [e]);
    hide Spares, FindsNothingOlder, ReadingTotal, SegmentTotal, Folded, FoldOrder, CutsInTime;
    forall x, a, c
      ensures SegmentTotal(Project(events).segments, x, Between(a, c)) == ReadingTotal(s, x, a, c)
      ensures SegmentTotal(Project(events + [e]).segments, x, Between(a, c)) == ReadingTotal(s', x, a, c)
    {
      TotalIsIntegral(s, x, a, c);
      TotalIsIntegral(s', x, a, c);
    }
    if SameTotals(s, s', b) {
      forall x, a, c | c <= b
        ensures SegmentTotal(Project(events + [e]).segments, x, Between(a, c)) == SegmentTotal(Project(events).segments, x, Between(a, c))
      {
        assert ReadingTotal(s', x, a, c) == ReadingTotal(s, x, a, c);
      }
    }
    if SameSegmentTotals(Project(events), Project(events + [e]), b) {
      forall x, a, c | c <= b ensures ReadingTotal(s', x, a, c) == ReadingTotal(s, x, a, c) {
        assert SegmentTotal(Project(events + [e]).segments, x, Between(a, c)) == SegmentTotal(Project(events).segments, x, Between(a, c));
      }
    }
  }

  const PROVISIONED := FoldOverlap.Sample("a", 1, 0, ResourceProvisioned, Unstated)
  const LOST := FoldOverlap.Sample("b", 2, 60, LeaseExpired, At(20))
  const STOPPED := FoldOverlap.Sample("c", 3, 55, RuntimeStopped, Unstated)

  lemma SampleOrders()
    ensures FoldOrder([PROVISIONED, LOST]) == [PROVISIONED, LOST]
    ensures FoldOrder([PROVISIONED, LOST, STOPPED]) == [PROVISIONED, STOPPED, LOST]
  {
    var a, b, e := PROVISIONED, LOST, STOPPED;
    SortedStays([a, b]);
    assert [a, b, e][..2] == [a, b] && [a, b][..1] == [a];
    assert Insert([a], e) == [a, e] && [a, e] + [b] == [a, e, b];
  }

  lemma SampleFolds()
    ensures Folded([PROVISIONED, LOST]).segments == [Segment(0, 20, map["cpu" := 1], Confirmed), Segment(20, 60, map["cpu" := 1], Uncertain)]
    ensures Folded([PROVISIONED, STOPPED, LOST]).segments == [Segment(0, 55, map["cpu" := 1], Confirmed)]
  {
    var a, b, e := PROVISIONED, LOST, STOPPED;
    assert [a][..0] == [] && [a, b][..1] == [a] && [a, e][..1] == [a] && [a, e, b][..2] == [a, e];
    assert Folded([a]) == FoldState([], Some(OpenSegment(0, map["cpu" := 1])), None);
    assert Folded([a, b]) == FoldStep(Folded([a]), b);
    assert Folded([a, e]) == FoldStep(Folded([a]), e);
    assert Folded([a, e, b]) == FoldStep(Folded([a, e]), b);
  }

  lemma SampleTotals(q: Quantity)
    requires q == map["cpu" := 1]
    ensures SegmentTotal([Segment(0, 20, q, Confirmed), Segment(20, 60, q, Uncertain)], ConfirmedMeter("cpu"), Between(0, 50)) == 20
    ensures SegmentTotal([Segment(0, 55, q, Confirmed)], ConfirmedMeter("cpu"), Between(0, 50)) == 50
  {
    hide SegmentTotal;
    var sure, unsure, whole := Segment(0, 20, q, Confirmed), Segment(20, 60, q, Uncertain), Segment(0, 55, q, Confirmed);
    var m, w := ConfirmedMeter("cpu"), Between(0, 50);
    TotalSnoc([], sure, m, w);
    TotalSnoc([sure], unsure, m, w);
    TotalSnoc([], whole, m, w);
    assert [] + [sure] == [sure] && [sure] + [unsure] == [sure, unsure] && [] + [whole] == [whole];
  }

  lemma TotalSnoc(segments: seq<Segment>, g: Segment, x: Measure, w: Window)
    ensures SegmentTotal(segments + [g], x, w) == SegmentTotal(segments, x, w) + UseWeight(Use(g.quantity, g.certainty), x) * Clipped(g, w)
    ensures SegmentTotal([], x, w) == 0
  {
    assert (segments + [g])[..|segments|] == segments;
    hide UseWeight, Clipped;
  }

  /**
   The smallest restatement: lost at 60 and last seen at 20, with everything before 50
   sealed; a stop at 55 is not flagged and lifts the sealed total from 20 to 50.
   */
  lemma SealedTotalRestated()
    ensures SealedUpTo([Period("first", 0, 50)], 50) && SealedHit(STOPPED, [Period("first", 0, 50)]).None?
    ensures SegmentTotal(Project([PROVISIONED, LOST]).segments, ConfirmedMeter("cpu"), Between(0, 50)) == 20
    ensures SegmentTotal(Project([PROVISIONED, LOST, STOPPED]).segments, ConfirmedMeter("cpu"), Between(0, 50)) == 50
  {
    hide FoldOrder, Folded, SegmentTotal, SealedUpTo, SealedHit, FoldOverlap.Sample;
    SampleSeal();
    SampleOrders();
    SampleFolds();
    SampleTotals(map["cpu" := 1]);
  }

  lemma SampleSeal()
    ensures SealedUpTo([Period("first", 0, 50)], 50) && SealedHit(STOPPED, [Period("first", 0, 50)]).None?
  {
    var periods := [Period("first", 0, 50)];
    assert SealedHit(STOPPED, periods) == SealedHit(STOPPED, periods[1..]);
    forall t: nat | t < 50 ensures SealedAt(periods, t) { assert Within(periods[0], t); }
  }
}
