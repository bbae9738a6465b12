/**
 Harmless ties are exactly the ties no delivery can show: two events of one resource
 with one fold key may arrive in either order after anything if and only if their tie
 is harmless, and for every other tie there is a short history that shows the order.
 */
module DeliveryTies {
  import opened Basics
  import opened EventFold
  import opened EventLedger
  import opened DeliveryOrder

  /** The projection of a resource after a delivery. */
  function Arrival(ds: seq<Event>, r: ResourceKey): Projection { Project(EventsOf(Delivered(ds).book, r)) }

  // ------------------------------------------- deliveries without any collision

  predicate AllNew(ds: seq<Event>, r: ResourceKey) {
    && (forall i :: 0 <= i < |ds| ==> ds[i].resource == r && ds[i].ledgerSeq == None)
    && (forall i, j :: 0 <= i < j < |ds| ==> ds[i].id != ds[j].id && KeyOf(ds[i]) != KeyOf(ds[j]))
  }

  ghost predicate IndexedBy(k: Book, ds: seq<Event>) {
    && (forall x :: x in k.byEventId ==> exists i :: 0 <= i < |ds| && ds[i].id == x)
    && (forall x :: x in k.bySourceKey ==> exists i :: 0 <= i < |ds| && KeyOf(ds[i]) == x)
  }

  lemma {:induction false} NewAreListed(ds: seq<Event>, r: ResourceKey)
    requires AllNew(ds, r)
    ensures IndexedBy(Delivered(ds).book, ds) && BareAll(EventsOf(Delivered(ds).book, r)) == BareAll(ds)
  {
    if ds != [] {
      var front, e := ds[..|ds| - 1], ds[|ds| - 1];
      assert ds == front + [e];
      assert AllNew(front, r);
      hide Append, AllNew, IndexedBy, BareAll, EventsOf;
      NewAreListed(front, r);
      NewIsStored(Delivered(front), front, e, r);
    }
  }

  lemma NewIsStored(l: Ledger, front: seq<Event>, e: Event, r: ResourceKey)
    requires AllNew(front + [e], r) && IndexedBy(l.book, front) && BareAll(EventsOf(l.book, r)) == BareAll(front)
    ensures IndexedBy(Append(l, e).0.book, front + [e])
    ensures BareAll(EventsOf(Append(l, e).0.book, r)) == BareAll(front + [e])
  {
    hide Project;
    var ds, n, s := front + [e], |front|, Stamped(l.book, e, l.clock);
    assert ds[n] == e && forall i :: 0 <= i < n ==> ds[i] == front[i];
    assert Stored(l.book, e).None? by {
      assert forall i :: 0 <= i < n ==> front[i].id != ds[n].id && KeyOf(front[i]) != KeyOf(ds[n]);
    }
    StoredOneMore(l.book, s, r);
    assert Bare(s) == Bare(e) && KeyOf(s) == KeyOf(e);
    var k := Append(l, e).0.book;
    assert k == Store(l.book, s);
    hide Append, Stored, Stamped, Store, Bare, KeyOf, EventsOf, AllNew;
    OneMoreIndexed(k, l.book, front, e);
  }

  lemma StoredOneMore(k: Book, s: Event, r: ResourceKey)
    requires s.resource == r && s.ledgerSeq.Some?
    ensures EventsOf(Store(k, s), r) == EventsOf(k, r) + [s]
    ensures Store(k, s).byEventId.Keys == k.byEventId.Keys + {s.id}
    ensures Store(k, s).bySourceKey.Keys == k.bySourceKey.Keys + {KeyOf(s)}
  {
    hide Project;
  }

  lemma OneMoreIndexed(k': Book, k: Book, front: seq<Event>, e: Event)
    requires IndexedBy(k, front)
    requires k'.byEventId.Keys == k.byEventId.Keys + {e.id} && k'.bySourceKey.Keys == k.bySourceKey.Keys + {KeyOf(e)}
    ensures IndexedBy(k', front + [e])
  {
    hide KeyOf;
    var ds, n := front + [e], |front|;
    forall x | x in k'.byEventId ensures exists i :: 0 <= i < |ds| && ds[i].id == x {
      if x == e.id { assert ds[n].id == x; } else {
        assert x in k.byEventId.Keys;
        var i :| 0 <= i < n && front[i].id == x;
        assert ds[i].id == x;
      }
    }
    forall x | x in k'.bySourceKey ensures exists i :: 0 <= i < |ds| && KeyOf(ds[i]) == x {
      if x == KeyOf(e) { assert KeyOf(ds[n]) == x; } else {
        assert x in k.bySourceKey.Keys;
        var i :| 0 <= i < n && KeyOf(front[i]) == x;
        assert KeyOf(ds[i]) == x;
      }
    }
  }

  /** Events delivered in fold order and without collisions are folded as they came. */
  lemma NewAreFolded(ds: seq<Event>, r: ResourceKey)
    requires AllNew(ds, r) && Sorted(ds)
    ensures Arrival(ds, r) == Projection(Folded(ds).segments, Folded(ds).open)
  {
    NewAreListed(ds, r);
    ProjectBare(EventsOf(Delivered(ds).book, r));
    ProjectBare(ds);
    SortedStays(ds);
  }

  // ------------------------------------------- the history that shows a tie

  function NameOf(id: EventId): string { if id.Named? then id.name else "" }

  /** An event of a's resource that collides with neither a nor b. */
  function Beside(a: Event, b: Event, mark: string, at: nat, kind: EventType): Event {
    Event(Named(NameOf(a.id) + NameOf(b.id) + mark), a.resource, a.source + b.source + mark, None, 0, at, kind,
          map[], Unstated, "", None, None)
  }

  /** Nothing for openings and closings; for leases an allocation, and a heartbeat where only that tells them apart. */
  function Witness(a: Event, b: Event): seq<Event> {
    if a.kind != LeaseExpired then []
    else
      [Beside(a, b, "x", 0, ResourceProvisioned)] +
      (if a.lastObserved.At? || b.lastObserved.At? then [] else [Beside(a, b, "xx", a.effective, HeartbeatConfirmed)])
  }

  /** The events are identified, and every tie but that of a and b is harmless. */
  ghost predicate OtherwiseCoherent(front: seq<Event>, a: Event, b: Event) {
    var all := SetOf(front) + {a, b};
    && Identified(all)
    && forall x, y :: x in all && y in all && Rivals(x, y) ==> Harmless(x, y) || {x, y} == {a, b}
  }

  /** Two new events of one resource with one fold key. */
  predicate Tie(a: Event, b: Event) {
    && a.resource == b.resource && SameKey(a, b) && a.id != b.id && KeyOf(a) != KeyOf(b)
    && a.ledgerSeq.None? && b.ledgerSeq.None?
  }

  lemma BesideIsNew(a: Event, b: Event, at: nat, now: nat)
    ensures var o, h := Beside(a, b, "x", at, ResourceProvisioned), Beside(a, b, "xx", now, HeartbeatConfirmed);
            && o.id != a.id && o.id != b.id && KeyOf(o) != KeyOf(a) && KeyOf(o) != KeyOf(b)
            && h.id != a.id && h.id != b.id && KeyOf(h) != KeyOf(a) && KeyOf(h) != KeyOf(b)
            && o.id != h.id && KeyOf(o) != KeyOf(h)
  {
    var o, h := Beside(a, b, "x", at, ResourceProvisioned), Beside(a, b, "xx", now, HeartbeatConfirmed);
    assert |o.id.name| == |NameOf(a.id)| + |NameOf(b.id)| + 1 && |h.id.name| == |NameOf(a.id)| + |NameOf(b.id)| + 2;
    assert |o.source| == |a.source| + |b.source| + 1 && |h.source| == |a.source| + |b.source| + 2;
  }

  /** A history of new events whose ties are harmless leaves a and b the only tie that is not. */
  lemma NewAreCoherent(front: seq<Event>, a: Event, b: Event)
    requires AllNew(front + [a, b], a.resource)
    requires forall i, y :: 0 <= i < |front| && y in front + [a, b] && SameKey(front[i], y) ==> Harmless(front[i], y) && Harmless(y, front[i])
    ensures OtherwiseCoherent(front, a, b)
  {
    hide Harmless;
    var ds, all := front + [a, b], SetOf(front) + {a, b};
    forall x | x in all ensures x in ds {
      assert ds[|front|] == a && ds[|front| + 1] == b;
      if x in front {
        var i :| 0 <= i < |front| && front[i] == x;
        assert ds[i] == x;
      }
    }
    forall x, y | x in all && y in all && Rivals(x, y) ensures Harmless(x, y) || {x, y} == {a, b} {
      if x == y { AlwaysHarmless(x); }
    }
    hide SameKey, Rivals;
    assert Identified(all);
  }

  lemma AlwaysHarmless(x: Event)
    ensures Harmless(x, x)
  {
  }

  lemma WitnessCoherent(a: Event, b: Event)
    requires Tie(a, b)
    ensures OtherwiseCoherent(Witness(a, b), a, b)
    ensures AllNew(Witness(a, b) + [a, b], a.resource) && Sorted(Witness(a, b) + [a, b])
  {
    BesideIsNew(a, b, 0, a.effective);
    var o, h := Beside(a, b, "x", 0, ResourceProvisioned), Beside(a, b, "xx", a.effective, HeartbeatConfirmed);
    var front := Witness(a, b);
    assert front == [] || front == [o] || front == [o, h];
    assert front != [] ==> a.kind == LeaseExpired && b.kind == LeaseExpired;
    NewWitness(front, o, h, a, b);
    NewAreCoherent(front, a, b);
  }

  lemma NewWitness(front: seq<Event>, o: Event, h: Event, a: Event, b: Event)
    requires Tie(a, b) && (front == [] || front == [o] || front == [o, h])
    requires front != [] ==> a.kind == LeaseExpired && b.kind == LeaseExpired
    requires o.kind == ResourceProvisioned && h.kind == HeartbeatConfirmed && o.effective == 0 && h.effective == a.effective
    requires o.resource == h.resource == a.resource && o.ledgerSeq.None? && h.ledgerSeq.None?
    requires o.id != a.id && o.id != b.id && KeyOf(o) != KeyOf(a) && KeyOf(o) != KeyOf(b)
    requires h.id != a.id && h.id != b.id && KeyOf(h) != KeyOf(a) && KeyOf(h) != KeyOf(b)
    requires o.id != h.id && KeyOf(o) != KeyOf(h)
    ensures AllNew(front + [a, b], a.resource) && Sorted(front + [a, b])
    ensures forall i, y :: 0 <= i < |front| && y in front + [a, b] && SameKey(front[i], y) ==> Harmless(front[i], y) && Harmless(y, front[i])
  {
    hide KeyOf;
  }

  lemma FoldOfTwo(front: seq<Event>, a: Event, b: Event)
    ensures Folded(front + [a, b]) == FoldStep(FoldStep(Folded(front), a), b)
  {
    hide FoldStep;
    var ds := front + [a, b];
    assert ds[..|ds| - 1] == front + [a];
    assert (front + [a])[..|front|] == front;
  }

  /** The state in which a tie that is not harmless shows. */
  predicate Telling(st: FoldState, a: Event, b: Event) {
    if a.kind != LeaseExpired then st == FoldState([], None, None)
    else
      && st.segments == [] && st.open == Some(OpenSegment(0, map[]))
      && st.heartbeat == (if a.lastObserved.At? || b.lastObserved.At? then None else Some(a.effective))
  }

  lemma WitnessTells(a: Event, b: Event)
    ensures Telling(Folded(Witness(a, b)), a, b)
  {
    var o, h := Beside(a, b, "x", 0, ResourceProvisioned), Beside(a, b, "xx", a.effective, HeartbeatConfirmed);
    assert [o][..0] == [] && [o, h][..1] == [o];
    assert Folded([o]) == FoldStep(Folded([]), o) && Folded([o, h]) == FoldStep(Folded([o]), h);
    assert o.kind == ResourceProvisioned && o.effective == 0 && o.quantity == map[] && h.kind == HeartbeatConfirmed;
    hide Beside;
  }

  lemma TellingTells(st: FoldState, a: Event, b: Event)
    requires SameKey(a, b) && !Harmless(a, b) && Telling(st, a, b)
    ensures var x, y := FoldStep(FoldStep(st, a), b), FoldStep(FoldStep(st, b), a);
            x.segments != y.segments || x.open != y.open
  {
    if a.kind == LeaseExpired {
      var p, q := CutAt(st, a), CutAt(st, b);
      assert p != [] && q != [] ==> p[0].start == q[0].start == 0;
      assert p != q;
    }
  }

  /** A tie that is not harmless has a history, coherent apart from it, after which the order shows. */
  lemma TieShows(a: Event, b: Event)
    requires Tie(a, b) && !Harmless(a, b)
    ensures OtherwiseCoherent(Witness(a, b), a, b)
    ensures Arrival(Witness(a, b) + [a, b], a.resource) != Arrival(Witness(a, b) + [b, a], a.resource)
  {
    var front, r := Witness(a, b), a.resource;
    WitnessCoherent(a, b);
    SwappedNew(front, a, b);
    NewAreFolded(front + [a, b], r);
    NewAreFolded(front + [b, a], r);
    FoldOfTwo(front, a, b);
    FoldOfTwo(front, b, a);
    WitnessTells(a, b);
    hide Witness, Arrival, Harmless, FoldStep, Folded;
    TellingTells(Folded(front), a, b);
  }

  lemma SwappedNew(front: seq<Event>, a: Event, b: Event)
    requires AllNew(front + [a, b], a.resource) && Sorted(front + [a, b]) && Tie(a, b)
    ensures AllNew(front + [b, a], a.resource) && Sorted(front + [b, a])
  {
    var ds, ds2, n := front + [a, b], front + [b, a], |front|;
    assert ds[n] == a && ds[n + 1] == b && ds2[n] == b && ds2[n + 1] == a;
    assert forall i :: 0 <= i < n ==> ds2[i] == ds[i];
    hide KeyOf;
  }

  /**
   Harmless is exact: two new events of one resource with one fold key can be exchanged
   after every history that is coherent apart from them if and only if their tie is
   harmless.
   */
  lemma TiesExactly(a: Event, b: Event)
    requires Tie(a, b)
    ensures Harmless(a, b) <==>
            forall front :: OtherwiseCoherent(front, a, b) ==>
              Arrival(front + [a, b], a.resource) == Arrival(front + [b, a], a.resource)
  {
    if Harmless(a, b) {
      forall front | OtherwiseCoherent(front, a, b)
        ensures Arrival(front + [a, b], a.resource) == Arrival(front + [b, a], a.resource)
      {
        HarmlessTie(front, a, b);
      }
    } else {
      TieShows(a, b);
      assert OtherwiseCoherent(Witness(a, b), a, b);
    }
  }

  lemma HarmlessTie(front: seq<Event>, a: Event, b: Event)
    requires OtherwiseCoherent(front, a, b) && Harmless(a, b)
    ensures Arrival(front + [a, b], a.resource) == Arrival(front + [b, a], a.resource)
  {
    var ds, ds2, all := front + [a, b], front + [b, a], SetOf(front) + {a, b};
    assert SetOf(ds) == all && SetOf(ds2) == all;
    assert Coherent(all) by {
      AlwaysHarmless(a);
      AlwaysHarmless(b);
      forall x, y | x in all && y in all && Rivals(x, y) ensures Harmless(x, y) {
        if {x, y} == {a, b} {
          assert x in {a, b} && y in {a, b};
          Symmetric(a, b);
        }
      }
    }
    DeliveryOrderIrrelevant(ds, ds2, a.resource);
  }

  lemma Symmetric(a: Event, b: Event)
    ensures Harmless(a, b) <==> Harmless(b, a)
  {
  }

  /** In terms of the fold alone: the steps of two tied events commute in every sane state exactly when the tie is harmless. */
  lemma StepsExchangeExactly(a: Event, b: Event)
    requires SameKey(a, b)
    ensures Harmless(a, b) <==>
            forall st :: Sane(st, a.effective) ==> FoldStep(FoldStep(st, a), b) == FoldStep(FoldStep(st, b), a)
  {
    if Harmless(a, b) {
      forall st | Sane(st, a.effective) ensures FoldStep(FoldStep(st, a), b) == FoldStep(FoldStep(st, b), a) {
        StepsExchange(st, a, b);
      }
    } else {
      WitnessTells(a, b);
      var st := Folded(Witness(a, b));
      TellingTells(st, a, b);
      assert Sane(st, a.effective);
    }
  }

  function Provisioned(name: string, seqNo: nat, at: nat, cpu: nat): Event {
    Event(Named(name), ResourceKey("sandbox", "s"), "runner", None, seqNo, at, ResourceProvisioned,
          map["cpu" := cpu], Unstated, "", None, None)
  }

  /** The smallest such history: two different allocations at one instant, delivered in either order. */
  lemma SharedKeyDependsOnOrder()
    ensures var a, b := Provisioned("a", 1, 0, 1), Provisioned("b", 2, 0, 2);
            Arrival([a, b], a.resource) != Arrival([b, a], a.resource)
  {
    var a, b := Provisioned("a", 1, 0, 1), Provisioned("b", 2, 0, 2);
    assert a.quantity["cpu"] != b.quantity["cpu"];
    assert KeyOf(a).sourceSeq != KeyOf(b).sourceSeq;
    assert a.id.name[0] != b.id.name[0];
    TieShows(a, b);
    assert [] + [a, b] == [a, b] && [] + [b, a] == [b, a];
  }
}
