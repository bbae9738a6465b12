/**
 Order and duplication of delivery do not matter to the ledger's projection.
 Delivering the same events in any order, with any redeliveries, ends in the same
 segments for every resource, provided that ties between state changes of one
 resource are harmless; and harmless ties are exactly those no delivery can show.
 */
module DeliveryOrder {
  import opened Basics
  import opened EventFold
  import opened EventLedger

  // ------------------------------------------- folding rearranged sorted lists

  /** What a lease expiry vouches for, as far as an allocation that began at zero or later can tell. */
  function Vouched(e: Event): Observed {
    match e.lastObserved
    case At(ms) => At(Max(ms, 0))
    case Unstated => if e.effective == 0 then At(0) else Unstated
    case Unknown => if e.effective == 0 then At(0) else Unknown
  }

  /** Two events with one fold key between which the order cannot show. */
  predicate Harmless(a: Event, b: Event) {
    || !Changes(a.kind) || !Changes(b.kind)
    || (Closes(a.kind) && Closes(b.kind))
    || (Opens(a.kind) && Opens(b.kind) && a.quantity == b.quantity)
    || (a.kind == LeaseExpired && b.kind == LeaseExpired && Vouched(a) == Vouched(b))
  }

  /** A fold state some events up to now can lead to. */
  predicate Sane(st: FoldState, now: int) {
    && (st.open.Some? ==> 0 <= st.open.value.start <= now)
    && (st.heartbeat.Some? ==> 0 <= st.heartbeat.value <= now)
  }

  predicate Exchangeable(a: Event, b: Event) { SameKey(a, b) && Harmless(a, b) }

  lemma StepsExchange(st: FoldState, a: Event, b: Event)
    requires Exchangeable(a, b) && Sane(st, a.effective)
    ensures FoldStep(FoldStep(st, a), b) == FoldStep(FoldStep(st, b), a)
  {
  }

  predicate UpTo(s: seq<Event>, now: int) { forall i :: 0 <= i < |s| ==> s[i].effective <= now }

  lemma {:induction false} FoldSane(s: seq<Event>, now: int)
    requires UpTo(s, now)
    ensures Sane(Folded(s), now)
  {
    if s != [] { FoldSane(s[..|s| - 1], now); }
  }

  function Without(s: seq<Event>, p: nat): seq<Event>
    requires p < |s|
  {
    s[..p] + s[p + 1..]
  }

  lemma WithoutFront(s: seq<Event>, p: nat)
    requires p < |s| - 1
    ensures Without(s, p)[..|s| - 2] == Without(s[..|s| - 1], p) && Without(s, p)[|s| - 2] == s[|s| - 1]
  {
  }

  lemma WithoutUpTo(s: seq<Event>, p: nat, now: int)
    requires p < |s| && UpTo(s, now)
    ensures UpTo(Without(s, p), now)
  {
  }

  lemma FoldExchanges(s: seq<Event>, a: Event, b: Event)
    requires UpTo(s, a.effective) && Exchangeable(a, b)
    ensures FoldStep(FoldStep(Folded(s), a), b) == FoldStep(FoldStep(Folded(s), b), a)
  {
    hide *;
    FoldSane(s, a.effective);
    StepsExchange(Folded(s), a, b);
  }

  /** An event exchangeable with everything after it can be folded last. */
  lemma {:induction false} FoldLast(s: seq<Event>, p: nat)
    requires p < |s| && UpTo(s, s[p].effective) && forall i :: p < i < |s| ==> Exchangeable(s[p], s[i])
    ensures Folded(s) == FoldStep(Folded(Without(s, p)), s[p])
  {
    hide FoldStep, Exchangeable;
    var n := |s| - 1;
    if p == n {
      assert Without(s, p) == s[..n];
    } else {
      var front := s[..n];
      FoldLast(front, p);
      WithoutFront(s, p);
      WithoutUpTo(front, p, s[p].effective);
      FoldExchanges(Without(front, p), s[p], s[n]);
      hide Without, UpTo;
    }
  }

  lemma WithoutSorted(s: seq<Event>, p: nat)
    requires p < |s| && Sorted(s)
    ensures Sorted(Without(s, p))
    ensures multiset(Without(s, p)) == multiset(s) - multiset{s[p]}
  {
    assert s == s[..p] + [s[p]] + s[p + 1..];
  }

  ghost predicate TiesHarmless(m: multiset<Event>) {
    forall x, y :: x in m && y in m && SameKey(x, y) ==> Harmless(x, y)
  }

  lemma FewerTies(m: multiset<Event>, less: multiset<Event>)
    requires TiesHarmless(m) && less <= m
    ensures TiesHarmless(less)
  {
  }

  /** In another arrangement, whatever comes after the copy of a's last event is exchangeable with it. */
  lemma LaterExchange(a: seq<Event>, b: seq<Event>, p: nat)
    requires Sorted(a) && Sorted(b) && multiset(a) == multiset(b) && a != []
    requires TiesHarmless(multiset(a)) && p < |b| && b[p] == a[|a| - 1]
    ensures UpTo(b, b[p].effective) && forall i :: p < i < |b| ==> Exchangeable(b[p], b[i])
  {
    var n, x := |a| - 1, a[|a| - 1];
    forall i | 0 <= i < |b| ensures b[i].effective <= x.effective && (p < i ==> Exchangeable(x, b[i])) {
      assert x in multiset(a) && b[i] in multiset(a);
      var k :| 0 <= k < |a| && a[k] == b[i];
      assert k < n ==> !Before(x, a[k]);
      assert p < i ==> !Before(b[i], x);
    }
  }

  /** Two sorted arrangements of the same events fold alike. */
  lemma {:induction false} RearrangedFold(a: seq<Event>, b: seq<Event>)
    requires Sorted(a) && Sorted(b) && multiset(a) == multiset(b)
    requires TiesHarmless(multiset(a))
    ensures Folded(a) == Folded(b)
    decreases |a|
  {
    hide Sorted, Exchangeable, FoldStep, TiesHarmless;
    if a == [] {
      assert |b| == |multiset(b)| == 0;
    } else {
      var n, x := |a| - 1, a[|a| - 1];
      assert x in multiset(a);
      assert x in multiset(b);
      var p: nat :| p < |b| && b[p] == x;
      LaterExchange(a, b, p);
      FoldLast(b, p);
      WithoutSorted(b, p);
      WithoutSorted(a, n);
      assert Without(a, n) == a[..n];
      FewerTies(multiset(a), multiset(a[..n]));
      RearrangedFold(a[..n], Without(b, p));
    }
  }

  // ------------------------------------------------ ignoring assigned fields

  function BareAll(s: seq<Event>): (r: seq<Event>)
    ensures |r| == |s| && forall i :: 0 <= i < |s| ==> r[i] == Bare(s[i])
  {
    seq(|s|, i requires 0 <= i < |s| => Bare(s[i]))
  }

  lemma {:induction false} InsertBare(s: seq<Event>, e: Event)
    ensures BareAll(Insert(s, e)) == Insert(BareAll(s), Bare(e))
  {
    if |s| > 0 && Before(e, s[|s| - 1]) {
      InsertBare(s[..|s| - 1], e);
      assert BareAll(s)[..|s| - 1] == BareAll(s[..|s| - 1]);
    }
  }

  lemma {:induction false} FoldOrderBare(s: seq<Event>)
    ensures BareAll(FoldOrder(s)) == FoldOrder(BareAll(s))
  {
    if s != [] {
      FoldOrderBare(s[..|s| - 1]);
      InsertBare(FoldOrder(s[..|s| - 1]), s[|s| - 1]);
      assert BareAll(s)[..|s| - 1] == BareAll(s[..|s| - 1]);
    }
  }

  lemma StepBare(st: FoldState, e: Event)
    ensures FoldStep(st, Bare(e)) == FoldStep(st, e)
  {
  }

  lemma {:induction false} FoldedBare(s: seq<Event>)
    ensures Folded(BareAll(s)) == Folded(s)
  {
    hide FoldStep, Bare;
    if s != [] {
      FoldedBare(s[..|s| - 1]);
      StepBare(Folded(s[..|s| - 1]), s[|s| - 1]);
      assert BareAll(s)[..|s| - 1] == BareAll(s[..|s| - 1]);
    }
  }

  lemma ProjectBare(s: seq<Event>)
    ensures Project(s) == Project(BareAll(s))
  {
    FoldOrderBare(s);
    FoldedBare(FoldOrder(s));
  }

  lemma SameMultisetSameProjection(a: seq<Event>, b: seq<Event>)
    requires multiset(BareAll(a)) == multiset(BareAll(b)) && TiesHarmless(multiset(BareAll(a)))
    ensures Project(a) == Project(b)
  {
    ProjectBare(a);
    ProjectBare(b);
    FoldOrderSorts(BareAll(a));
    FoldOrderSorts(BareAll(b));
    RearrangedFold(FoldOrder(BareAll(a)), FoldOrder(BareAll(b)));
  }

  // ---------------------------------------------------------------- delivery

  function Delivered(ds: seq<Event>): Ledger {
    if ds == [] then EMPTY else Append(Delivered(ds[..|ds| - 1]), ds[|ds| - 1]).0
  }

  predicate Redelivery(x: Event, y: Event) {
    Bare(x) == Bare(y)
  }

  /** Two events of one resource that only arrival order puts in sequence. */
  predicate Rivals(x: Event, y: Event) { x.resource == y.resource && SameKey(x, y) }

  /** An event id or source key always carries the same content, and nobody dictates ledger sequence numbers. */
  predicate Identified(ds: set<Event>) {
    && (forall x :: x in ds ==> x.ledgerSeq == None)
    && (forall x, y :: x in ds && y in ds && (x.id == y.id || KeyOf(x) == KeyOf(y)) ==> Redelivery(x, y))
  }

  /** Producers keep their side: events are identified, and ties within a resource are harmless. */
  predicate Coherent(ds: set<Event>) {
    && Identified(ds)
    && (forall x, y :: x in ds && y in ds && Rivals(x, y) ==> Harmless(x, y))
  }

  function SetOf(ds: seq<Event>): set<Event> { set d | d in ds }

  function Contents(ds: set<Event>): set<Event> { set d | d in ds :: Bare(d) }

  /** The book holds exactly the delivered events. */
  ghost predicate HoldsIn(index: map<EventId, Event>, ds: set<Event>) {
    && (forall d :: d in ds ==> d.id in index && Redelivery(index[d.id], d))
    && (forall x :: x in index ==> Bare(index[x]) in Contents(ds))
  }

  ghost predicate Holds(k: Book, ds: set<Event>) { HoldsIn(k.byEventId, ds) }

  /** A collision is always a redelivery, so nothing is quarantined and nothing changes. */
  lemma CollisionIsRedelivery(l: Ledger, ds: set<Event>, e: Event)
    requires Indexed(l.book) && Holds(l.book, ds) && Coherent(ds + {e}) && Stored(l.book, e).Some?
    ensures Append(l, e).0 == l && e.id in l.book.byEventId && Redelivery(l.book.byEventId[e.id], e)
  {
    var k, stored := l.book, Stored(l.book, e).value;
    assert stored.id in k.byEventId && k.byEventId[stored.id] == stored;
    assert stored.id == e.id || KeyOf(stored) == KeyOf(e);
    var d :| d in ds && Bare(d) == Bare(stored);
    assert KeyOf(d) == KeyOf(stored) && d.id == stored.id;
    assert d in ds + {e} && e in ds + {e} && Redelivery(d, e);
  }

  lemma IndexedUnder(index: map<EventId, Event>, ds: set<Event>, e: Event, s: Event)
    requires HoldsIn(index, ds) && e.id !in index && s.id == e.id && Redelivery(s, e)
    ensures HoldsIn(index[e.id := s], ds + {e})
  {
  }

  lemma AppendHolds(l: Ledger, ds: set<Event>, e: Event)
    requires Indexed(l.book) && Holds(l.book, ds) && Coherent(ds + {e})
    ensures Holds(Append(l, e).0.book, ds + {e})
  {
    if Stored(l.book, e).Some? {
      CollisionIsRedelivery(l, ds, e);
      assert Contents(ds + {e}) == Contents(ds) + {Bare(e)};
    } else {
      assert e in ds + {e};
      var s := Stamped(l.book, e, l.clock);
      IndexedUnder(l.book.byEventId, ds, e, s);
      assert Append(l, e).0.book.byEventId == l.book.byEventId[e.id := s];
    }
  }

  lemma {:induction false} DeliveredHolds(ds: seq<Event>)
    requires Coherent(SetOf(ds))
    ensures Shaped(Delivered(ds).book) && Holds(Delivered(ds).book, SetOf(ds))
  {
    if ds != [] {
      var front, e := ds[..|ds| - 1], ds[|ds| - 1];
      assert SetOf(ds) == SetOf(front) + {e};
      DeliveredHolds(front);
      AppendHolds(Delivered(front), SetOf(front), e);
      AppendShaped(Delivered(front), e);
    }
  }

  predicate Distinct(s: seq<Event>) {
    forall i, j :: 0 <= i < j < |s| ==> s[i] != s[j]
  }

  lemma {:induction false} DistinctCounts(s: seq<Event>, x: Event)
    requires Distinct(s)
    ensures multiset(s)[x] == if x in s then 1 else 0
  {
    if s != [] {
      var front := s[..|s| - 1];
      assert s == front + [s[|s| - 1]];
      DistinctCounts(front, x);
    }
  }

  lemma FiledDistinct(k: Book, r: ResourceKey)
    requires Numbered(k, r)
    ensures Distinct(BareAll(EventsOf(k, r)))
  {
  }

  /** An event one book holds is held, up to the assigned fields, by any book of the same deliveries. */
  lemma Counterpart(k: Book, k2: Book, ds: set<Event>, ds2: set<Event>, e: Event) returns (e2: Event)
    requires Holds(k, ds) && Holds(k2, ds2) && Contents(ds) == Contents(ds2)
    requires Complete(k2) && e.id in k.byEventId && k.byEventId[e.id] == e
    ensures e2.id in k2.byEventId && k2.byEventId[e2.id] == e2 && Bare(e2) == Bare(e)
    ensures e2 in EventsOf(k2, e2.resource)
  {
    hide Shaped, Project;
    assert Bare(k.byEventId[e.id]) in Contents(ds2);
    var d :| d in ds2 && Bare(d) == Bare(e);
    assert d.id in k2.byEventId && Redelivery(k2.byEventId[d.id], d);
    e2 := k2.byEventId[d.id];
    assert e2 in EventsOf(k2, e2.resource);
  }

  /** The event behind an entry of the bare list. */
  lemma BehindBare(k: Book, r: ResourceKey, x: Event) returns (e: Event)
    requires Shaped(k) && x in BareAll(EventsOf(k, r))
    ensures Bare(e) == x && e.resource == r && e.id in k.byEventId && k.byEventId[e.id] == e
  {
    hide Project, Complete, Indexed;
    var n :| 0 <= n < |EventsOf(k, r)| && Bare(EventsOf(k, r)[n]) == x;
    e := EventsOf(k, r)[n];
    assert Numbered(k, r) && Filed(k, r, e, n);
  }

  lemma SubsetOfContents(k: Book, k2: Book, ds: set<Event>, ds2: set<Event>, r: ResourceKey, x: Event)
    requires Shaped(k) && Shaped(k2) && Holds(k, ds) && Holds(k2, ds2) && Contents(ds) == Contents(ds2)
    requires x in BareAll(EventsOf(k, r))
    ensures x in BareAll(EventsOf(k2, r))
  {
    hide Numbered, Indexed, Complete, Holds, Contents;
    var e := BehindBare(k, r, x);
    var e2 := Counterpart(k, k2, ds, ds2, e);
    assert e.resource == Bare(e).resource && e2.resource == Bare(e2).resource;
    hide Shaped;
    var mine := EventsOf(k2, r);
    var m :| 0 <= m < |mine| && mine[m] == e2;
    assert BareAll(mine)[m] == x;
  }

  lemma ContentsCoherent(k: Book, ds: set<Event>, r: ResourceKey)
    requires Shaped(k) && Holds(k, ds) && Coherent(ds)
    ensures TiesHarmless(multiset(BareAll(EventsOf(k, r))))
  {
    hide Numbered, Indexed, Complete, Filed;
    var bare := BareAll(EventsOf(k, r));
    forall x, y | x in multiset(bare) && y in multiset(bare) && SameKey(x, y)
      ensures Harmless(x, y)
    {
      var dx := Origin(k, ds, r, x);
      var dy := Origin(k, ds, r, y);
      assert Rivals(dx, dy) && Harmless(dx, dy);
      assert dx.quantity == Bare(dx).quantity && dy.quantity == Bare(dy).quantity;
      assert dx.lastObserved == Bare(dx).lastObserved && dy.lastObserved == Bare(dy).lastObserved;
    }
  }

  lemma Origin(k: Book, ds: set<Event>, r: ResourceKey, x: Event) returns (d: Event)
    requires Shaped(k) && Holds(k, ds) && x in BareAll(EventsOf(k, r))
    ensures d in ds && Bare(d) == x && d.resource == r && d.kind == x.kind && d.effective == x.effective
  {
    var n :| 0 <= n < |EventsOf(k, r)| && Bare(EventsOf(k, r)[n]) == x;
    assert Numbered(k, r) && Filed(k, r, EventsOf(k, r)[n], n);
    d :| d in ds && Bare(d) == x;
    assert d.resource == x.resource && d.kind == Bare(d).kind && d.effective == Bare(d).effective;
  }

  lemma SameMembersSameMultiset(a: seq<Event>, b: seq<Event>)
    requires Distinct(a) && Distinct(b) && forall x :: x in a <==> x in b
    ensures multiset(a) == multiset(b)
  {
    forall x ensures multiset(a)[x] == multiset(b)[x] {
      DistinctCounts(a, x);
      DistinctCounts(b, x);
    }
  }

  lemma SameContentsSameMultiset(k: Book, k2: Book, ds: set<Event>, ds2: set<Event>, r: ResourceKey)
    requires Shaped(k) && Shaped(k2) && Holds(k, ds) && Holds(k2, ds2) && Contents(ds) == Contents(ds2)
    ensures multiset(BareAll(EventsOf(k, r))) == multiset(BareAll(EventsOf(k2, r)))
  {
    var a, b := BareAll(EventsOf(k, r)), BareAll(EventsOf(k2, r));
    forall x ensures x in a <==> x in b {
      if x in a { SubsetOfContents(k, k2, ds, ds2, r, x); }
      if x in b { SubsetOfContents(k2, k, ds2, ds, r, x); }
    }
    FiledDistinct(k, r);
    FiledDistinct(k2, r);
    SameMembersSameMultiset(a, b);
  }

  /**
   Any two deliveries of the same coherent events, in any order and with any
   redeliveries, leave every resource with the same projection, and number its
   events 1, 2, 3 ... without a gap.
   */
  lemma DeliveryOrderIrrelevant(ds: seq<Event>, ds2: seq<Event>, r: ResourceKey)
    requires Coherent(SetOf(ds)) && Coherent(SetOf(ds2)) && Contents(SetOf(ds)) == Contents(SetOf(ds2))
    ensures Project(EventsOf(Delivered(ds).book, r)) == Project(EventsOf(Delivered(ds2).book, r))
    ensures |EventsOf(Delivered(ds).book, r)| == |EventsOf(Delivered(ds2).book, r)|
    ensures forall n :: 0 <= n < |EventsOf(Delivered(ds).book, r)| ==>
              EventsOf(Delivered(ds).book, r)[n].ledgerSeq == Some(n + 1)
  {
    var k, k2 := Delivered(ds).book, Delivered(ds2).book;
    DeliveredHolds(ds);
    DeliveredHolds(ds2);
    SameContentsSameMultiset(k, k2, SetOf(ds), SetOf(ds2), r);
    ContentsCoherent(k, SetOf(ds), r);
    SameMultisetSameProjection(EventsOf(k, r), EventsOf(k2, r));
    assert |multiset(BareAll(EventsOf(k, r)))| == |multiset(BareAll(EventsOf(k2, r)))|;
    assert Numbered(k, r);
    forall n | 0 <= n < |EventsOf(k, r)| ensures EventsOf(k, r)[n].ledgerSeq == Some(n + 1) {
      assert Filed(k, r, EventsOf(k, r)[n], n);
    }
  }
}
