/**
 What becomes of everything submitted to the ledger, told from its events, quarantine,
 flags and outbox alone: nothing is dropped, nothing is invented, and every conflict,
 hit of a sealed period and notice is on record under its own number.
 */
module LedgerAnswers {
  import opened Basics
  import opened EventFold
  import opened EventLedger

  // ------------------------------------------- the book as a list

  /** The list holds each event id and each source key once. */
  ghost predicate Unique(events: seq<Event>) {
    forall i, j :: 0 <= i < j < |events| ==> events[i].id != events[j].id && KeyOf(events[i]) != KeyOf(events[j])
  }

  ghost predicate ById(k: Book) {
    forall i :: 0 <= i < |k.events| ==> k.events[i].id in k.byEventId && k.byEventId[k.events[i].id] == k.events[i]
  }

  ghost predicate ByKey(k: Book) {
    forall i :: 0 <= i < |k.events| ==> KeyOf(k.events[i]) in k.bySourceKey && k.bySourceKey[KeyOf(k.events[i])] == k.events[i]
  }

  ghost predicate Behind(k: Book) {
    && (forall x :: x in k.byEventId ==> k.byEventId[x] in k.events)
    && (forall x :: x in k.bySourceKey ==> k.bySourceKey[x] in k.events && KeyOf(k.bySourceKey[x]) == x)
    && (forall x :: x in k.byEventId ==> k.byEventId[x].id == x)
  }

  ghost predicate Catalogued(k: Book) {
    Unique(k.events) && ById(k) && ByKey(k) && Behind(k)
  }

  lemma StoreMaps(k: Book, e: Event)
    requires e.ledgerSeq.Some?
    ensures Store(k, e).events == k.events + [e] && Store(k, e).byEventId == k.byEventId[e.id := e]
    ensures Store(k, e).bySourceKey == k.bySourceKey[KeyOf(e) := e]
  {
    hide Project, KeyOf, ArchiveStep, EventsOf;
  }

  lemma StoreCatalogued(k: Book, e: Event)
    requires Catalogued(k) && e.ledgerSeq.Some? && Stored(k, e).None?
    ensures Catalogued(Store(k, e))
  {
    hide Store, KeyOf, Unique, Behind;
    StoreMaps(k, e);
    forall i | 0 <= i < |k.events| ensures k.events[i].id != e.id && KeyOf(k.events[i]) != KeyOf(e) {}
    UniqueSnoc(k.events, e);
    BehindSnoc(k, Store(k, e), e);
  }

  lemma UniqueSnoc(events: seq<Event>, e: Event)
    requires Unique(events) && forall i :: 0 <= i < |events| ==> events[i].id != e.id && KeyOf(events[i]) != KeyOf(e)
    ensures Unique(events + [e])
  {
    hide KeyOf;
  }

  lemma BehindSnoc(k: Book, k': Book, e: Event)
    requires Behind(k) && k'.events == k.events + [e]
    requires k'.byEventId == k.byEventId[e.id := e] && k'.bySourceKey == k.bySourceKey[KeyOf(e) := e]
    ensures Behind(k')
  {
    hide KeyOf;
  }

  // ------------------------------------------- answers

  /** The same event, but for the number and the time of receipt, which the ledger assigns. */
  predicate SameContent(x: Event, e: Event) { x == e.(ledgerSeq := x.ledgerSeq, recordedAt := x.recordedAt) }

  lemma ContentIsBare(x: Event, e: Event)
    ensures SameContent(x, e) <==> Bare(x) == Bare(e)
  {
    if Bare(x) == Bare(e) {
      assert x == Bare(x).(ledgerSeq := x.ledgerSeq, recordedAt := x.recordedAt);
      assert e == Bare(e).(ledgerSeq := e.ledgerSeq, recordedAt := e.recordedAt);
    }
  }

  /** An event already in the list agrees with e in content, or only in its id or source key. */
  ghost predicate Repeats(events: seq<Event>, e: Event) {
    exists i :: 0 <= i < |events| && SameContent(events[i], e)
  }

  predicate Collides(x: Event, e: Event) {
    x.id == e.id || (x.source == e.source && x.generation == e.generation && x.sourceSeq == e.sourceSeq)
  }

  ghost predicate Clashes(events: seq<Event>, e: Event) {
    exists i :: 0 <= i < |events| && Collides(events[i], e)
  }

  /** How many events of its resource a list holds. */
  function CountOf(events: seq<Event>, r: ResourceKey): nat {
    if events == [] then 0
    else CountOf(events[..|events| - 1], r) + if events[|events| - 1].resource == r then 1 else 0
  }

  lemma StoredClashes(k: Book, e: Event)
    requires Catalogued(k)
    ensures Stored(k, e).Some? <==> Clashes(k.events, e)
    ensures Stored(k, e).Some? ==> Stored(k, e).value in k.events && Collides(Stored(k, e).value, e)
    ensures Stored(k, e).Some? && SameContent(Stored(k, e).value, e) <==> Repeats(k.events, e)
  {
    hide Unique;
    if Stored(k, e).Some? {
      var i :| 0 <= i < |k.events| && k.events[i] == Stored(k, e).value;
      assert Collides(k.events[i], e);
    }
    if Clashes(k.events, e) {
      var i :| 0 <= i < |k.events| && Collides(k.events[i], e);
      assert k.events[i].id != e.id ==> KeyOf(k.events[i]) == KeyOf(e);
    }
    if Repeats(k.events, e) {
      var i :| 0 <= i < |k.events| && SameContent(k.events[i], e);
    }
  }

  /** The answer to an append, as the stored events determine it. */
  ghost predicate Answers(events: seq<Event>, e: Event, receipt: Receipt) {
    var next := CountOf(events, e.resource) + 1;
    && (receipt.Duplicate? <==> Repeats(events, e))
    && (receipt.Quarantined? <==> Clashes(events, e) && !Repeats(events, e))
    && (receipt.WrongLedgerSeq? <==> !Clashes(events, e) && e.ledgerSeq.Some? && e.ledgerSeq.value != next)
    && (receipt.Appended? <==> !Clashes(events, e) && (e.ledgerSeq.Some? ==> e.ledgerSeq.value == next))
  }

  lemma AnswerKind(l: Ledger, e: Event)
    requires Stored(l.book, e).Some? <==> Clashes(l.book.events, e)
    requires Stored(l.book, e).Some? && SameContent(Stored(l.book, e).value, e) <==> Repeats(l.book.events, e)
    requires NextSeq(l.book, e.resource) == CountOf(l.book.events, e.resource) + 1
    ensures Answers(l.book.events, e, Append(l, e).1)
  {
    if Stored(l.book, e).Some? { ContentIsBare(Stored(l.book, e).value, e); }
    hide Stored, Store, Bare, SameContent, CountOf, NextSeq, Clashes, Repeats;
  }

  lemma AppendStores(l: Ledger, e: Event)
    requires Append(l, e).1.Appended?
    ensures Append(l, e).0 == l.(book := Store(l.book, Stamped(l.book, e, l.clock)))
    ensures Append(l, e).0.book.events == l.book.events + [Stamped(l.book, e, l.clock)]
  {
    StoreEvents(l.book, Stamped(l.book, e, l.clock));
    hide Stored, Store, Bare;
  }

  lemma OtherwiseUnchanged(l: Ledger, e: Event)
    ensures !Append(l, e).1.Appended? && !Append(l, e).1.Quarantined? ==> Append(l, e).0 == l
  {
    hide Stored, Store, Bare;
  }

  /**
   What a receipt says: the id, the number and the time the event is on record with, the
   number of the quarantine entry and its flag, or the number that was expected.
   */
  ghost predicate Tells(events: seq<Event>, e: Event, next: Ledger, receipt: Receipt) {
    match receipt
    case Appended(id, seqNo, at) => OnRecord(next.book.events, e, id, seqNo, at)
    case Duplicate(id, seqNo, at) => OnRecord(next.book.events, e, id, seqNo, at)
    case Quarantined(reason, n) =>
      && next.quarantine != [] && next.flags != []
      && next.quarantine[|next.quarantine| - 1].event == e && next.quarantine[|next.quarantine| - 1].id == n
      && next.quarantine[|next.quarantine| - 1].reason == reason && next.flags[|next.flags| - 1] == Flag(n, reason, e.id)
    case WrongLedgerSeq(expected) => expected == CountOf(events, e.resource) + 1
    case FlaggedManual(_, _) => false
  }

  ghost predicate OnRecord(events: seq<Event>, e: Event, id: EventId, seqNo: nat, at: nat) {
    exists i :: 0 <= i < |events| && SameContent(events[i], e) && events[i].id == id
                && events[i].ledgerSeq.GetOr(0) == seqNo && events[i].recordedAt.GetOr(0) == at
  }

  lemma ReceiptTells(l: Ledger, e: Event)
    requires Stored(l.book, e).Some? ==> Stored(l.book, e).value in l.book.events
    requires NextSeq(l.book, e.resource) == CountOf(l.book.events, e.resource) + 1
    ensures Tells(l.book.events, e, Append(l, e).0, Append(l, e).1)
  {
    hide Stored, Store, CountOf, NextSeq, Bare, SameContent;
    var (next, receipt) := Append(l, e);
    if receipt.Appended? {
      AppendStores(l, e);
      StampedIs(l.book, e, l.clock);
      assert next.book.events[|l.book.events|] == Stamped(l.book, e, l.clock);
    } else if receipt.Duplicate? {
      var stored := Stored(l.book, e).value;
      ContentIsBare(stored, e);
      var i :| 0 <= i < |l.book.events| && l.book.events[i] == stored;
      assert SameContent(next.book.events[i], e);
    }
  }

  /**
   The answer to an append, from the stored events alone: duplicate exactly for content on
   record, quarantined exactly for a known id or source key with other content, and
   otherwise stored under the next number of its resource, unless the caller dictates
   another one.
   */
  lemma AnswersExactly(cs: seq<Command>, e: Event)
    ensures var l := Run(EMPTY, cs); var events := l.book.events; var (next, receipt) := Append(l, e);
            && Answers(events, e, receipt)
            && (receipt.Duplicate? || receipt.WrongLedgerSeq? ==> next == l)
            && (receipt.Appended? ==>
                  next.book.events == events + [e.(ledgerSeq := Some(CountOf(events, e.resource) + 1), recordedAt := Some(e.recordedAt.GetOr(l.clock)))])
            && Tells(events, e, next, receipt)
  {
    hide *;
    var l := Run(EMPTY, cs);
    ReachableCatalogued(cs);
    StoredClashes(l.book, e);
    CountsSeq(cs, e.resource);
    AnswerKind(l, e);
    OtherwiseUnchanged(l, e);
    ReceiptTells(l, e);
    if Append(l, e).1.Appended? {
      AppendStores(l, e);
      StampedIs(l.book, e, l.clock);
    }
    assert Answers(l.book.events, e, Append(l, e).1);
  }

  lemma StampedIs(k: Book, e: Event, clock: nat)
    ensures Stamped(k, e, clock) == e.(ledgerSeq := Some(NextSeq(k, e.resource)), recordedAt := Some(e.recordedAt.GetOr(clock)))
    ensures SameContent(Stamped(k, e, clock), e) && SameContent(e, Stamped(k, e, clock))
  {
  }

  lemma StoreEvents(k: Book, e: Event)
    requires e.ledgerSeq.Some?
    ensures Store(k, e).events == k.events + [e] && Store(k, e).ledgerSeq == k.ledgerSeq[e.resource := e.ledgerSeq.value]
  {
    hide Project;
  }

  lemma AppendCatalogued(l: Ledger, e: Event)
    requires Catalogued(l.book)
    ensures Catalogued(Append(l, e).0.book)
  {
    hide Project, Catalogued, Store;
    if Append(l, e).1.Appended? { StoreCatalogued(l.book, Stamped(l.book, e, l.clock)) by { StampedFree(l.book, e, l.clock); } }
  }

  lemma StampedFree(k: Book, e: Event, clock: nat)
    requires Stored(k, e).None?
    ensures Stored(k, Stamped(k, e, clock)).None?
  {
  }

  lemma {:induction false} ReachableCatalogued(cs: seq<Command>)
    ensures Catalogued(Run(EMPTY, cs).book)
  {
    if cs != [] {
      var before, c := Run(EMPTY, cs[..|cs| - 1]), cs[|cs| - 1];
      ReachableCatalogued(cs[..|cs| - 1]);
      BookStep(before, c);
      hide Catalogued;
      if !c.DoDeliver? { AppendCatalogued(before, c.event); }
    }
  }

  lemma AppendCounts(l: Ledger, e: Event, r: ResourceKey)
    requires NextSeq(l.book, r) == CountOf(l.book.events, r) + 1
    ensures NextSeq(Append(l, e).0.book, r) == CountOf(Append(l, e).0.book.events, r) + 1
  {
    hide Project, Store;
    if Append(l, e).1.Appended? {
      var s := Stamped(l.book, e, l.clock);
      StoreEvents(l.book, s);
      assert (l.book.events + [s])[..|l.book.events|] == l.book.events;
    }
  }

  lemma {:induction false} CountsSeq(cs: seq<Command>, r: ResourceKey)
    ensures NextSeq(Run(EMPTY, cs).book, r) == CountOf(Run(EMPTY, cs).book.events, r) + 1
  {
    if cs != [] {
      var before, c := Run(EMPTY, cs[..|cs| - 1]), cs[|cs| - 1];
      CountsSeq(cs[..|cs| - 1], r);
      BookStep(before, c);
      hide CountOf, NextSeq;
      if !c.DoDeliver? { AppendCounts(before, c.event, r); }
    }
  }

  // ------------------------------------------- nothing is dropped

  ghost predicate Grows(l: Ledger, next: Ledger) {
    && l.book.events <= next.book.events && l.quarantine <= next.quarantine && l.flags <= next.flags
    && |l.outbox| <= |next.outbox| && (forall i :: 0 <= i < |l.outbox| ==> SameEntry(l.outbox[i], next.outbox[i]))
  }

  /** The same entry, which may have been delivered since. */
  predicate SameEntry(a: OutboxEntry, b: OutboxEntry) {
    b == a || b == a.(delivered := true)
  }

  lemma AppendGrows(l: Ledger, e: Event)
    ensures Grows(l, Append(l, e).0) && Append(l, e).0.outbox == l.outbox
    ensures Append(l, e).0.outboxByEvent == l.outboxByEvent && Append(l, e).0.commitSeq == l.commitSeq
  {
    hide Project, Store;
    if Append(l, e).1.Appended? { StoreEvents(l.book, Stamped(l.book, e, l.clock)); }
  }

  lemma StepGrows(l: Ledger, c: Command)
    ensures Grows(l, Step(l, c))
  {
    hide Append;
    if !c.DoDeliver? { AppendGrows(l, c.event); }
  }

  lemma {:induction false} RunGrows(cs: seq<Command>, n: nat)
    requires n <= |cs|
    ensures Grows(Run(EMPTY, cs[..n]), Run(EMPTY, cs))
    decreases |cs| - n
  {
    if n == |cs| {
      assert cs[..n] == cs;
    } else {
      assert cs[..n + 1][..n] == cs[..n];
      StepGrows(Run(EMPTY, cs[..n]), cs[n]);
      RunGrows(cs, n + 1);
      GrowsOn(Run(EMPTY, cs[..n]), Run(EMPTY, cs[..n + 1]), Run(EMPTY, cs));
    }
  }

  lemma GrowsOn(a: Ledger, b: Ledger, c: Ledger)
    requires Grows(a, b) && Grows(b, c)
    ensures Grows(a, c)
  {
  }

  /** e is in the quarantine under a number that a flag carries too. */
  ghost predicate Isolated(l: Ledger, e: Event) {
    exists i :: 0 <= i < |l.quarantine| && l.quarantine[i].event == e && Flagged(l, l.quarantine[i].id, l.quarantine[i].reason, e.id)
  }

  ghost predicate Flagged(l: Ledger, n: nat, reason: Reason, id: EventId) {
    exists j :: 0 <= j < |l.flags| && l.flags[j] == Flag(n, reason, id)
  }

  lemma GrownKeeps(l: Ledger, next: Ledger, e: Event)
    requires Grows(l, next)
    ensures Repeats(l.book.events, e) ==> Repeats(next.book.events, e)
    ensures Isolated(l, e) ==> Isolated(next, e)
    ensures forall n, reason, id :: Flagged(l, n, reason, id) ==> Flagged(next, n, reason, id)
  {
    if Repeats(l.book.events, e) {
      var i :| 0 <= i < |l.book.events| && SameContent(l.book.events[i], e);
      assert next.book.events[i] == l.book.events[i];
    }
    forall n, reason, id | Flagged(l, n, reason, id) ensures Flagged(next, n, reason, id) {
      var j :| 0 <= j < |l.flags| && l.flags[j] == Flag(n, reason, id);
      assert next.flags[j] == l.flags[j];
    }
    if Isolated(l, e) {
      var i :| 0 <= i < |l.quarantine| && l.quarantine[i].event == e && Flagged(l, l.quarantine[i].id, l.quarantine[i].reason, e.id);
      assert next.quarantine[i] == l.quarantine[i];
    }
  }

  /** A correction is on record as a hit of one of its sealed periods. */
  ghost predicate HitRecorded(l: Ledger, e: Event, periods: seq<Period>) {
    exists p, n :: p in periods && Touches(p, e) && Flagged(l, n, IntersectsSealedPeriod(p.name), e.id)
  }

  /** The event takes effect inside the period, or is an expiry last observed inside it. */
  predicate Touches(p: Period, e: Event) {
    (p.start <= e.effective < p.end) ||
    (e.kind == LeaseExpired && e.lastObserved.At? && p.start <= e.lastObserved.ms < p.end)
  }

  lemma {:induction false} HitIsFirst(e: Event, periods: seq<Period>)
    ensures SealedHit(e, periods).None? <==> forall i :: 0 <= i < |periods| ==> !Touches(periods[i], e)
    ensures SealedHit(e, periods).Some? ==> exists i :: 0 <= i < |periods| && SealedHit(e, periods).value == periods[i] && Touches(periods[i], e)
                                                         && forall j :: 0 <= j < i ==> !Touches(periods[j], e)
  {
    if periods != [] && !Touches(periods[0], e) {
      HitIsFirst(e, periods[1..]);
      assert forall i :: 0 <= i < |periods| - 1 ==> periods[1..][i] == periods[i + 1];
      if SealedHit(e, periods).Some? {
        var i :| 0 <= i < |periods| - 1 && SealedHit(e, periods).value == periods[1..][i] && Touches(periods[1..][i], e)
                 && forall j :: 0 <= j < i ==> !Touches(periods[1..][j], e);
        assert periods[i + 1] == periods[1..][i];
        forall j | 0 <= j < i + 1 ensures !Touches(periods[j], e) {
          if j > 0 { assert periods[j] == periods[1..][j - 1]; }
        }
      }
    }
  }

  /** e is on record, isolated, or flagged as a correction that touches one of its sealed periods. */
  ghost predicate Settled(l: Ledger, c: Command)
    requires !c.DoDeliver?
  {
    var e := c.event;
    if c.DoCorrect? && exists p :: p in c.periods && Touches(p, e) then HitRecorded(l, e, c.periods)
    else Repeats(l.book.events, e) || Isolated(l, e)
  }

  lemma HitSettles(l: Ledger, e: Event, periods: seq<Period>)
    requires SealedHit(e, periods).Some?
    ensures HitRecorded(Correct(l, e, periods).0, e, periods)
  {
    HitIsFirst(e, periods);
    var next, p := Correct(l, e, periods).0, SealedHit(e, periods).value;
    assert next.flags[|l.flags|] == Flag(l.counter + 1, IntersectsSealedPeriod(p.name), e.id);
    assert Flagged(next, l.counter + 1, IntersectsSealedPeriod(p.name), e.id);
    hide SealedHit, Flagged;
  }

  lemma StepSettles(cs: seq<Command>, c: Command)
    requires !c.DoDeliver? && c.event.ledgerSeq.None?
    ensures Settled(Step(Run(EMPTY, cs), c), c)
  {
    hide Run, Append, Repeats, Isolated, HitRecorded, Touches, Grows;
    var l, e := Run(EMPTY, cs), c.event;
    IsolatedOrTaken(cs, e);
    if c.DoCommit? {
      CommitIsAppend(l, e, c.notice);
      GrownKeeps(Append(l, e).0, Step(l, c), e);
    } else if c.DoCorrect? {
      HitIsFirst(e, c.periods);
      if SealedHit(e, c.periods).Some? { HitSettles(l, e, c.periods); }
    }
  }

  lemma SettledStays(l: Ledger, next: Ledger, c: Command)
    requires Grows(l, next) && !c.DoDeliver? && Settled(l, c)
    ensures Settled(next, c)
  {
    GrownKeeps(l, next, c.event);
    hide Repeats, Isolated, Flagged, Touches, Grows;
    if HitRecorded(l, c.event, if c.DoCorrect? then c.periods else []) {
      var p, n :| p in (if c.DoCorrect? then c.periods else []) && Touches(p, c.event) && Flagged(l, n, IntersectsSealedPeriod(p.name), c.event.id);
      assert Flagged(next, n, IntersectsSealedPeriod(p.name), c.event.id);
    }
  }

  /**
   Nothing submitted is dropped: a correction that touches one of its sealed periods is
   flagged under that period's name; the content of every other event of every run is on
   record, or the event is in the quarantine under a number with its own flag.
   */
  lemma NothingIsDropped(cs: seq<Command>, n: nat)
    requires n < |cs| && !cs[n].DoDeliver? && cs[n].event.ledgerSeq.None?
    ensures Settled(Run(EMPTY, cs), cs[n])
  {
    assert cs[..n + 1][..n] == cs[..n];
    assert Run(EMPTY, cs[..n + 1]) == Step(Run(EMPTY, cs[..n]), cs[n]);
    hide *;
    StepSettles(cs[..n], cs[n]);
    RunGrows(cs, n + 1);
    SettledStays(Run(EMPTY, cs[..n + 1]), Run(EMPTY, cs), cs[n]);
  }

  lemma CommitIsAppend(l: Ledger, e: Event, notice: Notice)
    ensures Grows(Append(l, e).0, Commit(l, e, notice).0)
    ensures Commit(l, e, notice).0.book == Append(l, e).0.book && Commit(l, e, notice).1 == Append(l, e).1
  {
    hide Append;
  }

  // ------------------------------------------- nothing is invented

  /** Some command of the run submitted e. */
  ghost predicate Submitted(cs: seq<Command>, e: Event) {
    exists i :: 0 <= i < |cs| && !cs[i].DoDeliver? && cs[i].event == e
  }

  ghost predicate StoredFrom(cs: seq<Command>, x: Event) {
    exists e :: Submitted(cs, e) && SameContent(e, x)
  }

  /** A quarantined event was submitted and clashes, with other content, with the event it names; its reason says how. */
  ghost predicate RightlyIsolated(cs: seq<Command>, l: Ledger, q: QuarantineEntry) {
    && Submitted(cs, q.event) && Flagged(l, q.id, q.reason, q.event.id)
    && (exists i :: 0 <= i < |l.book.events| && l.book.events[i].id == q.conflictsWith
          && Collides(l.book.events[i], q.event) && !SameContent(l.book.events[i], q.event))
    && q.reason == if q.conflictsWith == q.event.id then SameIdOtherContent else SameSourceOtherContent
  }

  /** A flag stands for a quarantined event or for a correction that touched one of its sealed periods. */
  ghost predicate RightlyFlagged(cs: seq<Command>, l: Ledger, f: Flag) {
    || (exists i :: 0 <= i < |l.quarantine| && l.quarantine[i].id == f.id && l.quarantine[i].event.id == f.event && l.quarantine[i].reason == f.reason)
    || (exists i, p :: 0 <= i < |cs| && cs[i].DoCorrect? && cs[i].event.id == f.event && p in cs[i].periods && Touches(p, cs[i].event)
          && f.reason == IntersectsSealedPeriod(p.name))
  }

  ghost predicate Grounded(cs: seq<Command>, l: Ledger) {
    && (forall i :: 0 <= i < |l.book.events| ==> StoredFrom(cs, l.book.events[i]))
    && (forall i :: 0 <= i < |l.quarantine| ==> RightlyIsolated(cs, l, l.quarantine[i]))
    && (forall i :: 0 <= i < |l.flags| ==> l.flags[i].id == i + 1 && RightlyFlagged(cs, l, l.flags[i]))
    && l.counter == |l.flags| && l.clock == 0
  }

  lemma SubmittedLater(cs: seq<Command>, c: Command, e: Event)
    requires Submitted(cs, e)
    ensures Submitted(cs + [c], e)
  {
    var i :| 0 <= i < |cs| && !cs[i].DoDeliver? && cs[i].event == e;
    assert (cs + [c])[i] == cs[i];
  }

  lemma IsolatedLater(cs: seq<Command>, l: Ledger, c: Command, next: Ledger, q: QuarantineEntry)
    requires RightlyIsolated(cs, l, q) && Grows(l, next)
    ensures RightlyIsolated(cs + [c], next, q)
  {
    SubmittedLater(cs, c, q.event);
    GrownKeeps(l, next, q.event);
    var i :| 0 <= i < |l.book.events| && l.book.events[i].id == q.conflictsWith
          && Collides(l.book.events[i], q.event) && !SameContent(l.book.events[i], q.event);
    assert next.book.events[i] == l.book.events[i];
    hide Flagged, Submitted, SameContent, Collides;
  }

  lemma FlaggedLater(cs: seq<Command>, l: Ledger, c: Command, next: Ledger, f: Flag)
    requires RightlyFlagged(cs, l, f) && Grows(l, next)
    ensures RightlyFlagged(cs + [c], next, f)
  {
    if i :| 0 <= i < |l.quarantine| && l.quarantine[i].id == f.id && l.quarantine[i].event.id == f.event && l.quarantine[i].reason == f.reason {
      assert next.quarantine[i] == l.quarantine[i];
    } else {
      var i, p :| 0 <= i < |cs| && cs[i].DoCorrect? && cs[i].event.id == f.event && p in cs[i].periods && Touches(p, cs[i].event)
          && f.reason == IntersectsSealedPeriod(p.name);
      assert (cs + [c])[i] == cs[i];
    }
  }

  /** Everything of the old ledger is still grounded in the longer run. */
  lemma OldIsGrounded(cs: seq<Command>, l: Ledger, c: Command, next: Ledger)
    requires Grounded(cs, l) && Grows(l, next)
    ensures forall i :: 0 <= i < |l.book.events| ==> StoredFrom(cs + [c], next.book.events[i])
    ensures forall i :: 0 <= i < |l.quarantine| ==> RightlyIsolated(cs + [c], next, next.quarantine[i])
    ensures forall i :: 0 <= i < |l.flags| ==> next.flags[i].id == i + 1 && RightlyFlagged(cs + [c], next, next.flags[i])
  {
    hide RightlyIsolated, RightlyFlagged, Submitted, SameContent;
    forall i | 0 <= i < |l.book.events| ensures StoredFrom(cs + [c], next.book.events[i]) {
      assert StoredFrom(cs, l.book.events[i]);
      var e :| Submitted(cs, e) && SameContent(e, l.book.events[i]);
      SubmittedLater(cs, c, e);
    }
    forall i | 0 <= i < |l.quarantine| ensures RightlyIsolated(cs + [c], next, next.quarantine[i]) {
      IsolatedLater(cs, l, c, next, l.quarantine[i]);
    }
    forall i | 0 <= i < |l.flags| ensures next.flags[i].id == i + 1 && RightlyFlagged(cs + [c], next, next.flags[i]) {
      FlaggedLater(cs, l, c, next, l.flags[i]);
    }
  }

  lemma LastSubmitted(cs: seq<Command>, c: Command)
    requires !c.DoDeliver?
    ensures Submitted(cs + [c], c.event)
  {
    assert (cs + [c])[|cs|] == c;
  }

  lemma AppendGrounded(cs: seq<Command>, c: Command)
    requires Grounded(cs, Run(EMPTY, cs)) && !c.DoDeliver?
    ensures Grounded(cs + [c], Append(Run(EMPTY, cs), c.event).0)
  {
    hide *;
    var l, e := Run(EMPTY, cs), c.event;
    GroundedParts(cs, l);
    AppendGrows(l, e);
    LastSubmitted(cs, c);
    OldIsGrounded(cs, l, c, Append(l, e).0);
    OtherwiseUnchanged(l, e);
    if Append(l, e).1.Quarantined? {
      ReachableCatalogued(cs);
      StoredClashes(l.book, e);
      var stored := QuarantinedIs(l, e);
      NewlyIsolated(cs + [c], l, e, stored);
      OneMoreIsolated(cs + [c], l, e, stored);
    } else if Append(l, e).1.Appended? {
      AppendStores(l, e);
      StampedIs(l.book, e, l.clock);
      assert SameContent(e, Append(l, e).0.book.events[|l.book.events|]);
      OneMoreGrounded(cs + [c], l, Append(l, e).0);
    } else {
      SameGrounded(cs + [c], l);
    }
  }

  lemma GroundedParts(cs: seq<Command>, l: Ledger)
    requires Grounded(cs, l)
    ensures l.counter == |l.flags| && l.clock == 0
  {
  }

  lemma SameGrounded(cs: seq<Command>, l: Ledger)
    requires l.counter == |l.flags| && l.clock == 0
    requires forall i :: 0 <= i < |l.book.events| ==> StoredFrom(cs, l.book.events[i])
    requires forall i :: 0 <= i < |l.quarantine| ==> RightlyIsolated(cs, l, l.quarantine[i])
    requires forall i :: 0 <= i < |l.flags| ==> l.flags[i].id == i + 1 && RightlyFlagged(cs, l, l.flags[i])
    ensures Grounded(cs, l)
  {
  }

  lemma OneMoreIsolated(cs: seq<Command>, l: Ledger, e: Event, stored: Event)
    requires l.counter == |l.flags| && l.clock == 0
    requires var next := Quarantine(l, e, stored).0;
             && (forall i :: 0 <= i < |l.book.events| ==> StoredFrom(cs, next.book.events[i]))
             && (forall i :: 0 <= i < |l.quarantine| ==> RightlyIsolated(cs, next, next.quarantine[i]))
             && (forall i :: 0 <= i < |l.flags| ==> next.flags[i].id == i + 1 && RightlyFlagged(cs, next, next.flags[i]))
             && RightlyIsolated(cs, next, next.quarantine[|l.quarantine|])
             && next.flags[|l.flags|].id == |l.flags| + 1 && RightlyFlagged(cs, next, next.flags[|l.flags|])
    ensures Grounded(cs, Quarantine(l, e, stored).0)
  {
    hide RightlyIsolated, RightlyFlagged, StoredFrom;
  }

  lemma QuarantinedIs(l: Ledger, e: Event) returns (stored: Event)
    requires Append(l, e).1.Quarantined?
    ensures Stored(l.book, e) == Some(stored) && !SameContent(stored, e) && Append(l, e).0 == Quarantine(l, e, stored).0
  {
    hide Stored, Store;
    stored := Stored(l.book, e).value;
    ContentIsBare(stored, e);
  }

  /** A stored event of submitted content, with everything else as it was. */
  lemma OneMoreGrounded(cs: seq<Command>, l: Ledger, next: Ledger)
    requires l.counter == |l.flags| && l.clock == 0 && next == l.(book := next.book)
    requires |next.book.events| == |l.book.events| + 1
    requires forall i :: 0 <= i < |l.book.events| ==> StoredFrom(cs, next.book.events[i])
    requires exists e :: Submitted(cs, e) && SameContent(e, next.book.events[|l.book.events|])
    requires forall i :: 0 <= i < |l.quarantine| ==> RightlyIsolated(cs, next, next.quarantine[i])
    requires forall i :: 0 <= i < |l.flags| ==> next.flags[i].id == i + 1 && RightlyFlagged(cs, next, next.flags[i])
    ensures Grounded(cs, next)
  {
    hide RightlyIsolated, RightlyFlagged;
  }

  lemma NewlyIsolated(cs: seq<Command>, l: Ledger, e: Event, stored: Event)
    requires Submitted(cs, e) && stored in l.book.events && Collides(stored, e) && !SameContent(stored, e)
    requires l.counter == |l.flags|
    ensures var next := Quarantine(l, e, stored).0;
            && RightlyIsolated(cs, next, next.quarantine[|l.quarantine|])
            && next.flags[|l.flags|].id == |l.flags| + 1 && RightlyFlagged(cs, next, next.flags[|l.flags|])
  {
    hide SameContent, Collides, Submitted;
    var next := Quarantine(l, e, stored).0;
    var q := next.quarantine[|l.quarantine|];
    assert next.flags[|l.flags|] == Flag(q.id, q.reason, e.id);
    assert Flagged(next, q.id, q.reason, e.id);
    var i :| 0 <= i < |l.book.events| && l.book.events[i] == stored;
    assert next.book.events[i] == stored;
  }

  lemma HitGrounded(cs: seq<Command>, c: Command)
    requires Grounded(cs, Run(EMPTY, cs)) && c.DoCorrect? && SealedHit(c.event, c.periods).Some?
    ensures Grounded(cs + [c], Correct(Run(EMPTY, cs), c.event, c.periods).0)
  {
    var l := Run(EMPTY, cs);
    HitIsFirst(c.event, c.periods);
    StepGrows(l, c);
    var next := Correct(l, c.event, c.periods).0;
    OldIsGrounded(cs, l, c, next);
    hide Run, RightlyIsolated, Touches, Grows, StoredFrom;
    assert (cs + [c])[|cs|] == c;
    assert RightlyFlagged(cs + [c], next, next.flags[|l.flags|]);
    hide RightlyFlagged;
  }

  /** Deliveries and notices touch neither events, quarantine nor flags. */
  lemma AsideGrounded(cs: seq<Command>, l: Ledger, next: Ledger)
    requires Grounded(cs, l) && next == l.(outbox := next.outbox, outboxByEvent := next.outboxByEvent, commitSeq := next.commitSeq)
    ensures Grounded(cs, next)
  {
    hide StoredFrom, Submitted, SameContent, Collides, Touches;
    forall i | 0 <= i < |next.quarantine| ensures RightlyIsolated(cs, next, next.quarantine[i]) {
      assert RightlyIsolated(cs, l, l.quarantine[i]);
      assert Flagged(l, l.quarantine[i].id, l.quarantine[i].reason, l.quarantine[i].event.id);
      assert Flagged(next, l.quarantine[i].id, l.quarantine[i].reason, l.quarantine[i].event.id);
    }
    hide RightlyIsolated;
    forall i | 0 <= i < |next.flags| ensures next.flags[i].id == i + 1 && RightlyFlagged(cs, next, next.flags[i]) {
      assert RightlyFlagged(cs, l, l.flags[i]);
    }
  }

  /**
   Nothing is invented: over every run each stored event was submitted with that content,
   each quarantined event was submitted and clashes with a stored one of other content,
   and the flags are numbered 1, 2, 3 ... and each stands for a quarantined event or a
   correction that touched a sealed period.
   */
  lemma {:induction false} NothingIsInvented(cs: seq<Command>)
    ensures Grounded(cs, Run(EMPTY, cs))
  {
    if cs != [] {
      var front, c := cs[..|cs| - 1], cs[|cs| - 1];
      NothingIsInvented(front);
      assert cs == front + [c];
      assert Run(EMPTY, cs) == Step(Run(EMPTY, front), c);
      StepGrounded(front, c);
      hide Grounded, Step;
    }
  }

  lemma StepGrounded(cs: seq<Command>, c: Command)
    requires Grounded(cs, Run(EMPTY, cs))
    ensures Grounded(cs + [c], Step(Run(EMPTY, cs), c))
  {
    hide Run, Grounded, Append, Grows, EnsureOutbox, SealedHit, Position;
    var l := Run(EMPTY, cs);
    if c.DoDeliver? {
      LaterGrounded(cs, l, c);
      AsideGrounded(cs + [c], l, Step(l, c));
    } else if c.DoCorrect? && SealedHit(c.event, c.periods).Some? {
      HitGrounded(cs, c);
    } else {
      AppendGrounded(cs, c);
      if c.DoCommit? {
        CommitAside(l, c.event, c.notice);
        AsideGrounded(cs + [c], Append(l, c.event).0, Step(l, c));
      }
    }
  }

  lemma GrowsAside(l: Ledger)
    ensures Grows(l, l)
  {
  }

  lemma CommitAside(l: Ledger, e: Event, notice: Notice)
    ensures var a, b := Append(l, e).0, Commit(l, e, notice).0;
            b == a.(outbox := b.outbox, outboxByEvent := b.outboxByEvent, commitSeq := b.commitSeq)
  {
    hide Append;
  }

  lemma LaterGrounded(cs: seq<Command>, l: Ledger, c: Command)
    requires Grounded(cs, l)
    ensures Grounded(cs + [c], l)
  {
    GrowsAside(l);
    OldIsGrounded(cs, l, c, l);
    hide RightlyIsolated, RightlyFlagged, StoredFrom;
  }

  // ------------------------------------------- superseded segments

  /** The added entries are exactly the segments the projection gave up, each with the event that did it. */
  predicate GaveUp(previous: seq<Segment>, latest: seq<Segment>, cause: EventId, added: seq<Superseded>) {
    && |added| <= |previous|
    && (forall i :: 0 <= i < |added| ==> added[i].segment in previous && added[i].segment !in latest && added[i].cause == cause)
    && (forall g :: g in previous && g !in latest ==> Superseded(g, cause) in added)
  }

  lemma {:induction false} DroppedIs(previous: seq<Segment>, latest: seq<Segment>, cause: EventId)
    ensures GaveUp(previous, latest, cause, Dropped(previous, latest, cause))
  {
    if previous != [] { DroppedIs(previous[..|previous| - 1], latest, cause); }
  }

  /**
   An appended event archives exactly the segments of its resource that are no longer
   projected, behind what is archived already, and nothing of any other resource.
   */
  lemma ArchivedExactly(l: Ledger, e: Event)
    requires Append(l, e).1.Appended?
    ensures var next := Append(l, e).0; var r := e.resource;
            && (forall other :: other != r ==> ArchiveOf(next.book, other) == ArchiveOf(l.book, other))
            && r in next.book.current && ArchiveOf(l.book, r) <= ArchiveOf(next.book, r)
            && GaveUp(if r in l.book.current then l.book.current[r].segments else [], next.book.current[r].segments, e.id,
                      ArchiveOf(next.book, r)[|ArchiveOf(l.book, r)|..])
  {
    hide *;
    var x := Stamped(l.book, e, l.clock);
    StampedIs(l.book, e, l.clock);
    AppendStores(l, e);
    StoreArchives(l.book, x);
  }

  lemma StoreArchives(k: Book, e: Event)
    requires e.ledgerSeq.Some?
    ensures var next := Store(k, e); var r := e.resource;
            && (forall other :: other != r ==> ArchiveOf(next, other) == ArchiveOf(k, other))
            && r in next.current && ArchiveOf(k, r) <= ArchiveOf(next, r)
            && GaveUp(if r in k.current then k.current[r].segments else [], next.current[r].segments, e.id, ArchiveOf(next, r)[|ArchiveOf(k, r)|..])
  {
    hide Project, Dropped, GaveUp;
    var latest := Project(EventsOf(k, e.resource) + [e]);
    assert Store(k, e).archive == ArchiveStep(k, e.resource, latest, e.id) && Store(k, e).current == k.current[e.resource := latest];
    hide Store;
    if e.resource in k.current { DroppedIs(k.current[e.resource].segments, latest.segments, e.id); } else { NothingGivenUp(latest.segments, e.id); }
    var lost := if e.resource in k.current then Dropped(k.current[e.resource].segments, latest.segments, e.id) else [];
    var before := ArchiveOf(k, e.resource);
    assert (before + lost)[|before|..] == lost;
    if lost == [] { assert before[|before|..] == lost; }
  }

  lemma NothingGivenUp(latest: seq<Segment>, cause: EventId)
    ensures GaveUp([], latest, cause, [])
  {
  }

  // ------------------------------------------- notices

  ghost predicate HasEntry(l: Ledger, id: EventId) { exists i :: 0 <= i < |l.outbox| && l.outbox[i].event == id }

  /** The delivery of entry n was marked after the entry was there. */
  ghost predicate DeliveredIn(cs: seq<Command>, n: nat) {
    exists i :: 0 <= i < |cs| && cs[i] == DoDeliver(n) && 1 <= n <= |Run(EMPTY, cs[..i]).outbox|
  }

  /** The entry's event is stored and some command committed it with this notice. */
  ghost predicate NoticeFrom(cs: seq<Command>, l: Ledger, x: OutboxEntry) {
    && (exists i :: 0 <= i < |l.book.events| && l.book.events[i].id == x.event)
    && (exists i :: 0 <= i < |cs| && cs[i].DoCommit? && cs[i].event.id == x.event && cs[i].notice == x.notice)
  }

  ghost predicate Notified(cs: seq<Command>, l: Ledger) {
    && l.commitSeq == |l.outbox|
    && (forall i :: 0 <= i < |l.outbox| ==> l.outbox[i].outboxId == i + 1 && NoticeFrom(cs, l, l.outbox[i]))
    && (forall i :: 0 <= i < |l.outbox| ==> (l.outbox[i].delivered <==> DeliveredIn(cs, i + 1)))
    && (forall i, j :: 0 <= i < j < |l.outbox| ==> l.outbox[i].event != l.outbox[j].event)
  }

  lemma DeliveredSnoc(cs: seq<Command>, c: Command, n: nat)
    ensures DeliveredIn(cs + [c], n) <==> DeliveredIn(cs, n) || (c == DoDeliver(n) && 1 <= n <= |Run(EMPTY, cs).outbox|)
  {
    hide Run;
    var all := cs + [c];
    assert all[..|cs|] == cs && all[|cs|] == c;
    forall i | 0 <= i < |cs| ensures all[..i] == cs[..i] && all[i] == cs[i] {}
    if DeliveredIn(cs, n) {
      var i :| 0 <= i < |cs| && cs[i] == DoDeliver(n) && 1 <= n <= |Run(EMPTY, cs[..i]).outbox|;
      assert all[i] == DoDeliver(n) && all[..i] == cs[..i];
    }
  }

  lemma NoticeLater(cs: seq<Command>, l: Ledger, c: Command, next: Ledger, x: OutboxEntry, y: OutboxEntry)
    requires NoticeFrom(cs, l, x) && Grows(l, next) && SameEntry(x, y)
    ensures NoticeFrom(cs + [c], next, y)
  {
    var i :| 0 <= i < |l.book.events| && l.book.events[i].id == x.event;
    assert next.book.events[i] == l.book.events[i];
    var j :| 0 <= j < |cs| && cs[j].DoCommit? && cs[j].event.id == x.event && cs[j].notice == x.notice;
    assert (cs + [c])[j] == cs[j];
  }

  lemma {:induction false} PositionIs(outbox: seq<OutboxEntry>, from: nat, n: nat)
    requires forall i :: 0 <= i < |outbox| ==> outbox[i].outboxId == from + i
    ensures Position(outbox, n) == if from <= n < from + |outbox| then n - from else |outbox|
  {
    if outbox != [] && outbox[0].outboxId != n { PositionIs(outbox[1..], from + 1, n); }
  }

  lemma MarkedIs(l: Ledger, n: nat)
    requires forall i :: 0 <= i < |l.outbox| ==> l.outbox[i].outboxId == i + 1
    ensures MarkDelivered(l, n).commitSeq == l.commitSeq && |MarkDelivered(l, n).outbox| == |l.outbox|
    ensures forall i :: 0 <= i < |l.outbox| ==>
              MarkDelivered(l, n).outbox[i] == if n == i + 1 then l.outbox[i].(delivered := true) else l.outbox[i]
  {
    PositionIs(l.outbox, 1, n);
    hide Position;
  }

  lemma DeliverNotified(cs: seq<Command>, n: nat)
    requires Notified(cs, Run(EMPTY, cs))
    ensures Notified(cs + [DoDeliver(n)], MarkDelivered(Run(EMPTY, cs), n))
  {
    hide Run, MarkDelivered, NoticeFrom, DeliveredIn, Grows, Append, Commit, Correct;
    var l, c := Run(EMPTY, cs), DoDeliver(n);
    var next := MarkDelivered(l, n);
    StepGrows(l, c);
    MarkedIs(l, n);
    forall i | 0 <= i < |next.outbox|
      ensures next.outbox[i].outboxId == i + 1 && NoticeFrom(cs + [c], next, next.outbox[i])
      ensures next.outbox[i].delivered <==> DeliveredIn(cs + [c], i + 1)
    {
      NoticeLater(cs, l, c, next, l.outbox[i], next.outbox[i]);
      DeliveredSnoc(cs, c, i + 1);
    }
  }

  /** A command that leaves the outbox alone leaves its notices in order. */
  lemma AppendNotified(cs: seq<Command>, c: Command, next: Ledger)
    requires Notified(cs, Run(EMPTY, cs)) && !c.DoDeliver? && Grows(Run(EMPTY, cs), next)
    requires next.outbox == Run(EMPTY, cs).outbox && next.commitSeq == Run(EMPTY, cs).commitSeq
    ensures Notified(cs + [c], next)
  {
    var l := Run(EMPTY, cs);
    hide Run, NoticeFrom, DeliveredIn, Grows;
    forall i | 0 <= i < |next.outbox|
      ensures NoticeFrom(cs + [c], next, next.outbox[i])
      ensures next.outbox[i].delivered <==> DeliveredIn(cs + [c], i + 1)
    {
      NoticeLater(cs, l, c, next, l.outbox[i], next.outbox[i]);
      DeliveredSnoc(cs, c, i + 1);
    }
  }

  lemma {:induction false} IndexedEntries(outbox: seq<OutboxEntry>, id: EventId)
    ensures id in IndexOutbox(outbox) <==> exists i :: 0 <= i < |outbox| && outbox[i].event == id
  {
    if outbox != [] {
      IndexedEntries(outbox[..|outbox| - 1], id);
      if id in IndexOutbox(outbox[..|outbox| - 1]) {
        var i :| 0 <= i < |outbox| - 1 && outbox[..|outbox| - 1][i].event == id;
        assert outbox[i].event == id;
      }
    }
  }

  lemma EnsuredNotified(cs: seq<Command>, l: Ledger, id: EventId, notice: Notice)
    requires Notified(cs, l) && l.outboxByEvent == IndexOutbox(l.outbox) && !DeliveredIn(cs, |l.outbox| + 1)
    requires exists i :: 0 <= i < |l.book.events| && l.book.events[i].id == id
    requires exists i :: 0 <= i < |cs| && cs[i].DoCommit? && cs[i].event.id == id && cs[i].notice == notice
    ensures Notified(cs, EnsureOutbox(l, id, notice)) && HasEntry(EnsureOutbox(l, id, notice), id)
  {
    IndexedEntries(l.outbox, id);
    hide DeliveredIn, IndexOutbox;
    var next := EnsureOutbox(l, id, notice);
    if id !in l.outboxByEvent {
      assert next.outbox[|l.outbox|].event == id;
      forall i | 0 <= i < |next.outbox| ensures next.outbox[i].outboxId == i + 1 && NoticeFrom(cs, next, next.outbox[i]) {
        if i < |l.outbox| { assert NoticeFrom(cs, l, l.outbox[i]); }
      }
    }
  }

  lemma NotYetDelivered(cs: seq<Command>)
    ensures !DeliveredIn(cs, |Run(EMPTY, cs).outbox| + 1)
  {
    forall i | 0 <= i < |cs| ensures |Run(EMPTY, cs[..i]).outbox| <= |Run(EMPTY, cs).outbox| { RunGrows(cs, i); }
    hide Run;
  }

  /** What a commit whose event is on record adds: the notice, if the event has none. */
  lemma CommitNotified(cs: seq<Command>, e: Event, notice: Notice)
    requires Notified(cs, Run(EMPTY, cs))
    ensures Notified(cs + [DoCommit(e, notice)], Commit(Run(EMPTY, cs), e, notice).0)
    ensures var (l', receipt) := Commit(Run(EMPTY, cs), e, notice); receipt.Appended? || receipt.Duplicate? ==> HasEntry(l', e.id)
  {
    var l, c := Run(EMPTY, cs), DoCommit(e, notice);
    var (next, receipt) := Append(l, e);
    AppendGrows(l, e);
    AppendNotified(cs, c, next);
    if receipt.Appended? || receipt.Duplicate? {
      ReceiptNames(cs, e);
      ReachableSound(cs);
      NotYetDelivered(cs);
      DeliveredSnoc(cs, c, |l.outbox| + 1);
      assert (cs + [c])[|cs|] == c;
      hide Run, Append, Notified, DeliveredIn, EnsureOutbox;
      EnsuredNotified(cs + [c], next, e.id, notice);
    }
  }

  /** Stored or on record already: the receipt names the event, and the list holds it. */
  lemma ReceiptNames(cs: seq<Command>, e: Event)
    requires var receipt := Append(Run(EMPTY, cs), e).1; receipt.Appended? || receipt.Duplicate?
    ensures var (next, receipt) := Append(Run(EMPTY, cs), e);
            receipt.id == e.id && exists i :: 0 <= i < |next.book.events| && next.book.events[i].id == e.id
  {
    var l := Run(EMPTY, cs);
    AnswersExactly(cs, e);
    ReachableCatalogued(cs);
    StoredClashes(l.book, e);
    hide Run, Project, Store, Catalogued, CountOf;
    var (next, receipt) := Append(l, e);
    if receipt.Appended? {
      assert next.book.events[|l.book.events|].id == e.id;
    } else {
      var x := Stored(l.book, e).value;
      var i :| 0 <= i < |l.book.events| && l.book.events[i] == x;
    }
  }

  /**
   Over every run: outbox entries are numbered 1, 2, 3 ..., each for a stored event that
   was committed with that notice, no event has two, and an entry is delivered exactly if
   its delivery was marked since it exists.
   */
  lemma {:induction false} NoticesAreHonest(cs: seq<Command>)
    ensures Notified(cs, Run(EMPTY, cs))
  {
    if cs != [] {
      var front, c := cs[..|cs| - 1], cs[|cs| - 1];
      var l := Run(EMPTY, front);
      NoticesAreHonest(front);
      assert cs == front + [c];
      match c {
        case DoDeliver(n) => DeliverNotified(front, n);
        case DoCommit(e, notice) => CommitNotified(front, e, notice);
        case DoAppend(e) =>
          AppendGrows(l, e);
          AppendNotified(front, c, Append(l, e).0);
        case DoCorrect(e, periods) =>
          AppendGrows(l, e);
          StepGrows(l, c);
          AppendNotified(front, c, Step(l, c));
      }
      hide Notified, Append, Grows;
    }
  }

  /** Every committed event that is not quarantined has its notice in the outbox from then on. */
  lemma CommittedIsNotified(cs: seq<Command>, n: nat)
    requires n < |cs| && cs[n].DoCommit? && cs[n].event.ledgerSeq.None?
    ensures var l := Run(EMPTY, cs); var e := cs[n].event; (Repeats(l.book.events, e) && HasEntry(l, e.id)) || Isolated(l, e)
  {
    var front, e := cs[..n], cs[n].event;
    var l := Run(EMPTY, front);
    assert cs[..n + 1][..n] == front;
    AnswersExactly(front, e);
    NoticesAreHonest(front);
    CommitNotified(front, e, cs[n].notice);
    CommitIsAppend(l, e, cs[n].notice);
    var next := Run(EMPTY, cs[..n + 1]);
    GrownKeeps(Append(l, e).0, next, e);
    RunGrows(cs, n + 1);
    GrownKeeps(next, Run(EMPTY, cs), e);
    EntryStays(next, Run(EMPTY, cs), e.id);
    IsolatedOrTaken(front, e);
    hide Run, Append, Repeats, Isolated, HasEntry, Grows, Notified, Clashes, CountOf;
  }

  lemma EntryStays(l: Ledger, next: Ledger, id: EventId)
    requires Grows(l, next)
    ensures HasEntry(l, id) ==> HasEntry(next, id)
  {
    if HasEntry(l, id) {
      var i :| 0 <= i < |l.outbox| && l.outbox[i].event == id;
      assert SameEntry(l.outbox[i], next.outbox[i]);
    }
  }

  lemma IsolatedOrTaken(cs: seq<Command>, e: Event)
    requires e.ledgerSeq.None?
    ensures var (next, receipt) := Append(Run(EMPTY, cs), e);
            if receipt.Appended? || receipt.Duplicate? then Repeats(next.book.events, e) else Isolated(next, e)
  {
    AnswersExactly(cs, e);
    var l := Run(EMPTY, cs);
    hide Run, Project, Store, Stored, CountOf;
    var next := Append(l, e).0;
    if Append(l, e).1.Quarantined? {
      assert next.quarantine[|l.quarantine|].event == e;
      assert next.flags[|l.flags|] == Flag(next.quarantine[|l.quarantine|].id, next.quarantine[|l.quarantine|].reason, e.id);
    } else if Append(l, e).1.Appended? {
      assert SameContent(next.book.events[|l.book.events|], e);
    }
  }
}
