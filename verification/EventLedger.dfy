/**
 The append-only ledger of scripts/resource_events.py: redelivery dedupe,
 conflict quarantine, per-resource sequence numbers, re-projection with an archive
 of superseded segments, a transactional outbox, sealed-period corrections and
 persistence by replay.
 */
module EventLedger {
  import opened Basics
  import opened EventFold

  datatype SourceKey = SourceKey(source: string, generation: Option<nat>, sourceSeq: nat)

  datatype Reason = SameIdOtherContent | SameSourceOtherContent | IntersectsSealedPeriod(period: string)

  datatype QuarantineEntry = QuarantineEntry(id: nat, reason: Reason, conflictsWith: EventId, event: Event)

  datatype Flag = Flag(id: nat, reason: Reason, event: EventId)

  datatype Superseded = Superseded(segment: Segment, cause: EventId)

  datatype Notice = Notice(topic: EventType, op: nat, sandbox: string) | Text(text: string)

  datatype OutboxEntry = OutboxEntry(outboxId: nat, event: EventId, notice: Notice, delivered: bool)

  datatype Period = Period(name: string, start: int, end: int)

  datatype Receipt =
    | Appended(id: EventId, seqNo: nat, at: nat)
    | Duplicate(id: EventId, seqNo: nat, at: nat)
    | Quarantined(reason: Reason, flag: nat)
    | FlaggedManual(flag: nat, period: string)
    | WrongLedgerSeq(expected: nat)

  /** Everything derived from the appended events alone. */
  datatype Book = Book(
    events: seq<Event>,
    byEventId: map<EventId, Event>,
    bySourceKey: map<SourceKey, Event>,
    byResource: map<ResourceKey, seq<Event>>,
    ledgerSeq: map<ResourceKey, nat>,
    current: map<ResourceKey, Projection>,
    archive: map<ResourceKey, seq<Superseded>>)

  datatype Ledger = Ledger(
    book: Book,
    quarantine: seq<QuarantineEntry>,
    flags: seq<Flag>,
    outbox: seq<OutboxEntry>,
    outboxByEvent: map<EventId, nat>,
    commitSeq: nat,
    counter: nat,
    clock: nat)

  const NO_BOOK: Book := Book([], map[], map[], map[], map[], map[], map[])

  const EMPTY: Ledger := Ledger(NO_BOOK, [], [], [], map[], 0, 0, 0)

  function KeyOf(e: Event): SourceKey { SourceKey(e.source, e.generation, e.sourceSeq) }

  /** Content, without the two fields the control plane assigns. */
  function Bare(e: Event): Event { e.(ledgerSeq := None, recordedAt := None) }

  function NextSeq(k: Book, r: ResourceKey): nat { (if r in k.ledgerSeq then k.ledgerSeq[r] else 0) + 1 }

  function EventsOf(k: Book, r: ResourceKey): seq<Event> {
    if r in k.byResource then k.byResource[r] else []
  }

  function ArchiveOf(k: Book, r: ResourceKey): seq<Superseded> {
    if r in k.archive then k.archive[r] else []
  }

  // ------------------------------------------------------------------ append

  /** The stored event this one collides with: by id first, then by source key. */
  function Stored(k: Book, e: Event): Option<Event> {
    if e.id in k.byEventId then Some(k.byEventId[e.id])
    else if KeyOf(e) in k.bySourceKey then Some(k.bySourceKey[KeyOf(e)])
    else None
  }

  function Stamped(k: Book, e: Event, clock: nat): Event {
    e.(ledgerSeq := Some(NextSeq(k, e.resource)),
       recordedAt := Some(e.recordedAt.GetOr(clock)))
  }

  predicate SeqAllowed(k: Book, e: Event) {
    e.ledgerSeq.Some? ==> e.ledgerSeq.value == NextSeq(k, e.resource)
  }

  /** Segments of `previous` that `latest` no longer contains, in order. */
  function Dropped(previous: seq<Segment>, latest: seq<Segment>, cause: EventId): seq<Superseded> {
    if previous == [] then []
    else
      var g := previous[|previous| - 1];
      Dropped(previous[..|previous| - 1], latest, cause) + (if g in latest then [] else [Superseded(g, cause)])
  }

  function ArchiveStep(k: Book, r: ResourceKey, latest: Projection, cause: EventId): map<ResourceKey, seq<Superseded>> {
    var lost := if r in k.current then Dropped(k.current[r].segments, latest.segments, cause) else [];
    if lost == [] then k.archive else k.archive[r := ArchiveOf(k, r) + lost]
  }

  /** Stores a stamped event, re-projects its resource and archives what the projection gave up. */
  function Store(k: Book, e: Event): Book
    requires e.ledgerSeq.Some?
  {
    var r := e.resource;
    var mine := EventsOf(k, r) + [e];
    var latest := Project(mine);
    Book(k.events + [e],
         k.byEventId[e.id := e],
         k.bySourceKey[KeyOf(e) := e],
         k.byResource[r := mine],
         k.ledgerSeq[r := e.ledgerSeq.value],
         k.current[r := latest],
         ArchiveStep(k, r, latest, e.id))
  }

  function Quarantine(l: Ledger, e: Event, stored: Event): (Ledger, Receipt) {
    var reason := if stored.id == e.id then SameIdOtherContent else SameSourceOtherContent;
    var n := l.counter + 1;
    (l.(counter := n,
        quarantine := l.quarantine + [QuarantineEntry(n, reason, stored.id, e)],
        flags := l.flags + [Flag(n, reason, e.id)]),
     Quarantined(reason, n))
  }

  function Append(l: Ledger, e: Event): (Ledger, Receipt) {
    match Stored(l.book, e)
    case Some(stored) =>
      if Bare(stored) == Bare(e)
      then (l, Duplicate(stored.id, stored.ledgerSeq.GetOr(0), stored.recordedAt.GetOr(0)))
      else Quarantine(l, e, stored)
    case None =>
      if !SeqAllowed(l.book, e)
      then (l, WrongLedgerSeq(NextSeq(l.book, e.resource)))
      else
        var stamped := Stamped(l.book, e, l.clock);
        (l.(book := Store(l.book, stamped)), Appended(e.id, stamped.ledgerSeq.value, stamped.recordedAt.value))
  }

  // ------------------------------------------------------------------ outbox

  function EnsureOutbox(l: Ledger, id: EventId, notice: Notice): Ledger {
    if id in l.outboxByEvent then l
    else l.(commitSeq := l.commitSeq + 1,
            outbox := l.outbox + [OutboxEntry(l.commitSeq + 1, id, notice, false)],
            outboxByEvent := l.outboxByEvent[id := |l.outbox|])
  }

  /** The event and its outbox entry under one sequence id. */
  function Commit(l: Ledger, e: Event, notice: Notice): (Ledger, Receipt) {
    var (l', receipt) := Append(l, e);
    match receipt
    case Appended(id, _, _) => (EnsureOutbox(l', id, notice), receipt)
    case Duplicate(id, _, _) => (EnsureOutbox(l', id, notice), receipt)
    case _ => (l', receipt)
  }

  function Position(outbox: seq<OutboxEntry>, outboxId: nat): (i: nat)
    ensures i <= |outbox| && (i < |outbox| ==> outbox[i].outboxId == outboxId)
    ensures forall k :: 0 <= k < i ==> outbox[k].outboxId != outboxId
  {
    if outbox == [] then 0
    else if outbox[0].outboxId == outboxId then 0
    else 1 + Position(outbox[1..], outboxId)
  }

  function MarkDelivered(l: Ledger, outboxId: nat): Ledger {
    var i := Position(l.outbox, outboxId);
    if i == |l.outbox| then l else l.(outbox := l.outbox[i := l.outbox[i].(delivered := true)])
  }

  // ------------------------------------------------------------- corrections

  predicate Within(p: Period, at: int) { p.start <= at < p.end }

  predicate Hits(p: Period, e: Event) {
    Within(p, e.effective) || (e.kind == LeaseExpired && e.lastObserved.At? && Within(p, e.lastObserved.ms))
  }

  function SealedHit(e: Event, periods: seq<Period>): Option<Period> {
    if periods == [] then None
    else if Hits(periods[0], e) then Some(periods[0])
    else SealedHit(e, periods[1..])
  }

  /** A correction touching a sealed period is flagged for manual handling, never appended. */
  function Correct(l: Ledger, e: Event, periods: seq<Period>): (Ledger, Receipt) {
    match SealedHit(e, periods)
    case None => Append(l, e)
    case Some(p) =>
      var n := l.counter + 1;
      (l.(counter := n, flags := l.flags + [Flag(n, IntersectsSealedPeriod(p.name), e.id)]),
       FlaggedManual(n, p.name))
  }

  // -------------------------------------------------------------------- runs

  datatype Command =
    | DoAppend(event: Event)
    | DoCommit(event: Event, notice: Notice)
    | DoDeliver(outboxId: nat)
    | DoCorrect(event: Event, periods: seq<Period>)

  function Step(l: Ledger, c: Command): Ledger {
    match c
    case DoAppend(e) => Append(l, e).0
    case DoCommit(e, notice) => Commit(l, e, notice).0
    case DoDeliver(id) => MarkDelivered(l, id)
    case DoCorrect(e, periods) => Correct(l, e, periods).0
  }

  function Run(l: Ledger, cs: seq<Command>): Ledger {
    if cs == [] then l else Step(Run(l, cs[..|cs| - 1]), cs[|cs| - 1])
  }

  // ------------------------------------------------------------- persistence

  datatype Image = Image(
    events: seq<Event>,
    quarantine: seq<QuarantineEntry>,
    flags: seq<Flag>,
    outbox: seq<OutboxEntry>,
    commitSeq: nat,
    counter: nat,
    clock: nat)

  function ToImage(l: Ledger): Image {
    Image(l.book.events, l.quarantine, l.flags, l.outbox, l.commitSeq, l.counter, l.clock)
  }

  function IndexOutbox(outbox: seq<OutboxEntry>): map<EventId, nat> {
    if outbox == [] then map[]
    else IndexOutbox(outbox[..|outbox| - 1])[outbox[|outbox| - 1].event := |outbox| - 1]
  }

  /** Replays persisted events through Append; the flag says every one was appended. */
  function Replayed(events: seq<Event>): (Ledger, bool) {
    if events == [] then (EMPTY, true)
    else
      var (l, ok) := Replayed(events[..|events| - 1]);
      var (l', receipt) := Append(l, events[|events| - 1]);
      (l', ok && receipt.Appended?)
  }

  function FromImage(image: Image): Option<Ledger> {
    var (l, ok) := Replayed(image.events);
    if !ok then None
    else Some(Ledger(l.book, image.quarantine, image.flags, image.outbox, IndexOutbox(image.outbox),
                     image.commitSeq, image.counter, image.clock))
  }

  /** The book is what replaying its own events rebuilds. */
  predicate Rebuildable(k: Book) {
    Replayed(k.events).1 && Replayed(k.events).0.book == k
  }

  predicate Sound(l: Ledger) {
    Rebuildable(l.book) && l.outboxByEvent == IndexOutbox(l.outbox)
  }

  lemma ReplayedSnoc(events: seq<Event>, e: Event)
    ensures Replayed(events + [e]) ==
            (Append(Replayed(events).0, e).0, Replayed(events).1 && Append(Replayed(events).0, e).1.Appended?)
  {
  }

  /** Appending the already stamped event to the same book stores the same row. */
  lemma StampedAppends(l: Ledger, e: Event, clock: nat)
    requires Stored(l.book, e).None?
    ensures var stamped := Stamped(l.book, e, clock);
            Append(l, stamped).1.Appended? && Append(l, stamped).0.book == Store(l.book, stamped)
  {
  }

  lemma StoreRebuildable(k: Book, e: Event, clock: nat)
    requires Rebuildable(k) && Stored(k, e).None?
    ensures Rebuildable(Store(k, Stamped(k, e, clock)))
  {
    var stamped := Stamped(k, e, clock);
    ReplayedSnoc(k.events, stamped);
    StampedAppends(Replayed(k.events).0, e, clock);
  }

  lemma AppendSound(l: Ledger, e: Event)
    requires Sound(l)
    ensures Sound(Append(l, e).0)
  {
    if Append(l, e).1.Appended? {
      StoreRebuildable(l.book, e, l.clock);
    }
  }

  lemma IndexOutboxAppend(outbox: seq<OutboxEntry>, x: OutboxEntry)
    ensures IndexOutbox(outbox + [x]) == IndexOutbox(outbox)[x.event := |outbox|]
  {
  }

  lemma {:induction false} IndexOutboxIgnoresDelivery(outbox: seq<OutboxEntry>, i: nat)
    requires i < |outbox|
    ensures IndexOutbox(outbox[i := outbox[i].(delivered := true)]) == IndexOutbox(outbox)
  {
    var n := |outbox| - 1;
    var marked := outbox[i := outbox[i].(delivered := true)];
    if i < n {
      IndexOutboxIgnoresDelivery(outbox[..n], i);
      assert marked[..n] == outbox[..n][i := outbox[i].(delivered := true)];
    } else {
      assert marked[..n] == outbox[..n];
    }
  }

  lemma CommitSound(l: Ledger, e: Event, notice: Notice)
    requires Sound(l)
    ensures Sound(Commit(l, e, notice).0)
  {
    AppendSound(l, e);
    var (l', receipt) := Append(l, e);
    if receipt.Appended? || receipt.Duplicate? {
      IndexOutboxAppend(l'.outbox, OutboxEntry(l'.commitSeq + 1, receipt.id, notice, false));
    }
  }

  lemma StepSound(l: Ledger, c: Command)
    requires Sound(l)
    ensures Sound(Step(l, c))
  {
    match c
    case DoAppend(e) => AppendSound(l, e);
    case DoCommit(e, notice) => CommitSound(l, e, notice);
    case DoDeliver(id) =>
      var i := Position(l.outbox, id);
      if i < |l.outbox| { IndexOutboxIgnoresDelivery(l.outbox, i); }
    case DoCorrect(e, periods) => AppendSound(l, e);
  }

  lemma {:induction false} ReachableSound(cs: seq<Command>)
    ensures Sound(Run(EMPTY, cs))
  {
    if cs != [] {
      ReachableSound(cs[..|cs| - 1]);
      StepSound(Run(EMPTY, cs[..|cs| - 1]), cs[|cs| - 1]);
    }
  }

  /**
   Restore is exact: persisting any reachable ledger and replaying the image through
   Append never fails and gives back the same ledger, archive, sequence numbers,
   outbox and flags included.
   */
  lemma RestoreExact(cs: seq<Command>)
    ensures FromImage(ToImage(Run(EMPTY, cs))) == Some(Run(EMPTY, cs))
  {
    ReachableSound(cs);
  }

  // ------------------------------------------------ nothing projected is lost

  predicate Archived(k: Book, r: ResourceKey, g: Segment) {
    exists i :: 0 <= i < |ArchiveOf(k, r)| && ArchiveOf(k, r)[i].segment == g
  }

  predicate Kept(k: Book, r: ResourceKey, g: Segment) {
    (r in k.current && g in k.current[r].segments) || Archived(k, r, g)
  }

  lemma {:induction false} DroppedAll(previous: seq<Segment>, latest: seq<Segment>, cause: EventId, g: Segment)
    requires g in previous && g !in latest
    ensures exists k :: 0 <= k < |Dropped(previous, latest, cause)| && Dropped(previous, latest, cause)[k].segment == g
  {
    var n := |previous| - 1;
    var rest := Dropped(previous[..n], latest, cause);
    if previous[n] == g {
      assert Dropped(previous, latest, cause)[|rest|].segment == g;
    } else {
      assert g in previous[..n];
      DroppedAll(previous[..n], latest, cause, g);
      var k :| 0 <= k < |rest| && rest[k].segment == g;
      assert Dropped(previous, latest, cause)[k].segment == g;
    }
  }

  lemma ArchiveStepKeeps(k: Book, r: ResourceKey, latest: Projection, cause: EventId, g: Segment)
    requires r in k.current && g in k.current[r].segments && g !in latest.segments
    ensures var a := ArchiveStep(k, r, latest, cause);
            r in a && exists i :: 0 <= i < |a[r]| && a[r][i].segment == g
  {
    var lost := Dropped(k.current[r].segments, latest.segments, cause);
    DroppedAll(k.current[r].segments, latest.segments, cause, g);
    var i :| 0 <= i < |lost| && lost[i].segment == g;
    assert ArchiveStep(k, r, latest, cause)[r][|ArchiveOf(k, r)| + i].segment == g;
  }

  /** The archive only grows. */
  lemma ArchiveStepGrows(k: Book, r: ResourceKey, latest: Projection, cause: EventId, other: ResourceKey)
    ensures var a := ArchiveStep(k, r, latest, cause);
            ArchiveOf(k, other) <= if other in a then a[other] else []
  {
  }

  lemma StoreKeeps(k: Book, e: Event, r: ResourceKey, g: Segment)
    requires e.ledgerSeq.Some? && Kept(k, r, g)
    ensures Kept(Store(k, e), r, g)
  {
    hide Project, Dropped;
    var latest := Project(EventsOf(k, e.resource) + [e]);
    var k' := Store(k, e);
    assert k'.archive == ArchiveStep(k, e.resource, latest, e.id);
    if Archived(k, r, g) {
      var i :| 0 <= i < |ArchiveOf(k, r)| && ArchiveOf(k, r)[i].segment == g;
      ArchiveStepGrows(k, e.resource, latest, e.id, r);
      assert ArchiveOf(k', r)[i].segment == g;
    } else if r == e.resource && g !in latest.segments {
      ArchiveStepKeeps(k, r, latest, e.id, g);
      var i :| 0 <= i < |k'.archive[r]| && k'.archive[r][i].segment == g;
      assert ArchiveOf(k', r)[i].segment == g;
    }
  }

  lemma AppendKeeps(l: Ledger, e: Event, r: ResourceKey, g: Segment)
    requires Kept(l.book, r, g)
    ensures Kept(Append(l, e).0.book, r, g)
  {
    if Append(l, e).1.Appended? {
      StoreKeeps(l.book, Stamped(l.book, e, l.clock), r, g);
    }
  }

  /**
   No projected version is lost: a segment that was ever in a projection stays in
   the projection or in the archive for the rest of the run.
   */
  lemma {:induction false} NothingProjectedIsLost(l: Ledger, cs: seq<Command>, r: ResourceKey, g: Segment)
    requires Kept(l.book, r, g)
    ensures Kept(Run(l, cs).book, r, g)
  {
    hide Kept, Append;
    if cs != [] {
      NothingProjectedIsLost(l, cs[..|cs| - 1], r, g);
      var now := Run(l, cs[..|cs| - 1]);
      match cs[|cs| - 1] {
        case DoAppend(e) => AppendKeeps(now, e, r, g);
        case DoCommit(e, _) => AppendKeeps(now, e, r, g);
        case DoDeliver(_) =>
        case DoCorrect(e, _) => AppendKeeps(now, e, r, g);
      }
    }
  }

  // ------------------------------------------------------- shape of the book

  /** Indexes agree with the event list; each resource is numbered 1, 2, 3 ... without a gap. */
  ghost predicate Indexed(k: Book) {
    && (forall x :: x in k.byEventId ==> k.byEventId[x].id == x)
    && (forall x :: x in k.bySourceKey ==> KeyOf(k.bySourceKey[x]) == x)
    && (forall x :: x in k.byEventId ==> KeyOf(k.byEventId[x]) in k.bySourceKey && k.bySourceKey[KeyOf(k.byEventId[x])] == k.byEventId[x])
    && (forall x :: x in k.bySourceKey ==> k.bySourceKey[x].id in k.byEventId && k.byEventId[k.bySourceKey[x].id] == k.bySourceKey[x])
    && k.current.Keys == k.byResource.Keys == k.ledgerSeq.Keys
  }

  /** Event n of the resource's list is filed under its id and carries sequence number n + 1. */
  ghost predicate Filed(k: Book, r: ResourceKey, e: Event, n: nat) {
    e.resource == r && e.ledgerSeq == Some(n + 1) && e.id in k.byEventId && k.byEventId[e.id] == e
  }

  ghost predicate Numbered(k: Book, r: ResourceKey) {
    && (forall n :: 0 <= n < |EventsOf(k, r)| ==> Filed(k, r, EventsOf(k, r)[n], n))
    && NextSeq(k, r) == |EventsOf(k, r)| + 1
    && (r in k.current ==> k.current[r] == Project(EventsOf(k, r)))
  }

  ghost predicate Complete(k: Book) {
    forall x :: x in k.byEventId ==> k.byEventId[x] in EventsOf(k, k.byEventId[x].resource)
  }

  ghost predicate Shaped(k: Book) {
    Indexed(k) && Complete(k) && forall r :: Numbered(k, r)
  }

  lemma StoreIndexed(k: Book, e: Event, clock: nat)
    requires Indexed(k) && Stored(k, e).None?
    ensures Indexed(Store(k, Stamped(k, e, clock)))
  {
    var s := Stamped(k, e, clock);
    assert KeyOf(s) == KeyOf(e);
    assert s.id !in k.byEventId && KeyOf(s) !in k.bySourceKey;
  }

  lemma StoreNumbered(k: Book, e: Event, clock: nat, r: ResourceKey)
    requires Numbered(k, r) && Numbered(k, e.resource) && Stored(k, e).None?
    ensures Numbered(Store(k, Stamped(k, e, clock)), r)
  {
    var s := Stamped(k, e, clock);
    var k' := Store(k, s);
    var mine := EventsOf(k, r);
    assert EventsOf(k', r) == if r == e.resource then mine + [s] else mine;
    forall n | 0 <= n < |EventsOf(k', r)| ensures Filed(k', r, EventsOf(k', r)[n], n) {
      if n < |mine| {
        assert Filed(k, r, mine[n], n);
        assert mine[n].id != s.id;
      }
    }
  }

  lemma StoreComplete(k: Book, e: Event, clock: nat)
    requires Complete(k)
    ensures Complete(Store(k, Stamped(k, e, clock)))
  {
  }

  lemma AppendShaped(l: Ledger, e: Event)
    requires Shaped(l.book)
    ensures Shaped(Append(l, e).0.book)
  {
    if Append(l, e).1.Appended? {
      StoreIndexed(l.book, e, l.clock);
      StoreComplete(l.book, e, l.clock);
      forall r ensures Numbered(Append(l, e).0.book, r) {
        StoreNumbered(l.book, e, l.clock, r);
      }
    }
  }

  /** Whatever the command, the book either stays or takes one appended event. */
  lemma BookStep(l: Ledger, c: Command)
    ensures Step(l, c).book == l.book ||
            (!c.DoDeliver? && Step(l, c).book == Append(l, c.event).0.book)
  {
  }

  lemma {:induction false} ReachableShaped(cs: seq<Command>)
    ensures Shaped(Run(EMPTY, cs).book)
  {
    if cs != [] {
      var before, c := Run(EMPTY, cs[..|cs| - 1]), cs[|cs| - 1];
      ReachableShaped(cs[..|cs| - 1]);
      BookStep(before, c);
      if !c.DoDeliver? {
        AppendShaped(before, c.event);
      }
    }
  }

  // ------------------------------------------------------------ listed once

  /** The event list holds each indexed event exactly once. */
  ghost predicate ListedIn(events: seq<Event>, index: map<EventId, Event>) {
    && (forall i :: 0 <= i < |events| ==> events[i].id in index)
    && (forall i, j :: 0 <= i < j < |events| ==> events[i].id != events[j].id)
    && (forall x :: x in index ==> index[x].id == x && index[x] in events)
  }

  lemma ListedSnoc(events: seq<Event>, index: map<EventId, Event>, e: Event)
    requires ListedIn(events, index) && e.id !in index
    ensures ListedIn(events + [e], index[e.id := e])
  {
  }

  lemma AppendListed(l: Ledger, e: Event)
    requires ListedIn(l.book.events, l.book.byEventId)
    ensures ListedIn(Append(l, e).0.book.events, Append(l, e).0.book.byEventId)
  {
    if Append(l, e).1.Appended? {
      ListedSnoc(l.book.events, l.book.byEventId, Stamped(l.book, e, l.clock));
    }
  }
}
