/**
 What the shared ledger holds of the operation log after any run: one event for every
 request, verdict and lost lease, with the sandbox, the generation and the observation
 they happened with, and nothing else.
 */
module OperationRecords {
  import opened Basics
  import opened EventFold
  import Events = EventLedger
  import LedgerAnswers
  import opened OperationLog
  import opened OperationInvariant
  import opened OperationLands
  import opened OperationFates

  /** An event of the control plane about sandbox s at generation g. */
  predicate ControlPlane(x: Event, s: string, g: nat, kind: EventType) {
    && x.resource == ResourceKey("sandbox", s) && x.source == "control-plane" && x.generation == Some(g)
    && x.kind == kind && x.quantity == map[]
  }

  /** Operation o reported k. */
  predicate OpRecorded(t: Table, x: Event, o: nat, k: EventType) {
    o in t.ops && k in t.ops[o].events && ControlPlane(x, t.ops[o].sandbox, t.ops[o].generation, k) && x.lastObserved.Unstated?
  }

  /** Command m declared the sandbox lost, at that generation and with that observation. */
  ghost predicate LostAt(cs: seq<Command>, m: int, s: string, x: Event) {
    && 0 <= m < |cs| && cs[m].DoMarkLost? && cs[m].sandbox == s
    && s in After(cs[..m]).table.sandboxes && After(cs[..m]).table.sandboxes[s].observed != Destroyed
    && ControlPlane(x, s, After(cs[..m]).table.sandboxes[s].generation, LeaseExpired)
    && x.lastObserved == if cs[m].lastObserved.Some? then At(cs[m].lastObserved.value) else Unknown
  }

  ghost predicate Rightly(cs: seq<Command>, t: Table, x: Event) {
    match x.id
    case OperationEvent(o, k) => OpRecorded(t, x, o, k)
    case LeaseEvent(s, _) => exists m :: LostAt(cs, m, s, x)
    case Named(_) => false
  }

  lemma RightlyLater(cs: seq<Command>, c: Command, t: Table, t': Table, x: Event)
    requires Rightly(cs, t, x)
    requires forall o :: o in t.ops ==> o in t'.ops && SameIdentity(t.ops[o], t'.ops[o]) && t.ops[o].events <= t'.ops[o].events
    ensures Rightly(cs + [c], t', x)
  {
    hide After;
    match x.id
    case OperationEvent(o, k) => assert t.ops[o].events <= t'.ops[o].events;
    case LeaseEvent(s, _) =>
      var m :| LostAt(cs, m, s, x);
      assert (cs + [c])[..m] == cs[..m] && (cs + [c])[m] == cs[m];
      assert LostAt(cs + [c], m, s, x);
    case Named(_) =>
  }

  lemma RowsGrow(log: Log, c: Command, o: nat)
    requires Inv(log) && o in log.table.ops
    ensures o in Step(log, c).table.ops
    ensures SameIdentity(log.table.ops[o], Step(log, c).table.ops[o]) && log.table.ops[o].events <= Step(log, c).table.ops[o].events
  {
    hide Step, Inv, Timeless;
    RowFollows(log, c, o);
    PendingRows(log);
    var row, op := RowAfter(log, c, o), Step(log, c).table.ops[o];
    TimelessIs(op);
    TimelessIs(row);
  }

  lemma TimelessIs(op: Operation)
    ensures Timeless(op).events == op.events && SameIdentity(Timeless(op), op)
  {
  }

  // ------------------------------------------- what a command appends

  lemma AppendsOne(l: Events.Ledger, e: Event)
    requires Events.Sound(l) && Events.ListedIn(l.book.events, l.book.byEventId)
    requires e.id !in l.book.byEventId && Events.KeyOf(e) !in l.book.bySourceKey && e.ledgerSeq.None?
    ensures Events.Append(l, e).0.book.events == l.book.events + [Events.Stamped(l.book, e, l.clock)]
  {
    hide Events.Append, Events.Sound, Events.ListedIn, Events.KeyOf, Events.Stamped;
    AppendExtends(l, e);
    LedgerAnswers.AppendStores(l, e);
  }

  lemma EmitAppends(log: Log, o: nat, kind: EventType, outbox: bool)
    requires TrailOk(log.ledger, log.table, log.seqNo, log.sourceSeq)
    requires o in log.table.ops && kind !in log.table.ops[o].events
    ensures Emit(log, o, kind, outbox).ledger.book.events ==
            log.ledger.book.events + [Events.Stamped(log.ledger.book, OpEvent(log, o, log.table.ops[o], kind), log.ledger.clock)]
  {
    var op := log.table.ops[o];
    var e := OpEvent(log, o, op, kind);
    ControlEventFresh(log, e.id, op.sandbox, op.generation, kind, Unstated);
    assert !IdKnown(log.table, log.seqNo, e.id);
    AppendsOne(log.ledger, e);
    hide Events.Append, Events.Stamped, TrailOk;
    CommitBook(log.ledger, e, Events.Notice(kind, o, op.sandbox));
  }

  lemma CommitBook(l: Events.Ledger, e: Event, notice: Events.Notice)
    ensures Events.Commit(l, e, notice).0.book == Events.Append(l, e).0.book
  {
    hide Events.Append;
  }

  lemma EmittedIs(log: Log, o: nat, kind: EventType)
    requires o in log.table.ops
    ensures var op := log.table.ops[o]; var x := Events.Stamped(log.ledger.book, OpEvent(log, o, op, kind), log.ledger.clock);
            x.id == OperationEvent(o, kind) && ControlPlane(x, op.sandbox, op.generation, kind) && x.lastObserved.Unstated?
  {
  }

  /** The ledger took nothing, or one event. */
  ghost predicate Took(log: Log, next: Log, x: Event) {
    next.ledger.book.events == log.ledger.book.events || next.ledger.book.events == log.ledger.book.events + [x]
  }

  lemma ReportTakes(log: Log, o: nat) returns (x: Event)
    requires Inv(log)
    ensures Took(log, EmitTerminal(log, o).0, x)
    ensures EmitTerminal(log, o).0.ledger.book.events != log.ledger.book.events ==>
              exists k :: x.id == OperationEvent(o, k) && OpRecorded(EmitTerminal(log, o).0.table, x, o, k)
  {
    if o in log.table.ops && Terminal(log.table.ops[o].state) && TerminalEvent(log.table.ops[o].state) !in log.table.ops[o].events {
      var kind := TerminalEvent(log.table.ops[o].state);
      x := Events.Stamped(log.ledger.book, OpEvent(log, o, log.table.ops[o], kind), log.ledger.clock);
      EmitAppends(log, o, kind, true);
      EmitShape(log, o, kind, true);
      EmittedIs(log, o, kind);
      hide Emit, Inv, Events.Stamped;
      assert kind in EmitTerminal(log, o).0.table.ops[o].events;
      assert OpRecorded(EmitTerminal(log, o).0.table, x, o, kind);
    } else {
      x := OpEvent(log, o, Operation("", SuspendOp, Requested, 0, 0, None, None, [], [], 0, 0), OperationRequested);
    }
  }

  lemma ReconciledTakes(log: Log, s: string) returns (x: Event)
    requires Inv(log)
    ensures Took(log, MarkReconciled(log, s).0, x)
    ensures MarkReconciled(log, s).0.ledger.book.events != log.ledger.book.events ==>
              exists o, k :: x.id == OperationEvent(o, k) && OpRecorded(MarkReconciled(log, s).0.table, x, o, k)
  {
    hide Inv, EmitTerminal, MarkReconciled, OpRecorded, PutOp, PutBox;
    x := OpEvent(log, 0, Operation("", SuspendOp, Requested, 0, 0, None, None, [], [], 0, 0), OperationRequested);
    if s in log.table.sandboxes && log.table.sandboxes[s].pending.Some? {
      var sb, o := log.table.sandboxes[s], log.table.sandboxes[s].pending.value;
      ReconciledAsConcluded(log, s);
      PendingKnown(log, s);
      var log1 := Tick(log);
      AsideInv(log, log1);
      var op' := log.table.ops[o].(state := Failed, error := Some(LOST_RECONCILED), updatedAt := log1.clock);
      var sb' := sb.(reconciled := true, pending := None, version := sb.version + 1);
      ConcludeInv(log1, o, op', sb');
      PutsKeepLedger(log1, o, op', s, sb');
      x := ReportTakes(PutBox(PutOp(log1, o, op'), s, sb'), o);
    } else {
      FreeTakesNothing(log, s);
    }
  }

  lemma PutsKeepLedger(log: Log, o: nat, op: Operation, s: string, sb: Sandbox)
    ensures PutBox(PutOp(log, o, op), s, sb).ledger == log.ledger
  {
  }

  lemma FreeTakesNothing(log: Log, s: string)
    requires s in log.table.sandboxes ==> log.table.sandboxes[s].pending.None?
    ensures MarkReconciled(log, s).0.ledger == log.ledger
  {
  }

  lemma LostTakes(log: Log, s: string, last: Option<int>) returns (x: Event)
    requires Inv(log)
    ensures var next := MarkLost(log, s, last).0;
            if s in log.table.sandboxes && log.table.sandboxes[s].observed != Destroyed then
              && next.ledger.book.events == log.ledger.book.events + [x]
              && x.id.LeaseEvent? && x.id.sandbox == s && ControlPlane(x, s, log.table.sandboxes[s].generation, LeaseExpired)
              && x.lastObserved == if last.Some? then At(last.value) else Unknown
            else next.ledger == log.ledger
  {
    hide *;
    var lost := if last.Some? then At(last.value) else Unknown;
    var g := if s in log.table.sandboxes then log.table.sandboxes[s].generation else 0;
    var e := ControlEvent(log, LeaseEvent(s, log.seqNo + 1), s, g, LeaseExpired, lost);
    LeaseFresh(log, s, g, lost);
    AppendsOne(log.ledger, e);
    LeaseIs(log, s, g, lost);
    LostLedger(log, s, last);
    x := Events.Stamped(log.ledger.book, e, log.ledger.clock);
  }

  lemma LeaseFresh(log: Log, s: string, g: nat, lost: Observed)
    requires Inv(log)
    ensures var l, e := log.ledger, ControlEvent(log, LeaseEvent(s, log.seqNo + 1), s, g, LeaseExpired, lost);
            && Events.Sound(l) && Events.ListedIn(l.book.events, l.book.byEventId)
            && e.id !in l.book.byEventId && Events.KeyOf(e) !in l.book.bySourceKey && e.ledgerSeq.None?
  {
    hide TableOk, RowsOk, Events.Sound, Events.ListedIn;
    var e := ControlEvent(log, LeaseEvent(s, log.seqNo + 1), s, g, LeaseExpired, lost);
    ControlEventFresh(log, e.id, s, g, LeaseExpired, lost);
    assert !IdKnown(log.table, log.seqNo, e.id);
  }

  lemma LeaseIs(log: Log, s: string, g: nat, lost: Observed)
    ensures var e := ControlEvent(log, LeaseEvent(s, log.seqNo + 1), s, g, LeaseExpired, lost);
            var x := Events.Stamped(log.ledger.book, e, log.ledger.clock);
            x.id == LeaseEvent(s, log.seqNo + 1) && ControlPlane(x, s, g, LeaseExpired) && x.lastObserved == lost
  {
  }

  lemma LostLedger(log: Log, s: string, last: Option<int>)
    ensures MarkLost(log, s, last).0.ledger ==
            if s in log.table.sandboxes && log.table.sandboxes[s].observed != Destroyed then
              Events.Append(log.ledger, ControlEvent(log, LeaseEvent(s, log.seqNo + 1), s, log.table.sandboxes[s].generation, LeaseExpired,
                                                     if last.Some? then At(last.value) else Unknown)).0
            else log.ledger
  {
    hide Events.Append;
  }

  lemma AdmitTakes(log: Log, s: string, kind: OpType, key: Option<string>) returns (x: Event)
    requires Inv(log) && s in log.table.sandboxes && log.table.sandboxes[s].pending.None?
    requires Accept(log.table.sandboxes[s], kind).Some?
    ensures var next := Admit(log, s, kind, key, log.table.sandboxes[s].version, Accept(log.table.sandboxes[s], kind).value);
            && next.ledger.book.events == log.ledger.book.events + [x]
            && x.id == OperationEvent(log.seqNo + 1, OperationRequested)
            && OpRecorded(next.table, x, log.seqNo + 1, OperationRequested)
  {
    hide Inv, TrailOk, Emit, Accept, Events.Stamped, OpRecorded, ControlPlane;
    var o, sb := log.seqNo + 1, log.table.sandboxes[s];
    var a := Accept(sb, kind).value;
    FreshNumber(log);
    var log1 := Tick(log.(seqNo := o));
    LaterTrail(log, o);
    var op := Operation(s, kind, Requested, sb.version, a.generation, None, None, [], [], log1.clock, log1.clock);
    var log2 := log1.(table := Table(log.table.sandboxes[s := a.(pending := Some(o), version := a.version + 1)],
                                     log.table.ops[o := op], log.table.order + [o]));
    RowAddedTrail(log1, o, op, log2.table.sandboxes, log2.table.order);
    EmitAppends(log2, o, OperationRequested, false);
    EmitShape(log2, o, OperationRequested, false);
    EmittedIs(log2, o, OperationRequested);
    x := Events.Stamped(log2.ledger.book, OpEvent(log2, o, op, OperationRequested), log2.ledger.clock);
    RequestedIs(Emit(log2, o, OperationRequested, false).table, x, o, op);
  }

  lemma RequestedIs(t: Table, x: Event, o: nat, op: Operation)
    requires o in t.ops && t.ops[o] == op.(events := op.events + [OperationRequested])
    requires ControlPlane(x, op.sandbox, op.generation, OperationRequested) && x.lastObserved.Unstated?
    ensures OpRecorded(t, x, o, OperationRequested)
  {
    assert (op.events + [OperationRequested])[|op.events|] == OperationRequested;
  }

  lemma RequestTakes(log: Log, s: string, kind: OpType, key: Option<string>, expected: Option<nat>) returns (x: Event)
    requires Inv(log)
    ensures var (next, reply) := Request(log, s, kind, key, expected);
            && Took(log, next, x)
            && (next.ledger.book.events != log.ledger.book.events ==>
                  x.id == OperationEvent(log.seqNo + 1, OperationRequested) && OpRecorded(next.table, x, log.seqNo + 1, OperationRequested))
  {
    hide Admit, Accept, OpRecorded, LastDestroy;
    if Request(log, s, kind, key, expected).1.Accepted? {
      assert log.table.sandboxes[s].pending.None? by {
        if log.table.sandboxes[s].pending.Some? { PendingKnown(log, s); }
      }
      hide Inv;
      x := AdmitTakes(log, s, kind, key);
    } else {
      x := OpEvent(log, 0, Operation("", kind, Requested, 0, 0, None, None, [], [], 0, 0), OperationRequested);
      hide Inv;
    }
  }

  lemma OthersTakeNothing(log: Log, c: Command)
    requires !c.DoRequest? && !c.DoMarkLost? && !c.DoMarkReconciled? && !c.DoEmit?
    ensures Step(log, c).ledger == log.ledger
  {
    hide Padded;
  }

  /** What a command adds to the ledger is what it does. */
  lemma StepTakes(cs: seq<Command>, c: Command) returns (x: Event)
    requires Inv(After(cs)) && After(cs + [c]) == Step(After(cs), c)
    ensures Took(After(cs), After(cs + [c]), x)
    ensures After(cs + [c]).ledger.book.events != After(cs).ledger.book.events ==> Rightly(cs + [c], After(cs + [c]).table, x)
  {
    hide After, Inv, Request, MarkReconciled, EmitTerminal, OpRecorded, ControlPlane;
    var log := After(cs);
    assert (cs + [c])[..|cs|] == cs && (cs + [c])[|cs|] == c;
    match c
    case DoRequest(s, kind, key, expected) => x := RequestTakes(log, s, kind, key, expected);
    case DoMarkReconciled(s) => x := ReconciledTakes(log, s);
    case DoEmit(o) => x := ReportTakes(log, o);
    case DoMarkLost(s, last) =>
      x := LostTakes(log, s, last);
      hide MarkLost;
      if s in log.table.sandboxes && log.table.sandboxes[s].observed != Destroyed { assert LostAt(cs + [c], |cs|, s, x); }
    case _ =>
      OthersTakeNothing(log, c);
      hide Step;
      x := ControlEvent(log, Named(""), "", 0, LeaseExpired, Unknown);
  }

  /**
   After every run each event in the ledger is the report of an operation that has it on
   its row, or the expiry of a lease some command declared lost, with the sandbox, the
   generation and the observation of that moment.
   */
  lemma {:induction false} EventsAreRight(cs: seq<Command>, i: nat)
    requires i < |After(cs).ledger.book.events|
    ensures Rightly(cs, After(cs).table, After(cs).ledger.book.events[i])
  {
    hide After, Step, Inv, Rightly;
    if cs == [] {
      NothingYet();
    } else {
      var n := |cs| - 1;
      var front, c := cs[..n], cs[n];
      AfterNext(cs, n);
      assert cs[..n + 1] == cs && cs == front + [c];
      var x := StepTakes(front, c);
      if i < |After(front).ledger.book.events| {
        EventsAreRight(front, i);
        forall o | o in After(front).table.ops
          ensures o in After(cs).table.ops && SameIdentity(After(front).table.ops[o], After(cs).table.ops[o])
                  && After(front).table.ops[o].events <= After(cs).table.ops[o].events
        {
          RowsGrow(After(front), c, o);
        }
        RightlyLater(front, c, After(front).table, After(cs).table, After(front).ledger.book.events[i]);
      }
    }
  }

  lemma NothingYet()
    ensures After([]).ledger.book.events == []
  {
  }

  /** And every report on a row is in the ledger, a verdict with its entry in the outbox. */
  lemma ReportsAreRecorded(cs: seq<Command>, o: nat, k: EventType)
    requires o in After(cs).table.ops && k in After(cs).table.ops[o].events
    ensures var events := After(cs).ledger.book.events;
            exists i :: 0 <= i < |events| && events[i].id == OperationEvent(o, k) && OpRecorded(After(cs).table, events[i], o, k)
    ensures !k.OperationRequested? ==> OperationEvent(o, k) in After(cs).ledger.outboxByEvent
  {
    AfterIs(cs);
    var l := After(cs).ledger;
    var id := OperationEvent(o, k);
    assert id in l.book.byEventId && l.book.byEventId[id] in l.book.events;
    var i :| 0 <= i < |l.book.events| && l.book.events[i] == l.book.byEventId[id];
    EventsAreRight(cs, i);
    hide After, Inv, OpRecorded;
  }

  /** Every loss that was declared is in the ledger. */
  lemma LossesAreRecorded(cs: seq<Command>, n: nat)
    requires n < |cs| && cs[n].DoMarkLost? && cs[n].sandbox in After(cs[..n]).table.sandboxes
    requires After(cs[..n]).table.sandboxes[cs[n].sandbox].observed != Destroyed
    ensures var events, s := After(cs).ledger.book.events, cs[n].sandbox;
            exists i :: 0 <= i < |events| && ControlPlane(events[i], s, After(cs[..n]).table.sandboxes[s].generation, LeaseExpired)
                        && events[i].lastObserved == if cs[n].lastObserved.Some? then At(cs[n].lastObserved.value) else Unknown
  {
    hide After, Step, Inv, ControlPlane, MarkLost;
    AfterNext(cs, n);
    var log := After(cs[..n]);
    LostIsStep(log, cs[n]);
    var x := LostTakes(log, cs[n].sandbox, cs[n].lastObserved);
    EventsStay(cs, n + 1);
    assert After(cs[..n + 1]).ledger.book.events[|log.ledger.book.events|] == x;
    assert After(cs).ledger.book.events[|log.ledger.book.events|] == x;
  }

  lemma LostIsStep(log: Log, c: Command)
    requires c.DoMarkLost?
    ensures Step(log, c) == MarkLost(log, c.sandbox, c.lastObserved).0
  {
    hide MarkLost;
  }

  lemma {:induction false} EventsStay(cs: seq<Command>, n: nat)
    requires n <= |cs|
    ensures After(cs[..n]).ledger.book.events <= After(cs).ledger.book.events
    decreases |cs| - n
  {
    hide After, Step, Inv, Rightly;
    if n == |cs| {
      assert cs[..n] == cs;
    } else {
      AfterNext(cs, n);
      assert cs[..n + 1] == cs[..n] + [cs[n]];
      var x := StepTakes(cs[..n], cs[n]);
      EventsStay(cs, n + 1);
    }
  }
}
