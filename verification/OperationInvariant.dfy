/**
 What every command keeps: one serialized operation sequence per sandbox, with the
 pending mark, the generations and the versions in step, and a ledger that carries
 exactly the events the operation rows say they emitted.
 */
module OperationInvariant {
  import opened Basics
  import opened EventFold
  import Events = EventLedger
  import opened OperationLog

  // ------------------------------------------------------------------ the table

  /** Acceptance order lists every operation once, by rising id. */
  ghost predicate Ordered(t: Table, last: nat) {
    && (forall i :: 0 <= i < |t.order| ==> 0 < t.order[i] <= last && t.order[i] in t.ops)
    && (forall i, j :: 0 <= i < j < |t.order| ==> t.order[i] < t.order[j])
    && (forall o :: o in t.ops ==> o in t.order)
  }

  ghost predicate Housed(t: Table) {
    forall o :: o in t.ops ==> t.ops[o].sandbox in t.sandboxes
  }

  /**
   A sandbox has at most one operation that is not terminal; it is exactly the one
   marked pending, and it carries the current generation.
   */
  ghost predicate Serialized(t: Table)
    requires Housed(t)
  {
    && (forall s :: s in t.sandboxes && t.sandboxes[s].pending.Some? ==>
          var o := t.sandboxes[s].pending.value;
          o in t.ops && t.ops[o].sandbox == s && !Terminal(t.ops[o].state))
    && (forall o :: o in t.ops && !Terminal(t.ops[o].state) ==>
          t.sandboxes[t.ops[o].sandbox].pending == Some(o) &&
          t.ops[o].generation == t.sandboxes[t.ops[o].sandbox].generation)
  }

  /** The latest operation of a sandbox within an acceptance order. */
  function Latest(ops: map<nat, Operation>, order: seq<nat>, s: string): (r: Option<nat>)
    ensures r.Some? ==> r.value in order && r.value in ops && ops[r.value].sandbox == s
  {
    if order == [] then None
    else
      var o := order[|order| - 1];
      if o in ops && ops[o].sandbox == s then Some(o) else Latest(ops, order[..|order| - 1], s)
  }

  /** `later` comes right after `earlier` in one sandbox's sequence. */
  predicate Succeeds(earlier: Operation, later: Operation) {
    && earlier.expected < later.expected
    && later.generation == earlier.generation + (if later.kind.ResumeOp? then 1 else 0)
  }

  ghost predicate InStep(t: Table, s: string)
    requires s in t.sandboxes
  {
    var o := Latest(t.ops, t.order, s);
    o.Some? ==> t.sandboxes[s].generation == t.ops[o.value].generation && t.ops[o.value].expected < t.sandboxes[s].version
  }

  ghost predicate Chained(t: Table, j: nat)
    requires j < |t.order|
  {
    t.order[j] in t.ops &&
    (var op := t.ops[t.order[j]];
     var p := Latest(t.ops, t.order[..j], op.sandbox);
     p.Some? ==> Succeeds(t.ops[p.value], op))
  }

  ghost predicate Sequenced(t: Table) {
    && (forall s :: s in t.sandboxes ==> InStep(t, s))
    && (forall j :: 0 <= j < |t.order| ==> Chained(t, j))
  }

  ghost predicate TableOk(t: Table, last: nat) {
    Ordered(t, last) && Housed(t) && Serialized(t) && Sequenced(t)
  }

  // ------------------------------------------------------------------ the trail

  /** A row has reported its request, and its verdict at most once, and only a verdict it holds. */
  predicate Reported(op: Operation) {
    op.events == [OperationRequested] ||
    (Terminal(op.state) && op.events == [OperationRequested, TerminalEvent(op.state)])
  }

  predicate IdKnown(t: Table, last: nat, id: EventId) {
    match id
    case Named(_) => false
    case OperationEvent(o, k) => o in t.ops && k in t.ops[o].events
    case LeaseEvent(_, n) => n <= last
  }

  ghost predicate TrailOk(l: Events.Ledger, t: Table, last: nat, sourceSeq: nat) {
    && Events.Sound(l)
    && Events.ListedIn(l.book.events, l.book.byEventId)
    && (forall id :: id in l.book.byEventId ==> IdKnown(t, last, id))
    && (forall k :: k in l.book.bySourceKey ==> k.sourceSeq <= sourceSeq)
  }

  ghost predicate RowsOk(l: Events.Ledger, t: Table) {
    && (forall o :: o in t.ops ==> Reported(t.ops[o]))
    && (forall o, k :: o in t.ops && k in t.ops[o].events ==> OperationEvent(o, k) in l.book.byEventId)
    && (forall o, k :: o in t.ops && k in t.ops[o].events && k != OperationRequested ==> OperationEvent(o, k) in l.outboxByEvent)
  }

  ghost predicate Inv(log: Log) {
    && TableOk(log.table, log.seqNo)
    && TrailOk(log.ledger, log.table, log.seqNo, log.sourceSeq)
    && RowsOk(log.ledger, log.table)
  }

  // ------------------------------------------------------- updates of the table

  /** Everything about a row that fencing and ordering depend on. */
  predicate SameIdentity(a: Operation, b: Operation) {
    a.sandbox == b.sandbox && a.kind == b.kind && a.expected == b.expected && a.generation == b.generation
  }

  lemma {:induction false} LatestSame(ops: map<nat, Operation>, ops': map<nat, Operation>, order: seq<nat>, s: string)
    requires forall o :: o in order ==> (o in ops <==> o in ops')
    requires forall o :: o in order && o in ops ==> ops[o].sandbox == ops'[o].sandbox
    ensures Latest(ops, order, s) == Latest(ops', order, s)
  {
    if order != [] { LatestSame(ops, ops', order[..|order| - 1], s); }
  }

  /** Rows may change anything but identity, sandboxes anything but generation, and versions may only rise. */
  ghost predicate Refreshed(t: Table, t': Table) {
    && t'.order == t.order && t'.ops.Keys == t.ops.Keys && t'.sandboxes.Keys == t.sandboxes.Keys
    && (forall o :: o in t.ops ==> SameIdentity(t.ops[o], t'.ops[o]))
    && (forall s :: s in t.sandboxes ==>
          t'.sandboxes[s].generation == t.sandboxes[s].generation && t'.sandboxes[s].version >= t.sandboxes[s].version)
  }

  lemma RefreshedSequenced(t: Table, t': Table)
    requires Sequenced(t) && Refreshed(t, t')
    ensures Sequenced(t')
  {
    forall s | s in t'.sandboxes ensures InStep(t', s) {
      LatestSame(t.ops, t'.ops, t.order, s);
      assert InStep(t, s);
    }
    forall j | 0 <= j < |t'.order| ensures Chained(t', j) {
      assert Chained(t, j);
      LatestSame(t.ops, t'.ops, t.order[..j], t.ops[t.order[j]].sandbox);
    }
  }

  /** A row changes but keeps its identity and stays, or stays not, terminal. */
  lemma PutOpOk(t: Table, last: nat, o: nat, op: Operation)
    requires TableOk(t, last) && o in t.ops && SameIdentity(t.ops[o], op)
    requires Terminal(t.ops[o].state) <==> Terminal(op.state)
    ensures TableOk(t.(ops := t.ops[o := op]), last)
  {
    RefreshedSequenced(t, t.(ops := t.ops[o := op]));
    PutOpSerialized(t, o, op);
    hide Sequenced, Refreshed, Serialized;
  }

  lemma PutOpSerialized(t: Table, o: nat, op: Operation)
    requires Housed(t) && Serialized(t) && o in t.ops && SameIdentity(t.ops[o], op)
    requires Terminal(t.ops[o].state) <==> Terminal(op.state)
    ensures Housed(t.(ops := t.ops[o := op])) && Serialized(t.(ops := t.ops[o := op]))
  {
  }

  lemma PutBoxOk(t: Table, last: nat, s: string, sb: Sandbox)
    requires TableOk(t, last) && s in t.sandboxes
    requires sb.generation == t.sandboxes[s].generation && sb.version >= t.sandboxes[s].version
    requires sb.pending == t.sandboxes[s].pending
    ensures TableOk(t.(sandboxes := t.sandboxes[s := sb]), last)
  {
    RefreshedSequenced(t, t.(sandboxes := t.sandboxes[s := sb]));
    hide Sequenced, Refreshed;
  }

  /** The pending operation reaches its verdict and the sandbox is free again. */
  lemma ConcludeOk(t: Table, last: nat, o: nat, op: Operation, sb: Sandbox)
    requires TableOk(t, last) && o in t.ops && !Terminal(t.ops[o].state)
    requires SameIdentity(t.ops[o], op) && Terminal(op.state)
    requires sb.pending.None? && sb.generation == t.sandboxes[op.sandbox].generation
    requires sb.version >= t.sandboxes[op.sandbox].version
    ensures TableOk(Table(t.sandboxes[op.sandbox := sb], t.ops[o := op], t.order), last)
  {
    RefreshedSequenced(t, Table(t.sandboxes[op.sandbox := sb], t.ops[o := op], t.order));
    ConcludeSerialized(t, o, op, sb);
    hide Sequenced, Refreshed, Serialized;
  }

  lemma ConcludeSerialized(t: Table, o: nat, op: Operation, sb: Sandbox)
    requires Housed(t) && Serialized(t) && o in t.ops && !Terminal(t.ops[o].state)
    requires t.ops[o].sandbox == op.sandbox && Terminal(op.state)
    requires sb.pending.None? && sb.generation == t.sandboxes[op.sandbox].generation
    ensures var t' := Table(t.sandboxes[op.sandbox := sb], t.ops[o := op], t.order); Housed(t') && Serialized(t')
  {
  }

  lemma LatestSnoc(ops: map<nat, Operation>, order: seq<nat>, o: nat, s: string)
    ensures Latest(ops, order + [o], s) == if o in ops && ops[o].sandbox == s then Some(o) else Latest(ops, order, s)
  {
  }

  /** Acceptance appends a row that succeeds the sandbox's latest one. */
  lemma AdmitSequenced(t: Table, o: nat, op: Operation, sb: Sandbox)
    requires Sequenced(t) && op.sandbox in t.sandboxes && o !in t.ops && (forall p :: p in t.order ==> p in t.ops)
    requires op.expected == t.sandboxes[op.sandbox].version
    requires op.generation == t.sandboxes[op.sandbox].generation + (if op.kind.ResumeOp? then 1 else 0)
    requires sb.generation == op.generation && sb.version == t.sandboxes[op.sandbox].version + 1
    ensures Sequenced(Table(t.sandboxes[op.sandbox := sb], t.ops[o := op], t.order + [o]))
  {
    var t' := Table(t.sandboxes[op.sandbox := sb], t.ops[o := op], t.order + [o]);
    forall s | s in t'.sandboxes ensures InStep(t', s) {
      LatestSnoc(t'.ops, t.order, o, s);
      if s != op.sandbox {
        LatestSame(t.ops, t'.ops, t.order, s);
        assert InStep(t, s);
      }
    }
    forall j | 0 <= j < |t'.order| ensures Chained(t', j) {
      var s := t'.ops[t'.order[j]].sandbox;
      assert t'.order[..j] == t.order[..j];
      LatestSame(t.ops, t'.ops, t.order[..j], s);
      if j < |t.order| {
        assert Chained(t, j);
      } else {
        assert t.order[..j] == t.order;
        assert InStep(t, s);
      }
    }
  }

  lemma AdmitOk(t: Table, last: nat, o: nat, op: Operation, sb: Sandbox)
    requires TableOk(t, last) && op.sandbox in t.sandboxes && o > last && !Terminal(op.state)
    requires t.sandboxes[op.sandbox].pending.None? && sb.pending == Some(o)
    requires op.expected == t.sandboxes[op.sandbox].version
    requires op.generation == t.sandboxes[op.sandbox].generation + (if op.kind.ResumeOp? then 1 else 0)
    requires sb.generation == op.generation && sb.version == t.sandboxes[op.sandbox].version + 1
    ensures TableOk(Table(t.sandboxes[op.sandbox := sb], t.ops[o := op], t.order + [o]), o)
  {
    var t' := Table(t.sandboxes[op.sandbox := sb], t.ops[o := op], t.order + [o]);
    AdmitSequenced(t, o, op, sb);
    hide Sequenced;
    forall p | p in t'.ops ensures p in t'.order {
      if p == o { assert t'.order[|t.order|] == o; } else { assert p in t.order; }
    }
    forall p | p in t.ops && !Terminal(t.ops[p].state) ensures t.ops[p].sandbox != op.sandbox {
    }
  }

  /** A new sandbox has no operations yet. */
  lemma CreateOk(t: Table, last: nat, s: string, sb: Sandbox)
    requires TableOk(t, last) && s !in t.sandboxes && sb.pending.None?
    ensures TableOk(t.(sandboxes := t.sandboxes[s := sb]), last)
  {
    var t' := t.(sandboxes := t.sandboxes[s := sb]);
    forall x | x in t'.sandboxes ensures InStep(t', x) {
      if x == s {
        assert Latest(t'.ops, t'.order, s).None?;
      } else {
        assert InStep(t, x);
      }
    }
    forall j | 0 <= j < |t'.order| ensures Chained(t', j) {
      assert Chained(t, j);
    }
  }

  lemma LaterOk(t: Table, last: nat, last': nat)
    requires TableOk(t, last) && last <= last'
    ensures TableOk(t, last')
  {
  }

  // ------------------------------------------------------------------- emission

  /** The ledger took one new event. */
  ghost predicate Extends(l: Events.Ledger, l': Events.Ledger, e: Event) {
    && l'.book.byEventId.Keys == l.book.byEventId.Keys + {e.id}
    && l'.book.bySourceKey.Keys == l.book.bySourceKey.Keys + {Events.KeyOf(e)}
    && l.outboxByEvent.Keys <= l'.outboxByEvent.Keys
    && |l'.book.events| == |l.book.events| + 1
    && Events.Sound(l')
    && Events.ListedIn(l'.book.events, l'.book.byEventId)
  }

  lemma AppendExtends(l: Events.Ledger, e: Event)
    requires Events.Sound(l) && Events.ListedIn(l.book.events, l.book.byEventId)
    requires e.id !in l.book.byEventId && Events.KeyOf(e) !in l.book.bySourceKey && e.ledgerSeq.None?
    ensures Extends(l, Events.Append(l, e).0, e)
    ensures Events.Append(l, e).1.Appended? && Events.Append(l, e).1.id == e.id
  {
    hide Project, Events.Sound, Events.ListedIn;
    Events.AppendSound(l, e);
    Events.AppendListed(l, e);
    var stamped := Events.Stamped(l.book, e, l.clock);
    assert stamped.id == e.id && Events.KeyOf(stamped) == Events.KeyOf(e);
  }

  lemma CommitExtends(l: Events.Ledger, e: Event, notice: Events.Notice)
    requires Events.Sound(l) && Events.ListedIn(l.book.events, l.book.byEventId)
    requires e.id !in l.book.byEventId && Events.KeyOf(e) !in l.book.bySourceKey && e.ledgerSeq.None?
    ensures Extends(l, Events.Commit(l, e, notice).0, e)
    ensures e.id in Events.Commit(l, e, notice).0.outboxByEvent
  {
    hide Events.Append, Events.Sound, Events.ListedIn;
    AppendExtends(l, e);
    Events.CommitSound(l, e, notice);
  }

  /** A control-plane event is new to the ledger: fresh source number, fresh id. */
  lemma ControlEventFresh(log: Log, id: EventId, s: string, g: nat, kind: EventType, lost: Observed)
    requires TrailOk(log.ledger, log.table, log.seqNo, log.sourceSeq)
    ensures Events.KeyOf(ControlEvent(log, id, s, g, kind, lost)) !in log.ledger.book.bySourceKey
  {
  }

  lemma EmitExtends(log: Log, o: nat, kind: EventType, outbox: bool)
    requires TrailOk(log.ledger, log.table, log.seqNo, log.sourceSeq)
    requires o in log.table.ops && kind !in log.table.ops[o].events
    ensures Extends(log.ledger, Emit(log, o, kind, outbox).ledger, OpEvent(log, o, log.table.ops[o], kind))
    ensures outbox ==> OperationEvent(o, kind) in Emit(log, o, kind, outbox).ledger.outboxByEvent
  {
    var op := log.table.ops[o];
    var e := OpEvent(log, o, op, kind);
    ControlEventFresh(log, e.id, op.sandbox, op.generation, kind, Unstated);
    assert !IdKnown(log.table, log.seqNo, e.id);
    AppendExtends(log.ledger, e);
    CommitExtends(log.ledger, e, Events.Notice(kind, o, op.sandbox));
  }

  /** The trail and the rows after one more event of row o. */
  lemma EmittedOk(l: Events.Ledger, l': Events.Ledger, t: Table, last: nat, n: nat, o: nat, kind: EventType, e: Event)
    requires TrailOk(l, t, last, n) && Extends(l, l', e)
    requires o in t.ops && e.id == OperationEvent(o, kind) && e.sourceSeq == n + 1
    ensures TrailOk(l', t.(ops := t.ops[o := t.ops[o].(events := t.ops[o].events + [kind])]), last, n + 1)
  {
    hide Events.Sound, Events.ListedIn;
    var t' := t.(ops := t.ops[o := t.ops[o].(events := t.ops[o].events + [kind])]);
    forall id | id in l'.book.byEventId ensures IdKnown(t', last, id) {
      if id != e.id {
        assert id in l.book.byEventId && IdKnown(t, last, id);
      }
    }
  }

  lemma EmittedRowsOk(l: Events.Ledger, l': Events.Ledger, t: Table, o: nat, kind: EventType, e: Event)
    requires RowsOk(l, t) && Extends(l, l', e) && o in t.ops && e.id == OperationEvent(o, kind)
    requires kind != OperationRequested ==> e.id in l'.outboxByEvent
    requires Reported(t.ops[o].(events := t.ops[o].events + [kind]))
    ensures RowsOk(l', t.(ops := t.ops[o := t.ops[o].(events := t.ops[o].events + [kind])]))
  {
    hide Events.Sound, Events.ListedIn;
    var t' := t.(ops := t.ops[o := t.ops[o].(events := t.ops[o].events + [kind])]);
    forall p | p in t'.ops ensures Reported(t'.ops[p]) { assert p != o ==> t'.ops[p] == t.ops[p]; }
    hide Reported;
    forall p, k | p in t'.ops && k in t'.ops[p].events
      ensures OperationEvent(p, k) in l'.book.byEventId
      ensures k != OperationRequested ==> OperationEvent(p, k) in l'.outboxByEvent
    {
      if p == o && k == kind {
      } else {
        assert p in t.ops && k in t.ops[p].events;
        assert OperationEvent(p, k) in l.book.byEventId.Keys;
        assert k != OperationRequested ==> OperationEvent(p, k) in l.outboxByEvent.Keys;
      }
    }
  }

  /** What one emission changes in the log. */
  lemma EmitShape(log: Log, o: nat, kind: EventType, outbox: bool)
    requires o in log.table.ops
    ensures var next := Emit(log, o, kind, outbox); var op := log.table.ops[o];
            && next.table == log.table.(ops := log.table.ops[o := op.(events := op.events + [kind])])
            && next.seqNo == log.seqNo && next.sourceSeq == log.sourceSeq + 1
  {
  }

  lemma EmitTerminalInv(log: Log, o: nat)
    requires Inv(log)
    ensures Inv(EmitTerminal(log, o).0)
  {
    if o in log.table.ops && Terminal(log.table.ops[o].state) && TerminalEvent(log.table.ops[o].state) !in log.table.ops[o].events {
      ReportInv(log, o);
      hide Inv, Emit;
    } else {
      hide Inv, Emit;
    }
  }

  lemma ReportInv(log: Log, o: nat)
    requires Inv(log) && o in log.table.ops && Terminal(log.table.ops[o].state)
    requires TerminalEvent(log.table.ops[o].state) !in log.table.ops[o].events
    ensures Inv(Emit(log, o, TerminalEvent(log.table.ops[o].state), true))
  {
    hide Emit, Extends, TableOk, TrailOk;
    var op := log.table.ops[o];
    var kind := TerminalEvent(op.state);
    var log' := Emit(log, o, kind, true);
    assert op.events == [OperationRequested] by { assert Reported(op); }
    assert op.events + [kind] == [OperationRequested, kind];
    hide RowsOk;
    EmitShape(log, o, kind, true);
    EmitExtends(log, o, kind, true);
    var e := OpEvent(log, o, op, kind);
    EmittedOk(log.ledger, log'.ledger, log.table, log.seqNo, log.sourceSeq, o, kind, e);
    EmittedRowsOk(log.ledger, log'.ledger, log.table, o, kind, e);
    PutOpOk(log.table, log.seqNo, o, op.(events := op.events + [kind]));
  }

  /** Rows may change without touching the trail as long as their events stay. */
  lemma RowUpdateTrail(log: Log, o: nat, op: Operation)
    requires TrailOk(log.ledger, log.table, log.seqNo, log.sourceSeq) && RowsOk(log.ledger, log.table)
    requires o in log.table.ops && op.events == log.table.ops[o].events && Reported(op)
    ensures TrailOk(log.ledger, PutOp(log, o, op).table, log.seqNo, log.sourceSeq)
    ensures RowsOk(log.ledger, PutOp(log, o, op).table)
  {
    var t' := PutOp(log, o, op).table;
    forall id | id in log.ledger.book.byEventId ensures IdKnown(t', log.seqNo, id) {
      assert IdKnown(log.table, log.seqNo, id);
    }
  }

  lemma BoxUpdateTrail(log: Log, s: string, sb: Sandbox)
    requires TrailOk(log.ledger, log.table, log.seqNo, log.sourceSeq) && RowsOk(log.ledger, log.table)
    ensures TrailOk(log.ledger, PutBox(log, s, sb).table, log.seqNo, log.sourceSeq)
    ensures RowsOk(log.ledger, PutBox(log, s, sb).table)
  {
  }

  lemma PutOpInv(log: Log, o: nat, op: Operation)
    requires Inv(log) && o in log.table.ops && SameIdentity(log.table.ops[o], op)
    requires Terminal(op.state) <==> Terminal(log.table.ops[o].state)
    requires Terminal(op.state) ==> op.state == log.table.ops[o].state
    requires op.events == log.table.ops[o].events
    ensures Inv(PutOp(log, o, op))
  {
    PutOpOk(log.table, log.seqNo, o, op);
    RowUpdateTrail(log, o, op);
  }

  lemma PutBoxInv(log: Log, s: string, sb: Sandbox)
    requires Inv(log) && s in log.table.sandboxes
    requires sb.generation == log.table.sandboxes[s].generation && sb.version >= log.table.sandboxes[s].version
    requires sb.pending == log.table.sandboxes[s].pending
    ensures Inv(PutBox(log, s, sb))
  {
    PutBoxOk(log.table, log.seqNo, s, sb);
    BoxUpdateTrail(log, s, sb);
  }

  lemma ConcludeInv(log: Log, o: nat, op: Operation, sb: Sandbox)
    requires Inv(log) && o in log.table.ops && !Terminal(log.table.ops[o].state)
    requires SameIdentity(log.table.ops[o], op) && Terminal(op.state) && op.events == log.table.ops[o].events
    requires sb.pending.None? && sb.generation == log.table.sandboxes[op.sandbox].generation
    requires sb.version >= log.table.sandboxes[op.sandbox].version
    ensures Inv(PutBox(PutOp(log, o, op), op.sandbox, sb))
  {
    ConcludeOk(log.table, log.seqNo, o, op, sb);
    assert log.table.ops[o].events == [OperationRequested];
    RowUpdateTrail(log, o, op);
    BoxUpdateTrail(PutOp(log, o, op), op.sandbox, sb);
  }

  /** Clock, flags and idempotency tickets take no part in the invariant. */
  lemma AsideInv(log: Log, log': Log)
    requires Inv(log) && log'.ledger == log.ledger && log'.table == log.table
    requires log'.seqNo == log.seqNo && log'.sourceSeq == log.sourceSeq
    ensures Inv(log')
  {
  }

  // --------------------------------------------------------------- each command

  lemma DispatchInv(log: Log, o: nat)
    requires Inv(log)
    ensures Inv(Dispatch(log, o).0) && Inv(MarkTimeout(log, o).0)
  {
    hide Inv, PutOp;
    if o in log.table.ops {
      var op := log.table.ops[o];
      var log1 := Tick(log);
      AsideInv(log, log1);
      if StaleOp(log.table, o) {
        PutOpInv(log, o, op.(history := op.history + [StaleWrite(DispatchWrite, op.generation, None)]));
        PutOpInv(log, o, op.(history := op.history + [StaleWrite(TimeoutWrite, op.generation, None)]));
      } else if !Terminal(op.state) {
        PutOpInv(log1, o, op.(state := Dispatched, updatedAt := log1.clock));
        PutOpInv(log1, o, op.(state := Timeout, updatedAt := log1.clock));
      }
    }
  }

  lemma OutcomeInv(log: Log, o: nat, outcome: Outcome)
    requires Inv(log)
    ensures Inv(RuntimeOutcome(log, o, outcome).0)
  {
    if o in log.table.ops {
      var op := log.table.ops[o];
      var log1 := Tick(log);
      AsideInv(log, log1);
      if StaleOp(log.table, o) {
        PutOpInv(log, o, op.(history := op.history + [StaleWrite(OutcomeWrite, op.generation, Some(outcome))]));
      } else if Terminal(op.state) {
        PutOpInv(log, o, op.(history := op.history + [LateTerminal(outcome)]));
      } else {
        ConcludeInv(log1, o, Concluded(op, outcome).(updatedAt := log1.clock), Resolved(log.table.sandboxes[op.sandbox], outcome));
      }
    }
  }

  /** Reconciliation in two parts that keep the invariant: conclude the operation, then report it. */
  lemma ReconciledAsConcluded(log: Log, s: string)
    requires Inv(log) && s in log.table.sandboxes && log.table.sandboxes[s].pending.Some?
    ensures var sb := log.table.sandboxes[s];
            var o := sb.pending.value;
            var log1 := Tick(log);
            o in log.table.ops && !Terminal(log.table.ops[o].state) && log.table.ops[o].sandbox == s &&
            MarkReconciled(log, s).0 ==
              EmitTerminal(PutBox(PutOp(log1, o, log.table.ops[o].(state := Failed, error := Some(LOST_RECONCILED), updatedAt := log1.clock)),
                                  s, sb.(reconciled := true, pending := None, version := sb.version + 1)), o).0
  {
    hide Events.Commit, TrailOk, Ordered, Sequenced;
    var o := log.table.sandboxes[s].pending.value;
    assert log.table.ops[o].events == [OperationRequested];
  }

  lemma PendingKnown(log: Log, s: string)
    requires Inv(log) && s in log.table.sandboxes && log.table.sandboxes[s].pending.Some?
    ensures var o := log.table.sandboxes[s].pending.value;
            o in log.table.ops && !Terminal(log.table.ops[o].state) && log.table.ops[o].sandbox == s
  {
  }

  lemma ReconciledInv(log: Log, s: string)
    requires Inv(log)
    ensures Inv(MarkReconciled(log, s).0)
  {
    hide Inv, EmitTerminal;
    if s in log.table.sandboxes {
      var sb := log.table.sandboxes[s];
      var sb' := sb.(reconciled := true, pending := None, version := sb.version + 1);
      if sb.pending.Some? {
        PendingKnown(log, s);
        ReconciledAsConcluded(log, s);
        hide MarkReconciled;
        var o := sb.pending.value;
        var log1 := Tick(log);
        AsideInv(log, log1);
        var op' := log.table.ops[o].(state := Failed, error := Some(LOST_RECONCILED), updatedAt := log1.clock);
        ConcludeInv(log1, o, op', sb');
        EmitTerminalInv(PutBox(PutOp(log1, o, op'), s, sb'), o);
      } else {
        PutBoxInv(log, s, sb');
      }
    }
  }

  lemma EmitLeaseInv(log: Log, s: string, g: nat, lost: Observed)
    requires Inv(log)
    ensures Inv(EmitLease(log, s, g, lost))
  {
    hide TableOk, RowsOk, Events.Append;
    var n := log.seqNo + 1;
    var e := ControlEvent(log, LeaseEvent(s, n), s, g, LeaseExpired, lost);
    ControlEventFresh(log, e.id, s, g, LeaseExpired, lost);
    assert !IdKnown(log.table, log.seqNo, e.id);
    AppendExtends(log.ledger, e);
    LaterOk(log.table, log.seqNo, n);
    var log' := EmitLease(log, s, g, lost);
    forall id | id in log'.ledger.book.byEventId ensures IdKnown(log'.table, n, id) {
      if id != e.id { assert IdKnown(log.table, log.seqNo, id); }
    }
    LeaseRowsOk(log.ledger, log'.ledger, log.table, e);
  }

  lemma LeaseRowsOk(l: Events.Ledger, l': Events.Ledger, t: Table, e: Event)
    requires RowsOk(l, t) && Extends(l, l', e)
    ensures RowsOk(l', t)
  {
    forall o, k | o in t.ops && k in t.ops[o].events
      ensures OperationEvent(o, k) in l'.book.byEventId
      ensures k != OperationRequested ==> OperationEvent(o, k) in l'.outboxByEvent
    {
      assert OperationEvent(o, k) in l.book.byEventId.Keys;
      assert k != OperationRequested ==> OperationEvent(o, k) in l.outboxByEvent.Keys;
    }
  }

  lemma LostInv(log: Log, s: string, last: Option<int>)
    requires Inv(log)
    ensures Inv(MarkLost(log, s, last).0)
  {
    hide Inv, EmitLease;
    if s in log.table.sandboxes {
      var sb := log.table.sandboxes[s];
      var sb' := sb.(observed := Lost, uncertain := true, version := sb.version + 1);
      PutBoxInv(log, s, sb');
      EmitLeaseInv(PutBox(log, s, sb'), s, sb.generation, if last.Some? then At(last.value) else Unknown);
    }
  }

  lemma ApplyEventInv(log: Log, s: string, g: nat, observed: Option<BoxState>, evidence: string)
    requires Inv(log)
    ensures Inv(ApplyEvent(log, s, g, observed, evidence).0)
  {
    hide Inv;
    if s in log.table.sandboxes {
      var sb := log.table.sandboxes[s];
      if !GenerationOk(g, sb.generation) {
        PutBoxInv(log, s, sb.(history := sb.history + [LateEvent(g, observed, evidence)]));
      } else if observed.Some? {
        PutBoxInv(log, s, sb.(observed := observed.value,
                              uncertain := if observed.value.Suspend? || observed.value.Destroyed? then false else sb.uncertain,
                              version := sb.version + 1));
      }
    }
  }

  lemma NewBoxInv(log: Log, s: string, sb: Sandbox)
    requires Inv(log) && s !in log.table.sandboxes && sb.pending.None?
    ensures Inv(PutBox(log, s, sb))
  {
    CreateOk(log.table, log.seqNo, s, sb);
    BoxUpdateTrail(log, s, sb);
  }

  lemma LaterInv(log: Log, n: nat)
    requires Inv(log) && log.seqNo <= n
    ensures Inv(log.(seqNo := n))
  {
  }

  lemma CreateInv(log: Log, name: Option<string>, desired: BoxState, observed: BoxState, generation: nat)
    requires Inv(log)
    ensures Inv(CreateSandbox(log, name, desired, observed, generation).0)
  {
    hide Inv, NameFor;
    var n := log.seqNo + 1;
    var s := NameFor(name, n);
    LaterInv(log, n);
    if s !in log.table.sandboxes {
      var log2 := Tick(log.(seqNo := n));
      AsideInv(log.(seqNo := n), log2);
      NewBoxInv(log2, s, Sandbox(desired, observed, generation, 1, true, false, false, None, None, None, [], log2.clock));
    }
  }

  lemma LaterTrail(log: Log, n: nat)
    requires Inv(log) && log.seqNo <= n
    ensures TrailOk(log.ledger, log.table, n, log.sourceSeq)
  {
  }

  /** A row added without events leaves the trail alone. */
  lemma RowAddedTrail(log: Log, o: nat, op: Operation, boxes: map<string, Sandbox>, order: seq<nat>)
    requires TrailOk(log.ledger, log.table, log.seqNo, log.sourceSeq) && o !in log.table.ops
    ensures TrailOk(log.ledger, Table(boxes, log.table.ops[o := op], order), log.seqNo, log.sourceSeq)
  {
  }

  /** A request that is accepted finds its sandbox free, and continues its sequence. */
  lemma AcceptedShape(sb: Sandbox, kind: OpType)
    requires Accept(sb, kind).Some?
    ensures var a := Accept(sb, kind).value;
            a.version == sb.version && a.generation == sb.generation + (if kind.ResumeOp? then 1 else 0)
  {
  }

  lemma FreshNumber(log: Log)
    requires Inv(log)
    ensures log.seqNo + 1 !in log.table.ops
  {
  }

  lemma AdmitInv(log: Log, s: string, kind: OpType, key: Option<string>)
    requires Inv(log) && s in log.table.sandboxes && log.table.sandboxes[s].pending.None?
    requires Accept(log.table.sandboxes[s], kind).Some?
    ensures Inv(Admit(log, s, kind, key, log.table.sandboxes[s].version, Accept(log.table.sandboxes[s], kind).value))
  {
    hide TableOk, TrailOk, RowsOk, Emit, Accept;
    var o, sb := log.seqNo + 1, log.table.sandboxes[s];
    var a := Accept(sb, kind).value;
    AcceptedShape(sb, kind);
    FreshNumber(log);
    var log1 := Tick(log.(seqNo := o));
    LaterTrail(log, o);
    var op := Operation(s, kind, Requested, sb.version, a.generation, None, None, [], [], log1.clock, log1.clock);
    var box := a.(pending := Some(o), version := a.version + 1);
    var log2 := log1.(table := Table(log.table.sandboxes[s := box], log.table.ops[o := op], log.table.order + [o]));
    AdmitOk(log.table, log.seqNo, o, op, box);
    RowAddedTrail(log1, o, op, log2.table.sandboxes, log2.table.order);
    AdmittedEmits(log, log2, o, op);
  }

  /** The intention's own event completes the new row. */
  lemma AdmittedEmits(log: Log, log2: Log, o: nat, op: Operation)
    requires RowsOk(log.ledger, log.table) && log2.ledger == log.ledger && o !in log.table.ops && op.events == []
    requires log2.table.ops == log.table.ops[o := op]
    requires TableOk(log2.table, log2.seqNo) && TrailOk(log2.ledger, log2.table, log2.seqNo, log2.sourceSeq)
    ensures Inv(Emit(log2, o, OperationRequested, false))
  {
    hide TableOk, TrailOk, RowsOk, Emit, Extends;
    var e := OpEvent(log2, o, op, OperationRequested);
    var log3 := Emit(log2, o, OperationRequested, false);
    EmitShape(log2, o, OperationRequested, false);
    EmitExtends(log2, o, OperationRequested, false);
    EmittedOk(log2.ledger, log3.ledger, log2.table, log2.seqNo, log2.sourceSeq, o, OperationRequested, e);
    PutOpOk(log2.table, log2.seqNo, o, op.(events := [OperationRequested]));
    assert op.events + [OperationRequested] == [OperationRequested];
    FirstEventRowsOk(log.ledger, log3.ledger, log.table, log3.table, o, e);
  }

  lemma FirstEventRowsOk(l: Events.Ledger, l': Events.Ledger, t: Table, t': Table, o: nat, e: Event)
    requires RowsOk(l, t) && Extends(l, l', e) && e.id == OperationEvent(o, OperationRequested)
    requires o !in t.ops && t'.ops.Keys == t.ops.Keys + {o} && t'.ops[o].events == [OperationRequested]
    requires forall p :: p in t.ops ==> t'.ops[p] == t.ops[p]
    ensures RowsOk(l', t')
  {
    forall p | p in t'.ops ensures Reported(t'.ops[p]) {
      assert p != o ==> p in t.ops;
    }
    forall p, k | p in t'.ops && k in t'.ops[p].events
      ensures OperationEvent(p, k) in l'.book.byEventId
      ensures k != OperationRequested ==> OperationEvent(p, k) in l'.outboxByEvent
    {
      if p != o {
        assert p in t.ops;
        assert OperationEvent(p, k) in l.book.byEventId.Keys;
        assert k != OperationRequested ==> OperationEvent(p, k) in l.outboxByEvent.Keys;
      }
    }
  }

  lemma RequestInv(log: Log, s: string, kind: OpType, key: Option<string>, expected: Option<nat>)
    requires Inv(log)
    ensures Inv(Request(log, s, kind, key, expected).0)
  {
    if Request(log, s, kind, key, expected).1.Accepted? {
      var sb := log.table.sandboxes[s];
      assert sb.pending.None? by {
        if sb.pending.Some? { PendingKnown(log, s); }
      }
      AdmitInv(log, s, kind, key);
    }
  }

  lemma FlagsInv(log: Log, s: string, reason: string)
    requires Inv(log)
    ensures Inv(MarkUncertain(log, s, reason).0)
  {
    if s in log.table.sandboxes {
      var flagged := log.(flags := log.flags + [UncertainUsage(s, reason)]);
      AsideInv(log, flagged);
      PutBoxInv(flagged, s, log.table.sandboxes[s].(uncertain := true));
    }
    hide Inv;
  }

  lemma FlagUnknownInv(log: Log, instance: string)
    requires Inv(log)
    ensures Inv(FlagUnknown(log, instance).0)
  {
    AsideInv(log, FlagUnknown(log, instance).0);
  }

  /** Every command keeps the invariant ... */
  lemma StepInv(log: Log, c: Command)
    requires Inv(log)
    ensures Inv(Step(log, c))
  {
    hide Inv, CreateSandbox, MarkLost, MarkReconciled, MarkUncertain, FlagUnknown, Request;
    hide Dispatch, MarkTimeout, RuntimeOutcome, EmitTerminal, ApplyEvent;
    match c
    case DoCreate(name, desired, observed, generation) => CreateInv(log, name, desired, observed, generation);
    case DoMarkLost(s, last) => LostInv(log, s, last);
    case DoMarkReconciled(s) => ReconciledInv(log, s);
    case DoMarkUncertain(s, reason) => FlagsInv(log, s, reason);
    case DoFlagUnknown(instance) => FlagUnknownInv(log, instance);
    case DoRequest(s, kind, key, expected) => RequestInv(log, s, kind, key, expected);
    case DoDispatch(o) => DispatchInv(log, o);
    case DoTimeout(o) => DispatchInv(log, o);
    case DoOutcome(o, outcome) => OutcomeInv(log, o, outcome);
    case DoEmit(o) => EmitTerminalInv(log, o);
    case DoApplyEvent(s, g, observed, evidence) => ApplyEventInv(log, s, g, observed, evidence);
  }

  /** ... so every reachable log satisfies it. */
  lemma {:induction false} RunInv(log: Log, cs: seq<Command>)
    requires Inv(log)
    ensures Inv(Run(log, cs))
    decreases |cs|
  {
    if cs != [] {
      StepInv(log, cs[0]);
      RunInv(Step(log, cs[0]), cs[1..]);
    }
  }

  lemma EmptyInv()
    ensures Inv(EMPTY_LOG)
  {
  }
}
