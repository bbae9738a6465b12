/**
 What fencing buys.  Old-generation writes and late verdicts are audit history and
 nothing else: deleting them from a run leaves the same state.  A verdict, once
 reached, is final, released capacity stays released, and each sandbox's accepted
 versions and generations only move forward.
 */
module OperationFencing {
  import opened Basics
  import opened EventFold
  import Events = EventLedger
  import opened OperationLog
  import opened OperationInvariant

  // --------------------------------------------------------------------- erasure

  /** A submission that must not count: an old-generation write or event, or a late verdict. */
  predicate Fenced(log: Log, c: Command) {
    match c
    case DoDispatch(o) => o in log.table.ops && StaleOp(log.table, o)
    case DoTimeout(o) => o in log.table.ops && StaleOp(log.table, o)
    case DoOutcome(o, _) =>
      o in log.table.ops && log.table.ops[o].sandbox in log.table.sandboxes &&
      (StaleOp(log.table, o) || Terminal(log.table.ops[o].state))
    case DoApplyEvent(s, g, _, _) => s in log.table.sandboxes && !GenerationOk(g, log.table.sandboxes[s].generation)
    case _ => false
  }

  function BareOp(op: Operation): Operation { op.(history := []) }

  function BareBox(sb: Sandbox): Sandbox { sb.(history := []) }

  /** The log without its audit histories. */
  function Stripped(log: Log): Log {
    log.(table := Table(map s | s in log.table.sandboxes :: BareBox(log.table.sandboxes[s]),
                        map o | o in log.table.ops :: BareOp(log.table.ops[o]),
                        log.table.order))
  }

  /** Two logs that differ in audit histories only. */
  predicate Alike(a: Log, b: Log) {
    && a.(table := b.table) == b
    && a.table.order == b.table.order
    && a.table.sandboxes.Keys == b.table.sandboxes.Keys && a.table.ops.Keys == b.table.ops.Keys
    && (forall s :: s in a.table.sandboxes ==> BareBox(a.table.sandboxes[s]) == BareBox(b.table.sandboxes[s]))
    && (forall o :: o in a.table.ops ==> BareOp(a.table.ops[o]) == BareOp(b.table.ops[o]))
  }

  lemma AlikeIsStripped(a: Log, b: Log)
    ensures Alike(a, b) <==> Stripped(a) == Stripped(b)
  {
    if Stripped(a) == Stripped(b) {
      assert Stripped(a).table.sandboxes.Keys == a.table.sandboxes.Keys;
      assert Stripped(b).table.sandboxes.Keys == b.table.sandboxes.Keys;
      assert Stripped(a).table.ops.Keys == a.table.ops.Keys;
      assert Stripped(b).table.ops.Keys == b.table.ops.Keys;
      forall s | s in a.table.sandboxes ensures BareBox(a.table.sandboxes[s]) == BareBox(b.table.sandboxes[s]) {
        assert Stripped(a).table.sandboxes[s] == Stripped(b).table.sandboxes[s];
      }
      forall o | o in a.table.ops ensures BareOp(a.table.ops[o]) == BareOp(b.table.ops[o]) {
        assert Stripped(a).table.ops[o] == Stripped(b).table.ops[o];
      }
    }
  }

  /** What alike logs share. */
  lemma AlikeTop(a: Log, b: Log)
    requires Alike(a, b)
    ensures a.ledger == b.ledger && a.idempotency == b.idempotency && a.flags == b.flags
    ensures a.seqNo == b.seqNo && a.sourceSeq == b.sourceSeq && a.clock == b.clock
    ensures a.table.order == b.table.order
    ensures a.table.sandboxes.Keys == b.table.sandboxes.Keys && a.table.ops.Keys == b.table.ops.Keys
  {
  }

  /** The same change beside the table keeps logs alike. */
  lemma AsideAlike(a: Log, b: Log, a': Log, b': Log)
    requires Alike(a, b) && a'.table == a.table && b'.table == b.table && a'.(table := b'.table) == b'
    ensures Alike(a', b')
  {
  }

  lemma PutOpAlike(a: Log, b: Log, o: nat, x: Operation, y: Operation)
    requires Alike(a, b) && o in a.table.ops && BareOp(x) == BareOp(y)
    ensures Alike(PutOp(a, o, x), PutOp(b, o, y))
  {
  }

  lemma PutBoxAlike(a: Log, b: Log, s: string, x: Sandbox, y: Sandbox)
    requires Alike(a, b) && BareBox(x) == BareBox(y)
    ensures Alike(PutBox(a, s, x), PutBox(b, s, y))
  {
  }

  /** A fenced submission changes nothing but a history. */
  lemma FencedChangesNothing(log: Log, c: Command)
    requires Fenced(log, c)
    ensures Alike(Step(log, c), log)
  {
    match c
    case DoDispatch(o) => HistoryAlike(log, o, StaleWrite(DispatchWrite, log.table.ops[o].generation, None));
    case DoTimeout(o) => HistoryAlike(log, o, StaleWrite(TimeoutWrite, log.table.ops[o].generation, None));
    case DoOutcome(o, outcome) =>
      HistoryAlike(log, o, StaleWrite(OutcomeWrite, log.table.ops[o].generation, Some(outcome)));
      HistoryAlike(log, o, LateTerminal(outcome));
    case DoApplyEvent(s, g, observed, evidence) =>
  }

  lemma HistoryAlike(log: Log, o: nat, entry: HistoryEntry)
    requires o in log.table.ops
    ensures Alike(KeepAsHistory(log, o, entry), log)
  {
  }

  lemma AlikeBox(a: Log, b: Log, s: string)
    requires Alike(a, b) && s in a.table.sandboxes
    ensures var x, y := a.table.sandboxes[s], b.table.sandboxes[s]; y == x.(history := y.history)
  {
  }

  lemma AlikeOp(a: Log, b: Log, o: nat)
    requires Alike(a, b) && o in a.table.ops
    ensures var x, y := a.table.ops[o], b.table.ops[o]; y == x.(history := y.history)
  {
  }

  lemma AlikeStale(a: Log, b: Log, o: nat)
    requires Alike(a, b) && o in a.table.ops
    ensures StaleOp(a.table, o) <==> StaleOp(b.table, o)
    ensures Terminal(a.table.ops[o].state) <==> Terminal(b.table.ops[o].state)
    ensures a.table.ops[o].sandbox == b.table.ops[o].sandbox
  {
  }

  // each command treats alike logs alike

  lemma EmitAlike(a: Log, b: Log, o: nat, kind: EventType, outbox: bool)
    requires Alike(a, b) && o in a.table.ops
    ensures Alike(Emit(a, o, kind, outbox), Emit(b, o, kind, outbox))
  {
    hide Events.Append, Events.Commit;
    AlikeOp(a, b, o);
  }

  lemma EmitTerminalAlike(a: Log, b: Log, o: nat)
    requires Alike(a, b)
    ensures Alike(EmitTerminal(a, o).0, EmitTerminal(b, o).0)
  {
    hide Emit;
    if o in a.table.ops {
      AlikeOp(a, b, o);
      EmitAlike(a, b, o, TerminalEvent(a.table.ops[o].state), true);
    }
  }

  lemma StagesAlike(a: Log, b: Log, o: nat, outcome: Outcome)
    requires Alike(a, b)
    ensures Alike(Dispatch(a, o).0, Dispatch(b, o).0)
    ensures Alike(MarkTimeout(a, o).0, MarkTimeout(b, o).0)
  {
    hide Alike, PutOp, StaleOp;
    AlikeTop(a, b);
    assert o in a.table.ops <==> o in b.table.ops;
    if o in a.table.ops {
      AlikeOp(a, b, o);
      AlikeStale(a, b, o);
      var x, y := a.table.ops[o], b.table.ops[o];
      PutOpAlike(a, b, o, x.(history := x.history + [StaleWrite(DispatchWrite, x.generation, None)]),
                 y.(history := y.history + [StaleWrite(DispatchWrite, x.generation, None)]));
      PutOpAlike(a, b, o, x.(history := x.history + [StaleWrite(TimeoutWrite, x.generation, None)]),
                 y.(history := y.history + [StaleWrite(TimeoutWrite, x.generation, None)]));
      AsideAlike(a, b, Tick(a), Tick(b));
      PutOpAlike(Tick(a), Tick(b), o, x.(state := Dispatched, updatedAt := a.clock + 1), y.(state := Dispatched, updatedAt := a.clock + 1));
      PutOpAlike(Tick(a), Tick(b), o, x.(state := Timeout, updatedAt := a.clock + 1), y.(state := Timeout, updatedAt := a.clock + 1));
    }
  }

  lemma OutcomeAlike(a: Log, b: Log, o: nat, outcome: Outcome)
    requires Alike(a, b)
    ensures Alike(RuntimeOutcome(a, o, outcome).0, RuntimeOutcome(b, o, outcome).0)
  {
    hide Alike;
    AlikeTop(a, b);
    if o in a.table.ops && o in b.table.ops {
      AlikeOp(a, b, o);
      AlikeStale(a, b, o);
      var s, x, y := a.table.ops[o].sandbox, a.table.ops[o], b.table.ops[o];
      if s in a.table.sandboxes && s in b.table.sandboxes {
        AlikeBox(a, b, s);
        if StaleOp(a.table, o) {
          var entry := StaleWrite(OutcomeWrite, x.generation, Some(outcome));
          PutOpAlike(a, b, o, x.(history := x.history + [entry]), y.(history := y.history + [entry]));
        } else if Terminal(x.state) {
          var entry := LateTerminal(outcome);
          PutOpAlike(a, b, o, x.(history := x.history + [entry]), y.(history := y.history + [entry]));
        } else {
          var x1 := Concluded(x, outcome).(updatedAt := a.clock + 1);
          var y1 := Concluded(y, outcome).(updatedAt := b.clock + 1);
          AsideAlike(a, b, Tick(a), Tick(b));
          PutOpAlike(Tick(a), Tick(b), o, x1, y1);
          PutBoxAlike(PutOp(Tick(a), o, x1), PutOp(Tick(b), o, y1), s,
                      Resolved(a.table.sandboxes[s], outcome), Resolved(b.table.sandboxes[s], outcome));
        }
      }
    }
  }

  lemma FailReconciledAlike(a: Log, b: Log, o: nat)
    requires Alike(a, b) && o in a.table.ops
    ensures Alike(FailReconciled(a, o), FailReconciled(b, o))
  {
    hide EmitTerminal, PutOp;
    AlikeOp(a, b, o);
    if !Terminal(a.table.ops[o].state) {
      var x := a.table.ops[o].(state := Failed, error := Some(LOST_RECONCILED), updatedAt := a.clock + 1);
      var y := b.table.ops[o].(state := Failed, error := Some(LOST_RECONCILED), updatedAt := b.clock + 1);
      PutOpAlike(Tick(a), Tick(b), o, x, y);
      EmitTerminalAlike(PutOp(Tick(a), o, x), PutOp(Tick(b), o, y), o);
    }
  }

  /** The log with the sandbox's outstanding operation, if any, failed by reconciliation. */
  function Cleared(log: Log, s: string): Log
    requires s in log.table.sandboxes
  {
    var sb := log.table.sandboxes[s];
    if sb.pending.Some? && sb.pending.value in log.table.ops then FailReconciled(log, sb.pending.value) else log
  }

  function Opened(sb: Sandbox): Sandbox { sb.(reconciled := true, pending := None, version := sb.version + 1) }

  lemma ReconciledIsCleared(log: Log, s: string)
    requires s in log.table.sandboxes
    ensures MarkReconciled(log, s).0 == PutBox(Cleared(log, s), s, Opened(log.table.sandboxes[s]))
  {
    hide FailReconciled;
  }

  lemma ClearedAlike(a: Log, b: Log, s: string)
    requires Alike(a, b) && s in a.table.sandboxes
    ensures Alike(Cleared(a, s), Cleared(b, s))
  {
    hide FailReconciled;
    AlikeBox(a, b, s);
    var pending := a.table.sandboxes[s].pending;
    if pending.Some? && pending.value in a.table.ops { FailReconciledAlike(a, b, pending.value); }
  }

  lemma ReconciledAlike(a: Log, b: Log, s: string)
    requires Alike(a, b)
    ensures Alike(MarkReconciled(a, s).0, MarkReconciled(b, s).0)
  {
    if s in a.table.sandboxes {
      ReconciledIsCleared(a, s);
      ReconciledIsCleared(b, s);
      ClearedAlike(a, b, s);
      AlikeBox(a, b, s);
      hide MarkReconciled, Cleared, Alike;
      PutBoxAlike(Cleared(a, s), Cleared(b, s), s, Opened(a.table.sandboxes[s]), Opened(b.table.sandboxes[s]));
    }
  }

  lemma LostAlike(a: Log, b: Log, s: string, last: Option<int>)
    requires Alike(a, b)
    ensures Alike(MarkLost(a, s, last).0, MarkLost(b, s, last).0)
  {
    hide Alike, Events.Append;
    AlikeTop(a, b);
    if s in a.table.sandboxes && s in b.table.sandboxes {
      AlikeBox(a, b, s);
      var x, y := a.table.sandboxes[s], b.table.sandboxes[s];
      var x1 := x.(observed := Lost, uncertain := true, version := x.version + 1);
      var y1 := y.(observed := Lost, uncertain := true, version := y.version + 1);
      PutBoxAlike(a, b, s, x1, y1);
      var lost := if last.Some? then At(last.value) else Unknown;
      AsideAlike(PutBox(a, s, x1), PutBox(b, s, y1),
                 EmitLease(PutBox(a, s, x1), s, x.generation, lost), EmitLease(PutBox(b, s, y1), s, y.generation, lost));
    }
  }

  lemma CreateAlike(a: Log, b: Log, c: Command)
    requires Alike(a, b) && c.DoCreate?
    ensures Alike(Step(a, c), Step(b, c))
  {
    hide NameFor, Alike;
    AlikeTop(a, b);
    var n := a.seqNo + 1;
    var s := NameFor(c.name, n);
    var a1, b1 := a.(seqNo := n), b.(seqNo := n);
    AsideAlike(a, b, a1, b1);
    if s !in a.table.sandboxes {
      AsideAlike(a1, b1, Tick(a1), Tick(b1));
      var sb := Sandbox(c.desired, c.observed, c.generation, 1, true, false, false, None, None, None, [], a.clock + 1);
      PutBoxAlike(Tick(a1), Tick(b1), s, sb, sb);
    }
  }

  lemma UncertainAlike(a: Log, b: Log, s: string, reason: string)
    requires Alike(a, b)
    ensures Alike(MarkUncertain(a, s, reason).0, MarkUncertain(b, s, reason).0)
  {
  }

  lemma ApplyEventAlike(a: Log, b: Log, s: string, g: nat, observed: Option<BoxState>, evidence: string)
    requires Alike(a, b)
    ensures Alike(ApplyEvent(a, s, g, observed, evidence).0, ApplyEvent(b, s, g, observed, evidence).0)
  {
    hide Alike, PutBox;
    AlikeTop(a, b);
    assert s in a.table.sandboxes <==> s in b.table.sandboxes;
    if s in a.table.sandboxes {
      AlikeBox(a, b, s);
      var x, y := a.table.sandboxes[s], b.table.sandboxes[s];
      var late := LateEvent(g, observed, evidence);
      PutBoxAlike(a, b, s, x.(history := x.history + [late]), y.(history := y.history + [late]));
      if observed.Some? {
        var seen, unsure := observed.value, if observed.value.Suspend? || observed.value.Destroyed? then false else x.uncertain;
        PutBoxAlike(a, b, s, x.(observed := seen, uncertain := unsure, version := x.version + 1),
                    y.(observed := seen, uncertain := unsure, version := y.version + 1));
      }
    }
  }

  lemma {:induction false} LastDestroyAlike(a: Log, b: Log, order: seq<nat>, s: string)
    requires Alike(a, b)
    ensures LastDestroy(a.table, order, s) == LastDestroy(b.table, order, s)
  {
    if order != [] {
      if order[|order| - 1] in a.table.ops { AlikeOp(a, b, order[|order| - 1]); }
      LastDestroyAlike(a, b, order[..|order| - 1], s);
    }
  }

  function WithRow(log: Log, o: nat, op: Operation, s: string, x: Sandbox): Log {
    log.(table := Table(log.table.sandboxes[s := x], log.table.ops[o := op], log.table.order + [o]))
  }

  lemma NewRowAlike(a: Log, b: Log, o: nat, op: Operation, s: string, x: Sandbox, y: Sandbox)
    requires Alike(a, b) && BareBox(x) == BareBox(y)
    ensures Alike(WithRow(a, o, op, s, x), WithRow(b, o, op, s, y))
  {
  }

  function NewRow(s: string, kind: OpType, v: nat, generation: nat, clock: nat): Operation {
    Operation(s, kind, Requested, v, generation, None, None, [], [], clock, clock)
  }

  function Marked(x: Sandbox, o: nat): Sandbox { x.(pending := Some(o), version := x.version + 1) }

  function Numbered(log: Log): Log { Tick(log.(seqNo := log.seqNo + 1)) }

  /** The accepted intention's row and mark, before its event. */
  function Entered(log: Log, s: string, kind: OpType, v: nat, x: Sandbox): Log {
    var o := log.seqNo + 1;
    WithRow(Numbered(log), o, NewRow(s, kind, v, x.generation, log.clock + 1), s, Marked(x, o))
  }

  function Keyed(log: Log, key: Option<string>, t: Ticket): Log {
    if key.None? then log else log.(idempotency := log.idempotency[key.value := t])
  }

  lemma AdmitIsEntered(log: Log, s: string, kind: OpType, key: Option<string>, v: nat, x: Sandbox)
    ensures var o, log2 := log.seqNo + 1, Entered(log, s, kind, v, x);
            o in log2.table.ops &&
            Admit(log, s, kind, key, v, x) ==
              Keyed(Emit(log2, o, OperationRequested, false), key, Ticket(Fingerprint(s, kind), o))
  {
    hide Emit;
  }

  lemma MarkedAlike(x: Sandbox, y: Sandbox, o: nat)
    requires BareBox(x) == BareBox(y)
    ensures BareBox(Marked(x, o)) == BareBox(Marked(y, o)) && x.generation == y.generation
  {
    assert x == y.(history := x.history);
  }

  lemma NumberedAlike(a: Log, b: Log)
    requires Alike(a, b)
    ensures Alike(Numbered(a), Numbered(b))
  {
    AlikeTop(a, b);
    AsideAlike(a, b, Numbered(a), Numbered(b));
  }

  lemma EnteredAlike(a: Log, b: Log, s: string, kind: OpType, v: nat, x: Sandbox, y: Sandbox)
    requires Alike(a, b) && BareBox(x) == BareBox(y)
    ensures Alike(Entered(a, s, kind, v, x), Entered(b, s, kind, v, y))
  {
    hide Alike, BareBox, Numbered, WithRow, NewRow, Marked;
    var o := a.seqNo + 1;
    AlikeTop(a, b);
    NumberedAlike(a, b);
    MarkedAlike(x, y, o);
    NewRowAlike(Numbered(a), Numbered(b), o, NewRow(s, kind, v, x.generation, a.clock + 1), s, Marked(x, o), Marked(y, o));
  }

  lemma KeyedAlike(a: Log, b: Log, key: Option<string>, t: Ticket)
    requires Alike(a, b)
    ensures Alike(Keyed(a, key, t), Keyed(b, key, t))
  {
    AlikeTop(a, b);
    AsideAlike(a, b, Keyed(a, key, t), Keyed(b, key, t));
  }

  lemma AdmitAlike(a: Log, b: Log, s: string, kind: OpType, key: Option<string>, v: nat, x: Sandbox, y: Sandbox)
    requires Alike(a, b) && BareBox(x) == BareBox(y)
    ensures Alike(Admit(a, s, kind, key, v, x), Admit(b, s, kind, key, v, y))
  {
    hide *;
    var o := a.seqNo + 1;
    AlikeTop(a, b);
    AdmitIsEntered(a, s, kind, key, v, x);
    AdmitIsEntered(b, s, kind, key, v, y);
    EnteredAlike(a, b, s, kind, v, x, y);
    EmitAlike(Entered(a, s, kind, v, x), Entered(b, s, kind, v, y), o, OperationRequested, false);
    KeyedAlike(Emit(Entered(a, s, kind, v, x), o, OperationRequested, false),
               Emit(Entered(b, s, kind, v, y), o, OperationRequested, false), key, Ticket(Fingerprint(s, kind), o));
  }

  /** Alike logs answer a request alike. */
  lemma RequestAnsweredAlike(a: Log, b: Log, s: string, kind: OpType, key: Option<string>, expected: Option<nat>)
    requires Alike(a, b)
    ensures Request(a, s, kind, key, expected).1 == Request(b, s, kind, key, expected).1
  {
    hide Admit, Alike;
    AlikeTop(a, b);
    if s in a.table.sandboxes && s in b.table.sandboxes {
      AlikeBox(a, b, s);
      LastDestroyAlike(a, b, a.table.order, s);
      var pending := a.table.sandboxes[s].pending;
      if pending.Some? && pending.value in a.table.ops && pending.value in b.table.ops { AlikeOp(a, b, pending.value); }
    }
  }

  lemma RequestAlike(a: Log, b: Log, s: string, kind: OpType, key: Option<string>, expected: Option<nat>)
    requires Alike(a, b)
    ensures Alike(Request(a, s, kind, key, expected).0, Request(b, s, kind, key, expected).0)
  {
    hide Admit, Alike;
    AlikeTop(a, b);
    RequestAnsweredAlike(a, b, s, kind, key, expected);
    if Request(a, s, kind, key, expected).1.Accepted? && s in b.table.sandboxes {
      AlikeBox(a, b, s);
      AdmitAlike(a, b, s, kind, key, expected.value, Accept(a.table.sandboxes[s], kind).value, Accept(b.table.sandboxes[s], kind).value);
    }
  }

  lemma FlagAlike(a: Log, b: Log, instance: string)
    requires Alike(a, b)
    ensures Alike(FlagUnknown(a, instance).0, FlagUnknown(b, instance).0)
  {
    AlikeTop(a, b);
    AsideAlike(a, b, FlagUnknown(a, instance).0, FlagUnknown(b, instance).0);
  }

  lemma StepAlike(a: Log, b: Log, c: Command)
    requires Alike(a, b)
    ensures Alike(Step(a, c), Step(b, c))
  {
    hide Alike, CreateSandbox, MarkLost, MarkReconciled, MarkUncertain, FlagUnknown, Request;
    hide Dispatch, MarkTimeout, RuntimeOutcome, EmitTerminal, ApplyEvent;
    match c
    case DoRequest(s, kind, key, expected) => RequestAlike(a, b, s, kind, key, expected);
    case DoDispatch(o) => StagesAlike(a, b, o, Succeeded(Lost));
    case DoTimeout(o) => StagesAlike(a, b, o, Succeeded(Lost));
    case DoOutcome(o, outcome) => OutcomeAlike(a, b, o, outcome);
    case DoEmit(o) => EmitTerminalAlike(a, b, o);
    case DoMarkReconciled(s) => ReconciledAlike(a, b, s);
    case DoMarkLost(s, last) => LostAlike(a, b, s, last);
    case DoCreate(_, _, _, _) => CreateAlike(a, b, c);
    case DoMarkUncertain(s, reason) => UncertainAlike(a, b, s, reason);
    case DoFlagUnknown(instance) => FlagAlike(a, b, instance);
    case DoApplyEvent(s, g, observed, evidence) => ApplyEventAlike(a, b, s, g, observed, evidence);
  }

  /** A run with every fenced submission deleted. */
  function Erased(log: Log, cs: seq<Command>): seq<Command>
    decreases |cs|
  {
    if cs == [] then []
    else (if Fenced(log, cs[0]) then [] else [cs[0]]) + Erased(Step(log, cs[0]), cs[1..])
  }

  lemma {:induction false} AlikeRuns(a: Log, b: Log, cs: seq<Command>)
    requires Alike(a, b)
    ensures Alike(Run(a, cs), Run(b, Erased(a, cs)))
    decreases |cs|
  {
    hide Alike, Step;
    if cs != [] {
      var c := cs[0];
      if Fenced(a, c) {
        FencedChangesNothing(a, c);
        AlikeTransitive(Step(a, c), a, b);
        AlikeRuns(Step(a, c), b, cs[1..]);
        assert Erased(a, cs) == Erased(Step(a, c), cs[1..]);
      } else {
        StepAlike(a, b, c);
        AlikeRuns(Step(a, c), Step(b, c), cs[1..]);
        assert Erased(a, cs)[1..] == Erased(Step(a, c), cs[1..]);
      }
    }
  }

  lemma AlikeTransitive(a: Log, b: Log, c: Log)
    requires Alike(a, b) && Alike(b, c)
    ensures Alike(a, c)
  {
  }

  /**
   Erasure of fenced writes: any run, from any log, ends in the same sandboxes,
   operations, ledger, clock and tickets as the run without its fenced submissions;
   only the audit histories differ.
   */
  lemma ErasureOfFencedWrites(log: Log, cs: seq<Command>)
    ensures Stripped(Run(log, cs)) == Stripped(Run(log, Erased(log, cs)))
  {
    AlikeRuns(log, log, cs);
    AlikeIsStripped(Run(log, cs), Run(log, Erased(log, cs)));
  }

  // -------------------------------------------------------------------- finality

  /** A verdict cannot be taken back by any command. */
  predicate SameVerdict(a: Operation, b: Operation) {
    SameIdentity(a, b) && a.state == b.state && a.result == b.result && a.error == b.error
  }

  lemma EmitKeepsVerdict(log: Log, o: nat, p: nat)
    requires o in log.table.ops
    ensures o in EmitTerminal(log, p).0.table.ops && SameVerdict(log.table.ops[o], EmitTerminal(log, p).0.table.ops[o])
  {
    hide Events.Commit;
  }

  lemma ReconciledKeepsVerdict(log: Log, s: string, o: nat)
    requires o in log.table.ops && Terminal(log.table.ops[o].state)
    ensures o in MarkReconciled(log, s).0.table.ops && SameVerdict(log.table.ops[o], MarkReconciled(log, s).0.table.ops[o])
  {
    hide EmitTerminal;
    if s in log.table.sandboxes && log.table.sandboxes[s].pending.Some? && log.table.sandboxes[s].pending.value in log.table.ops {
      var p := log.table.sandboxes[s].pending.value;
      var op' := log.table.ops[p].(state := Failed, error := Some(LOST_RECONCILED), updatedAt := log.clock + 1);
      EmitKeepsVerdict(PutOp(Tick(log), p, op'), o, p);
    }
  }

  lemma StagesKeepVerdict(log: Log, p: nat, outcome: Outcome, o: nat)
    requires o in log.table.ops && Terminal(log.table.ops[o].state)
    ensures o in Dispatch(log, p).0.table.ops && SameVerdict(log.table.ops[o], Dispatch(log, p).0.table.ops[o])
    ensures o in MarkTimeout(log, p).0.table.ops && SameVerdict(log.table.ops[o], MarkTimeout(log, p).0.table.ops[o])
    ensures o in RuntimeOutcome(log, p, outcome).0.table.ops
    ensures SameVerdict(log.table.ops[o], RuntimeOutcome(log, p, outcome).0.table.ops[o])
  {
    assert o in Dispatch(log, p).0.table.ops && SameVerdict(log.table.ops[o], Dispatch(log, p).0.table.ops[o]);
    assert o in MarkTimeout(log, p).0.table.ops && SameVerdict(log.table.ops[o], MarkTimeout(log, p).0.table.ops[o]);
    hide Dispatch, MarkTimeout, Resolved;
  }

  predicate OnSandboxesOnly(c: Command) {
    c.DoCreate? || c.DoMarkLost? || c.DoMarkUncertain? || c.DoFlagUnknown? || c.DoApplyEvent?
  }

  lemma SandboxCommandsKeepRows(log: Log, c: Command)
    requires OnSandboxesOnly(c)
    ensures Step(log, c).table.ops == log.table.ops
  {
    hide Events.Append, Padded;
  }

  lemma StepKeepsVerdict(log: Log, c: Command, o: nat)
    requires Inv(log) && o in log.table.ops && Terminal(log.table.ops[o].state)
    ensures o in Step(log, c).table.ops && SameVerdict(log.table.ops[o], Step(log, c).table.ops[o])
  {
    hide Inv, Request, MarkReconciled, Dispatch, MarkTimeout, RuntimeOutcome, EmitTerminal;
    match c
    case DoRequest(s, kind, key, expected) => RequestKeepsRows(log, s, kind, key, expected, o);
    case DoMarkReconciled(s) => ReconciledKeepsVerdict(log, s, o);
    case DoDispatch(p) => StagesKeepVerdict(log, p, Succeeded(Lost), o);
    case DoTimeout(p) => StagesKeepVerdict(log, p, Succeeded(Lost), o);
    case DoOutcome(p, outcome) => StagesKeepVerdict(log, p, outcome, o);
    case DoEmit(p) => EmitKeepsVerdict(log, o, p);
    case _ => SandboxCommandsKeepRows(log, c);
  }

  lemma RequestKeepsRows(log: Log, s: string, kind: OpType, key: Option<string>, expected: Option<nat>, o: nat)
    requires Inv(log) && o in log.table.ops
    ensures o in Request(log, s, kind, key, expected).0.table.ops
    ensures Request(log, s, kind, key, expected).0.table.ops[o] == log.table.ops[o]
  {
    hide TrailOk, RowsOk, Sequenced, Events.Append;
    FreshNumber(log);
  }

  /** A terminal operation's state, result and error never change again. */
  lemma {:induction false} VerdictIsFinal(log: Log, cs: seq<Command>, o: nat)
    requires Inv(log) && o in log.table.ops && Terminal(log.table.ops[o].state)
    ensures o in Run(log, cs).table.ops && SameVerdict(log.table.ops[o], Run(log, cs).table.ops[o])
    decreases |cs|
  {
    hide Inv, Step;
    if cs != [] {
      StepInv(log, cs[0]);
      StepKeepsVerdict(log, cs[0], o);
      VerdictIsFinal(Step(log, cs[0]), cs[1..], o);
    }
  }

  /** Versions and generations only rise; released capacity is never taken back. */
  predicate Forward(a: Sandbox, b: Sandbox) {
    a.version <= b.version && a.generation <= b.generation && (b.reserved ==> a.reserved)
  }

  lemma EmitKeepsBoxes(log: Log, o: nat)
    ensures EmitTerminal(log, o).0.table.sandboxes == log.table.sandboxes
  {
  }

  lemma OperationsMoveForward(log: Log, c: Command, s: string)
    requires s in log.table.sandboxes && (c.DoOutcome? || c.DoMarkReconciled? || c.DoDispatch? || c.DoTimeout? || c.DoEmit?)
    ensures s in Step(log, c).table.sandboxes && Forward(log.table.sandboxes[s], Step(log, c).table.sandboxes[s])
  {
    hide EmitTerminal;
    if c.DoEmit? {
      EmitKeepsBoxes(log, c.op);
    } else if c.DoMarkReconciled? && c.sandbox in log.table.sandboxes {
      var pending := log.table.sandboxes[c.sandbox].pending;
      if pending.Some? && pending.value in log.table.ops {
        var op' := log.table.ops[pending.value].(state := Failed, error := Some(LOST_RECONCILED), updatedAt := log.clock + 1);
        EmitKeepsBoxes(PutOp(Tick(log), pending.value, op'), pending.value);
      }
    }
  }

  lemma AdmitBoxes(log: Log, s: string, kind: OpType, key: Option<string>, expected: nat, accepted: Sandbox)
    ensures Admit(log, s, kind, key, expected, accepted).table.sandboxes ==
            log.table.sandboxes[s := accepted.(pending := Some(log.seqNo + 1), version := accepted.version + 1)]
  {
    hide Events.Append;
  }

  lemma RequestMovesForward(log: Log, c: Command, s: string)
    requires s in log.table.sandboxes && c.DoRequest?
    ensures s in Step(log, c).table.sandboxes && Forward(log.table.sandboxes[s], Step(log, c).table.sandboxes[s])
  {
    hide LastDestroy, Admit;
    if c.sandbox in log.table.sandboxes && Request(log, c.sandbox, c.kind, c.key, c.expected).1.Accepted? {
      var accepted := Accept(log.table.sandboxes[c.sandbox], c.kind);
      AdmitBoxes(log, c.sandbox, c.kind, c.key, c.expected.value, accepted.value);
    }
  }

  lemma StepMovesForward(log: Log, c: Command, s: string)
    requires s in log.table.sandboxes
    ensures s in Step(log, c).table.sandboxes && Forward(log.table.sandboxes[s], Step(log, c).table.sandboxes[s])
  {
    if c.DoRequest? {
      RequestMovesForward(log, c, s);
    } else if OnSandboxesOnly(c) {
      hide Events.Append, Padded;
    } else {
      OperationsMoveForward(log, c, s);
    }
  }

  lemma {:induction false} SandboxesMoveForward(log: Log, cs: seq<Command>, s: string)
    requires s in log.table.sandboxes
    ensures s in Run(log, cs).table.sandboxes && Forward(log.table.sandboxes[s], Run(log, cs).table.sandboxes[s])
    decreases |cs|
  {
    hide Step;
    if cs != [] {
      StepMovesForward(log, cs[0], s);
      SandboxesMoveForward(Step(log, cs[0]), cs[1..], s);
    }
  }

  lemma {:induction false} LatestBounds(ops: map<nat, Operation>, order: seq<nat>, s: string, i: nat)
    requires i < |order| && order[i] in ops && ops[order[i]].sandbox == s
    ensures Latest(ops, order, s).Some?
    ensures exists k :: i <= k < |order| && order[k] == Latest(ops, order, s).value && ops[order[k]].sandbox == s
  {
    var n := |order| - 1;
    if !(order[n] in ops && ops[order[n]].sandbox == s) {
      LatestBounds(ops, order[..n], s, i);
      var k :| i <= k < n && order[..n][k] == Latest(ops, order[..n], s).value;
      assert order[k] == Latest(ops, order, s).value;
    } else {
      assert order[n] == Latest(ops, order, s).value;
    }
  }

  /**
   Along one sandbox's sequence, in every reachable log, the versions callers were
   accepted at strictly rise, and generations rise exactly at accepted resumes.
   */
  lemma {:induction false} SequenceRises(log: Log, i: nat, j: nat)
    requires Inv(log) && i < j < |log.table.order|
    requires log.table.ops[log.table.order[i]].sandbox == log.table.ops[log.table.order[j]].sandbox
    ensures var a, b := log.table.ops[log.table.order[i]], log.table.ops[log.table.order[j]];
            && a.expected < b.expected && a.generation <= b.generation
            && (b.kind.ResumeOp? ==> a.generation < b.generation)
    decreases j
  {
    hide TrailOk, RowsOk, Serialized;
    var t := log.table;
    var s := t.ops[t.order[j]].sandbox;
    assert Chained(t, j);
    LatestBounds(t.ops, t.order[..j], s, i);
    var k :| i <= k < j && t.order[..j][k] == Latest(t.ops, t.order[..j], s).value;
    if i < k {
      assert t.ops[t.order[k]].sandbox == s;
      SequenceRises(log, i, k);
    }
  }

  /** Between two neighbours of a sandbox's sequence the generation rises by exactly one at a resume and not at all otherwise. */
  lemma ResumeRaisesByOne(log: Log, i: nat, j: nat)
    requires Inv(log) && i < j < |log.table.order|
    requires log.table.ops[log.table.order[i]].sandbox == log.table.ops[log.table.order[j]].sandbox
    requires forall k :: i < k < j ==> log.table.ops[log.table.order[k]].sandbox != log.table.ops[log.table.order[j]].sandbox
    ensures var a, b := log.table.ops[log.table.order[i]], log.table.ops[log.table.order[j]];
            b.generation == a.generation + (if b.kind.ResumeOp? then 1 else 0)
  {
    hide TrailOk, RowsOk, Serialized;
    var t := log.table;
    var s := t.ops[t.order[j]].sandbox;
    assert Chained(t, j);
    LatestBounds(t.ops, t.order[..j], s, i);
    var k :| i <= k < j && t.order[..j][k] == Latest(t.ops, t.order[..j], s).value;
    assert t.ops[t.order[k]].sandbox == s;
    assert k == i;
  }

  /**
   Serialization in every reachable log: an operation without a verdict is its sandbox's
   pending one and carries its current generation, so no sandbox ever has two.
   */
  lemma OnePendingPerSandbox(cs: seq<Command>, o: nat, p: nat)
    requires o in Run(EMPTY_LOG, cs).table.ops && !Terminal(Run(EMPTY_LOG, cs).table.ops[o].state)
    ensures var t := Run(EMPTY_LOG, cs).table; var s := t.ops[o].sandbox;
            && s in t.sandboxes && t.sandboxes[s].pending == Some(o)
            && t.sandboxes[s].generation == t.ops[o].generation
            && (p in t.ops && !Terminal(t.ops[p].state) && t.ops[p].sandbox == s ==> p == o)
  {
    EmptyInv();
    RunInv(EMPTY_LOG, cs);
    hide TrailOk, RowsOk, Sequenced, Run;
  }
}
