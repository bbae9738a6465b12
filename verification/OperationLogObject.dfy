/**
 The operation log of scripts/operation_reconcile.py as an object over a shared event
 ledger, with the idempotent runtime: every method is the step of the same name in
 the specification, and replay is the specification's replay.
 */
module OperationLogObject {
  import opened Basics
  import opened EventFold
  import Events = EventLedger
  import LedgerObject
  import opened Spec = OperationLog
  import opened OperationReplay

  /** The runtime double with an arbitrary fixed verdict per operation. */
  class RuntimeDouble {
    var outcomes: map<nat, Outcome>
    var calls: nat
    var effects: nat
    const verdicts: Verdicts

    constructor (verdicts: Verdicts)
      ensures this.verdicts == verdicts && View() == Runtime(map[], 0, 0)
    {
      this.verdicts := verdicts;
      outcomes, calls, effects := map[], 0, 0;
    }

    ghost function View(): Runtime
      reads this
    {
      Runtime(outcomes, calls, effects)
    }

    /** Executes an intention at most once; every later call gets the same outcome. */
    method ExecuteOp(o: nat) returns (outcome: Outcome)
      modifies this
      ensures View() == Execute(old(View()), verdicts, o) && outcome == View().outcomes[o]
    {
      calls := calls + 1;
      if o !in outcomes {
        effects := effects + 1;
        outcomes := outcomes[o := verdicts(o)];
      }
      outcome := outcomes[o];
    }
  }

  /** A creation takes a number, and then a clock tick and a sandbox unless the name is taken. */
  lemma CreateIs(log: Log, name: Option<string>, desired: BoxState, observed: BoxState, generation: nat)
    ensures var n := log.seqNo + 1; var s := NameFor(name, n);
            CreateSandbox(log, name, desired, observed, generation) ==
              if s in log.table.sandboxes then (log.(seqNo := n), AlreadyExists)
              else
                var sb := Sandbox(desired, observed, generation, 1, true, false, false, None, None, None, [], log.clock + 1);
                (log.(seqNo := n, clock := log.clock + 1, table := log.table.(sandboxes := log.table.sandboxes[s := sb])), Done)
  {
  }

  class OperationLog {
    const ledger: LedgerObject.EventLedger
    var sandboxes: map<string, Sandbox>
    var ops: map<nat, Operation>
    var order: seq<nat>
    var idempotency: map<string, Ticket>
    var flags: seq<LogFlag>
    var seqNo: nat
    var sourceSeq: nat
    var clock: nat

    constructor ()
      ensures fresh(ledger) && View() == EMPTY_LOG
    {
      ledger := new LedgerObject.EventLedger();
      sandboxes, ops, order, idempotency, flags := map[], map[], [], map[], [];
      seqNo, sourceSeq, clock := 0, 0, 0;
    }

    ghost function View(): Log
      reads this, ledger
    {
      Log(ledger.View(), Table(sandboxes, ops, order), idempotency, flags, seqNo, sourceSeq, clock)
    }

    // ------------------------------------------------------------ events

    method EmitEvent(o: nat, kind: EventType, outbox: bool)
      requires o in ops
      modifies this, ledger
      ensures View() == Emit(old(View()), o, kind, outbox)
    {
      hide Events.Commit, Events.Append;
      var op := ops[o];
      ghost var before := View();
      sourceSeq := sourceSeq + 1;
      clock := clock + 1;
      var e := Event(OperationEvent(o, kind), ResourceKey("sandbox", op.sandbox), "control-plane", Some(op.generation),
                     sourceSeq, clock, kind, map[], Unstated, "", None, None);
      assert e == OpEvent(before, o, op, kind);
      if outbox {
        var _ := ledger.CommitWithOutbox(e, Events.Notice(kind, o, op.sandbox));
      } else {
        var _ := ledger.AppendEvent(e);
      }
      ops := ops[o := op.(events := op.events + [kind])];
    }

    method EmitLeaseExpired(s: string, generation: nat, lost: Observed)
      modifies this, ledger
      ensures View() == EmitLease(old(View()), s, generation, lost)
    {
      hide Events.Append;
      seqNo := seqNo + 1;
      sourceSeq := sourceSeq + 1;
      clock := clock + 1;
      var e := Event(LeaseEvent(s, seqNo), ResourceKey("sandbox", s), "control-plane", Some(generation),
                     sourceSeq, clock, LeaseExpired, map[], lost, "", None, None);
      var _ := ledger.AppendEvent(e);
    }

    /** The terminal event and its outbox entry, once. */
    method EmitOperationEvent(o: nat) returns (reply: Reply)
      modifies this, ledger
      ensures (View(), reply) == EmitTerminal(old(View()), o)
    {
      hide Emit;
      if o !in ops { return UnknownOperation; }
      var op := ops[o];
      if !Terminal(op.state) { return InState(op.state); }
      if TerminalEvent(op.state) !in op.events {
        EmitEvent(o, TerminalEvent(op.state), true);
      }
      reply := Emitted;
    }

    // ------------------------------------------------------------ sandboxes

    method Create(name: Option<string>, desired: BoxState, observed: BoxState, generation: nat) returns (reply: Reply)
      modifies this
      ensures (View(), reply) == CreateSandbox(old(View()), name, desired, observed, generation)
    {
      hide NameFor, CreateSandbox;
      CreateIs(View(), name, desired, observed, generation);
      seqNo := seqNo + 1;
      var s := NameFor(name, seqNo);
      if s in sandboxes { return AlreadyExists; }
      clock := clock + 1;
      sandboxes := sandboxes[s := Sandbox(desired, observed, generation, 1, true, false, false, None, None, None, [], clock)];
      reply := Done;
    }

    /** Lease expiry: the state is lost, the reservation is kept. */
    method MarkSandboxLost(s: string, lastObserved: Option<int>) returns (reply: Reply)
      modifies this, ledger
      ensures (View(), reply) == MarkLost(old(View()), s, lastObserved)
    {
      hide EmitLease;
      if s !in sandboxes { return UnknownSandbox; }
      var sb := sandboxes[s];
      if sb.observed.Destroyed? { return OperationConflict; }
      sandboxes := sandboxes[s := sb.(observed := Lost, uncertain := true, version := sb.version + 1)];
      EmitLeaseExpired(s, sb.generation, if lastObserved.Some? then At(lastObserved.value) else Unknown);
      reply := Done;
    }

    method FailOutstanding(o: nat)
      requires o in ops
      modifies this, ledger
      ensures View() == FailReconciled(old(View()), o)
    {
      hide EmitTerminal;
      var op := ops[o];
      if !Terminal(op.state) {
        clock := clock + 1;
        ops := ops[o := op.(state := Failed, error := Some(LOST_RECONCILED), updatedAt := clock)];
        var _ := EmitOperationEvent(o);
      }
    }

    /** The verdict of reconciliation: opens the sandbox for changes and fails what was outstanding. */
    method MarkSandboxReconciled(s: string) returns (reply: Reply)
      modifies this, ledger
      ensures (View(), reply) == MarkReconciled(old(View()), s)
    {
      hide FailReconciled;
      if s !in sandboxes { return UnknownSandbox; }
      var sb := sandboxes[s];
      if sb.pending.Some? && sb.pending.value in ops {
        FailOutstanding(sb.pending.value);
      }
      sandboxes := sandboxes[s := sb.(reconciled := true, pending := None, version := sb.version + 1)];
      reply := Done;
    }

    method MarkSandboxUncertain(s: string, reason: string) returns (reply: Reply)
      modifies this
      ensures (View(), reply) == MarkUncertain(old(View()), s, reason)
    {
      if s !in sandboxes { return UnknownSandbox; }
      sandboxes := sandboxes[s := sandboxes[s].(uncertain := true)];
      flags := flags + [UncertainUsage(s, reason)];
      reply := Done;
    }

    // ------------------------------------------------------------ operations

    method LastDestroyOp(s: string) returns (prior: Option<nat>)
      ensures prior == LastDestroy(View().table, order, s)
    {
      var n := |order|;
      assert order[..n] == order;
      while n > 0
        invariant 0 <= n <= |order|
        invariant LastDestroy(View().table, order[..n], s) == LastDestroy(View().table, order, s)
      {
        var o := order[n - 1];
        if o in ops && ops[o].sandbox == s && ops[o].kind.DestroyOp? { return Some(o); }
        assert order[..n][..n - 1] == order[..n - 1];
        n := n - 1;
      }
      prior := None;
    }

    method AdmitOp(s: string, kind: OpType, key: Option<string>, expected: nat, accepted: Sandbox)
      modifies this, ledger
      ensures View() == Admit(old(View()), s, kind, key, expected, accepted)
    {
      hide Emit;
      seqNo := seqNo + 1;
      clock := clock + 1;
      var o := seqNo;
      ops := ops[o := Operation(s, kind, Requested, expected, accepted.generation, None, None, [], [], clock, clock)];
      order := order + [o];
      sandboxes := sandboxes[s := accepted.(pending := Some(o), version := accepted.version + 1)];
      EmitEvent(o, OperationRequested, false);
      if key.Some? {
        idempotency := idempotency[key.value := Ticket(Fingerprint(s, kind), o)];
      }
    }

    /** Persist the intention first: replay by key, version check, serialization, acceptance. */
    method RequestOp(s: string, kind: OpType, key: Option<string>, expected: Option<nat>) returns (reply: Reply)
      modifies this, ledger
      ensures (View(), reply) == Request(old(View()), s, kind, key, expected)
    {
      hide Admit, Accept, LastDestroy;
      if s !in sandboxes { return UnknownSandbox; }
      var sb := sandboxes[s];
      if key.Some? && key.value in idempotency {
        var ticket := idempotency[key.value];
        return if ticket.fingerprint != Fingerprint(s, kind) then BodyConflict else Replayed(ticket.op);
      }
      if sb.observed.Destroyed? && kind.DestroyOp? {
        var prior := LastDestroyOp(s);
        if prior.Some? { return Replayed(prior.value); }
      }
      if expected != Some(sb.version) { return VersionConflict; }
      if sb.pending.Some? && sb.pending.value in ops {
        return if ops[sb.pending.value].kind == kind then PendingReplay(sb.pending.value) else OperationConflict;
      }
      var accepted := Accept(sb, kind);
      if accepted.None? { return OperationConflict; }
      reply := Accepted(seqNo + 1);
      AdmitOp(s, kind, key, expected.value, accepted.value);
    }

    predicate Fenced(op: Operation)
      reads this
    {
      op.sandbox in sandboxes && !GenerationOk(op.generation, sandboxes[op.sandbox].generation)
    }

    /** Hand the intention to the runtime; an old generation only leaves history. */
    method DispatchOp(o: nat) returns (reply: Reply)
      modifies this
      ensures (View(), reply) == Dispatch(old(View()), o)
    {
      if o !in ops { return UnknownOperation; }
      var op := ops[o];
      if Fenced(op) {
        ops := ops[o := op.(history := op.history + [StaleWrite(DispatchWrite, op.generation, None)])];
        return Stale;
      }
      if op.state.Requested? || op.state.Timeout? {
        clock := clock + 1;
        ops := ops[o := op.(state := Dispatched, updatedAt := clock)];
        return InState(Dispatched);
      }
      reply := InState(op.state);
    }

    /** A timeout is never a failure. */
    method TimeoutOp(o: nat) returns (reply: Reply)
      modifies this
      ensures (View(), reply) == MarkTimeout(old(View()), o)
    {
      if o !in ops { return UnknownOperation; }
      var op := ops[o];
      if Fenced(op) {
        ops := ops[o := op.(history := op.history + [StaleWrite(TimeoutWrite, op.generation, None)])];
        return Stale;
      }
      if op.state.Requested? || op.state.Dispatched? {
        clock := clock + 1;
        ops := ops[o := op.(state := Timeout, updatedAt := clock)];
        return InState(Timeout);
      }
      reply := InState(op.state);
    }

    /** The runtime verdict: one terminal outcome per intention, late and fenced ones are history. */
    method SettleOp(o: nat, outcome: Outcome) returns (reply: Reply)
      modifies this
      ensures (View(), reply) == RuntimeOutcome(old(View()), o, outcome)
    {
      if o !in ops || ops[o].sandbox !in sandboxes { return UnknownOperation; }
      var op := ops[o];
      var sb := sandboxes[op.sandbox];
      if Fenced(op) {
        ops := ops[o := op.(history := op.history + [StaleWrite(OutcomeWrite, op.generation, Some(outcome))])];
        return Stale;
      }
      if Terminal(op.state) {
        ops := ops[o := op.(history := op.history + [LateTerminal(outcome)])];
        return TerminalUnchanged;
      }
      match outcome {
        case Succeeded(observed) =>
          op := op.(state := OpState.Confirmed, result := Some(OpResult(observed, op.generation)));
          sb := sb.(observed := observed, error := None, uncertain := false, lastConfirmed := Some(observed));
          if observed.Destroyed? { sb := sb.(reserved := false); }
        case NotSucceeded(code, message) =>
          op := op.(state := Failed, error := Some(OpError(code.GetOr("operation_failed"), message)));
          sb := sb.(lastConfirmed := Some(sb.observed), observed := Error, error := Some(code.GetOr("operation_failed")));
      }
      sb := sb.(pending := None, version := sb.version + 1);
      clock := clock + 1;
      ops := ops[o := op.(updatedAt := clock)];
      sandboxes := sandboxes[op.sandbox := sb];
      reply := InState(op.state);
    }

    /** Runner evidence, fenced by generation. */
    method SubmitEvidence(s: string, generation: nat, observed: Option<BoxState>, evidence: string) returns (reply: Reply)
      modifies this
      ensures (View(), reply) == ApplyEvent(old(View()), s, generation, observed, evidence)
    {
      if s !in sandboxes { return UnknownSandbox; }
      var sb := sandboxes[s];
      if !GenerationOk(generation, sb.generation) {
        sandboxes := sandboxes[s := sb.(history := sb.history + [LateEvent(generation, observed, evidence)])];
        return HistoryOnly;
      }
      if observed.Some? {
        sb := sb.(observed := observed.value, version := sb.version + 1);
        if observed.value.Suspend? || observed.value.Destroyed? { sb := sb.(uncertain := false); }
        sandboxes := sandboxes[s := sb];
      }
      reply := Applied;
    }

    // ------------------------------------------------------------ replay

    method ReplayOp(o: nat, runtime: RuntimeDouble)
      modifies this, ledger, runtime
      ensures World(View(), runtime.View()) == ReplayOne(World(old(View()), old(runtime.View())), runtime.verdicts, o)
    {
      hide Dispatch, RuntimeOutcome, EmitTerminal;
      if o in ops {
        var op := ops[o];
        if !Terminal(op.state) {
          if !op.state.Dispatched? {
            var _ := DispatchOp(o);
          }
          var outcome := runtime.ExecuteOp(o);
          var _ := SettleOp(o, outcome);
        }
        var _ := EmitOperationEvent(o);
      }
    }

    /** Converge after a restart: every operation of the log, in acceptance order. */
    method ReplayAll(runtime: RuntimeDouble)
      modifies this, ledger, runtime
      ensures World(View(), runtime.View()) == Replay(World(old(View()), old(runtime.View())), runtime.verdicts)
    {
      hide ReplayOne;
      var ids := order;
      ghost var start := World(View(), runtime.View());
      var i := 0;
      while i < |ids|
        invariant 0 <= i <= |ids|
        invariant ReplayEach(World(View(), runtime.View()), runtime.verdicts, ids[i..]) == ReplayEach(start, runtime.verdicts, ids)
      {
        ReplayOp(ids[i], runtime);
        assert ids[i..][1..] == ids[i + 1..];
        i := i + 1;
      }
    }
  }
}
