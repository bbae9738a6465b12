/**
 The persisted-first operation log of scripts/operation_reconcile.py: intentions
 stored before the runtime acts, one serialized operation sequence per sandbox,
 generations as fencing tokens, and replay after a crash.
 */
module OperationLog {
  import opened Basics
  import opened EventFold
  import Events = EventLedger

  datatype BoxState =
    | Creating | Active | Idle | Suspending | Suspend | Resuming
    | Destroying | Destroyed | Error | Lost | OtherState(name: string)

  datatype OpType = SuspendOp | ResumeOp | DestroyOp

  datatype OpState = Requested | Dispatched | Confirmed | Failed | Timeout

  datatype OpError = OpError(code: string, message: string)

  datatype OpResult = OpResult(observed: BoxState, generation: nat)

  /** A runtime verdict. */
  datatype Outcome = Succeeded(observed: BoxState) | NotSucceeded(code: Option<string>, message: string)

  datatype Write = DispatchWrite | TimeoutWrite | OutcomeWrite

  datatype HistoryEntry =
    | StaleWrite(write: Write, generation: nat, detail: Option<Outcome>)
    | LateTerminal(outcome: Outcome)

  datatype LateEvent = LateEvent(generation: nat, observed: Option<BoxState>, evidence: string)

  datatype Operation = Operation(
    sandbox: string,
    kind: OpType,
    state: OpState,
    expected: nat,
    generation: nat,
    result: Option<OpResult>,
    error: Option<OpError>,
    events: seq<EventType>,
    history: seq<HistoryEntry>,
    createdAt: nat,
    updatedAt: nat)

  datatype Sandbox = Sandbox(
    desired: BoxState,
    observed: BoxState,
    generation: nat,
    version: nat,
    reserved: bool,
    uncertain: bool,
    reconciled: bool,
    pending: Option<nat>,
    lastConfirmed: Option<BoxState>,
    error: Option<string>,
    history: seq<LateEvent>,
    createdAt: nat)

  datatype LogFlag = UncertainUsage(sandbox: string, reason: string) | UnknownInstance(instance: string)

  datatype Fingerprint = Fingerprint(sandbox: string, kind: OpType)

  datatype Ticket = Ticket(fingerprint: Fingerprint, op: nat)

  /** Sandboxes, operations, and the operations' acceptance order. */
  datatype Table = Table(sandboxes: map<string, Sandbox>, ops: map<nat, Operation>, order: seq<nat>)

  datatype Log = Log(
    ledger: Events.Ledger,
    table: Table,
    idempotency: map<string, Ticket>,
    flags: seq<LogFlag>,
    seqNo: nat,
    sourceSeq: nat,
    clock: nat)

  datatype Reply =
    | Accepted(op: nat) | Replayed(op: nat) | PendingReplay(op: nat)
    | InState(state: OpState) | Emitted | Stale | TerminalUnchanged
    | Applied | HistoryOnly | Done
    | VersionConflict | OperationConflict | BodyConflict
    | UnknownSandbox | UnknownOperation | AlreadyExists

  const EMPTY_LOG: Log := Log(Events.EMPTY, Table(map[], map[], []), map[], [], 0, 0, 0)

  predicate Terminal(s: OpState) { s.Confirmed? || s.Failed? }

  function TerminalEvent(s: OpState): EventType {
    if s.Confirmed? then OperationSucceeded else OperationFailed
  }

  predicate GenerationOk(generation: nat, current: nat) { generation >= current }

  // ------------------------------------------------------------ small updates

  function PutOp(log: Log, o: nat, op: Operation): Log {
    log.(table := log.table.(ops := log.table.ops[o := op]))
  }

  function PutBox(log: Log, s: string, sb: Sandbox): Log {
    log.(table := log.table.(sandboxes := log.table.sandboxes[s := sb]))
  }

  function Tick(log: Log): Log { log.(clock := log.clock + 1) }

  function ControlEvent(log: Log, id: EventId, s: string, generation: nat, kind: EventType, lost: Observed): Event {
    Event(id, ResourceKey("sandbox", s), "control-plane", Some(generation), log.sourceSeq + 1, log.clock + 1,
          kind, map[], lost, "", None, None)
  }

  function OpEvent(log: Log, o: nat, op: Operation, kind: EventType): Event {
    ControlEvent(log, OperationEvent(o, kind), op.sandbox, op.generation, kind, Unstated)
  }

  /** _emit: the event goes to the shared ledger (with its outbox entry when asked) and into the row. */
  function Emit(log: Log, o: nat, kind: EventType, outbox: bool): Log
    requires o in log.table.ops
  {
    var op := log.table.ops[o];
    var e := OpEvent(log, o, op, kind);
    var ledger := if outbox then Events.Commit(log.ledger, e, Events.Notice(kind, o, op.sandbox)).0
                  else Events.Append(log.ledger, e).0;
    PutOp(log.(ledger := ledger, sourceSeq := log.sourceSeq + 1, clock := log.clock + 1),
          o, op.(events := op.events + [kind]))
  }

  function EmitLease(log: Log, s: string, generation: nat, lost: Observed): Log {
    var n := log.seqNo + 1;
    var e := ControlEvent(log, LeaseEvent(s, n), s, generation, LeaseExpired, lost);
    log.(ledger := Events.Append(log.ledger, e).0, seqNo := n, sourceSeq := log.sourceSeq + 1, clock := log.clock + 1)
  }

  // ----------------------------------------------------------------- sandboxes

  function Digits(n: nat): string {
    var d := [('0' as int + n % 10) as char];
    if n < 10 then d else Digits(n / 10) + d
  }

  function Padded(n: nat): string {
    var d := Digits(n);
    seq(if |d| < 6 then 6 - |d| else 0, _ => '0') + d
  }

  /** The caller's name, or one made from the next sequence number. */
  function NameFor(name: Option<string>, n: nat): string {
    if name.Some? && name.value != "" then name.value else "sbx_" + Padded(n)
  }

  function CreateSandbox(log: Log, name: Option<string>, desired: BoxState, observed: BoxState, generation: nat): (Log, Reply) {
    var n := log.seqNo + 1;
    var log1 := log.(seqNo := n);
    var s := NameFor(name, n);
    if s in log.table.sandboxes then (log1, AlreadyExists)
    else
      var log2 := Tick(log1);
      (PutBox(log2, s, Sandbox(desired, observed, generation, 1, true, false, false, None, None, None, [], log2.clock)), Done)
  }

  function MarkLost(log: Log, s: string, lastObserved: Option<int>): (Log, Reply) {
    if s !in log.table.sandboxes then (log, UnknownSandbox)
    else
      var sb := log.table.sandboxes[s];
      if sb.observed.Destroyed? then (log, OperationConflict)
      else
        var log1 := PutBox(log, s, sb.(observed := Lost, uncertain := true, version := sb.version + 1));
        (EmitLease(log1, s, sb.generation, if lastObserved.Some? then At(lastObserved.value) else Unknown), Done)
  }

  const LOST_RECONCILED: OpError :=
    OpError("lost_reconciled", "lease expired; outcome resolved by reconciliation")

  /** Reconciliation resolves an outstanding operation as failed. */
  function FailReconciled(log: Log, o: nat): Log
    requires o in log.table.ops
  {
    var op := log.table.ops[o];
    if Terminal(op.state) then log
    else
      var log1 := Tick(log);
      EmitTerminal(PutOp(log1, o, op.(state := Failed, error := Some(LOST_RECONCILED), updatedAt := log1.clock)), o).0
  }

  function MarkReconciled(log: Log, s: string): (Log, Reply) {
    if s !in log.table.sandboxes then (log, UnknownSandbox)
    else
      var sb := log.table.sandboxes[s];
      var log1 := if sb.pending.Some? && sb.pending.value in log.table.ops
                  then FailReconciled(log, sb.pending.value) else log;
      (PutBox(log1, s, sb.(reconciled := true, pending := None, version := sb.version + 1)), Done)
  }

  function MarkUncertain(log: Log, s: string, reason: string): (Log, Reply) {
    if s !in log.table.sandboxes then (log, UnknownSandbox)
    else
      (PutBox(log.(flags := log.flags + [UncertainUsage(s, reason)]), s, log.table.sandboxes[s].(uncertain := true)), Done)
  }

  function FlagUnknown(log: Log, instance: string): (Log, Reply) {
    (log.(flags := log.flags + [UnknownInstance(instance)]), Done)
  }

  // ---------------------------------------------------------------- operations

  /** _accept: the sandbox as acceptance leaves it, or None where acceptance is refused. */
  function Accept(sb: Sandbox, kind: OpType): Option<Sandbox> {
    match kind
    case SuspendOp =>
      if !(sb.observed.Active? || sb.observed.Idle?) then None
      else Some(sb.(observed := Suspending, desired := Suspend))
    case ResumeOp =>
      if !(sb.observed.Suspend? || ((sb.observed.Error? || sb.observed.Lost?) && sb.reconciled)) then None
      else Some(sb.(generation := sb.generation + 1, observed := Resuming, desired := Active, reconciled := false))
    case DestroyOp =>
      var gated := sb.observed.Error? || sb.observed.Lost?;
      if gated && !sb.reconciled then None
      else if !gated && !(sb.observed.Creating? || sb.observed.Active? || sb.observed.Idle? || sb.observed.Suspend?) then None
      else Some(sb.(observed := Destroying, desired := Destroyed))
  }

  /** The sandbox's last destroy operation, searching acceptance order backwards. */
  function LastDestroy(t: Table, order: seq<nat>, s: string): Option<nat> {
    if order == [] then None
    else
      var o := order[|order| - 1];
      if o in t.ops && t.ops[o].sandbox == s && t.ops[o].kind.DestroyOp? then Some(o)
      else LastDestroy(t, order[..|order| - 1], s)
  }

  function Pending(t: Table, sb: Sandbox): Option<nat> {
    if sb.pending.Some? && sb.pending.value in t.ops then sb.pending else None
  }

  /** The accepted intention: row, pending mark, version bump and operation.requested event. */
  function Admit(log: Log, s: string, kind: OpType, key: Option<string>, expected: nat, accepted: Sandbox): Log {
    var o := log.seqNo + 1;
    var log1 := Tick(log.(seqNo := o));
    var op := Operation(s, kind, Requested, expected, accepted.generation, None, None, [], [], log1.clock, log1.clock);
    var log2 := log1.(table := Table(
      log.table.sandboxes[s := accepted.(pending := Some(o), version := accepted.version + 1)],
      log.table.ops[o := op],
      log.table.order + [o]));
    var log3 := Emit(log2, o, OperationRequested, false);
    if key.None? then log3
    else log3.(idempotency := log3.idempotency[key.value := Ticket(Fingerprint(s, kind), o)])
  }

  function Request(log: Log, s: string, kind: OpType, key: Option<string>, expected: Option<nat>): (Log, Reply) {
    if s !in log.table.sandboxes then (log, UnknownSandbox)
    else
      var sb := log.table.sandboxes[s];
      if key.Some? && key.value in log.idempotency then
        var ticket := log.idempotency[key.value];
        (log, if ticket.fingerprint != Fingerprint(s, kind) then BodyConflict else Replayed(ticket.op))
      else
        var prior := if sb.observed.Destroyed? && kind.DestroyOp? then LastDestroy(log.table, log.table.order, s) else None;
        if prior.Some? then (log, Replayed(prior.value))
        else if expected != Some(sb.version) then (log, VersionConflict)
        else
          match Pending(log.table, sb)
          case Some(o) => (log, if log.table.ops[o].kind == kind then PendingReplay(o) else OperationConflict)
          case None =>
            match Accept(sb, kind)
            case None => (log, OperationConflict)
            case Some(accepted) => (Admit(log, s, kind, key, expected.value, accepted), Accepted(log.seqNo + 1))
  }

  /** A write is stale when the operation's generation lies behind its sandbox's. */
  predicate StaleOp(t: Table, o: nat)
    requires o in t.ops
  {
    var op := t.ops[o];
    op.sandbox in t.sandboxes && !GenerationOk(op.generation, t.sandboxes[op.sandbox].generation)
  }

  function KeepAsHistory(log: Log, o: nat, entry: HistoryEntry): Log
    requires o in log.table.ops
  {
    var op := log.table.ops[o];
    PutOp(log, o, op.(history := op.history + [entry]))
  }

  function Dispatch(log: Log, o: nat): (Log, Reply) {
    if o !in log.table.ops then (log, UnknownOperation)
    else
      var op := log.table.ops[o];
      if StaleOp(log.table, o) then (KeepAsHistory(log, o, StaleWrite(DispatchWrite, op.generation, None)), Stale)
      else if op.state.Requested? || op.state.Timeout? then
        var log1 := Tick(log);
        (PutOp(log1, o, op.(state := Dispatched, updatedAt := log1.clock)), InState(Dispatched))
      else (log, InState(op.state))
  }

  function MarkTimeout(log: Log, o: nat): (Log, Reply) {
    if o !in log.table.ops then (log, UnknownOperation)
    else
      var op := log.table.ops[o];
      if StaleOp(log.table, o) then (KeepAsHistory(log, o, StaleWrite(TimeoutWrite, op.generation, None)), Stale)
      else if op.state.Requested? || op.state.Dispatched? then
        var log1 := Tick(log);
        (PutOp(log1, o, op.(state := Timeout, updatedAt := log1.clock)), InState(Timeout))
      else (log, InState(op.state))
  }

  /** The verdict's effect on the operation row. */
  function Concluded(op: Operation, outcome: Outcome): Operation {
    match outcome
    case Succeeded(observed) => op.(state := OpState.Confirmed, result := Some(OpResult(observed, op.generation)))
    case NotSucceeded(code, message) => op.(state := Failed, error := Some(OpError(code.GetOr("operation_failed"), message)))
  }

  /** The verdict's effect on the sandbox; capacity is released only at confirmed removal. */
  function Resolved(sb: Sandbox, outcome: Outcome): Sandbox {
    var settled := match outcome
      case Succeeded(observed) =>
        sb.(observed := observed, error := None, uncertain := false, lastConfirmed := Some(observed),
            reserved := if observed.Destroyed? then false else sb.reserved)
      case NotSucceeded(code, _) =>
        sb.(lastConfirmed := Some(sb.observed), observed := Error, error := Some(code.GetOr("operation_failed")));
    settled.(pending := None, version := sb.version + 1)
  }

  function RuntimeOutcome(log: Log, o: nat, outcome: Outcome): (Log, Reply) {
    if o !in log.table.ops || log.table.ops[o].sandbox !in log.table.sandboxes then (log, UnknownOperation)
    else
      var op := log.table.ops[o];
      if StaleOp(log.table, o) then
        (KeepAsHistory(log, o, StaleWrite(OutcomeWrite, op.generation, Some(outcome))), Stale)
      else if Terminal(op.state) then (KeepAsHistory(log, o, LateTerminal(outcome)), TerminalUnchanged)
      else
        var log1 := Tick(log);
        var op1 := Concluded(op, outcome).(updatedAt := log1.clock);
        (PutBox(PutOp(log1, o, op1), op.sandbox, Resolved(log.table.sandboxes[op.sandbox], outcome)), InState(op1.state))
  }

  function EmitTerminal(log: Log, o: nat): (Log, Reply) {
    if o !in log.table.ops then (log, UnknownOperation)
    else
      var op := log.table.ops[o];
      if !Terminal(op.state) then (log, InState(op.state))
      else if TerminalEvent(op.state) in op.events then (log, Emitted)
      else (Emit(log, o, TerminalEvent(op.state), true), Emitted)
  }

  function ApplyEvent(log: Log, s: string, generation: nat, observed: Option<BoxState>, evidence: string): (Log, Reply) {
    if s !in log.table.sandboxes then (log, UnknownSandbox)
    else
      var sb := log.table.sandboxes[s];
      if !GenerationOk(generation, sb.generation) then
        (PutBox(log, s, sb.(history := sb.history + [LateEvent(generation, observed, evidence)])), HistoryOnly)
      else if observed.None? then (log, Applied)
      else
        (PutBox(log, s, sb.(observed := observed.value,
                            uncertain := if observed.value.Suspend? || observed.value.Destroyed? then false else sb.uncertain,
                            version := sb.version + 1)), Applied)
  }

  // ---------------------------------------------------------------------- runs

  datatype Command =
    | DoCreate(name: Option<string>, desired: BoxState, observed: BoxState, generation: nat)
    | DoMarkLost(sandbox: string, lastObserved: Option<int>)
    | DoMarkReconciled(sandbox: string)
    | DoMarkUncertain(sandbox: string, reason: string)
    | DoFlagUnknown(instance: string)
    | DoRequest(sandbox: string, kind: OpType, key: Option<string>, expected: Option<nat>)
    | DoDispatch(op: nat)
    | DoTimeout(op: nat)
    | DoOutcome(op: nat, outcome: Outcome)
    | DoEmit(op: nat)
    | DoApplyEvent(sandbox: string, generation: nat, state: Option<BoxState>, evidence: string)

  function Step(log: Log, c: Command): Log {
    match c
    case DoCreate(name, desired, observed, generation) => CreateSandbox(log, name, desired, observed, generation).0
    case DoMarkLost(s, last) => MarkLost(log, s, last).0
    case DoMarkReconciled(s) => MarkReconciled(log, s).0
    case DoMarkUncertain(s, reason) => MarkUncertain(log, s, reason).0
    case DoFlagUnknown(instance) => FlagUnknown(log, instance).0
    case DoRequest(s, kind, key, expected) => Request(log, s, kind, key, expected).0
    case DoDispatch(o) => Dispatch(log, o).0
    case DoTimeout(o) => MarkTimeout(log, o).0
    case DoOutcome(o, outcome) => RuntimeOutcome(log, o, outcome).0
    case DoEmit(o) => EmitTerminal(log, o).0
    case DoApplyEvent(s, g, observed, evidence) => ApplyEvent(log, s, g, observed, evidence).0
  }

  function Run(log: Log, cs: seq<Command>): Log
    decreases |cs|
  {
    if cs == [] then log else Run(Step(log, cs[0]), cs[1..])
  }
}
