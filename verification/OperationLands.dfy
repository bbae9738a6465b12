/**
 What one command makes of one sandbox and of one operation in any reachable log, field by
 field, and when a request is accepted.  Pending marks stand in for operation states here:
 a verdict lands exactly on the operation its sandbox waits for.
 */
module OperationLands {
  import opened Basics
  import opened EventFold
  import Events = EventLedger
  import opened OperationLog
  import opened OperationInvariant

  // ------------------------------------------- one sandbox

  /** The sandbox once it waits for operation o of this kind. */
  function Underway(sb: Sandbox, kind: OpType, o: nat): Sandbox {
    match kind
    case SuspendOp => sb.(observed := Suspending, desired := Suspend, pending := Some(o), version := sb.version + 1)
    case ResumeOp =>
      sb.(observed := Resuming, desired := Active, pending := Some(o), version := sb.version + 1,
          generation := sb.generation + 1, reconciled := false)
    case DestroyOp => sb.(observed := Destroying, desired := Destroyed, pending := Some(o), version := sb.version + 1)
  }

  /** A success shows what it observed and gives capacity back only when that is removal; a failure shows an error and keeps it. */
  function Judged(sb: Sandbox, outcome: Outcome): Sandbox {
    match outcome
    case Succeeded(Destroyed) =>
      sb.(observed := Destroyed, lastConfirmed := Some(Destroyed), error := None, uncertain := false, reserved := false,
          pending := None, version := sb.version + 1)
    case Succeeded(x) =>
      sb.(observed := x, lastConfirmed := Some(x), error := None, uncertain := false, pending := None, version := sb.version + 1)
    case NotSucceeded(code, _) =>
      sb.(observed := Error, lastConfirmed := Some(sb.observed), error := Some(if code.Some? then code.value else "operation_failed"),
          pending := None, version := sb.version + 1)
  }

  /** Evidence of an older generation is kept for the record; newer evidence is believed. */
  function Witnessed(sb: Sandbox, generation: nat, state: Option<BoxState>, evidence: string): Sandbox {
    if generation < sb.generation then sb.(history := sb.history + [LateEvent(generation, state, evidence)])
    else
      match state
      case None => sb
      case Some(Suspend) => sb.(observed := Suspend, uncertain := false, version := sb.version + 1)
      case Some(Destroyed) => sb.(observed := Destroyed, uncertain := false, version := sb.version + 1)
      case Some(x) => sb.(observed := x, version := sb.version + 1)
  }

  /** What a command makes of sandbox s. */
  function BoxAfter(log: Log, c: Command, s: string): Sandbox
    requires s in log.table.sandboxes
  {
    var sb := log.table.sandboxes[s];
    match c
    case DoMarkLost(x, _) =>
      if x == s && sb.observed != Destroyed then sb.(observed := Lost, uncertain := true, version := sb.version + 1) else sb
    case DoMarkReconciled(x) => if x == s then sb.(reconciled := true, pending := None, version := sb.version + 1) else sb
    case DoMarkUncertain(x, _) => if x == s then sb.(uncertain := true) else sb
    case DoApplyEvent(x, generation, state, evidence) => if x == s then Witnessed(sb, generation, state, evidence) else sb
    case DoRequest(x, kind, key, expected) =>
      if x == s && Request(log, x, kind, key, expected).1.Accepted? then Underway(sb, kind, log.seqNo + 1) else sb
    case DoOutcome(o, outcome) => if sb.pending == Some(o) then Judged(sb, outcome) else sb
    case _ => sb
  }

  lemma ResolvedIsJudged(sb: Sandbox, outcome: Outcome)
    ensures Resolved(sb, outcome) == Judged(sb, outcome)
  {
  }

  lemma OutcomeOnBox(log: Log, o: nat, outcome: Outcome, s: string)
    requires Inv(log) && s in log.table.sandboxes
    ensures var t := RuntimeOutcome(log, o, outcome).0.table;
            s in t.sandboxes && t.sandboxes[s] == BoxAfter(log, DoOutcome(o, outcome), s)
  {
    hide TrailOk, RowsOk, Sequenced, Ordered, Resolved, Judged;
    ResolvedIsJudged(log.table.sandboxes[s], outcome);
  }

  lemma ReconciledOnBox(log: Log, x: string, s: string)
    requires s in log.table.sandboxes
    ensures var t := MarkReconciled(log, x).0.table;
            s in t.sandboxes && t.sandboxes[s] == BoxAfter(log, DoMarkReconciled(x), s)
  {
    hide Emit;
    if x in log.table.sandboxes && log.table.sandboxes[x].pending.Some? && log.table.sandboxes[x].pending.value in log.table.ops {
      FailedKeepsBoxes(log, log.table.sandboxes[x].pending.value);
    }
    hide FailReconciled;
  }

  lemma FailedKeepsBoxes(log: Log, o: nat)
    requires o in log.table.ops
    ensures FailReconciled(log, o).table.sandboxes == log.table.sandboxes
  {
    hide Events.Append, Events.Commit;
  }

  lemma RequestOnBox(log: Log, x: string, kind: OpType, key: Option<string>, expected: Option<nat>, s: string)
    requires s in log.table.sandboxes
    ensures var t := Request(log, x, kind, key, expected).0.table;
            s in t.sandboxes && t.sandboxes[s] == BoxAfter(log, DoRequest(x, kind, key, expected), s)
  {
    hide LastDestroy, Admit;
    if x in log.table.sandboxes && Request(log, x, kind, key, expected).1.Accepted? {
      AdmitsBox(log, x, kind, key, expected.value, Accept(log.table.sandboxes[x], kind).value);
    }
  }

  lemma AdmitsBox(log: Log, s: string, kind: OpType, key: Option<string>, expected: nat, accepted: Sandbox)
    ensures Admit(log, s, kind, key, expected, accepted).table.sandboxes ==
            log.table.sandboxes[s := accepted.(pending := Some(log.seqNo + 1), version := accepted.version + 1)]
  {
    hide Events.Append;
  }

  lemma QuietOnBox(log: Log, c: Command, s: string)
    requires s in log.table.sandboxes && (c.DoDispatch? || c.DoTimeout? || c.DoEmit?)
    ensures s in Step(log, c).table.sandboxes && Step(log, c).table.sandboxes[s] == BoxAfter(log, c, s)
  {
    hide Events.Append, Events.Commit;
  }

  lemma LostOnBox(log: Log, x: string, last: Option<int>, s: string)
    requires s in log.table.sandboxes
    ensures var t := MarkLost(log, x, last).0.table; s in t.sandboxes && t.sandboxes[s] == BoxAfter(log, DoMarkLost(x, last), s)
  {
    hide Events.Append;
  }

  lemma EvidenceOnBox(log: Log, x: string, generation: nat, state: Option<BoxState>, evidence: string, s: string)
    requires s in log.table.sandboxes
    ensures var t := ApplyEvent(log, x, generation, state, evidence).0.table;
            s in t.sandboxes && t.sandboxes[s] == BoxAfter(log, DoApplyEvent(x, generation, state, evidence), s)
  {
  }

  lemma MarksOnBox(log: Log, c: Command, s: string)
    requires s in log.table.sandboxes && (c.DoCreate? || c.DoMarkUncertain? || c.DoFlagUnknown?)
    ensures s in Step(log, c).table.sandboxes && Step(log, c).table.sandboxes[s] == BoxAfter(log, c, s)
  {
    hide Padded;
  }

  /** Every command makes of every sandbox what its table entry says. */
  lemma BoxFollows(log: Log, c: Command, s: string)
    requires Inv(log) && s in log.table.sandboxes
    ensures s in Step(log, c).table.sandboxes && Step(log, c).table.sandboxes[s] == BoxAfter(log, c, s)
  {
    hide Inv, BoxAfter, Request, MarkReconciled, RuntimeOutcome, MarkLost, ApplyEvent;
    match c
    case DoRequest(x, kind, key, expected) => RequestOnBox(log, x, kind, key, expected, s);
    case DoMarkReconciled(x) => ReconciledOnBox(log, x, s);
    case DoOutcome(o, outcome) => OutcomeOnBox(log, o, outcome, s);
    case DoDispatch(_) => QuietOnBox(log, c, s);
    case DoTimeout(_) => QuietOnBox(log, c, s);
    case DoEmit(_) => QuietOnBox(log, c, s);
    case DoMarkLost(x, last) => LostOnBox(log, x, last, s);
    case DoApplyEvent(x, generation, state, evidence) => EvidenceOnBox(log, x, generation, state, evidence, s);
    case _ => MarksOnBox(log, c, s);
  }

  /** Only a creation adds a sandbox, and a new one is reserved, certain and idle at version 1. */
  lemma NewBox(log: Log, c: Command, s: string)
    requires Inv(log) && s !in log.table.sandboxes && s in Step(log, c).table.sandboxes
    ensures c.DoCreate? && (c.name.Some? && c.name.value != "" ==> s == c.name.value)
    ensures var sb := Step(log, c).table.sandboxes[s];
            sb == Sandbox(c.desired, c.observed, c.generation, 1, true, false, false, None, None, None, [], log.clock + 1)
  {
    hide Inv, Request, MarkReconciled, RuntimeOutcome, Events.Append, Events.Commit, Padded;
    match c
    case DoRequest(x, kind, key, expected) => RequestAddsNoBox(log, x, kind, key, expected, s);
    case DoMarkReconciled(x) => ReconciledAddsNoBox(log, x, s);
    case DoOutcome(o, outcome) => OutcomeAddsNoBox(log, o, outcome, s);
    case _ =>
  }

  lemma RequestAddsNoBox(log: Log, x: string, kind: OpType, key: Option<string>, expected: Option<nat>, s: string)
    ensures s in Request(log, x, kind, key, expected).0.table.sandboxes <==> s in log.table.sandboxes
  {
    hide LastDestroy, Admit;
    if x in log.table.sandboxes && Request(log, x, kind, key, expected).1.Accepted? {
      AdmitsBox(log, x, kind, key, expected.value, Accept(log.table.sandboxes[x], kind).value);
    }
  }

  lemma ReconciledAddsNoBox(log: Log, x: string, s: string)
    ensures s in MarkReconciled(log, x).0.table.sandboxes <==> s in log.table.sandboxes
  {
    if x in log.table.sandboxes && log.table.sandboxes[x].pending.Some? && log.table.sandboxes[x].pending.value in log.table.ops {
      FailedKeepsBoxes(log, log.table.sandboxes[x].pending.value);
    }
    hide FailReconciled;
  }

  lemma OutcomeAddsNoBox(log: Log, o: nat, outcome: Outcome, s: string)
    ensures s in RuntimeOutcome(log, o, outcome).0.table.sandboxes <==> s in log.table.sandboxes
  {
  }

  // ------------------------------------------- one operation

  /** A row without the time of its last change. */
  function Timeless(op: Operation): Operation { op.(updatedAt := 0) }

  function Ruled(op: Operation, outcome: Outcome): Operation {
    match outcome
    case Succeeded(x) => op.(state := OpState.Confirmed, result := Some(OpResult(x, op.generation)))
    case NotSucceeded(code, message) =>
      op.(state := Failed, error := Some(OpError(if code.Some? then code.value else "operation_failed", message)))
  }

  predicate Decided(op: Operation) { op.state == OpState.Confirmed || op.state == Failed }

  /** What a command makes of operation o. */
  function RowAfter(log: Log, c: Command, o: nat): Operation
    requires o in log.table.ops && log.table.ops[o].sandbox in log.table.sandboxes
  {
    var op, sb := log.table.ops[o], log.table.sandboxes[log.table.ops[o].sandbox];
    var stale := op.generation < sb.generation;
    match c
    case DoDispatch(p) =>
      if p != o then op
      else if stale then op.(history := op.history + [StaleWrite(DispatchWrite, op.generation, None)])
      else if op.state == Requested || op.state == Timeout then op.(state := Dispatched) else op
    case DoTimeout(p) =>
      if p != o then op
      else if stale then op.(history := op.history + [StaleWrite(TimeoutWrite, op.generation, None)])
      else if op.state == Requested || op.state == Dispatched then op.(state := Timeout) else op
    case DoOutcome(p, outcome) =>
      if p != o then op
      else if sb.pending == Some(o) then Ruled(op, outcome)
      else if stale then op.(history := op.history + [StaleWrite(OutcomeWrite, op.generation, Some(outcome))])
      else op.(history := op.history + [LateTerminal(outcome)])
    case DoMarkReconciled(s) =>
      if s == op.sandbox && sb.pending == Some(o) then
        op.(state := Failed, events := op.events + [OperationFailed],
            error := Some(OpError("lost_reconciled", "lease expired; outcome resolved by reconciliation")))
      else op
    case DoEmit(p) =>
      if p != o then op
      else if op.state == OpState.Confirmed && OperationSucceeded !in op.events then op.(events := op.events + [OperationSucceeded])
      else if op.state == Failed && OperationFailed !in op.events then op.(events := op.events + [OperationFailed])
      else op
    case _ => op
  }

  lemma DispatchOnRow(log: Log, p: nat, o: nat)
    requires Housed(log.table) && o in log.table.ops
    ensures var ops := Dispatch(log, p).0.table.ops; o in ops && Timeless(ops[o]) == Timeless(RowAfter(log, DoDispatch(p), o))
  {
  }

  lemma TimeoutOnRow(log: Log, p: nat, o: nat)
    requires Housed(log.table) && o in log.table.ops
    ensures var ops := MarkTimeout(log, p).0.table.ops; o in ops && Timeless(ops[o]) == Timeless(RowAfter(log, DoTimeout(p), o))
  {
  }

  lemma OutcomeOnRow(log: Log, p: nat, outcome: Outcome, o: nat)
    requires Inv(log) && o in log.table.ops
    ensures var ops := RuntimeOutcome(log, p, outcome).0.table.ops;
            o in ops && Timeless(ops[o]) == Timeless(RowAfter(log, DoOutcome(p, outcome), o))
  {
    hide TrailOk, RowsOk, Sequenced, Ordered;
  }

  lemma EmitOnRow(log: Log, p: nat, o: nat)
    requires Housed(log.table) && o in log.table.ops
    ensures var ops := EmitTerminal(log, p).0.table.ops; o in ops && Timeless(ops[o]) == Timeless(RowAfter(log, DoEmit(p), o))
  {
    hide Events.Append, Events.Commit;
  }

  lemma ReconciledOnRow(log: Log, s: string, o: nat)
    requires Inv(log) && o in log.table.ops
    ensures var ops := MarkReconciled(log, s).0.table.ops;
            o in ops && Timeless(ops[o]) == Timeless(RowAfter(log, DoMarkReconciled(s), o))
  {
    hide TrailOk, Sequenced, Ordered, Events.Append, Events.Commit;
    if s in log.table.sandboxes && log.table.sandboxes[s].pending.Some? {
      var p := log.table.sandboxes[s].pending.value;
      assert log.table.ops[p].events == [OperationRequested];
    }
  }

  lemma RequestOnRow(log: Log, s: string, kind: OpType, key: Option<string>, expected: Option<nat>, o: nat)
    requires Inv(log) && o in log.table.ops
    ensures var ops := Request(log, s, kind, key, expected).0.table.ops; o in ops && ops[o] == log.table.ops[o]
  {
    hide TrailOk, RowsOk, Sequenced, Events.Append;
    FreshNumber(log);
  }

  lemma MarksOnRow(log: Log, c: Command)
    requires c.DoCreate? || c.DoMarkLost? || c.DoMarkUncertain? || c.DoFlagUnknown? || c.DoApplyEvent?
    ensures Step(log, c).table.ops == log.table.ops
  {
    hide Events.Append, Padded;
  }

  /** Every command makes of every operation what its table entry says. */
  lemma RowFollows(log: Log, c: Command, o: nat)
    requires Inv(log) && o in log.table.ops
    ensures o in Step(log, c).table.ops && Timeless(Step(log, c).table.ops[o]) == Timeless(RowAfter(log, c, o))
  {
    assert Housed(log.table);
    hide Inv, RowAfter, Timeless, Request, MarkReconciled, Dispatch, MarkTimeout, RuntimeOutcome, EmitTerminal;
    match c
    case DoRequest(s, kind, key, expected) => RequestOnRow(log, s, kind, key, expected, o); SameRow(log, c, o);
    case DoMarkReconciled(s) => ReconciledOnRow(log, s, o);
    case DoDispatch(p) => DispatchOnRow(log, p, o);
    case DoTimeout(p) => TimeoutOnRow(log, p, o);
    case DoOutcome(p, outcome) => OutcomeOnRow(log, p, outcome, o);
    case DoEmit(p) => EmitOnRow(log, p, o);
    case _ => MarksOnRow(log, c); SameRow(log, c, o);
  }

  lemma SameRow(log: Log, c: Command, o: nat)
    requires o in log.table.ops && log.table.ops[o].sandbox in log.table.sandboxes
    requires !c.DoMarkReconciled? && !c.DoDispatch? && !c.DoTimeout? && !c.DoOutcome? && !c.DoEmit?
    ensures RowAfter(log, c, o) == log.table.ops[o]
  {
  }

  /** Only an accepted request adds an operation: the next number, not yet run, at the accepted version. */
  lemma NewOp(log: Log, c: Command, o: nat)
    requires Inv(log) && o !in log.table.ops && o in Step(log, c).table.ops
    ensures c.DoRequest? && Request(log, c.sandbox, c.kind, c.key, c.expected).1 == Accepted(o) && o == log.seqNo + 1
    ensures var op := Step(log, c).table.ops[o];
            && c.sandbox in Step(log, c).table.sandboxes
            && op == Operation(c.sandbox, c.kind, Requested, c.expected.value,
                               Step(log, c).table.sandboxes[c.sandbox].generation, None, None, [OperationRequested], [], log.clock + 1, log.clock + 1)
  {
    hide Inv, Request, MarkReconciled, Dispatch, MarkTimeout, RuntimeOutcome, EmitTerminal;
    match c
    case DoRequest(s, kind, key, expected) => RequestNewOp(log, s, kind, key, expected, o);
    case DoMarkReconciled(s) => ReconciledNoRow(log, s, o);
    case DoDispatch(p) => StagesNoRow(log, p, Succeeded(Lost), o);
    case DoTimeout(p) => StagesNoRow(log, p, Succeeded(Lost), o);
    case DoOutcome(p, outcome) => StagesNoRow(log, p, outcome, o);
    case DoEmit(p) => EmitNoRow(log, p, o);
    case _ => MarksOnRow(log, c);
  }

  lemma StagesNoRow(log: Log, p: nat, outcome: Outcome, o: nat)
    ensures o in Dispatch(log, p).0.table.ops <==> o in log.table.ops
    ensures o in MarkTimeout(log, p).0.table.ops <==> o in log.table.ops
    ensures o in RuntimeOutcome(log, p, outcome).0.table.ops <==> o in log.table.ops
  {
    hide Resolved, Concluded;
  }

  lemma EmitNoRow(log: Log, p: nat, o: nat)
    ensures o in EmitTerminal(log, p).0.table.ops <==> o in log.table.ops
  {
    hide Events.Append, Events.Commit;
  }

  lemma ReconciledNoRow(log: Log, s: string, o: nat)
    ensures o in MarkReconciled(log, s).0.table.ops <==> o in log.table.ops
  {
    hide Events.Append, Events.Commit;
  }

  lemma RequestNewOp(log: Log, s: string, kind: OpType, key: Option<string>, expected: Option<nat>, o: nat)
    requires o !in log.table.ops && o in Request(log, s, kind, key, expected).0.table.ops
    ensures var (next, reply) := Request(log, s, kind, key, expected);
            && reply == Accepted(o) && o == log.seqNo + 1 && s in next.table.sandboxes && expected.Some?
            && next.table.ops[o] == Operation(s, kind, Requested, expected.value, next.table.sandboxes[s].generation,
                                              None, None, [OperationRequested], [], log.clock + 1, log.clock + 1)
  {
    hide LastDestroy, Events.Append;
  }

  // ------------------------------------------- when a request is accepted

  /** What may be asked of a sandbox in its observed state. */
  predicate Allows(sb: Sandbox, kind: OpType) {
    match sb.observed
    case Active => !kind.ResumeOp?
    case Idle => !kind.ResumeOp?
    case Suspend => !kind.SuspendOp?
    case Creating => kind.DestroyOp?
    case Error => sb.reconciled && !kind.SuspendOp?
    case Lost => sb.reconciled && !kind.SuspendOp?
    case _ => false
  }

  /** A destroy operation of sandbox s with no later one in acceptance order. */
  predicate LatestDestroy(t: Table, s: string, i: int) {
    && 0 <= i < |t.order| && IsDestroyOf(t, t.order[i], s)
    && forall j :: i < j < |t.order| ==> !IsDestroyOf(t, t.order[j], s)
  }

  predicate IsDestroyOf(t: Table, o: nat, s: string) { o in t.ops && t.ops[o].sandbox == s && t.ops[o].kind.DestroyOp? }

  lemma {:induction false} LastDestroyIs(t: Table, n: nat, s: string)
    requires n <= |t.order|
    ensures LastDestroy(t, t.order[..n], s).None? ==> forall j :: 0 <= j < n ==> !IsDestroyOf(t, t.order[j], s)
    ensures LastDestroy(t, t.order[..n], s).Some? ==>
              exists i :: 0 <= i < n && t.order[i] == LastDestroy(t, t.order[..n], s).value && IsDestroyOf(t, t.order[i], s)
                          && forall j :: i < j < n ==> !IsDestroyOf(t, t.order[j], s)
  {
    if n > 0 {
      assert t.order[..n][..n - 1] == t.order[..n - 1];
      LastDestroyIs(t, n - 1, s);
    }
  }

  /** Some destroy of a destroyed sandbox is on record, and another one is asked for. */
  ghost predicate DestroyedAgain(t: Table, s: string, kind: OpType)
    requires s in t.sandboxes
  {
    t.sandboxes[s].observed == Destroyed && kind.DestroyOp? && exists i :: LatestDestroy(t, s, i)
  }

  /** The answer to a request, in the order in which its obstacles are looked at. */
  ghost predicate Answers(log: Log, s: string, kind: OpType, key: Option<string>, expected: Option<nat>, reply: Reply) {
    var t := log.table;
    if s !in t.sandboxes then reply == UnknownSandbox
    else if key.Some? && key.value in log.idempotency then
      var ticket := log.idempotency[key.value];
      reply == if ticket.fingerprint.sandbox == s && ticket.fingerprint.kind == kind then Replayed(ticket.op) else BodyConflict
    else if DestroyedAgain(t, s, kind) then exists i :: LatestDestroy(t, s, i) && reply == Replayed(t.order[i])
    else if expected.None? || expected.value != t.sandboxes[s].version then reply == VersionConflict
    else if t.sandboxes[s].pending.Some? then
      var o := t.sandboxes[s].pending.value;
      o in t.ops && reply == if t.ops[o].kind == kind then PendingReplay(o) else OperationConflict
    else reply == if Allows(t.sandboxes[s], kind) then Accepted(log.seqNo + 1) else OperationConflict
  }

  lemma AcceptAllows(sb: Sandbox, kind: OpType)
    ensures Accept(sb, kind).Some? <==> Allows(sb, kind)
  {
  }

  /** Every request of every reachable log is answered that way, and changes nothing unless it is accepted. */
  lemma RequestAnswers(log: Log, s: string, kind: OpType, key: Option<string>, expected: Option<nat>)
    requires Inv(log)
    ensures var (next, reply) := Request(log, s, kind, key, expected);
            Answers(log, s, kind, key, expected, reply) && (!reply.Accepted? ==> next == log)
  {
    hide Inv, Allows, Accept, LastDestroy, Admit, LatestDestroy;
    var t := log.table;
    if s in t.sandboxes {
      AcceptAllows(t.sandboxes[s], kind);
      if t.sandboxes[s].pending.Some? { PendingKnown(log, s); }
      LastDestroyUnique(t, s);
    }
  }

  lemma LastDestroyUnique(t: Table, s: string)
    ensures (exists i :: LatestDestroy(t, s, i)) <==> LastDestroy(t, t.order, s).Some?
    ensures LastDestroy(t, t.order, s).Some? ==> exists i :: LatestDestroy(t, s, i) && t.order[i] == LastDestroy(t, t.order, s).value
  {
    LastDestroyIs(t, |t.order|, s);
    assert t.order[..|t.order|] == t.order;
    hide LastDestroy;
    if LastDestroy(t, t.order, s).None? {
      forall i ensures !LatestDestroy(t, s, i) {
        if 0 <= i < |t.order| { assert !IsDestroyOf(t, t.order[i], s); }
      }
    } else {
      var i :| 0 <= i < |t.order| && t.order[i] == LastDestroy(t, t.order, s).value && IsDestroyOf(t, t.order[i], s)
               && forall j :: i < j < |t.order| ==> !IsDestroyOf(t, t.order[j], s);
      assert LatestDestroy(t, s, i);
    }
  }

  // ------------------------------------------- flags and names

  /** Only uncertain usage and unknown instances are flagged, and flags are only added. */
  lemma FlagsFollow(log: Log, c: Command)
    ensures Step(log, c).flags ==
            match c
            case DoMarkUncertain(s, reason) =>
              if s in log.table.sandboxes then log.flags + [UncertainUsage(s, reason)] else log.flags
            case DoFlagUnknown(instance) => log.flags + [UnknownInstance(instance)]
            case _ => log.flags
  {
    hide Events.Append, Events.Commit, Padded, LastDestroy;
  }

  /** The number a string of decimal digits stands for. */
  function ValueOf(d: string): nat
    requires forall i :: 0 <= i < |d| ==> '0' <= d[i] <= '9'
  {
    if d == "" then 0 else 10 * ValueOf(d[..|d| - 1]) + (d[|d| - 1] as nat - '0' as nat)
  }

  predicate AllDigits(d: string) { forall i :: 0 <= i < |d| ==> '0' <= d[i] <= '9' }

  lemma {:induction false} DigitsRead(n: nat)
    ensures AllDigits(Digits(n)) && ValueOf(Digits(n)) == n && Digits(n) != ""
  {
    var last := [('0' as int + n % 10) as char];
    assert last[..0] == "" && ValueOf(last) == n % 10;
    if n >= 10 {
      DigitsRead(n / 10);
      assert Digits(n) == Digits(n / 10) + last;
      assert Digits(n)[..|Digits(n)| - 1] == Digits(n / 10);
    }
  }

  lemma {:induction false} ZerosRead(zeros: nat, d: string)
    requires AllDigits(d)
    ensures var p := seq(zeros, _ => '0') + d; AllDigits(p) && ValueOf(p) == ValueOf(d)
    decreases |d|
  {
    var z := seq(zeros, _ => '0');
    var p := z + d;
    if d == "" {
      assert p == z;
      OnlyZeros(zeros);
    } else {
      ZerosRead(zeros, d[..|d| - 1]);
      assert p[..|p| - 1] == z + d[..|d| - 1];
    }
  }

  lemma {:induction false} OnlyZeros(n: nat)
    ensures AllDigits(seq(n, _ => '0')) && ValueOf(seq(n, _ => '0')) == 0
  {
    if n > 0 {
      OnlyZeros(n - 1);
      assert seq(n, _ => '0')[..n - 1] == seq(n - 1, _ => '0');
    }
  }

  /** A sandbox created without a name is called after the next number, in at least six digits. */
  lemma UnnamedIsNumbered(n: nat)
    ensures var s := NameFor(None, n);
            |s| >= 10 && s[..4] == "sbx_" && AllDigits(s[4..]) && ValueOf(s[4..]) == n
    ensures NameFor(Some(""), n) == NameFor(None, n)
    ensures forall name :: name != "" ==> NameFor(Some(name), n) == name
  {
    var d := Digits(n);
    DigitsRead(n);
    ZerosRead(if |d| < 6 then 6 - |d| else 0, d);
    assert NameFor(None, n)[4..] == Padded(n);
  }

  // ------------------------------------------- replies

  /** The answer to a write on operation o: whether it is known, outdated, already decided, or the state it is in now. */
  lemma StageReplies(log: Log, o: nat, outcome: Outcome)
    requires Inv(log)
    ensures var known := o in log.table.ops;
            var stale := known && log.table.ops[o].generation < log.table.sandboxes[log.table.ops[o].sandbox].generation;
            && Answered(Dispatch(log, o).1, known, stale, Dispatch(log, o).0.table, o)
            && Answered(MarkTimeout(log, o).1, known, stale, MarkTimeout(log, o).0.table, o)
            && (if known && !stale && Decided(log.table.ops[o]) then RuntimeOutcome(log, o, outcome).1 == TerminalUnchanged
                else Answered(RuntimeOutcome(log, o, outcome).1, known, stale, RuntimeOutcome(log, o, outcome).0.table, o))
            && EmitTerminal(log, o).1 ==
                 (if !known then UnknownOperation else if Decided(log.table.ops[o]) then Emitted else InState(log.table.ops[o].state))
  {
    hide TrailOk, RowsOk, Sequenced, Ordered, Serialized, Emit, Resolved;
  }

  predicate Answered(reply: Reply, known: bool, stale: bool, t: Table, o: nat) {
    if !known then reply == UnknownOperation
    else if stale then reply == Stale
    else o in t.ops && reply == InState(t.ops[o].state)
  }

  /** The answer to a command on sandbox s. */
  lemma BoxReplies(log: Log, s: string, last: Option<int>, reason: string, g: nat, state: Option<BoxState>, evidence: string)
    ensures var known := s in log.table.sandboxes;
            && MarkLost(log, s, last).1 ==
                 (if !known then UnknownSandbox else if log.table.sandboxes[s].observed == Destroyed then OperationConflict else Reply.Done)
            && MarkReconciled(log, s).1 == (if known then Reply.Done else UnknownSandbox)
            && MarkUncertain(log, s, reason).1 == (if known then Reply.Done else UnknownSandbox)
            && ApplyEvent(log, s, g, state, evidence).1 ==
                 (if !known then UnknownSandbox else if g < log.table.sandboxes[s].generation then HistoryOnly else Applied)
    ensures forall name, desired, observed ::
              CreateSandbox(log, name, desired, observed, g).1 ==
              if NameFor(name, log.seqNo + 1) in log.table.sandboxes then AlreadyExists else Reply.Done
  {
    hide Events.Append, Events.Commit, FailReconciled, NameFor;
  }
}
