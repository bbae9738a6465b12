/**
 What whole runs of commands leave: which capacity is released, where verdicts come from,
 when a lost sandbox can be changed again, and what a request key stands for.
 */
module OperationFates {
  import opened Basics
  import opened EventFold
  import Events = EventLedger
  import opened OperationLog
  import opened OperationInvariant
  import opened OperationLands
  import OperationFencing

  function After(cs: seq<Command>): Log { Run(EMPTY_LOG, cs) }

  lemma {:induction false} RunSnoc(log: Log, cs: seq<Command>, c: Command)
    ensures Run(log, cs + [c]) == Step(Run(log, cs), c)
    decreases |cs|
  {
    hide Step;
    if cs == [] {
      assert ([] + [c])[1..] == [];
    } else {
      RunSnoc(Step(log, cs[0]), cs[1..], c);
      assert (cs + [c])[1..] == cs[1..] + [c];
    }
  }

  /** The run up to and including command n. */
  lemma AfterNext(cs: seq<Command>, n: nat)
    requires n < |cs|
    ensures After(cs[..n + 1]) == Step(After(cs[..n]), cs[n]) && Inv(After(cs[..n]))
  {
    assert cs[..n + 1] == cs[..n] + [cs[n]];
    RunSnoc(EMPTY_LOG, cs[..n], cs[n]);
    EmptyInv();
    RunInv(EMPTY_LOG, cs[..n]);
  }

  lemma AfterIs(cs: seq<Command>)
    ensures Inv(After(cs)) && cs[..|cs|] == cs
  {
    EmptyInv();
    RunInv(EMPTY_LOG, cs);
  }

  // ------------------------------------------- capacity

  /** Operation o removed sandbox s for certain. */
  predicate Removes(t: Table, o: nat, s: string) {
    o in t.ops && t.ops[o].sandbox == s && t.ops[o].state == OpState.Confirmed
    && t.ops[o].result.Some? && t.ops[o].result.value.observed == Destroyed
  }

  ghost predicate Removed(t: Table, s: string) { exists o :: Removes(t, o, s) }

  ghost predicate ReleasedRight(t: Table, s: string) { s in t.sandboxes ==> (!t.sandboxes[s].reserved <==> Removed(t, s)) }

  /** Only a success that shows removal, on the operation its sandbox waits for, removes anything. */
  lemma RemovesNext(log: Log, c: Command, s: string)
    requires Inv(log)
    ensures var t := Step(log, c).table;
            var removes := c.DoOutcome? && c.outcome == Succeeded(Destroyed) && s in log.table.sandboxes && log.table.sandboxes[s].pending == Some(c.op);
            Removed(t, s) <==> Removed(log.table, s) || removes
  {
    hide Inv, Step, Timeless, RowAfter;
    var t, next := log.table, Step(log, c).table;
    PendingRows(log);
    forall o | o in t.ops ensures o in next.ops && Timeless(next.ops[o]) == Timeless(RowAfter(log, c, o)) { RowFollows(log, c, o); }
    forall o | o in next.ops && o !in t.ops ensures next.ops[o].state == Requested { NewOp(log, c, o); }
    PendingOn(log, s);
    forall o ensures Removes(next, o, s) <==> Removes(t, o, s) || (o in t.ops && Concludes(log, c, o) && t.ops[o].sandbox == s) {
      if o in t.ops { RowRemoves(log, c, o, next.ops[o]); }
    }
  }

  /** The command is a success that shows removal for the operation its sandbox waits for. */
  predicate Concludes(log: Log, c: Command, o: nat) {
    && c.DoOutcome? && c.op == o && c.outcome == Succeeded(Destroyed)
    && o in log.table.ops && log.table.ops[o].sandbox in log.table.sandboxes
    && log.table.sandboxes[log.table.ops[o].sandbox].pending == Some(o)
  }

  lemma RowRemoves(log: Log, c: Command, o: nat, op: Operation)
    requires o in log.table.ops && log.table.ops[o].sandbox in log.table.sandboxes
    requires Timeless(op) == Timeless(RowAfter(log, c, o))
    requires log.table.sandboxes[log.table.ops[o].sandbox].pending == Some(o) ==> !Decided(log.table.ops[o])
    ensures op.sandbox == log.table.ops[o].sandbox
    ensures op.state == OpState.Confirmed && op.result.Some? && op.result.value.observed == Destroyed <==>
              Concludes(log, c, o) ||
              (log.table.ops[o].state == OpState.Confirmed && log.table.ops[o].result.Some? && log.table.ops[o].result.value.observed == Destroyed)
  {
    assert op == RowAfter(log, c, o).(updatedAt := op.updatedAt) by {
      assert op == Timeless(op).(updatedAt := op.updatedAt);
      assert RowAfter(log, c, o).(updatedAt := op.updatedAt) == Timeless(RowAfter(log, c, o)).(updatedAt := op.updatedAt);
    }
    hide Timeless;
  }

  lemma PendingOn(log: Log, s: string)
    requires Inv(log)
    ensures s in log.table.sandboxes && log.table.sandboxes[s].pending.Some? ==>
              var o := log.table.sandboxes[s].pending.value;
              o in log.table.ops && log.table.ops[o].sandbox == s && !Decided(log.table.ops[o])
  {
    if s in log.table.sandboxes && log.table.sandboxes[s].pending.Some? { PendingKnown(log, s); }
  }

  lemma PendingRows(log: Log)
    requires Inv(log)
    ensures forall o :: o in log.table.ops ==> log.table.ops[o].sandbox in log.table.sandboxes
    ensures forall o :: o in log.table.ops ==>
              (log.table.sandboxes[log.table.ops[o].sandbox].pending == Some(o) <==> !Decided(log.table.ops[o]))
  {
    hide TrailOk, RowsOk, Sequenced, Ordered;
  }

  lemma StepReleases(log: Log, c: Command, s: string)
    requires Inv(log) && ReleasedRight(log.table, s)
    ensures ReleasedRight(Step(log, c).table, s)
  {
    hide Inv, Step, Removed;
    RemovesNext(log, c, s);
    if s in log.table.sandboxes {
      BoxFollows(log, c, s);
    } else if s in Step(log, c).table.sandboxes {
      NewBox(log, c, s);
      NothingRemoved(log, s);
    }
  }

  lemma NothingRemoved(log: Log, s: string)
    requires Inv(log) && s !in log.table.sandboxes
    ensures !Removed(log.table, s)
  {
    PendingRows(log);
    hide Inv;
  }

  /**
   Capacity is released exactly by confirmed removal: in every run a sandbox is no longer
   reserved if and only if some operation on it is confirmed and showed it destroyed.
   */
  lemma {:induction false} ReservedUntilRemoved(cs: seq<Command>, s: string)
    ensures ReleasedRight(After(cs).table, s)
  {
    if cs != [] {
      var n := |cs| - 1;
      ReservedUntilRemoved(cs[..n], s);
      AfterNext(cs, n);
      assert cs[..n + 1] == cs;
      StepReleases(After(cs[..n]), cs[n], s);
      hide After, Step, ReleasedRight;
    }
  }

  // ------------------------------------------- verdicts

  ghost predicate Issued(cs: seq<Command>, c: Command) { exists n :: 0 <= n < |cs| && cs[n] == c }

  /** Where an operation's state comes from: a timeout or a lost reply is never a failure. */
  ghost predicate Fate(cs: seq<Command>, o: nat, op: Operation) {
    match op.state
    case Requested => op.result.None? && op.error.None?
    case Dispatched => op.result.None? && op.error.None? && Issued(cs, DoDispatch(o))
    case Timeout => op.result.None? && op.error.None? && Issued(cs, DoTimeout(o))
    case Confirmed => op.error.None? && exists x :: op.result == Some(OpResult(x, op.generation)) && Issued(cs, DoOutcome(o, Succeeded(x)))
    case Failed => op.result.None? && (FailedByVerdict(cs, o, op) || FailedByReconciliation(cs, op))
  }

  ghost predicate FailedByVerdict(cs: seq<Command>, o: nat, op: Operation) {
    exists code: Option<string>, message :: Issued(cs, DoOutcome(o, NotSucceeded(code, message)))
      && op.error == Some(OpError(if code.Some? then code.value else "operation_failed", message))
  }

  ghost predicate FailedByReconciliation(cs: seq<Command>, op: Operation) {
    && Issued(cs, DoMarkReconciled(op.sandbox))
    && op.error == Some(OpError("lost_reconciled", "lease expired; outcome resolved by reconciliation"))
  }

  lemma IssuedLater(cs: seq<Command>, c: Command)
    ensures Issued(cs + [c], c) && forall d :: Issued(cs, d) ==> Issued(cs + [c], d)
  {
    assert (cs + [c])[|cs|] == c;
    forall d | Issued(cs, d) ensures Issued(cs + [c], d) {
      var n :| 0 <= n < |cs| && cs[n] == d;
      assert (cs + [c])[n] == d;
    }
  }

  lemma FateLater(cs: seq<Command>, c: Command, o: nat, op: Operation)
    requires Fate(cs, o, op)
    ensures Fate(cs + [c], o, op)
  {
    IssuedLater(cs, c);
    hide Issued;
  }

  /** One command keeps fates honest. */
  lemma FateNext(cs: seq<Command>, log: Log, c: Command, o: nat, op: Operation)
    requires o in log.table.ops && log.table.ops[o].sandbox in log.table.sandboxes
    requires Fate(cs, o, log.table.ops[o]) && Timeless(op) == Timeless(RowAfter(log, c, o))
    requires log.table.sandboxes[log.table.ops[o].sandbox].pending == Some(o) ==> !Decided(log.table.ops[o])
    ensures Fate(cs + [c], o, op)
  {
    IssuedLater(cs, c);
    FateLater(cs, c, o, log.table.ops[o]);
    hide Issued;
    var row := RowAfter(log, c, o);
    SameFate(cs + [c], o, row, op);
  }

  lemma SameFate(cs: seq<Command>, o: nat, row: Operation, op: Operation)
    requires Timeless(op) == Timeless(row)
    ensures Fate(cs, o, row) == Fate(cs, o, op)
  {
    assert op == Timeless(op).(updatedAt := op.updatedAt) && row == Timeless(row).(updatedAt := row.updatedAt);
    assert op == row.(updatedAt := op.updatedAt);
    hide Timeless, Issued;
  }

  /** In every run every operation's state has its cause among the commands. */
  lemma {:induction false} VerdictsHaveCauses(cs: seq<Command>, o: nat)
    requires o in After(cs).table.ops
    ensures Fate(cs, o, After(cs).table.ops[o])
  {
    hide Run, Step, Inv, Timeless;
    if cs == [] {
      NoKeys("");
    } else {
      var n := |cs| - 1;
      var log := After(cs[..n]);
      AfterNext(cs, n);
      assert cs[..n + 1] == cs && cs == cs[..n] + [cs[n]];
      if o in log.table.ops {
        VerdictsHaveCauses(cs[..n], o);
        RowFollows(log, cs[n], o);
        PendingRows(log);
        hide After, Fate, RowAfter;
        FateNext(cs[..n], log, cs[n], o, After(cs).table.ops[o]);
      } else {
        NewOp(log, cs[n], o);
      }
    }
  }

  /** The first verdict on an operation without one is final, whatever comes later. */
  lemma FirstVerdictCounts(cs: seq<Command>, n: nat, o: nat, outcome: Outcome)
    requires n < |cs| && cs[n] == DoOutcome(o, outcome)
    requires o in After(cs[..n]).table.ops && !Decided(After(cs[..n]).table.ops[o])
    ensures o in After(cs).table.ops
    ensures var op := After(cs).table.ops[o];
            match outcome
            case Succeeded(x) => op.state == OpState.Confirmed && op.result == Some(OpResult(x, op.generation))
            case NotSucceeded(code, message) =>
              op.state == Failed && op.error == Some(OpError(if code.Some? then code.value else "operation_failed", message))
  {
    hide Step, Inv, Run;
    var log := After(cs[..n]);
    AfterNext(cs, n);
    StepInv(log, cs[n]);
    RunSplit(EMPTY_LOG, cs[..n + 1], cs[n + 1..]);
    assert cs[..n + 1] + cs[n + 1..] == cs;
    VerdictLands(log, o, outcome);
    OperationFencing.VerdictIsFinal(Step(log, cs[n]), cs[n + 1..], o);
  }

  lemma VerdictLands(log: Log, o: nat, outcome: Outcome)
    requires Inv(log) && o in log.table.ops && !Decided(log.table.ops[o])
    ensures o in Step(log, DoOutcome(o, outcome)).table.ops
    ensures var op := Step(log, DoOutcome(o, outcome)).table.ops[o]; Timeless(op) == Timeless(Ruled(log.table.ops[o], outcome)) && Decided(op)
  {
    hide Step, Inv;
    RowFollows(log, DoOutcome(o, outcome), o);
    PendingRows(log);
    assert Timeless(Step(log, DoOutcome(o, outcome)).table.ops[o]).state == Step(log, DoOutcome(o, outcome)).table.ops[o].state;
  }

  lemma {:induction false} RunSplit(log: Log, a: seq<Command>, b: seq<Command>)
    ensures Run(log, a + b) == Run(Run(log, a), b)
    decreases |a|
  {
    hide Step;
    if a == [] {
      assert a + b == b;
    } else {
      RunSplit(Step(log, a[0]), a[1..], b);
      assert (a + b)[1..] == a[1..] + b;
    }
  }

  /** The verdict that is reported is the verdict that was reached. */
  lemma ReportsNameVerdict(cs: seq<Command>, o: nat)
    requires o in After(cs).table.ops
    ensures var op := After(cs).table.ops[o];
            || op.events == [OperationRequested]
            || (op.state == OpState.Confirmed && op.events == [OperationRequested, OperationSucceeded])
            || (op.state == Failed && op.events == [OperationRequested, OperationFailed])
  {
    AfterIs(cs);
    hide After, TableOk, TrailOk;
    assert Reported(After(cs).table.ops[o]);
  }

  // ------------------------------------------- the gate

  /** Command m of the run is an accepted resume of s. */
  ghost predicate ResumesAt(cs: seq<Command>, m: int, s: string) {
    && 0 <= m < |cs| && cs[m].DoRequest? && cs[m].sandbox == s && cs[m].kind.ResumeOp?
    && Request(After(cs[..m]), s, ResumeOp, cs[m].key, cs[m].expected).1.Accepted?
  }

  ghost predicate ReconcilesAt(cs: seq<Command>, n: int, s: string) {
    0 <= n < |cs| && cs[n] == DoMarkReconciled(s) && s in After(cs[..n]).table.sandboxes
  }

  /** Sandbox s was reconciled and has not been resumed since. */
  ghost predicate ReconciledSince(cs: seq<Command>, s: string) {
    exists n :: ReconcilesAt(cs, n, s) && forall m :: n < m < |cs| ==> !ResumesAt(cs, m, s)
  }

  lemma PrefixEvents(cs: seq<Command>, c: Command, s: string)
    ensures forall m :: 0 <= m < |cs| ==> (ResumesAt(cs + [c], m, s) <==> ResumesAt(cs, m, s))
    ensures forall m :: 0 <= m < |cs| ==> (ReconcilesAt(cs + [c], m, s) <==> ReconcilesAt(cs, m, s))
  {
    hide After, Request;
    forall m | 0 <= m < |cs| ensures (cs + [c])[..m] == cs[..m] && (cs + [c])[m] == cs[m] {}
  }

  lemma SinceNext(cs: seq<Command>, c: Command, s: string)
    ensures ReconciledSince(cs + [c], s) <==>
            ReconcilesAt(cs + [c], |cs|, s) || (ReconciledSince(cs, s) && !ResumesAt(cs + [c], |cs|, s))
  {
    PrefixEvents(cs, c, s);
    hide ResumesAt, ReconcilesAt;
    var all := cs + [c];
    if ReconciledSince(all, s) {
      var n :| ReconcilesAt(all, n, s) && forall m :: n < m < |all| ==> !ResumesAt(all, m, s);
      InRange(all, n, s);
      if n < |cs| { assert ReconcilesAt(cs, n, s) && forall m :: n < m < |cs| ==> !ResumesAt(cs, m, s); }
    }
    if ReconciledSince(cs, s) && !ResumesAt(all, |cs|, s) {
      var n :| ReconcilesAt(cs, n, s) && forall m :: n < m < |cs| ==> !ResumesAt(cs, m, s);
      InRange(cs, n, s);
      assert ReconcilesAt(all, n, s);
    }
    if ReconcilesAt(all, |cs|, s) { assert forall m :: |cs| < m < |all| ==> !ResumesAt(all, m, s); }
  }

  lemma InRange(cs: seq<Command>, n: int, s: string)
    requires ReconcilesAt(cs, n, s)
    ensures 0 <= n < |cs|
  {
  }

  /** The reconciliation mark is set exactly from a reconciliation to the next accepted resume. */
  lemma {:induction false} ReconciledExactly(cs: seq<Command>, s: string)
    ensures s in After(cs).table.sandboxes ==> (After(cs).table.sandboxes[s].reconciled <==> ReconciledSince(cs, s))
    ensures s !in After(cs).table.sandboxes ==> !ReconciledSince(cs, s)
  {
    if cs != [] {
      var n := |cs| - 1;
      var front, c, log := cs[..n], cs[n], After(cs[..n]);
      ReconciledExactly(front, s);
      AfterNext(cs, n);
      assert cs[..n + 1] == cs && cs == front + [c];
      SinceNext(front, c, s);
      assert ReconcilesAt(cs, n, s) <==> c == DoMarkReconciled(s) && s in log.table.sandboxes;
      assert ResumesAt(cs, n, s) <==> c.DoRequest? && c.sandbox == s && c.kind.ResumeOp? && Request(log, s, ResumeOp, c.key, c.expected).1.Accepted?;
      hide ReconcilesAt, ResumesAt, ReconciledSince, After, Request;
      MarkFollows(log, c, s);
    }
  }

  lemma MarkFollows(log: Log, c: Command, s: string)
    requires Inv(log)
    ensures s in log.table.sandboxes ==> s in Step(log, c).table.sandboxes
    ensures s in log.table.sandboxes ==>
              (Step(log, c).table.sandboxes[s].reconciled <==>
                 c == DoMarkReconciled(s) ||
                 (log.table.sandboxes[s].reconciled &&
                  !(c.DoRequest? && c.sandbox == s && c.kind.ResumeOp? && Request(log, s, ResumeOp, c.key, c.expected).1.Accepted?)))
    ensures s !in log.table.sandboxes && s in Step(log, c).table.sandboxes ==> !Step(log, c).table.sandboxes[s].reconciled
    ensures s !in log.table.sandboxes ==> !(c.DoRequest? && c.sandbox == s && Request(log, s, c.kind, c.key, c.expected).1.Accepted?)
  {
    hide Inv, Step, Request;
    if s in log.table.sandboxes {
      BoxFollows(log, c, s);
    } else if s in Step(log, c).table.sandboxes {
      NewBox(log, c, s);
    }
    if c.DoRequest? { RequestAnswers(log, c.sandbox, c.kind, c.key, c.expected); }
  }

  /** Nothing after command n tells anything new about sandbox s. */
  ghost predicate QuietSince(cs: seq<Command>, n: int, s: string) {
    forall m :: n < m < |cs| ==> !TellsAt(cs, m, s)
  }

  /** A reconciliation of s, evidence on its state, or a verdict on the operation it waits for. */
  ghost predicate TellsAt(cs: seq<Command>, m: int, s: string) {
    0 <= m < |cs| && Tells(After(cs[..m]), cs[m], s)
  }

  predicate Tells(log: Log, c: Command, s: string) {
    || c == DoMarkReconciled(s)
    || (c.DoApplyEvent? && c.sandbox == s && c.state.Some?)
    || (c.DoOutcome? && s in log.table.sandboxes && log.table.sandboxes[s].pending == Some(c.op))
  }

  predicate Shut(log: Log, s: string) {
    s in log.table.sandboxes && log.table.sandboxes[s].observed == Lost && !log.table.sandboxes[s].reconciled
  }

  /** One quiet command leaves a lost sandbox shut. */
  lemma QuietStep(log: Log, c: Command, s: string)
    requires Inv(log) && Shut(log, s) && !Tells(log, c, s)
    ensures Shut(Step(log, c), s)
  {
    hide Inv, Step, Request;
    BoxFollows(log, c, s);
    if c.DoRequest? { RequestAnswers(log, c.sandbox, c.kind, c.key, c.expected); }
  }

  lemma ShutRefuses(log: Log, s: string, kind: OpType, key: Option<string>, expected: Option<nat>)
    requires Inv(log) && Shut(log, s)
    ensures !Request(log, s, kind, key, expected).1.Accepted?
  {
    hide Inv, Request;
    RequestAnswers(log, s, kind, key, expected);
  }

  lemma LostShuts(log: Log, s: string, last: Option<int>)
    requires Inv(log) && s in log.table.sandboxes && log.table.sandboxes[s].observed != Destroyed && !log.table.sandboxes[s].reconciled
    ensures Shut(Step(log, DoMarkLost(s, last)), s)
  {
    hide Inv, Step;
    BoxFollows(log, DoMarkLost(s, last), s);
  }

  lemma QuietPrefix(cs: seq<Command>, n: nat, s: string)
    requires n < |cs| - 1 && QuietSince(cs, n, s)
    ensures QuietSince(cs[..|cs| - 1], n, s) && !Tells(After(cs[..|cs| - 1]), cs[|cs| - 1], s)
  {
    hide After, Tells;
    var front := cs[..|cs| - 1];
    forall k | n < k < |front| ensures !TellsAt(front, k, s) {
      assert front[..k] == cs[..k] && front[k] == cs[k];
      assert !TellsAt(cs, k, s);
    }
    assert !TellsAt(cs, |cs| - 1, s);
  }

  /**
   A sandbox that is marked lost without being reconciled since its last resume accepts
   nothing until it is reconciled, evidence on it comes in or its outstanding operation
   gets its verdict.
   */
  lemma {:induction false} LostStaysShut(cs: seq<Command>, n: nat, s: string, last: Option<int>)
    requires n < |cs| && cs[n] == DoMarkLost(s, last) && QuietSince(cs, n, s) && !ReconciledSince(cs[..n], s)
    requires s in After(cs[..n]).table.sandboxes && After(cs[..n]).table.sandboxes[s].observed != Destroyed
    ensures Shut(After(cs), s)
    ensures forall kind, key, expected :: !Request(After(cs), s, kind, key, expected).1.Accepted?
    decreases |cs|
  {
    hide After, Inv, Step, Request, ReconciledSince, QuietSince, Shut;
    var m := |cs| - 1;
    AfterNext(cs, m);
    AfterIs(cs);
    assert cs[..m + 1] == cs;
    if m == n {
      ReconciledExactly(cs[..n], s);
      LostShuts(After(cs[..n]), s, last);
    } else {
      assert cs[..m][..n] == cs[..n];
      QuietPrefix(cs, n, s);
      LostStaysShut(cs[..m], n, s, last);
      QuietStep(After(cs[..m]), cs[m], s);
    }
    forall kind, key, expected ensures !Request(After(cs), s, kind, key, expected).1.Accepted? {
      ShutRefuses(After(cs), s, kind, key, expected);
    }
  }

  /** With no key in play, the right version and nothing pending, a lost sandbox can be changed exactly if it was reconciled since its last resume. */
  lemma LostOpensExactly(cs: seq<Command>, s: string, kind: OpType)
    requires s in After(cs).table.sandboxes && After(cs).table.sandboxes[s].observed == Lost && After(cs).table.sandboxes[s].pending.None?
    ensures Request(After(cs), s, kind, None, Some(After(cs).table.sandboxes[s].version)).1.Accepted? <==>
            ReconciledSince(cs, s) && !kind.SuspendOp?
  {
    AfterIs(cs);
    ReconciledExactly(cs, s);
    RequestAnswers(After(cs), s, kind, None, Some(After(cs).table.sandboxes[s].version));
    hide After, Inv, Request, ReconciledSince;
  }

  /** So a reconciliation from before the loss opens the gate after it. */
  lemma EarlierReconciliationCounts(s: string)
    requires s != ""
    ensures var cs := [DoCreate(Some(s), Active, Active, 1), DoMarkReconciled(s), DoMarkLost(s, None)];
            && s in After(cs).table.sandboxes && After(cs).table.sandboxes[s].observed == Lost
            && Request(After(cs), s, ResumeOp, None, Some(3)).1.Accepted?
  {
    hide After, Inv, Step, Request;
    var cs := [DoCreate(Some(s), Active, Active, 1), DoMarkReconciled(s), DoMarkLost(s, None)];
    assert cs[..0] == [] && cs[..3] == cs;
    AfterNext(cs, 0);
    AfterNext(cs, 1);
    AfterNext(cs, 2);
    AfterIs(cs);
    FirstBox(s);
    ReconciledThenLost(After(cs[..1]), s);
  }

  lemma ReconciledThenLost(log: Log, s: string)
    requires Inv(log) && s in log.table.sandboxes
    requires log.table.sandboxes[s] == Sandbox(Active, Active, 1, 1, true, false, false, None, None, None, [], 1)
    requires Inv(Step(Step(log, DoMarkReconciled(s)), DoMarkLost(s, None))) && Inv(Step(log, DoMarkReconciled(s)))
    ensures var lost := Step(Step(log, DoMarkReconciled(s)), DoMarkLost(s, None));
            && s in lost.table.sandboxes && lost.table.sandboxes[s].observed == Lost
            && Request(lost, s, ResumeOp, None, Some(3)).1.Accepted?
  {
    hide Inv, Step, Request;
    BoxFollows(log, DoMarkReconciled(s), s);
    var log2 := Step(log, DoMarkReconciled(s));
    BoxFollows(log2, DoMarkLost(s, None), s);
    RequestAnswers(Step(log2, DoMarkLost(s, None)), s, ResumeOp, None, Some(3));
  }

  lemma FirstBox(s: string)
    requires s != ""
    ensures var t := CreateSandbox(EMPTY_LOG, Some(s), Active, Active, 1).0.table;
            s in t.sandboxes && t.sandboxes[s] == Sandbox(Active, Active, 1, 1, true, false, false, None, None, None, [], 1)
    ensures Step(EMPTY_LOG, DoCreate(Some(s), Active, Active, 1)) == CreateSandbox(EMPTY_LOG, Some(s), Active, Active, 1).0
    ensures After([]) == EMPTY_LOG
  {
  }

  // ------------------------------------------- keys

  /** Command n is a request under the key that was accepted. */
  ghost predicate KeyedAt(cs: seq<Command>, n: int, key: string) {
    && 0 <= n < |cs| && cs[n].DoRequest? && cs[n].key == Some(key)
    && Request(After(cs[..n]), cs[n].sandbox, cs[n].kind, cs[n].key, cs[n].expected).1.Accepted?
  }

  /** What a key stands for: the request that was accepted, and its operation. */
  ghost predicate StandsFor(cs: seq<Command>, n: int, t: Ticket)
    requires 0 <= n < |cs| && cs[n].DoRequest?
  {
    t.fingerprint.sandbox == cs[n].sandbox && t.fingerprint.kind == cs[n].kind && t.op == After(cs[..n]).seqNo + 1
  }

  /** What a command does to the key table. */
  lemma KeysFollow(log: Log, c: Command)
    ensures Step(log, c).idempotency ==
            if c.DoRequest? && c.key.Some? && Request(log, c.sandbox, c.kind, c.key, c.expected).1.Accepted?
            then log.idempotency[c.key.value := Ticket(Fingerprint(c.sandbox, c.kind), log.seqNo + 1)] else log.idempotency
  {
    if c.DoRequest? { RequestKeys(log, c.sandbox, c.kind, c.key, c.expected); } else { OthersKeepKeys(log, c); }
  }

  lemma OthersKeepKeys(log: Log, c: Command)
    requires !c.DoRequest?
    ensures Step(log, c).idempotency == log.idempotency
  {
    hide Events.Append, Events.Commit, Padded;
  }

  lemma RequestKeys(log: Log, s: string, kind: OpType, key: Option<string>, expected: Option<nat>)
    ensures Request(log, s, kind, key, expected).0.idempotency ==
            if key.Some? && Request(log, s, kind, key, expected).1.Accepted?
            then log.idempotency[key.value := Ticket(Fingerprint(s, kind), log.seqNo + 1)] else log.idempotency
  {
    hide Events.Append, LastDestroy, Accept;
  }

  lemma KeysNext(front: seq<Command>, c: Command, key: string)
    ensures var cs := front + [c];
            && (forall n :: 0 <= n < |front| ==> (KeyedAt(cs, n, key) <==> KeyedAt(front, n, key)))
            && (forall n, t :: 0 <= n < |front| && cs[n].DoRequest? ==> (StandsFor(cs, n, t) <==> StandsFor(front, n, t)))
            && (KeyedAt(cs, |front|, key) <==>
                  c.DoRequest? && c.key == Some(key) && Request(After(front), c.sandbox, c.kind, c.key, c.expected).1.Accepted?)
  {
    hide After, Request;
    var cs := front + [c];
    assert cs[..|front|] == front && cs[|front|] == c;
    forall n | 0 <= n < |front| ensures front[..n] == cs[..n] && front[n] == cs[n] {}
  }

  /** A key is known exactly if a request was accepted under it, and it stands for that one request, in every run. */
  lemma {:induction false} KeysStandFor(cs: seq<Command>, key: string)
    ensures key in After(cs).idempotency <==> exists n :: KeyedAt(cs, n, key)
    ensures forall n :: KeyedAt(cs, n, key) ==> StandsFor(cs, n, After(cs).idempotency[key])
  {
    hide After, Inv, Step, Request, KeyedAt;
    forall n | KeyedAt(cs, n, key) ensures 0 <= n < |cs| && cs[n].DoRequest? { KeyRange(cs, n, key); }
    if cs == [] {
      NoKeys(key);
    } else {
      var m := |cs| - 1;
      var front, c := cs[..m], cs[m];
      KeysStandFor(front, key);
      AfterNext(cs, m);
      assert cs[..m + 1] == cs && cs == front + [c];
      forall n | KeyedAt(front, n, key) ensures 0 <= n < m && front[n].DoRequest? { KeyRange(front, n, key); }
      KeysAfter(front, c, key);
    }
  }

  lemma KeyRange(cs: seq<Command>, n: int, key: string)
    requires KeyedAt(cs, n, key)
    ensures 0 <= n < |cs| && cs[n].DoRequest?
  {
  }

  lemma NoKeys(key: string)
    ensures key !in After([]).idempotency && After([]).table.ops == map[]
  {
  }

  lemma KeysAfter(front: seq<Command>, c: Command, key: string)
    requires var cs := front + [c]; After(cs) == Step(After(front), c) && Inv(After(front))
    requires key in After(front).idempotency <==> exists n :: KeyedAt(front, n, key)
    requires forall n :: KeyedAt(front, n, key) ==> 0 <= n < |front| && front[n].DoRequest? && StandsFor(front, n, After(front).idempotency[key])
    requires forall n :: KeyedAt(front + [c], n, key) ==> 0 <= n <= |front| && (front + [c])[n].DoRequest?
    ensures var cs := front + [c]; key in After(cs).idempotency <==> exists n :: KeyedAt(cs, n, key)
    ensures var cs := front + [c]; forall n :: KeyedAt(cs, n, key) ==> StandsFor(cs, n, After(cs).idempotency[key])
  {
    hide After, Inv, Step, Request, KeyedAt;
    var cs, log := front + [c], After(front);
    KeysNext(front, c, key);
    KeysFollow(log, c);
    if c.DoRequest? { RequestAnswers(log, c.sandbox, c.kind, c.key, c.expected); }
    assert cs[..|front|] == front && cs[|front|] == c;
    if n :| KeyedAt(front, n, key) { assert KeyedAt(cs, n, key); }
  }

  /** Once accepted under a key, a request is answered with the same operation for ever, and any other request under that key is refused. */
  lemma KeyIsFinal(cs: seq<Command>, n: nat, key: string, x: string, kind: OpType, expected: Option<nat>)
    requires KeyedAt(cs, n, key) && x in After(cs).table.sandboxes
    ensures Request(After(cs), x, kind, Some(key), expected).1 ==
            if x == cs[n].sandbox && kind == cs[n].kind then Replayed(After(cs[..n]).seqNo + 1) else BodyConflict
    ensures Request(After(cs), x, kind, Some(key), expected).0 == After(cs)
  {
    AfterIs(cs);
    KeysStandFor(cs, key);
    RequestAnswers(After(cs), x, kind, Some(key), expected);
    hide After, Inv, Request;
  }
}
