/**
 Replay after a crash.  The runtime is the real world: it survives crashes, keeps
 an arbitrary fixed verdict per operation and acts on each operation once.  From
 any reachable log, however far each operation's pipeline has got, replay leads to
 the one state every uncrashed completion of the pipelines leads to.
 */
module OperationReplay {
  import opened Basics
  import opened EventFold
  import Events = EventLedger
  import opened OperationLog
  import opened OperationInvariant

  // ------------------------------------------------------------------ the runtime

  type Verdicts = nat -> Outcome

  /** The idempotent runtime: outcomes by operation id, with write and effect counters. */
  datatype Runtime = Runtime(outcomes: map<nat, Outcome>, calls: nat, effects: nat)

  function Execute(rt: Runtime, verdicts: Verdicts, o: nat): (rt': Runtime)
    ensures o in rt'.outcomes
  {
    if o in rt.outcomes then rt.(calls := rt.calls + 1)
    else Runtime(rt.outcomes[o := verdicts(o)], rt.calls + 1, rt.effects + 1)
  }

  /** One effect per executed operation, and never another verdict. */
  ghost predicate RuntimeOk(rt: Runtime, verdicts: Verdicts) {
    rt.effects == |rt.outcomes| && forall o :: o in rt.outcomes ==> rt.outcomes[o] == verdicts(o)
  }

  lemma ExecuteOk(rt: Runtime, verdicts: Verdicts, o: nat)
    requires RuntimeOk(rt, verdicts)
    ensures RuntimeOk(Execute(rt, verdicts, o), verdicts)
    ensures Execute(rt, verdicts, o).outcomes.Keys == rt.outcomes.Keys + {o}
    ensures Execute(rt, verdicts, o).outcomes[o] == verdicts(o) && Execute(rt, verdicts, o).calls == rt.calls + 1
    ensures Execute(rt, verdicts, o).effects == rt.effects + if o in rt.outcomes then 0 else 1
  {
  }

  lemma ExecuteOutcomes(rt: Runtime, verdicts: Verdicts, o: nat)
    requires RuntimeOk(rt, verdicts)
    ensures RuntimeOk(Execute(rt, verdicts, o), verdicts)
    ensures Execute(rt, verdicts, o).outcomes.Keys == rt.outcomes.Keys + {o}
    ensures Execute(rt, verdicts, o).outcomes[o] == verdicts(o)
  {
    ExecuteOk(rt, verdicts, o);
  }

  // ----------------------------------------------------------------- the pipeline

  datatype World = World(log: Log, runtime: Runtime)

  /** The steps that carry an accepted operation to its reported verdict. */
  datatype Stage =
    | ToDispatch(op: nat)
    | ToTimeout(op: nat)
    | ToExecute(op: nat)
    | ToConfirm(op: nat)
    | ToReport(op: nat)

  function Advance(w: World, verdicts: Verdicts, c: Stage): World {
    if c.op !in w.log.table.ops then w
    else
      match c
      case ToDispatch(o) => w.(log := Dispatch(w.log, o).0)
      case ToTimeout(o) => w.(log := MarkTimeout(w.log, o).0)
      case ToExecute(o) => w.(runtime := Execute(w.runtime, verdicts, o))
      case ToConfirm(o) =>
        var rt := Execute(w.runtime, verdicts, o);
        World(RuntimeOutcome(w.log, o, rt.outcomes[o]).0, rt)
      case ToReport(o) => w.(log := EmitTerminal(w.log, o).0)
  }

  function AdvanceAll(w: World, verdicts: Verdicts, cs: seq<Stage>): World
    decreases |cs|
  {
    if cs == [] then w else AdvanceAll(Advance(w, verdicts, cs[0]), verdicts, cs[1..])
  }

  /** One turn of the replay loop. */
  function ReplayOne(w: World, verdicts: Verdicts, o: nat): World {
    if o !in w.log.table.ops then w
    else
      var op := w.log.table.ops[o];
      var w1 :=
        if Terminal(op.state) then w
        else
          var log1 := if op.state.Dispatched? then w.log else Dispatch(w.log, o).0;
          var rt := Execute(w.runtime, verdicts, o);
          World(RuntimeOutcome(log1, o, rt.outcomes[o]).0, rt);
      w1.(log := EmitTerminal(w1.log, o).0)
  }

  function ReplayEach(w: World, verdicts: Verdicts, ids: seq<nat>): World
    decreases |ids|
  {
    if ids == [] then w else ReplayEach(ReplayOne(w, verdicts, ids[0]), verdicts, ids[1..])
  }

  function Replay(w: World, verdicts: Verdicts): World {
    ReplayEach(w, verdicts, w.log.table.order)
  }

  // -------------------------------------------------------------- where it leads

  /** A row without its audit history and bookkeeping time. */
  function Essence(op: Operation): Operation { op.(history := [], updatedAt := 0) }

  function WithReport(op: Operation): Operation {
    if TerminalEvent(op.state) in op.events then op else op.(events := op.events + [TerminalEvent(op.state)])
  }

  function SettledOp(op: Operation, outcome: Outcome): Operation {
    Essence(WithReport(if Terminal(op.state) then op else Concluded(op, outcome)))
  }

  function SettledBox(sb: Sandbox, verdicts: Verdicts): Sandbox {
    if sb.pending.Some? then Resolved(sb, verdicts(sb.pending.value)) else sb
  }

  datatype Snapshot = Snapshot(sandboxes: map<string, Sandbox>, ops: map<nat, Operation>)

  function Present(t: Table): Snapshot {
    Snapshot(t.sandboxes, map o | o in t.ops :: Essence(t.ops[o]))
  }

  /** Every pending operation settled by its verdict, described without running anything. */
  function Destination(t: Table, verdicts: Verdicts): Snapshot {
    Snapshot(map s | s in t.sandboxes :: SettledBox(t.sandboxes[s], verdicts),
             map o | o in t.ops :: SettledOp(t.ops[o], verdicts(o)))
  }

  predicate Finished(op: Operation) {
    Terminal(op.state) && TerminalEvent(op.state) in op.events
  }

  predicate AtRest(t: Table) {
    forall o :: o in t.ops ==> Finished(t.ops[o])
  }

  function Unfinished(t: Table): set<nat> { set o | o in t.ops && !Terminal(t.ops[o].state) }

  /** The operations whose verdict no event reports yet. */
  function Unreported(t: Table): set<nat> { set o | o in t.ops && t.ops[o].events == [OperationRequested] }

  /** How many events the ledger holds once every operation has reported. */
  function EventsDue(log: Log): nat { |log.ledger.book.events| + |Unreported(log.table)| }

  ghost predicate WorldOk(w: World, verdicts: Verdicts) {
    Inv(w.log) && RuntimeOk(w.runtime, verdicts)
  }

  // ------------------------------------------------- one stage keeps the direction

  /** A changed row that settles to the same essence keeps the destination. */
  lemma RowKeeps(t: Table, verdicts: Verdicts, o: nat, op: Operation)
    requires o in t.ops && SettledOp(op, verdicts(o)) == SettledOp(t.ops[o], verdicts(o))
    ensures Destination(t.(ops := t.ops[o := op]), verdicts) == Destination(t, verdicts)
    ensures Unfinished(t.(ops := t.ops[o := op])) ==
            if Terminal(op.state) then Unfinished(t) - {o} else Unfinished(t) + {o}
  {
    hide SettledOp, SettledBox;
  }

  lemma BoxKeeps(t: Table, verdicts: Verdicts, s: string, sb: Sandbox)
    requires s in t.sandboxes && SettledBox(sb, verdicts) == SettledBox(t.sandboxes[s], verdicts)
    ensures Destination(t.(sandboxes := t.sandboxes[s := sb]), verdicts) == Destination(t, verdicts)
    ensures Unfinished(t.(sandboxes := t.sandboxes[s := sb])) == Unfinished(t)
  {
  }

  /** Progress short of a verdict, and audit history, leave the settled row alone. */
  lemma SettlesAlike(op: Operation, op': Operation, outcome: Outcome)
    requires Terminal(op.state) ==> op'.state == op.state
    requires !Terminal(op.state) ==> !Terminal(op'.state)
    requires op' == op.(state := op'.state, history := op'.history, updatedAt := op'.updatedAt)
    ensures SettledOp(op', outcome) == SettledOp(op, outcome)
  {
  }

  lemma DispatchKeeps(log: Log, verdicts: Verdicts, o: nat)
    requires o in log.table.ops
    ensures Destination(Dispatch(log, o).0.table, verdicts) == Destination(log.table, verdicts)
    ensures Unfinished(Dispatch(log, o).0.table) == Unfinished(log.table)
  {
    hide SettledOp, Destination;
    var op' := Dispatch(log, o).0.table.ops[o];
    SettlesAlike(log.table.ops[o], op', verdicts(o));
    RowKeeps(log.table, verdicts, o, op');
    assert Dispatch(log, o).0.table == log.table || Dispatch(log, o).0.table == log.table.(ops := log.table.ops[o := op']);
  }

  lemma TimeoutKeeps(log: Log, verdicts: Verdicts, o: nat)
    requires o in log.table.ops
    ensures Destination(MarkTimeout(log, o).0.table, verdicts) == Destination(log.table, verdicts)
    ensures Unfinished(MarkTimeout(log, o).0.table) == Unfinished(log.table)
  {
    hide SettledOp, Destination;
    var op' := MarkTimeout(log, o).0.table.ops[o];
    SettlesAlike(log.table.ops[o], op', verdicts(o));
    RowKeeps(log.table, verdicts, o, op');
    assert MarkTimeout(log, o).0.table == log.table || MarkTimeout(log, o).0.table == log.table.(ops := log.table.ops[o := op']);
  }

  /** A row that takes its verdict settles to what it was going to settle to. */
  lemma ConcludedSettles(op: Operation, outcome: Outcome, at: nat)
    requires !Terminal(op.state)
    ensures SettledOp(Concluded(op, outcome).(updatedAt := at), outcome) == SettledOp(op, outcome)
  {
  }

  lemma LateOutcomeKeeps(log: Log, verdicts: Verdicts, o: nat)
    requires o in log.table.ops && Terminal(log.table.ops[o].state)
    ensures Destination(RuntimeOutcome(log, o, verdicts(o)).0.table, verdicts) == Destination(log.table, verdicts)
    ensures Unfinished(RuntimeOutcome(log, o, verdicts(o)).0.table) == Unfinished(log.table) - {o}
  {
    hide SettledOp, Destination;
    var t' := RuntimeOutcome(log, o, verdicts(o)).0.table;
    SettlesAlike(log.table.ops[o], t'.ops[o], verdicts(o));
    RowKeeps(log.table, verdicts, o, t'.ops[o]);
    assert t' == log.table || t' == log.table.(ops := log.table.ops[o := t'.ops[o]]);
  }

  lemma FirstOutcomeKeeps(log: Log, verdicts: Verdicts, o: nat)
    requires Housed(log.table) && Serialized(log.table) && o in log.table.ops && !Terminal(log.table.ops[o].state)
    ensures Destination(RuntimeOutcome(log, o, verdicts(o)).0.table, verdicts) == Destination(log.table, verdicts)
    ensures Unfinished(RuntimeOutcome(log, o, verdicts(o)).0.table) == Unfinished(log.table) - {o}
  {
    var t, op := log.table, log.table.ops[o];
    var s := op.sandbox;
    var op' := Concluded(op, verdicts(o)).(updatedAt := log.clock + 1);
    var sb' := Resolved(t.sandboxes[s], verdicts(o));
    assert t.sandboxes[s].pending == Some(o);
    assert RuntimeOutcome(log, o, verdicts(o)).0.table == t.(ops := t.ops[o := op']).(sandboxes := t.sandboxes[s := sb']);
    hide SettledOp, Destination, RuntimeOutcome;
    ConcludedSettles(op, verdicts(o), log.clock + 1);
    RowKeeps(t, verdicts, o, op');
    BoxKeeps(t.(ops := t.ops[o := op']), verdicts, s, sb');
  }

  lemma OutcomeKeeps(log: Log, verdicts: Verdicts, o: nat)
    requires Inv(log) && o in log.table.ops
    ensures Destination(RuntimeOutcome(log, o, verdicts(o)).0.table, verdicts) == Destination(log.table, verdicts)
    ensures Unfinished(RuntimeOutcome(log, o, verdicts(o)).0.table) == Unfinished(log.table) - {o}
  {
    if Terminal(log.table.ops[o].state) {
      LateOutcomeKeeps(log, verdicts, o);
    } else {
      FirstOutcomeKeeps(log, verdicts, o);
    }
  }

  lemma ReportKeeps(log: Log, verdicts: Verdicts, o: nat)
    requires o in log.table.ops
    ensures Destination(EmitTerminal(log, o).0.table, verdicts) == Destination(log.table, verdicts)
    ensures Unfinished(EmitTerminal(log, o).0.table) == Unfinished(log.table)
  {
    hide Events.Commit;
    RowKeeps(log.table, verdicts, o, EmitTerminal(log, o).0.table.ops[o]);
  }

  lemma RowUnreported(t: Table, o: nat, op: Operation)
    requires o in t.ops
    ensures Unreported(t.(ops := t.ops[o := op])) ==
            if op.events == [OperationRequested] then Unreported(t) + {o} else Unreported(t) - {o}
  {
  }

  /** A report moves one operation from the outstanding ones into the ledger. */
  lemma EmitIsDue(log: Log, o: nat, kind: EventType)
    requires TrailOk(log.ledger, log.table, log.seqNo, log.sourceSeq) && kind != OperationRequested
    requires o in log.table.ops && log.table.ops[o].events == [OperationRequested]
    ensures EventsDue(Emit(log, o, kind, true)) == EventsDue(log)
  {
    hide Emit;
    EmitExtends(log, o, kind, true);
    EmitShape(log, o, kind, true);
    var op := log.table.ops[o];
    assert op.events + [kind] == [OperationRequested, kind];
    RowUnreported(log.table, o, op.(events := op.events + [kind]));
  }

  lemma ReportIsDue(log: Log, o: nat)
    requires Inv(log)
    ensures EventsDue(EmitTerminal(log, o).0) == EventsDue(log)
  {
    hide Emit, EventsDue, TrailOk, TableOk;
    if o in log.table.ops && Terminal(log.table.ops[o].state) && TerminalEvent(log.table.ops[o].state) !in log.table.ops[o].events {
      assert Reported(log.table.ops[o]);
      EmitIsDue(log, o, TerminalEvent(log.table.ops[o].state));
    }
  }

  /** The same events in the ledger and in every row. */
  predicate ReportsAlike(log: Log, next: Log) {
    && next.ledger == log.ledger && next.table.ops.Keys == log.table.ops.Keys
    && forall p :: p in log.table.ops ==> next.table.ops[p].events == log.table.ops[p].events
  }

  lemma AlikeDue(log: Log, next: Log)
    requires ReportsAlike(log, next)
    ensures EventsDue(next) == EventsDue(log)
  {
    assert Unreported(next.table) == Unreported(log.table);
  }

  /** The other stages report nothing. */
  lemma StartReportsNothing(log: Log, o: nat)
    requires o in log.table.ops
    ensures ReportsAlike(log, Dispatch(log, o).0) && ReportsAlike(log, MarkTimeout(log, o).0)
  {
  }

  lemma OutcomeReportsNothing(log: Log, o: nat, outcome: Outcome)
    requires o in log.table.ops
    ensures ReportsAlike(log, RuntimeOutcome(log, o, outcome).0)
  {
  }

  lemma AdvanceReports(w: World, verdicts: Verdicts, c: Stage)
    requires WorldOk(w, verdicts)
    ensures EventsDue(Advance(w, verdicts, c).log) == EventsDue(w.log)
  {
    hide Inv, Dispatch, MarkTimeout, RuntimeOutcome, EmitTerminal, RuntimeOk, Execute, EventsDue, ReportsAlike;
    if c.op in w.log.table.ops {
      var outcome := Execute(w.runtime, verdicts, c.op).outcomes[c.op];
      StartReportsNothing(w.log, c.op);
      OutcomeReportsNothing(w.log, c.op, outcome);
      AlikeDue(w.log, Dispatch(w.log, c.op).0);
      AlikeDue(w.log, MarkTimeout(w.log, c.op).0);
      AlikeDue(w.log, RuntimeOutcome(w.log, c.op, outcome).0);
      ReportIsDue(w.log, c.op);
    }
  }

  /** Which operations have been, or will be, executed once everything settles. */
  function Involved(w: World): set<nat> { w.runtime.outcomes.Keys + Unfinished(w.log.table) }

  predicate Runs(c: Stage, t: Table) { (c.ToExecute? || c.ToConfirm?) && c.op in t.ops }

  lemma AdvanceKeeps(w: World, verdicts: Verdicts, c: Stage)
    requires WorldOk(w, verdicts)
    ensures WorldOk(Advance(w, verdicts, c), verdicts)
    ensures Destination(Advance(w, verdicts, c).log.table, verdicts) == Destination(w.log.table, verdicts)
    ensures Involved(Advance(w, verdicts, c)) == Involved(w) + (if Runs(c, w.log.table) then {c.op} else {})
    ensures Advance(w, verdicts, c).log.table.ops.Keys == w.log.table.ops.Keys
    ensures Advance(w, verdicts, c).log.table.order == w.log.table.order
  {
    hide Inv, Dispatch, MarkTimeout, RuntimeOutcome, EmitTerminal, RuntimeOk, Execute, Destination, Unfinished, Terminal;
    if c.op in w.log.table.ops {
      var o := c.op;
      match c
      case ToDispatch(_) => DispatchInv(w.log, o); DispatchKeeps(w.log, verdicts, o); StageKeepsRows(w.log, o, verdicts(o));
      case ToTimeout(_) => DispatchInv(w.log, o); TimeoutKeeps(w.log, verdicts, o); StageKeepsRows(w.log, o, verdicts(o));
      case ToExecute(_) => ExecuteOutcomes(w.runtime, verdicts, o);
      case ToConfirm(_) =>
        ExecuteOutcomes(w.runtime, verdicts, o);
        OutcomeInv(w.log, o, verdicts(o));
        OutcomeKeeps(w.log, verdicts, o);
        StageKeepsRows(w.log, o, verdicts(o));
      case ToReport(_) => EmitTerminalInv(w.log, o); ReportKeeps(w.log, verdicts, o); StageKeepsRows(w.log, o, verdicts(o));
    }
  }

  predicate SameRows(t: Table, next: Table) { next.ops.Keys == t.ops.Keys && next.order == t.order }

  /** No stage adds, drops or reorders a row. */
  lemma StageKeepsRows(log: Log, o: nat, outcome: Outcome)
    requires o in log.table.ops
    ensures SameRows(log.table, Dispatch(log, o).0.table) && SameRows(log.table, MarkTimeout(log, o).0.table)
    ensures SameRows(log.table, RuntimeOutcome(log, o, outcome).0.table)
    ensures SameRows(log.table, EmitTerminal(log, o).0.table)
  {
    assert SameRows(log.table, Dispatch(log, o).0.table) && SameRows(log.table, MarkTimeout(log, o).0.table);
    OutcomeKeepsRows(log, o, outcome);
    ReportKeepsRows(log, o);
    hide Dispatch, MarkTimeout, RuntimeOutcome, EmitTerminal;
  }

  lemma OutcomeKeepsRows(log: Log, o: nat, outcome: Outcome)
    requires o in log.table.ops
    ensures SameRows(log.table, RuntimeOutcome(log, o, outcome).0.table)
  {
  }

  lemma ReportKeepsRows(log: Log, o: nat)
    requires o in log.table.ops
    ensures SameRows(log.table, EmitTerminal(log, o).0.table)
  {
  }

  /** The operations a schedule hands to the runtime. */
  function Executed(cs: seq<Stage>, t: Table): set<nat> {
    set c | c in cs && Runs(c, t) :: c.op
  }

  /**
   However the pipelines of any number of operations interleave, repeat, time out or
   stop short, the destination stays the same.
   */
  lemma {:induction false} ScheduleKeeps(w: World, verdicts: Verdicts, cs: seq<Stage>)
    requires WorldOk(w, verdicts)
    ensures WorldOk(AdvanceAll(w, verdicts, cs), verdicts)
    ensures Destination(AdvanceAll(w, verdicts, cs).log.table, verdicts) == Destination(w.log.table, verdicts)
    ensures Involved(AdvanceAll(w, verdicts, cs)) == Involved(w) + Executed(cs, w.log.table)
    ensures AdvanceAll(w, verdicts, cs).log.table.ops.Keys == w.log.table.ops.Keys
    ensures EventsDue(AdvanceAll(w, verdicts, cs).log) == EventsDue(w.log)
    decreases |cs|
  {
    hide Inv, RuntimeOk, Destination, Advance, EventsDue;
    if cs != [] {
      hide Executed;
      var w1 := Advance(w, verdicts, cs[0]);
      AdvanceKeeps(w, verdicts, cs[0]);
      AdvanceReports(w, verdicts, cs[0]);
      ScheduleKeeps(w1, verdicts, cs[1..]);
      SplitExecuted(cs, w.log.table, w1.log.table);
    }
  }

  lemma SplitExecuted(cs: seq<Stage>, t: Table, t1: Table)
    requires cs != [] && t.ops.Keys == t1.ops.Keys
    ensures Executed(cs, t) == (if Runs(cs[0], t) then {cs[0].op} else {}) + Executed(cs[1..], t1)
  {
  }

  // ------------------------------------------------------------------ replay itself

  /** The stages one turn of the replay loop takes an operation through. */
  function Turn(op: Operation, o: nat): seq<Stage> {
    if Terminal(op.state) then [ToReport(o)]
    else if op.state.Dispatched? then [ToConfirm(o), ToReport(o)]
    else [ToDispatch(o), ToConfirm(o), ToReport(o)]
  }

  lemma ReplayOneIsTurn(w: World, verdicts: Verdicts, o: nat)
    requires o in w.log.table.ops
    ensures ReplayOne(w, verdicts, o) == AdvanceAll(w, verdicts, Turn(w.log.table.ops[o], o))
  {
    hide Dispatch, RuntimeOutcome, EmitTerminal, Execute;
    var op := w.log.table.ops[o];
    var w1 := if Terminal(op.state) || op.state.Dispatched? then w else Advance(w, verdicts, ToDispatch(o));
    StageKeepsRows(w.log, o, verdicts(o));
    var w2 := if Terminal(op.state) then w1 else Advance(w1, verdicts, ToConfirm(o));
    StageKeepsRows(w1.log, o, Execute(w1.runtime, verdicts, o).outcomes[o]);
    var rest := [ToConfirm(o), ToReport(o)];
    assert rest[1..] == [ToReport(o)] && ([ToDispatch(o)] + rest)[1..] == rest && [ToReport(o)][1..] == [];
    assert AdvanceAll(w2, verdicts, [ToReport(o)]) == Advance(w2, verdicts, ToReport(o));
    assert AdvanceAll(w1, verdicts, rest) == AdvanceAll(Advance(w1, verdicts, ToConfirm(o)), verdicts, [ToReport(o)]);
  }

  lemma StageKeepsFinished(log: Log, o: nat, outcome: Outcome, p: nat)
    requires o in log.table.ops && p in log.table.ops && Finished(log.table.ops[p])
    ensures p in Dispatch(log, o).0.table.ops && Finished(Dispatch(log, o).0.table.ops[p])
    ensures p in RuntimeOutcome(log, o, outcome).0.table.ops && Finished(RuntimeOutcome(log, o, outcome).0.table.ops[p])
    ensures p in EmitTerminal(log, o).0.table.ops && Finished(EmitTerminal(log, o).0.table.ops[p])
  {
    hide Events.Commit;
  }

  /** A finished row stays finished. */
  lemma FinishedStays(w: World, verdicts: Verdicts, o: nat, p: nat)
    requires p in w.log.table.ops && Finished(w.log.table.ops[p]) && o in w.log.table.ops
    ensures p in ReplayOne(w, verdicts, o).log.table.ops && Finished(ReplayOne(w, verdicts, o).log.table.ops[p])
  {
    hide Dispatch, RuntimeOutcome, EmitTerminal, Execute, Finished;
    var op := w.log.table.ops[o];
    var rt := Execute(w.runtime, verdicts, o);
    StageKeepsFinished(w.log, o, rt.outcomes[o], p);
    StageKeepsRows(w.log, o, rt.outcomes[o]);
    if !Terminal(op.state) {
      var log1 := if op.state.Dispatched? then w.log else Dispatch(w.log, o).0;
      StageKeepsFinished(log1, o, rt.outcomes[o], p);
      StageKeepsRows(log1, o, rt.outcomes[o]);
      StageKeepsFinished(RuntimeOutcome(log1, o, rt.outcomes[o]).0, o, rt.outcomes[o], p);
    }
  }

  /** The turn's verdict: not stale, because a pending operation carries the current generation. */
  lemma TurnConcludes(log: Log, o: nat, outcome: Outcome)
    requires Inv(log) && o in log.table.ops && !Terminal(log.table.ops[o].state)
    ensures Terminal(RuntimeOutcome(log, o, outcome).0.table.ops[o].state)
  {
  }

  lemma ReportFinishes(log: Log, o: nat)
    requires o in log.table.ops && Terminal(log.table.ops[o].state)
    ensures Finished(EmitTerminal(log, o).0.table.ops[o])
  {
  }

  lemma TurnFinishes(w: World, verdicts: Verdicts, o: nat)
    requires WorldOk(w, verdicts) && o in w.log.table.ops
    ensures o in ReplayOne(w, verdicts, o).log.table.ops && Finished(ReplayOne(w, verdicts, o).log.table.ops[o])
  {
    hide Inv, Dispatch, RuntimeOutcome, EmitTerminal, Execute, RuntimeOk;
    var op := w.log.table.ops[o];
    var rt := Execute(w.runtime, verdicts, o);
    StageKeepsRows(w.log, o, verdicts(o));
    if Terminal(op.state) {
      ReportFinishes(w.log, o);
    } else {
      var log1 := if op.state.Dispatched? then w.log else Dispatch(w.log, o).0;
      DispatchInv(w.log, o);
      DispatchPends(w.log, o);
      TurnConcludes(log1, o, rt.outcomes[o]);
      StageKeepsRows(log1, o, rt.outcomes[o]);
      var log2 := RuntimeOutcome(log1, o, rt.outcomes[o]).0;
      ReportFinishes(log2, o);
      StageKeepsRows(log2, o, rt.outcomes[o]);
    }
  }

  lemma DispatchPends(log: Log, o: nat)
    requires o in log.table.ops && !Terminal(log.table.ops[o].state)
    ensures o in Dispatch(log, o).0.table.ops && !Terminal(Dispatch(log, o).0.table.ops[o].state)
  {
  }

  lemma ReplayOneKeeps(w: World, verdicts: Verdicts, o: nat)
    requires WorldOk(w, verdicts)
    ensures WorldOk(ReplayOne(w, verdicts, o), verdicts)
    ensures Destination(ReplayOne(w, verdicts, o).log.table, verdicts) == Destination(w.log.table, verdicts)
    ensures Involved(ReplayOne(w, verdicts, o)) == Involved(w)
    ensures ReplayOne(w, verdicts, o).log.table.ops.Keys == w.log.table.ops.Keys
    ensures EventsDue(ReplayOne(w, verdicts, o).log) == EventsDue(w.log)
  {
    hide Inv, RuntimeOk, Destination, ReplayOne, AdvanceAll, EventsDue;
    if o in w.log.table.ops {
      var turn := Turn(w.log.table.ops[o], o);
      ReplayOneIsTurn(w, verdicts, o);
      ScheduleKeeps(w, verdicts, turn);
      assert Executed(turn, w.log.table) <= Unfinished(w.log.table);
    } else {
      Unknown(w, verdicts, o);
    }
  }

  lemma Unknown(w: World, verdicts: Verdicts, o: nat)
    requires o !in w.log.table.ops
    ensures ReplayOne(w, verdicts, o) == w
  {
  }

  lemma {:induction false} ReplayEachKeeps(w: World, verdicts: Verdicts, ids: seq<nat>)
    requires WorldOk(w, verdicts)
    ensures var w' := ReplayEach(w, verdicts, ids);
            && WorldOk(w', verdicts)
            && Destination(w'.log.table, verdicts) == Destination(w.log.table, verdicts)
            && Involved(w') == Involved(w)
            && w'.log.table.ops.Keys == w.log.table.ops.Keys
            && EventsDue(w'.log) == EventsDue(w.log)
            && (forall p :: p in w.log.table.ops && (p in ids || Finished(w.log.table.ops[p])) ==> Finished(w'.log.table.ops[p]))
    decreases |ids|
  {
    hide Inv, RuntimeOk, Destination, ReplayOne, Involved, EventsDue;
    if ids != [] {
      var o := ids[0];
      var w1 := ReplayOne(w, verdicts, o);
      ReplayOneKeeps(w, verdicts, o);
      ReplayEachKeeps(w1, verdicts, ids[1..]);
      forall p | p in w.log.table.ops && (p in ids || Finished(w.log.table.ops[p]))
        ensures p in ids[1..] || Finished(w1.log.table.ops[p])
      {
        if p == o {
          TurnFinishes(w, verdicts, o);
        } else if p !in ids[1..] {
          assert Finished(w.log.table.ops[p]);
          if o in w.log.table.ops { FinishedStays(w, verdicts, o, p); } else { Unknown(w, verdicts, o); }
        }
      }
    }
  }

  /** At rest nothing is pending, so where things lead is where they are. */
  lemma RestIsDestination(log: Log, verdicts: Verdicts)
    requires Inv(log) && AtRest(log.table)
    ensures Destination(log.table, verdicts) == Present(log.table)
    ensures Unfinished(log.table) == Unreported(log.table) == {} && EventsDue(log) == |log.ledger.book.events|
  {
    hide TrailOk, RowsOk, Sequenced, Ordered, Resolved, Concluded;
    var t := log.table;
    forall s | s in t.sandboxes ensures SettledBox(t.sandboxes[s], verdicts) == t.sandboxes[s] {
      if t.sandboxes[s].pending.Some? {
        assert false;
      }
    }
    forall o | o in t.ops ensures SettledOp(t.ops[o], verdicts(o)) == Essence(t.ops[o]) {
      assert Finished(t.ops[o]);
    }
  }

  /**
   Replay converges: it leaves every operation terminal and reported, in exactly the
   state its verdict dictates, having run each operation that still needed it.
   */
  lemma ReplayConverges(w: World, verdicts: Verdicts)
    requires WorldOk(w, verdicts)
    ensures var w' := Replay(w, verdicts);
            && WorldOk(w', verdicts)
            && AtRest(w'.log.table)
            && Present(w'.log.table) == Destination(w.log.table, verdicts)
            && w'.runtime.outcomes.Keys == w.runtime.outcomes.Keys + Unfinished(w.log.table)
            && w'.runtime.effects == |w.runtime.outcomes.Keys + Unfinished(w.log.table)|
            && |w'.log.ledger.book.events| == EventsDue(w.log)
  {
    hide Destination, Present, Unfinished, EventsDue, TrailOk, RowsOk, Sequenced, Serialized, ReplayOne;
    var w' := Replay(w, verdicts);
    ReplayEachKeeps(w, verdicts, w.log.table.order);
    RestIsDestination(w'.log, verdicts);
    assert |w'.runtime.outcomes| == |w'.runtime.outcomes.Keys|;
  }

  /** Replaying a log at rest changes nothing at all, not even a counter. */
  lemma {:induction false} ReplayAtRest(w: World, verdicts: Verdicts, ids: seq<nat>)
    requires AtRest(w.log.table)
    ensures ReplayEach(w, verdicts, ids) == w
    decreases |ids|
  {
    if ids != [] {
      assert ids[0] in w.log.table.ops ==> Finished(w.log.table.ops[ids[0]]);
      ReplayAtRest(w, verdicts, ids[1..]);
    }
  }

  // --------------------------------------------------------------- one report each

  predicate IsReport(id: EventId, o: nat) {
    id == OperationEvent(o, OperationSucceeded) || id == OperationEvent(o, OperationFailed)
  }

  /** How many terminal events of operation o a list holds. */
  function Reports(events: seq<Event>, o: nat): nat {
    if events == [] then 0
    else
      Reports(events[..|events| - 1], o) +
      (if IsReport(events[|events| - 1].id, o) then 1 else 0)
  }

  lemma {:induction false} ReportsOnce(events: seq<Event>, o: nat, id: EventId, n: nat)
    requires n <= |events| && IsReport(id, o)
    requires forall i, j :: 0 <= i < j < |events| ==> events[i].id != events[j].id
    requires forall i :: 0 <= i < |events| && IsReport(events[i].id, o) ==> events[i].id == id
    ensures Reports(events[..n], o) == if exists i :: 0 <= i < n && events[i].id == id then 1 else 0
  {
    if n > 0 {
      assert events[..n][..n - 1] == events[..n - 1];
      ReportsOnce(events, o, id, n - 1);
    }
  }

  /** A finished operation has exactly one terminal event in the ledger, and it names its verdict. */
  lemma OneTerminalEvent(log: Log, o: nat)
    requires Inv(log) && o in log.table.ops && Finished(log.table.ops[o])
    ensures Reports(log.ledger.book.events, o) == 1
    ensures OperationEvent(o, TerminalEvent(log.table.ops[o].state)) in log.ledger.book.byEventId
    ensures OperationEvent(o, TerminalEvent(log.table.ops[o].state)) in log.ledger.outboxByEvent
  {
    hide Reports;
    var op, events := log.table.ops[o], log.ledger.book.events;
    var id := OperationEvent(o, TerminalEvent(op.state));
    VerdictOnRecord(log, o);
    hide Inv, Finished, IsReport;
    assert IsReport(id, o) by { NamesReport(op.state, o); }
    ReportsOnce(events, o, id, |events|);
    assert events[..|events|] == events;
  }

  lemma NamesReport(state: OpState, o: nat)
    ensures IsReport(OperationEvent(o, TerminalEvent(state)), o)
  {
  }

  /** The ledger lists the verdict's event, each event once, and no other verdict of the operation. */
  lemma VerdictOnRecord(log: Log, o: nat)
    requires Inv(log) && o in log.table.ops && Finished(log.table.ops[o])
    ensures var id := OperationEvent(o, TerminalEvent(log.table.ops[o].state)); var events := log.ledger.book.events;
            && id in log.ledger.book.byEventId && id in log.ledger.outboxByEvent
            && (exists i :: 0 <= i < |events| && events[i].id == id)
            && (forall i, j :: 0 <= i < j < |events| ==> events[i].id != events[j].id)
            && (forall i :: 0 <= i < |events| && IsReport(events[i].id, o) ==> events[i].id == id)
  {
    hide TableOk, Events.Sound;
    var op, events := log.table.ops[o], log.ledger.book.events;
    var id := OperationEvent(o, TerminalEvent(op.state));
    assert op.events == [OperationRequested, TerminalEvent(op.state)];
    assert TerminalEvent(op.state) in op.events;
    assert id in log.ledger.book.byEventId && log.ledger.book.byEventId[id] in events;
    forall i | 0 <= i < |events| && IsReport(events[i].id, o)
      ensures events[i].id == id
    {
      assert IdKnown(log.table, log.seqNo, events[i].id);
    }
  }

  // ------------------------------------------------------------------- the crash

  datatype LogImage = LogImage(
    ledger: Events.Image,
    table: Table,
    idempotency: map<string, Ticket>,
    flags: seq<LogFlag>,
    seqNo: nat,
    sourceSeq: nat,
    clock: nat)

  function Persist(log: Log): LogImage {
    LogImage(Events.ToImage(log.ledger), log.table, log.idempotency, log.flags, log.seqNo, log.sourceSeq, log.clock)
  }

  function Restore(image: LogImage): Option<Log> {
    match Events.FromImage(image.ledger)
    case None => None
    case Some(ledger) =>
      Some(Log(ledger, image.table, image.idempotency, image.flags, image.seqNo, image.sourceSeq, image.clock))
  }

  lemma RestoreLog(log: Log)
    requires Inv(log)
    ensures Restore(Persist(log)) == Some(log)
  {
  }

  /**
   Crash convergence.  Start from any reachable log; let any schedule of pipeline
   stages run and crash anywhere; restore the persisted image and replay with the
   same runtime.  The result is the state of every completion of the uncrashed run,
   with one terminal event per operation, and (when the uncrashed run hands the
   runtime only operations that are outstanding or were already handed to it) the same
   set of runtime effects, one each.
   */
  lemma CrashConvergence(start: World, verdicts: Verdicts, before: seq<Stage>, after: seq<Stage>)
    requires WorldOk(start, verdicts)
    ensures var crashed := AdvanceAll(start, verdicts, before);
            var restored := Restore(Persist(crashed.log));
            && restored.Some?
            && var recovered := Replay(World(restored.value, crashed.runtime), verdicts);
            var uncrashed := AdvanceAll(crashed, verdicts, after);
            && AtRest(recovered.log.table)
            && (forall o :: o in recovered.log.table.ops ==> Reports(recovered.log.ledger.book.events, o) == 1)
            && recovered.runtime.effects == |recovered.runtime.outcomes|
            && Replay(recovered, verdicts) == recovered
            && (AtRest(uncrashed.log.table) ==>
                  && Present(recovered.log.table) == Present(uncrashed.log.table)
                  && |recovered.log.ledger.book.events| == |uncrashed.log.ledger.book.events|
                  && (Executed(after, crashed.log.table) <= Involved(crashed) ==>
                        recovered.runtime.outcomes.Keys == uncrashed.runtime.outcomes.Keys &&
                        recovered.runtime.effects == uncrashed.runtime.effects))
  {
    hide Inv, Destination, Present, Replay, Executed, Reports, Persist, Restore, AdvanceAll, Unfinished, EventsDue;
    var crashed := AdvanceAll(start, verdicts, before);
    ScheduleKeeps(start, verdicts, before);
    RestoreLog(crashed.log);
    ReplayConverges(crashed, verdicts);
    var recovered := Replay(crashed, verdicts);
    ReplayIdle(recovered, verdicts);
    forall o | o in recovered.log.table.ops ensures Reports(recovered.log.ledger.book.events, o) == 1 {
      OneTerminalEvent(recovered.log, o);
    }
    var uncrashed := AdvanceAll(crashed, verdicts, after);
    ScheduleKeeps(crashed, verdicts, after);
    if AtRest(uncrashed.log.table) {
      RestIsDestination(uncrashed.log, verdicts);
      SameKeysSameSize(recovered.runtime.outcomes, uncrashed.runtime.outcomes);
    }
  }

  lemma ReplayIdle(w: World, verdicts: Verdicts)
    requires AtRest(w.log.table)
    ensures Replay(w, verdicts) == w
  {
    ReplayAtRest(w, verdicts, w.log.table.order);
  }

  lemma SameKeysSameSize(a: map<nat, Outcome>, b: map<nat, Outcome>)
    ensures a.Keys == b.Keys ==> |a| == |b|
  {
  }

  // -------------------------------------------------------------- the crash matrix

  /** The pipeline of one accepted operation, in the order the control plane drives it. */
  function Pipeline(o: nat): seq<Stage> {
    [ToDispatch(o), ToExecute(o), ToConfirm(o), ToReport(o)]
  }

  /**
   The crash matrix, for every reachable log, operation type and verdict: accept a
   request, stop its pipeline after any of its stages, restore and replay; the
   result equals the run that was not interrupted, replayed or not.
   */
  lemma CrashMatrix(w: World, verdicts: Verdicts, s: string, kind: OpType, key: Option<string>, expected: Option<nat>, point: nat)
    requires WorldOk(w, verdicts) && point <= 4
    requires Request(w.log, s, kind, key, expected).1.Accepted?
    ensures var (log, reply) := Request(w.log, s, kind, key, expected);
            var accepted := World(log, w.runtime);
            var crashed := AdvanceAll(accepted, verdicts, Pipeline(reply.op)[..point]);
            var clean := Replay(AdvanceAll(accepted, verdicts, Pipeline(reply.op)), verdicts);
            var restored := Restore(Persist(crashed.log));
            && restored.Some?
            && var recovered := Replay(World(restored.value, crashed.runtime), verdicts);
            && Present(recovered.log.table) == Present(clean.log.table)
            && |recovered.log.ledger.book.events| == |clean.log.ledger.book.events|
            && recovered.runtime.effects == clean.runtime.effects
            && reply.op in recovered.runtime.outcomes
  {
    hide Inv, Destination, Present, Replay, Persist, Restore, AdvanceAll, RuntimeOk;
    var (log, reply) := Request(w.log, s, kind, key, expected);
    RequestInv(w.log, s, kind, key, expected);
    AcceptedPends(w.log, s, kind, key, expected);
    hide Request;
    CrashPoint(World(log, w.runtime), verdicts, reply.op, point);
  }

  /** One pending operation, its pipeline stopped at any point, restored and replayed. */
  lemma CrashPoint(accepted: World, verdicts: Verdicts, o: nat, point: nat)
    requires WorldOk(accepted, verdicts) && point <= 4
    requires o in accepted.log.table.ops && !Terminal(accepted.log.table.ops[o].state)
    ensures var crashed := AdvanceAll(accepted, verdicts, Pipeline(o)[..point]);
            var clean := Replay(AdvanceAll(accepted, verdicts, Pipeline(o)), verdicts);
            var restored := Restore(Persist(crashed.log));
            && restored.Some?
            && var recovered := Replay(World(restored.value, crashed.runtime), verdicts);
            && Present(recovered.log.table) == Present(clean.log.table)
            && |recovered.log.ledger.book.events| == |clean.log.ledger.book.events|
            && recovered.runtime.effects == clean.runtime.effects
            && o in recovered.runtime.outcomes
  {
    hide Inv, Destination, Present, Replay, Persist, Restore, AdvanceAll, RuntimeOk, Executed, Unfinished, EventsDue;
    var crashed := AdvanceAll(accepted, verdicts, Pipeline(o)[..point]);
    var full := AdvanceAll(accepted, verdicts, Pipeline(o));
    ScheduleKeeps(accepted, verdicts, Pipeline(o)[..point]);
    ScheduleKeeps(accepted, verdicts, Pipeline(o));
    PipelineRuns(o, point, accepted.log.table);
    StillInvolved(accepted, o);
    RestoreLog(crashed.log);
    ReplayConverges(crashed, verdicts);
    ReplayConverges(full, verdicts);
    hide Involved, Pipeline;
    assert Involved(crashed) == Involved(full) == Involved(accepted);
    SameKeysSameSize(Replay(crashed, verdicts).runtime.outcomes, Replay(full, verdicts).runtime.outcomes);
  }

  lemma StillInvolved(w: World, o: nat)
    requires o in w.log.table.ops && !Terminal(w.log.table.ops[o].state)
    ensures o in Involved(w)
  {
  }

  lemma AcceptedPends(log: Log, s: string, kind: OpType, key: Option<string>, expected: Option<nat>)
    requires Request(log, s, kind, key, expected).1.Accepted?
    ensures var (log', reply) := Request(log, s, kind, key, expected);
            reply.op in log'.table.ops && !Terminal(log'.table.ops[reply.op].state)
  {
    hide Events.Append;
  }

  lemma PipelineRuns(o: nat, point: nat, t: Table)
    requires point <= 4
    ensures Executed(Pipeline(o)[..point], t) <= {o} && Executed(Pipeline(o), t) <= {o}
  {
  }
}
