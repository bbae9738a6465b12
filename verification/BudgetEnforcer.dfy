/**
 The at-limit stop protocol of scripts/budget_gates.py: a blocked record is
 saved before any stop, every stop call follows its own durable mark, and stop
 calls run outside the lock. Any number of enforcer threads interleave at lock
 boundaries over one storage, and any of them may die between two steps.
 */
module BudgetEnforcer {
  import opened Basics

  datatype Phase = Blocked | StopPending | Stopped

  datatype Alert = BudgetBlocked | StopTimeout | WatchdogFollowup

  /** The stored record. */
  datatype Record = Record(
    phase: Phase,
    blockedAt: nat,
    spend: nat,
    limit: nat,
    planned: seq<string>,
    issued: seq<string>,
    confirmed: seq<string>,
    alerts: seq<Alert>)

  function NewRecord(spend: nat, limit: nat, now: nat, planned: seq<string>): Record {
    Record(Blocked, now, spend, limit, planned, [], [], [BudgetBlocked])
  }

  /** The planned stops not yet marked as issued, in plan order. */
  function NeverIssued(planned: seq<string>, issued: seq<string>): (todo: seq<string>)
    ensures forall rid :: rid in todo <==> rid in planned && rid !in issued
  {
    if planned == [] then []
    else (if planned[0] in issued then [] else [planned[0]]) + NeverIssued(planned[1..], issued)
  }

  // ---------------------------------------------------------- critical sections

  function SetPhase(r: Record): Record {
    if forall rid :: rid in r.planned ==> rid in r.confirmed then r.(phase := Stopped) else r
  }

  function MarkIssued(r: Record, rid: string): Record { r.(issued := r.issued + [rid]) }

  function AddAlert(alerts: seq<Alert>, a: Alert): seq<Alert> {
    if a in alerts then alerts else alerts + [a]
  }

  function RecordTimeout(r: Record): Record {
    r.(phase := StopPending, alerts := AddAlert(AddAlert(r.alerts, StopTimeout), WatchdogFollowup))
  }

  function RecordConfirmed(r: Record, rid: string): Record {
    SetPhase(r.(confirmed := r.confirmed + [rid]))
  }

  // ---------------------------------------------------------- threads

  /** How a stop call ends: with a receipt, with a timeout, or with another exception, which kills the enforcer. */
  datatype Reply = Receipt | TimedOut | Raised

  /** Where one enforcer stands between two lock acquisitions or calls. */
  datatype Thread =
    | Entering(spend: nat, limit: nat, now: nat, wanted: seq<string>)
    | Looping(todo: seq<string>)
    | Calling(rid: string, todo: seq<string>)
    | Waiting(rid: string, todo: seq<string>)
    | Answered(rid: string, receipt: bool, todo: seq<string>)
    | Finished
    | Dead

  /** What the outside can observe, in order. */
  datatype Effect = Saved(record: Record) | StopCalled(rid: string)

  datatype System = System(store: Option<Record>, threads: map<nat, Thread>, trace: seq<Effect>)

  datatype Action =
    | Start(t: nat, spend: nat, limit: nat, now: nat, wanted: seq<string>)
    | Enter(t: nat)
    | Take(t: nat)
    | Call(t: nat)
    | Answer(t: nat, reply: Reply)
    | Settle(t: nat)
    | Die(t: nat)

  predicate Holds(th: Thread) { th.Calling? || th.Waiting? || th.Answered? }

  function Save(s: System, t: nat, th: Thread, r: Record): System {
    System(Some(r), s.threads[t := th], s.trace + [Saved(r)])
  }

  function Move(s: System, t: nat, th: Thread): System { s.(threads := s.threads[t := th]) }

  /** One enforcer loads the record or creates it, under the lock. */
  function EnterStep(s: System, t: nat, th: Thread): System
    requires th.Entering?
  {
    match s.store
    case None =>
      var r := NewRecord(th.spend, th.limit, th.now, th.wanted);
      Save(s, t, Looping(NeverIssued(r.planned, r.issued)), r)
    case Some(r) => Move(s, t, Looping(NeverIssued(r.planned, r.issued)))
  }

  /** Under the lock: recheck the filter and mark the next stop, or run the closing section. */
  function TakeStep(s: System, t: nat, th: Thread, r: Record): System
    requires th.Looping?
  {
    if th.todo == [] then
      Save(s, t, Finished, SetPhase(r))
    else if th.todo[0] !in NeverIssued(r.planned, r.issued) then
      Move(s, t, Looping(th.todo[1..]))
    else
      Save(s, t, Calling(th.todo[0], th.todo[1..]), MarkIssued(r, th.todo[0]))
  }

  /** Under the lock: record the timeout or the receipt. */
  function SettleStep(s: System, t: nat, th: Thread, r: Record): System
    requires th.Answered?
  {
    Save(s, t, Looping(th.todo), if th.receipt then RecordConfirmed(r, th.rid) else RecordTimeout(r))
  }

  /** One step; an action whose thread is not ready for it changes nothing. */
  function Step(s: System, a: Action): System {
    if a.Start? then
      if a.t in s.threads then s else Move(s, a.t, Entering(a.spend, a.limit, a.now, a.wanted))
    else if a.t !in s.threads then s
    else
      var th := s.threads[a.t];
      match a
      case Enter(t) => if th.Entering? then EnterStep(s, t, th) else s
      case Take(t) => if th.Looping? && s.store.Some? then TakeStep(s, t, th, s.store.value) else s
      case Call(t) =>
        if th.Calling? then
          System(s.store, s.threads[t := Waiting(th.rid, th.todo)], s.trace + [StopCalled(th.rid)])
        else s
      case Answer(t, reply) =>
        if th.Waiting? then
          Move(s, t, if reply.Raised? then Dead else Answered(th.rid, reply.Receipt?, th.todo))
        else s
      case Settle(t) => if th.Answered? && s.store.Some? then SettleStep(s, t, th, s.store.value) else s
      case Die(t) => Move(s, t, Dead)
  }

  function Run(s: System, actions: seq<Action>): System
    decreases |actions|
  {
    if actions == [] then s else Step(Run(s, actions[..|actions| - 1]), actions[|actions| - 1])
  }

  const INITIAL := System(None, map[], [])

  // ---------------------------------------------------------- what every step keeps

  predicate Distinct(s: seq<string>) {
    forall i, j :: 0 <= i < j < |s| ==> s[i] != s[j]
  }

  predicate Within(a: seq<string>, b: seq<string>) {
    forall rid :: rid in a ==> rid in b
  }

  /** confirmed is within issued, issued within planned, nothing is listed twice, and the phase is honest. */
  predicate RecordOk(r: Record) {
    && Distinct(r.issued) && Distinct(r.confirmed)
    && Within(r.issued, r.planned) && Within(r.confirmed, r.issued)
    && (r.phase.Stopped? ==> Within(r.planned, r.confirmed))
    && (r.phase.StopPending? ==> StopTimeout in r.alerts && WatchdogFollowup in r.alerts)
    && BudgetBlocked in r.alerts
  }

  predicate HoldsStop(threads: map<nat, Thread>, t: nat, rid: string) {
    t in threads && Holds(threads[t]) && threads[t].rid == rid
  }

  /** A thread holding a stop is its only holder, and the stop is issued but not confirmed. */
  ghost predicate HoldersOk(threads: map<nat, Thread>, r: Record) {
    && (forall t, rid :: HoldsStop(threads, t, rid) ==> rid in r.issued && rid !in r.confirmed)
    && (forall t, u, rid :: HoldsStop(threads, t, rid) && HoldsStop(threads, u, rid) ==> t == u)
  }

  /** No planned stop is skipped: what a live thread has not issued is still on its list. */
  predicate CoversPlan(th: Thread, r: Record) {
    && ((th.Looping? || Holds(th)) ==> forall rid :: rid in r.planned ==> rid in r.issued || rid in th.todo)
    && (th.Finished? ==> Within(r.planned, r.issued))
  }

  function Calls(trace: seq<Effect>, rid: string): nat {
    if trace == [] then 0
    else Calls(trace[..|trace| - 1], rid) + (if trace[|trace| - 1] == StopCalled(rid) then 1 else 0)
  }

  function LastSaved(trace: seq<Effect>): Option<Record> {
    if trace == [] then None
    else if trace[|trace| - 1].Saved? then Some(trace[|trace| - 1].record)
    else LastSaved(trace[..|trace| - 1])
  }

  /** Every call in the trace happens while the last durable record marks that stop as issued. */
  predicate MarkedFirst(trace: seq<Effect>) {
    forall i :: 0 <= i < |trace| && trace[i].StopCalled? ==>
      var seen := LastSaved(trace[..i]);
      seen.Some? && trace[i].rid in seen.value.issued && trace[i].rid in seen.value.planned
  }

  /** Each stop is called at most once, only after it is issued, and before it is confirmed. */
  ghost predicate CallsMatch(trace: seq<Effect>, r: Record) {
    && (forall rid :: Calls(trace, rid) <= 1)
    && (forall rid :: Calls(trace, rid) == 1 ==> rid in r.issued)
    && (forall rid :: rid in r.confirmed ==> Calls(trace, rid) == 1)
  }

  /** A stop is not yet called while its thread has only marked it, and called once after that. */
  predicate CalledInTurn(trace: seq<Effect>, th: Thread) {
    && (th.Calling? ==> Calls(trace, th.rid) == 0)
    && (th.Waiting? || th.Answered? ==> Calls(trace, th.rid) == 1)
  }

  ghost predicate CallsOk(s: System, r: Record) {
    CallsMatch(s.trace, r) && forall t :: t in s.threads ==> CalledInTurn(s.trace, s.threads[t])
  }

  predicate TraceOk(s: System) {
    MarkedFirst(s.trace) && LastSaved(s.trace) == s.store
  }

  /** A pending phase names a stop whose outcome nobody will learn; a full confirmation has set the phase. */
  ghost predicate PhaseOk(threads: map<nat, Thread>, r: Record) {
    && (r.phase.StopPending? ==>
          exists rid :: rid in r.issued && rid !in r.confirmed && Abandoned(threads, rid))
    && (Within(r.planned, r.confirmed) && (r.planned != [] || SomeFinished(threads)) ==> r.phase.Stopped?)
  }

  predicate SomeFinished(threads: map<nat, Thread>) {
    exists t :: t in threads && threads[t].Finished?
  }

  ghost predicate Abandoned(threads: map<nat, Thread>, rid: string) {
    forall t :: !HoldsStop(threads, t, rid)
  }

  ghost predicate Inv(s: System) {
    && TraceOk(s)
    && match s.store
       case None => s.trace == [] && forall t :: t in s.threads ==> s.threads[t].Entering? || s.threads[t].Dead?
       case Some(r) =>
         && RecordOk(r) && HoldersOk(s.threads, r) && CallsOk(s, r) && PhaseOk(s.threads, r)
         && forall t :: t in s.threads ==> CoversPlan(s.threads[t], r)
  }

  // ---------------------------------------------------------- preservation

  lemma Traced(trace: seq<Effect>, e: Effect)
    ensures var next := trace + [e];
            && LastSaved(next) == (if e.Saved? then Some(e.record) else LastSaved(trace))
            && (forall rid :: Calls(next, rid) == Calls(trace, rid) + (if e == StopCalled(rid) then 1 else 0))
  {
  }

  lemma MarkedFirstGrows(trace: seq<Effect>, e: Effect)
    requires MarkedFirst(trace)
    requires e.StopCalled? ==> LastSaved(trace).Some? && e.rid in LastSaved(trace).value.issued && e.rid in LastSaved(trace).value.planned
    ensures MarkedFirst(trace + [e])
  {
    var next := trace + [e];
    forall i | 0 <= i < |next| && next[i].StopCalled?
      ensures var seen := LastSaved(next[..i]);
              seen.Some? && next[i].rid in seen.value.issued && next[i].rid in seen.value.planned
    {
      if i < |trace| { assert next[..i] == trace[..i]; } else { assert next[..i] == trace; }
    }
  }

  lemma TraceOkStep(s: System, a: Action)
    requires Inv(s)
    ensures TraceOk(Step(s, a))
  {
    hide RecordOk, PhaseOk, CallsOk, MarkedFirst, LastSaved, Calls, SetPhase, MarkIssued, RecordTimeout, RecordConfirmed;
    var next := Step(s, a);
    if next.trace != s.trace {
      var e := next.trace[|s.trace|];
      assert next.trace == s.trace + [e];
      Traced(s.trace, e);
      if e.StopCalled? {
        var th := s.threads[a.t];
        assert HoldsStop(s.threads, a.t, th.rid);
        assert e.rid in s.store.value.planned by { assert RecordOk(s.store.value); IssuedArePlanned(s.store.value, e.rid); }
      }
      MarkedFirstGrows(s.trace, e);
    }
  }

  lemma IssuedArePlanned(r: Record, rid: string)
    requires RecordOk(r) && rid in r.issued
    ensures rid in r.planned
  {
  }

  lemma RecordOkStep(s: System, a: Action)
    requires Inv(s) && s.store.Some?
    ensures Step(s, a).store.Some? && RecordOk(Step(s, a).store.value)
  {
    hide PhaseOk, CallsOk, TraceOk;
    if a.Settle? && a.t in s.threads && s.threads[a.t].Answered? {
      assert HoldsStop(s.threads, a.t, s.threads[a.t].rid);
    }
  }

  lemma HoldersOkStep(s: System, a: Action)
    requires Inv(s) && s.store.Some?
    ensures Step(s, a).store.Some? && HoldersOk(Step(s, a).threads, Step(s, a).store.value)
  {
    hide PhaseOk, CallsOk, TraceOk;
    var next := Step(s, a);
    forall t, rid | HoldsStop(next.threads, t, rid)
      ensures rid in next.store.value.issued && rid !in next.store.value.confirmed
    {
      if t != a.t { assert HoldsStop(s.threads, t, rid); }
      if a.t in s.threads && Holds(s.threads[a.t]) { assert HoldsStop(s.threads, a.t, s.threads[a.t].rid); }
    }
    forall t, u, rid | HoldsStop(next.threads, t, rid) && HoldsStop(next.threads, u, rid)
      ensures t == u
    {
      if t != a.t { assert HoldsStop(s.threads, t, rid); }
      if u != a.t { assert HoldsStop(s.threads, u, rid); }
      if a.t in s.threads && Holds(s.threads[a.t]) { assert HoldsStop(s.threads, a.t, s.threads[a.t].rid); }
    }
  }

  predicate StartsCall(s: System, a: Action, rid: string) {
    a.Call? && a.t in s.threads && s.threads[a.t].Calling? && s.threads[a.t].rid == rid
  }

  /** A step leaves the trace alone or adds one save or one call. */
  lemma TraceAfter(s: System, a: Action) returns (added: seq<Effect>)
    ensures Step(s, a).trace == s.trace + added && |added| <= 1
    ensures forall rid :: StartsCall(s, a, rid) <==> added == [StopCalled(rid)]
  {
    hide NeverIssued, SetPhase, MarkIssued, RecordConfirmed, RecordTimeout;
    var next := Step(s, a).trace;
    added := next[|s.trace|..];
  }

  /** A step adds a call exactly when its thread starts one. */
  lemma CallsAfter(s: System, a: Action, rid: string)
    ensures Calls(Step(s, a).trace, rid) == Calls(s.trace, rid) + (if StartsCall(s, a, rid) then 1 else 0)
  {
    hide *;
    var added := TraceAfter(s, a);
    if added == [] {
      assert s.trace + added == s.trace;
    } else {
      assert added == [added[0]];
      Traced(s.trace, added[0]);
    }
  }

  lemma CallsListed(s: System, a: Action)
    requires Inv(s) && s.store.Some?
    ensures Step(s, a).store.Some? && CallsMatch(Step(s, a).trace, Step(s, a).store.value)
  {
    hide PhaseOk, TraceOk, Calls, CoversPlan, RecordOk, NeverIssued;
    forall rid ensures Calls(Step(s, a).trace, rid) == Calls(s.trace, rid) + (if StartsCall(s, a, rid) then 1 else 0) {
      CallsAfter(s, a, rid);
    }
    if a.t in s.threads && Holds(s.threads[a.t]) { assert HoldsStop(s.threads, a.t, s.threads[a.t].rid); }
  }

  lemma CallsHeld(s: System, a: Action, t: nat)
    requires Inv(s) && s.store.Some? && t in Step(s, a).threads
    ensures CalledInTurn(Step(s, a).trace, Step(s, a).threads[t])
  {
    hide PhaseOk, TraceOk, Calls, CoversPlan, RecordOk, NeverIssued;
    var th := Step(s, a).threads[t];
    if Holds(th) {
      CallsAfter(s, a, th.rid);
      if t != a.t { assert HoldsStop(s.threads, t, th.rid); }
      if a.t in s.threads && Holds(s.threads[a.t]) { assert HoldsStop(s.threads, a.t, s.threads[a.t].rid); }
    }
  }

  lemma CallsOkStep(s: System, a: Action)
    requires Inv(s) && s.store.Some?
    ensures Step(s, a).store.Some? && CallsOk(Step(s, a), Step(s, a).store.value)
  {
    CallsListed(s, a);
    forall t | t in Step(s, a).threads ensures CalledInTurn(Step(s, a).trace, Step(s, a).threads[t]) {
      CallsHeld(s, a, t);
    }
    hide Inv, Step, CallsMatch, CalledInTurn;
  }

  lemma PhaseOkStep(s: System, a: Action)
    requires Inv(s) && s.store.Some?
    ensures Step(s, a).store.Some? && PhaseOk(Step(s, a).threads, Step(s, a).store.value)
  {
    hide CallsOk, TraceOk, CoversPlan, NeverIssued;
    var next := Step(s, a);
    var r, now := s.store.value, next.store.value;
    if a.t in s.threads && Holds(s.threads[a.t]) { assert HoldsStop(s.threads, a.t, s.threads[a.t].rid); }
    forall t | t in s.threads && t in next.threads && t != a.t ensures s.threads[t] == next.threads[t] {}
    if now.phase.StopPending? {
      if r.phase.StopPending? {
        var rid :| rid in r.issued && rid !in r.confirmed && Abandoned(s.threads, rid);
        StaysAbandoned(s, a, rid);
      } else {
        var rid := s.threads[a.t].rid;
        forall t ensures !HoldsStop(next.threads, t, rid) {
          if t != a.t { assert HoldsStop(s.threads, t, rid) ==> t == a.t; }
        }
        assert Abandoned(next.threads, rid);
      }
    }
  }

  /** A stop issued by an enforcer that no longer waits for it is never picked up again. */
  lemma StaysAbandoned(s: System, a: Action, rid: string)
    requires s.store.Some? && RecordOk(s.store.value) && HoldersOk(s.threads, s.store.value)
    requires rid in s.store.value.issued && rid !in s.store.value.confirmed && Abandoned(s.threads, rid)
    ensures var next := Step(s, a);
            && next.store.Some? && Abandoned(next.threads, rid)
            && rid in next.store.value.issued && rid !in next.store.value.confirmed
  {
    var next := Step(s, a);
    assert a.t in s.threads && Holds(s.threads[a.t]) ==> !HoldsStop(s.threads, a.t, rid);
    forall t ensures !HoldsStop(next.threads, t, rid) {
      assert !HoldsStop(s.threads, t, rid);
    }
  }

  lemma CoversPlanStep(s: System, a: Action)
    requires Inv(s) && s.store.Some?
    ensures var next := Step(s, a);
            next.store.Some? && forall t :: t in next.threads ==> CoversPlan(next.threads[t], next.store.value)
  {
    hide CallsOk, TraceOk, PhaseOk, HoldersOk, RecordOk;
    var next := Step(s, a);
    var r, now := s.store.value, next.store.value;
    assert now.planned == r.planned && Within(r.issued, now.issued);
    forall t | t in next.threads ensures CoversPlan(next.threads[t], now) {
      if t in s.threads { assert CoversPlan(s.threads[t], r); }
    }
  }

  lemma FirstSave(s: System, a: Action)
    requires Inv(s) && s.store.None?
    ensures Inv(Step(s, a))
  {
    TraceOkStep(s, a);
    if a.Enter? && a.t in s.threads && s.threads[a.t].Entering? {
      FirstEnter(s, a.t);
    } else {
      hide TraceOk;
    }
  }

  lemma FirstEnter(s: System, t: nat)
    requires Inv(s) && s.store.None? && t in s.threads && s.threads[t].Entering?
    requires TraceOk(Step(s, Enter(t)))
    ensures Inv(Step(s, Enter(t)))
  {
    hide TraceOk;
    var next := Step(s, Enter(t));
    var r := next.store.value;
    assert next.trace == [Saved(r)] && r.issued == [] && r.confirmed == [];
    assert RecordOk(r);
    NoHolders(next.threads, r);
    FirstTrace(r);
    assert forall u :: u in next.threads ==> CoversPlan(next.threads[u], r);
    assert CallsOk(next, r) by { hide RecordOk, HoldersOk, PhaseOk, CoversPlan, NeverIssued; }
    hide Step, RecordOk, HoldersOk, CallsOk, PhaseOk, CoversPlan;
  }

  lemma FirstTrace(r: Record)
    ensures forall rid :: Calls([Saved(r)], rid) == 0
  {
  }

  lemma NoHolders(threads: map<nat, Thread>, r: Record)
    requires forall t :: t in threads ==> !Holds(threads[t]) && !threads[t].Finished?
    requires r.phase.Blocked? && r.confirmed == []
    ensures HoldersOk(threads, r) && PhaseOk(threads, r)
  {
    assert forall t, rid :: !HoldsStop(threads, t, rid);
    if r.planned != [] { assert r.planned[0] in r.planned; }
  }

  /** Every step of every interleaving, deaths included, keeps the invariant. */
  lemma StepInv(s: System, a: Action)
    requires Inv(s)
    ensures Inv(Step(s, a))
  {
    if s.store.None? {
      FirstSave(s, a);
    } else {
      TraceOkStep(s, a);
      RecordOkStep(s, a);
      HoldersOkStep(s, a);
      CallsOkStep(s, a);
      PhaseOkStep(s, a);
      CoversPlanStep(s, a);
      hide Step, TraceOk, RecordOk, HoldersOk, CallsOk, PhaseOk, CoversPlan;
    }
  }

  lemma {:induction false} RunInv(s: System, actions: seq<Action>)
    requires Inv(s)
    ensures Inv(Run(s, actions))
    decreases |actions|
  {
    hide Inv, Step;
    if actions != [] {
      RunInv(s, actions[..|actions| - 1]);
      StepInv(Run(s, actions[..|actions| - 1]), actions[|actions| - 1]);
    }
  }

  lemma InitialInv()
    ensures Inv(INITIAL)
  {
  }

  // ---------------------------------------------------------- the guarantees

  /** However many enforcers run, restart and die, no resource is ever sent two stops. */
  lemma OneCallPerResource(actions: seq<Action>, rid: string)
    ensures Calls(Run(INITIAL, actions).trace, rid) <= 1
  {
    InitialInv();
    RunInv(INITIAL, actions);
  }

  /** Every stop call follows a durable save that plans it and marks it as issued. */
  lemma CallsFollowTheirMark(actions: seq<Action>, i: nat)
    requires i < |Run(INITIAL, actions).trace| && Run(INITIAL, actions).trace[i].StopCalled?
    ensures var trace := Run(INITIAL, actions).trace;
            exists j :: 0 <= j < i && trace[j].Saved? && trace[i].rid in trace[j].record.issued && trace[i].rid in trace[j].record.planned
  {
    InitialInv();
    RunInv(INITIAL, actions);
    var trace := Run(INITIAL, actions).trace;
    assert MarkedFirst(trace);
    SavedSomewhere(trace[..i]);
  }

  lemma {:induction false} SavedSomewhere(trace: seq<Effect>)
    requires LastSaved(trace).Some?
    ensures exists j :: 0 <= j < |trace| && trace[j].Saved? && trace[j].record == LastSaved(trace).value
  {
    var n := |trace| - 1;
    if !trace[n].Saved? {
      SavedSomewhere(trace[..n]);
      var j :| 0 <= j < n && trace[..n][j].Saved? && trace[..n][j].record == LastSaved(trace[..n]).value;
      assert trace[j].Saved?;
    }
  }

  /** The stored record is always ordered and honest: the compute cost counts as stopped exactly when it is. */
  lemma RecordIsHonest(actions: seq<Action>)
    requires Run(INITIAL, actions).store.Some?
    ensures var s := Run(INITIAL, actions); var r := s.store.value;
            && Within(r.confirmed, r.issued) && Within(r.issued, r.planned)
            && Distinct(r.issued) && Distinct(r.confirmed)
            && (r.phase.Stopped? ==> forall rid :: rid in r.planned ==> Calls(s.trace, rid) == 1 && rid in r.confirmed)
            && (r.planned != [] ==> (r.phase.Stopped? <==> Within(r.planned, r.confirmed)))
            && (r.phase.StopPending? ==>
                  exists rid :: rid in r.planned && rid in r.issued && rid !in r.confirmed)
  {
    InitialInv();
    RunInv(INITIAL, actions);
  }

  /** Once every planned stop is confirmed nothing changes the record again. */
  lemma StoppedIsFinal(s: System, a: Action)
    requires Inv(s) && s.store.Some? && s.store.value.phase.Stopped?
    ensures Step(s, a).store == s.store
  {
    hide CallsOk, TraceOk;
    assert a.t in s.threads && Holds(s.threads[a.t]) ==> HoldsStop(s.threads, a.t, s.threads[a.t].rid);
    assert !(a.t in s.threads && Holds(s.threads[a.t]));
  }

  /** After a timeout the record stays pending: nobody re-sends the stop and nobody claims it stopped. */
  lemma PendingIsFinal(s: System, a: Action)
    requires Inv(s) && s.store.Some? && s.store.value.phase.StopPending?
    ensures Step(s, a).store.Some? && Step(s, a).store.value.phase.StopPending?
  {
    hide CallsOk, TraceOk;
    var r := s.store.value;
    var rid :| rid in r.issued && rid !in r.confirmed && Abandoned(s.threads, rid);
    assert a.t in s.threads && Holds(s.threads[a.t]) ==> !HoldsStop(s.threads, a.t, rid);
  }

  /** The block, its plan and its figures survive everything; issued and confirmed only grow. */
  lemma BlockSurvives(s: System, a: Action)
    requires s.store.Some?
    ensures Step(s, a).store.Some?
    ensures var r, now := s.store.value, Step(s, a).store.value;
            && now.planned == r.planned && now.blockedAt == r.blockedAt && now.spend == r.spend && now.limit == r.limit
            && r.issued <= now.issued && r.confirmed <= now.confirmed && r.alerts <= now.alerts
  {
  }

  /** From any reachable block on, final phases stay final whatever happens afterwards. */
  lemma {:induction false} FinalForever(s: System, more: seq<Action>)
    requires Inv(s) && s.store.Some?
    ensures Run(s, more).store.Some?
    ensures s.store.value.phase.Stopped? ==> Run(s, more).store == s.store
    ensures s.store.value.phase.StopPending? ==> Run(s, more).store.value.phase.StopPending?
    decreases |more|
  {
    if more != [] {
      var before, a := Run(s, more[..|more| - 1]), more[|more| - 1];
      FinalForever(s, more[..|more| - 1]);
      RunInv(s, more[..|more| - 1]);
      BlockSurvives(before, a);
      if before.store.value.phase.Stopped? { StoppedIsFinal(before, a); }
      if before.store.value.phase.StopPending? { PendingIsFinal(before, a); }
      hide Inv, Step;
    }
  }

  /** An enforcer that ran to its end leaves no planned stop unissued, whatever the others did meanwhile. */
  lemma FinishedMeansIssued(actions: seq<Action>, t: nat)
    requires var s := Run(INITIAL, actions); t in s.threads && s.threads[t].Finished?
    ensures var s := Run(INITIAL, actions); s.store.Some? && Within(s.store.value.planned, s.store.value.issued)
  {
    InitialInv();
    RunInv(INITIAL, actions);
    assert Run(INITIAL, actions).store.Some? ==> CoversPlan(Run(INITIAL, actions).threads[t], Run(INITIAL, actions).store.value);
  }
}
