/**
 The enforcer object of scripts/budget_gates.py, one enforcer run by itself, and the
 overshoot bound.
 */
module BudgetGates {
  import opened Basics
  import opened BudgetEnforcer

  // ---------------------------------------------------------- one enforcer alone

  /** One round of thread t's loop while everyone else stands still; reply is the injected stop operation. */
  function Round(s: System, t: nat, reply: string -> Reply): (next: System)
    requires t in s.threads && s.threads[t].Looping? && s.store.Some?
    ensures t in next.threads && next.store.Some?
    ensures next.threads[t].Looping? ==> |next.threads[t].todo| < |s.threads[t].todo|
    ensures next.threads[t].Looping? || next.threads[t].Finished? || next.threads[t].Dead?
  {
    var taken := Step(s, Take(t));
    if !taken.threads[t].Calling? then taken
    else
      var answered := Step(Step(taken, Call(t)), Answer(t, reply(taken.threads[t].rid)));
      if answered.threads[t].Dead? then answered else Step(answered, Settle(t))
  }

  /** Thread t drives its list to the end. */
  function Alone(s: System, t: nat, reply: string -> Reply): System
    requires t in s.threads && s.threads[t].Looping? && s.store.Some?
    decreases |s.threads[t].todo|
  {
    var next := Round(s, t, reply);
    if next.threads[t].Looping? then Alone(next, t, reply) else next
  }

  function RoundActions(s: System, t: nat, reply: string -> Reply): seq<Action>
    requires t in s.threads && s.threads[t].Looping? && s.store.Some?
  {
    var taken := Step(s, Take(t));
    if !taken.threads[t].Calling? then [Take(t)]
    else
      var r := reply(taken.threads[t].rid);
      [Take(t), Call(t), Answer(t, r)] + (if r.Raised? then [] else [Settle(t)])
  }

  lemma {:induction false} RunAppend(s: System, a: seq<Action>, b: seq<Action>)
    ensures Run(s, a + b) == Run(Run(s, a), b)
    decreases |b|
  {
    if b == [] {
      assert a + b == a;
    } else {
      var n := |b| - 1;
      RunAppend(s, a, b[..n]);
      assert (a + b)[..|a + b| - 1] == a + b[..n];
    }
  }

  lemma RunOne(s: System, a: Action)
    ensures Run(s, [a]) == Step(s, a)
  {
  }

  lemma RoundIsARun(s: System, t: nat, reply: string -> Reply)
    requires t in s.threads && s.threads[t].Looping? && s.store.Some?
    ensures Round(s, t, reply) == Run(s, RoundActions(s, t, reply))
  {
    hide Run;
    var taken := Step(s, Take(t));
    RunOne(s, Take(t));
    if taken.threads[t].Calling? {
      var r := reply(taken.threads[t].rid);
      var called := Step(taken, Call(t));
      var answered := Step(called, Answer(t, r));
      RunOne(taken, Call(t));
      RunOne(called, Answer(t, r));
      RunOne(answered, Settle(t));
      RunAppend(s, [Take(t)], [Call(t)]);
      RunAppend(s, [Take(t)] + [Call(t)], [Answer(t, r)]);
      RunAppend(s, [Take(t)] + [Call(t)] + [Answer(t, r)], [Settle(t)]);
      assert [Take(t)] + [Call(t)] + [Answer(t, r)] == [Take(t), Call(t), Answer(t, r)];
      assert [Take(t), Call(t), Answer(t, r)] + [] == [Take(t), Call(t), Answer(t, r)];
    }
  }

  /** A lone enforcer is one of the interleavings, so every guarantee over runs covers it. */
  lemma {:induction false} AloneIsARun(s: System, t: nat, reply: string -> Reply) returns (actions: seq<Action>)
    requires t in s.threads && s.threads[t].Looping? && s.store.Some?
    ensures Alone(s, t, reply) == Run(s, actions)
    decreases |s.threads[t].todo|
  {
    hide Run;
    var next := Round(s, t, reply);
    actions := RoundActions(s, t, reply);
    RoundIsARun(s, t, reply);
    if next.threads[t].Looping? {
      var rest := AloneIsARun(next, t, reply);
      RunAppend(s, actions, rest);
      actions := actions + rest;
    }
  }

  lemma RoundInv(s: System, t: nat, reply: string -> Reply)
    requires Inv(s) && t in s.threads && s.threads[t].Looping? && s.store.Some?
    ensures Inv(Round(s, t, reply))
  {
    RoundIsARun(s, t, reply);
    RunInv(s, RoundActions(s, t, reply));
    hide Inv, Run, Round, RoundActions;
  }

  /** One round answered by a receipt leaves what is outstanding as it was. */
  lemma RoundSettles(s: System, t: nat, reply: string -> Reply)
    requires t in s.threads && s.threads[t].Looping? && s.store.Some?
    requires forall rid :: reply(rid).Receipt?
    requires s.threads[t].todo != []
    ensures var r, now := s.store.value, Round(s, t, reply).store.value;
            && Round(s, t, reply).threads[t].Looping?
            && (Within(now.issued, now.confirmed) <==> Within(r.issued, r.confirmed))
  {
    hide SetPhase, Within;
    var rid := s.threads[t].todo[0];
    var r, now := s.store.value, Round(s, t, reply).store.value;
    if rid in NeverIssued(r.planned, r.issued) {
      assert SetPhase(MarkIssued(r, rid).(confirmed := r.confirmed + [rid])).confirmed == r.confirmed + [rid] by {
        PhaseOnly(MarkIssued(r, rid).(confirmed := r.confirmed + [rid]));
      }
      PhaseOnly(MarkIssued(r, rid).(confirmed := r.confirmed + [rid]));
      Outstanding(r, now, rid);
    }
  }

  lemma PhaseOnly(r: Record)
    ensures SetPhase(r) == r.(phase := SetPhase(r).phase)
  {
  }

  /**
   A restarted enforcer whose stops all return receipts completes the block exactly
   when no earlier stop was left issued without a confirmation.
   */
  lemma {:induction false} RestartCompletesExactly(s: System, t: nat, reply: string -> Reply)
    requires Inv(s) && t in s.threads && s.threads[t].Looping? && s.store.Some?
    requires forall rid :: reply(rid).Receipt?
    ensures var done := Alone(s, t, reply);
            && done.store.Some?
            && Within(done.store.value.planned, done.store.value.issued)
            && (done.store.value.phase.Stopped? <==> Within(s.store.value.issued, s.store.value.confirmed))
    decreases |s.threads[t].todo|
  {
    hide Inv, Within, Step;
    if s.threads[t].todo == [] {
      AtTheEnd(s, t, reply);
    } else {
      RoundInv(s, t, reply);
      RoundSettles(s, t, reply);
      hide Round;
      RestartCompletesExactly(Round(s, t, reply), t, reply);
    }
  }

  /** Issuing a stop and confirming it changes nothing about whether anything is outstanding. */
  lemma Outstanding(r: Record, now: Record, rid: string)
    requires rid !in r.issued
    requires now.issued == r.issued + [rid] && now.confirmed == r.confirmed + [rid]
    ensures Within(now.issued, now.confirmed) <==> Within(r.issued, r.confirmed)
  {
    if Within(now.issued, now.confirmed) {
      forall x | x in r.issued ensures x in r.confirmed {
        assert x in now.issued;
      }
    }
  }

  lemma AtTheEnd(s: System, t: nat, reply: string -> Reply)
    requires Inv(s) && t in s.threads && s.threads[t].Looping? && s.store.Some? && s.threads[t].todo == []
    ensures var next := Round(s, t, reply); var r := next.store.value;
            && next.threads[t].Finished?
            && Within(r.planned, r.issued)
            && (r.phase.Stopped? <==> Within(s.store.value.issued, s.store.value.confirmed))
  {
  }

  // ---------------------------------------------------------- the object

  /** How many stop calls a list of effects holds. */
  function StopCalls(effects: seq<Effect>): nat {
    if effects == [] then 0
    else StopCalls(effects[..|effects| - 1]) + if effects[|effects| - 1].StopCalled? then 1 else 0
  }

  lemma StopCallsSnoc(effects: seq<Effect>, e: Effect)
    ensures StopCalls(effects + [e]) == StopCalls(effects) + if e.StopCalled? then 1 else 0
  {
    assert (effects + [e])[..|effects|] == effects;
  }

  lemma AloneTurns(s: System, t: nat, reply: string -> Reply)
    requires t in s.threads && s.threads[t].Looping? && s.store.Some?
    ensures Alone(s, t, reply) ==
            var next := Round(s, t, reply); if next.threads[t].Looping? then Alone(next, t, reply) else next
  {
  }

  /** With an empty list only the final phase is saved. */
  lemma AloneEnds(s: System, t: nat, reply: string -> Reply)
    requires t in s.threads && s.threads[t].Looping? && s.threads[t].todo == [] && s.store.Some?
    ensures var r := SetPhase(s.store.value);
            Alone(s, t, reply) == System(Some(r), s.threads[t := Finished], s.trace + [Saved(r)])
  {
  }

  /** The enforcer over its injected storage; effects is what storage and the stop operation saw. */
  class Enforcer {
    var stored: Option<Record>
    var effects: seq<Effect>

    constructor ()
      ensures stored == None && effects == []
    {
      stored, effects := None, [];
    }

    ghost function View(th: Thread): System
      reads this
    {
      System(stored, map[0 := th], effects)
    }

    method Store(r: Record)
      modifies this
      ensures stored == Some(r) && effects == old(effects) + [Saved(r)]
      ensures StopCalls(effects) == StopCalls(old(effects))
    {
      StopCallsSnoc(effects, Saved(r));
      stored := Some(r);
      effects := effects + [Saved(r)];
    }

    /** Load the record, or save a new one before anything is stopped. */
    method AtLimit(spend: nat, limit: nat, now: nat, planned: seq<string>) returns (record: Record, created: bool)
      modifies this
      ensures stored == Some(record) && created == old(stored).None?
      ensures View(Looping(NeverIssued(record.planned, record.issued)))
              == Step(old(View(Entering(spend, limit, now, planned))), Enter(0))
    {
      created := stored.None?;
      if created {
        record := NewRecord(spend, limit, now, planned);
        Store(record);
      } else {
        record := stored.value;
      }
      assert View(Looping(NeverIssued(record.planned, record.issued))).threads
          == old(View(Entering(spend, limit, now, planned))).threads[0 := Looping(NeverIssued(record.planned, record.issued))];
    }

    /** Mark, call and settle one stop unless somebody issued it already. */
    method IssueOne(rid: string, ghost rest: seq<string>, reply: string -> Reply) returns (raised: bool, sent: bool)
      requires stored.Some?
      modifies this
      ensures stored.Some?
      ensures View(if raised then Dead else Looping(rest)) == Round(old(View(Looping([rid] + rest))), 0, reply)
      ensures sent == (effects != old(effects))
      ensures StopCalls(effects) == StopCalls(old(effects)) + if sent then 1 else 0
    {
      hide StopCalls;
      ghost var before := View(Looping([rid] + rest));
      assert ([rid] + rest)[1..] == rest;
      var current := stored.value;
      raised, sent := false, false;
      if rid !in NeverIssued(current.planned, current.issued) {
        assert before.threads[0 := Looping(rest)] == map[0 := Looping(rest)];
        return;
      }
      Store(MarkIssued(current, rid));
      assert before.threads[0 := Calling(rid, rest)] == map[0 := Calling(rid, rest)];
      assert Step(before, Take(0)) == View(Calling(rid, rest));
      sent := true;
      StopCallsSnoc(effects, StopCalled(rid));
      effects := effects + [StopCalled(rid)];
      var r := reply(rid);
      ghost var th := if r.Raised? then Dead else Answered(rid, r.Receipt?, rest);
      assert map[0 := Calling(rid, rest)][0 := Waiting(rid, rest)][0 := th] == map[0 := th];
      assert Step(Step(Step(before, Take(0)), Call(0)), Answer(0, r)) == View(th);
      raised := r.Raised?;
      if !raised {
        hide SetPhase;
        current := stored.value;
        Store(if r.Receipt? then RecordConfirmed(current, rid) else RecordTimeout(current));
        assert map[0 := th][0 := Looping(rest)] == map[0 := Looping(rest)];
      }
    }

    /** The wave of stops: the same effects and the same record as the protocol's steps of one thread. */
    method IssueStops(record: Record, reply: string -> Reply) returns (raised: bool, sent: nat)
      requires stored.Some?
      modifies this
      ensures stored.Some?
      ensures StopCalls(effects) == StopCalls(old(effects)) + sent
      ensures View(if raised then Dead else Finished)
              == Alone(old(View(Looping(NeverIssued(record.planned, record.issued)))), 0, reply)
    {
      hide Round, Alone, NeverIssued, StopCalls, SetPhase, Step;
      var todo := NeverIssued(record.planned, record.issued);
      ghost var start := View(Looping(todo));
      raised, sent := false, 0;
      while todo != []
        invariant stored.Some?
        invariant !raised
        invariant StopCalls(effects) == StopCalls(old(effects)) + sent
        invariant Alone(View(Looping(todo)), 0, reply) == Alone(start, 0, reply)
        decreases |todo|
      {
        assert todo == [todo[0]] + todo[1..];
        AloneTurns(View(Looping(todo)), 0, reply);
        var one;
        raised, one := IssueOne(todo[0], todo[1..], reply);
        sent := sent + if one then 1 else 0;
        if raised {
          return;
        }
        todo := todo[1..];
      }
      ghost var last := View(Looping([]));
      AloneEnds(last, 0, reply);
      Store(SetPhase(stored.value));
      assert last.threads[0 := Finished] == map[0 := Finished];
    }
  }

  // ---------------------------------------------------------- overshoot

  datatype OverrunPolicy = OverrunPolicy(interval: nat, stopDuration: nat, rates: seq<nat>)

  function Combined(rates: seq<nat>): nat {
    if rates == [] then 0 else Combined(rates[..|rates| - 1]) + rates[|rates| - 1]
  }

  function Overshoot(p: OverrunPolicy): nat {
    Combined(p.rates) * p.interval + Combined(p.rates) * p.stopDuration
  }

  function EarlyStopAt(p: OverrunPolicy, limit: nat): int { limit - Overshoot(p) }

  method CombinedRate(rates: seq<nat>) returns (sum: nat)
    ensures sum == Combined(rates)
  {
    sum := 0;
    for i := 0 to |rates|
      invariant sum == Combined(rates[..i])
    {
      assert rates[..i + 1][..i] == rates[..i];
      sum := sum + rates[i];
    }
    assert rates[..|rates|] == rates;
  }

  /** What several resources have spent together. */
  function Together(spends: seq<nat -> int>, u: nat): int {
    if spends == [] then 0 else Together(spends[..|spends| - 1], u) + spends[|spends| - 1](u)
  }

  /** Resources that each keep to their own highest rate keep to the combined rate together, and reach it if each does. */
  lemma {:induction false} RatesCombine(spends: seq<nat -> int>, rates: seq<nat>, u: nat)
    requires |spends| == |rates|
    ensures (forall i :: 0 <= i < |rates| ==> spends[i](u + 1) <= spends[i](u) + rates[i]) ==>
              Together(spends, u + 1) <= Together(spends, u) + Combined(rates)
    ensures (forall i :: 0 <= i < |rates| ==> spends[i](u + 1) == spends[i](u) + rates[i]) ==>
              Together(spends, u + 1) == Together(spends, u) + Combined(rates)
  {
    if rates != [] { RatesCombine(spends[..|rates| - 1], rates[..|rates| - 1], u); }
  }

  /** Spend never grows by more than the combined rate in one millisecond. */
  ghost predicate GrowsAtMost(spend: nat -> int, rate: nat) {
    forall u: nat :: spend(u + 1) <= spend(u) + rate
  }

  /** Checks come at most one interval apart. */
  predicate Paced(checks: seq<nat>, interval: nat) {
    forall i :: 0 <= i < |checks| - 1 ==> checks[i] <= checks[i + 1] <= checks[i] + interval
  }

  lemma {:induction false} Growth(spend: nat -> int, rate: nat, u: nat, v: nat)
    requires GrowsAtMost(spend, rate) && u <= v
    ensures spend(v) <= spend(u) + rate * (v - u)
    decreases v - u
  {
    if u < v {
      Growth(spend, rate, u, v - 1);
      assert spend((v - 1) + 1) <= spend(v - 1) + rate;
      assert rate * (v - 1 - u) + rate == rate * (v - u);
    }
  }

  lemma {:induction false} Flat(spend: nat -> int, s: nat, v: nat)
    requires s <= v && forall u: nat :: s <= u ==> spend(u + 1) <= spend(u)
    ensures spend(v) <= spend(s)
    decreases v - s
  {
    if s < v {
      Flat(spend, s, v - 1);
      assert spend((v - 1) + 1) <= spend(v - 1);
    }
  }

  /** The watch over one budget: every check before the last saw less than the early-stop line. */
  ghost predicate Watched(p: OverrunPolicy, limit: nat, spend: nat -> int, checks: seq<nat>) {
    && |checks| > 0 && Paced(checks, p.interval)
    && GrowsAtMost(spend, Combined(p.rates))
    && forall i :: 0 <= i < |checks| - 1 ==> spend(checks[i]) < EarlyStopAt(p, limit)
  }

  lemma Scaled(rate: nat, a: nat, b: nat)
    requires a <= b
    ensures rate * a <= rate * b
  {
  }

  /** While no check has fired, spend stays below the limit until the next check is due and the stop could land. */
  lemma NeverOverrunsWhileWatching(p: OverrunPolicy, limit: nat, spend: nat -> int, from: nat, v: nat)
    requires GrowsAtMost(spend, Combined(p.rates)) && spend(from) < EarlyStopAt(p, limit)
    requires from <= v <= from + p.interval + p.stopDuration
    ensures spend(v) < limit
  {
    var rate := Combined(p.rates);
    Growth(spend, rate, from, v);
    Scaled(rate, v - from, p.interval + p.stopDuration);
    assert rate * (p.interval + p.stopDuration) == Overshoot(p);
  }

  /**
   The hard cap: spend that starts below the early-stop line, is checked at most one
   interval apart and is confirmed stopped within the stop bound of the first check
   that sees the line, is below the limit at every instant after the first check.
   */
  lemma HardCap(p: OverrunPolicy, limit: nat, spend: nat -> int, checks: seq<nat>, stoppedAt: nat, v: nat)
    requires Watched(p, limit, spend, checks) && |checks| >= 2
    requires checks[|checks| - 1] <= stoppedAt <= checks[|checks| - 1] + p.stopDuration
    requires forall u: nat :: stoppedAt <= u ==> spend(u + 1) <= spend(u)
    requires checks[0] <= v
    ensures spend(v) < limit
  {
    var n := |checks| - 1;
    if v <= checks[n - 1] {
      var i := Bracket(p, checks, v);
      NeverOverrunsWhileWatching(p, limit, spend, checks[i], v);
    } else if v <= stoppedAt {
      NeverOverrunsWhileWatching(p, limit, spend, checks[n - 1], v);
    } else {
      NeverOverrunsWhileWatching(p, limit, spend, checks[n - 1], stoppedAt);
      Flat(spend, stoppedAt, v);
    }
  }

  lemma {:induction false} Bracket(p: OverrunPolicy, checks: seq<nat>, v: nat) returns (i: nat)
    requires Paced(checks, p.interval) && |checks| >= 2 && checks[0] <= v <= checks[|checks| - 2]
    ensures i < |checks| - 1 && checks[i] <= v <= checks[i] + p.interval
  {
    i := 0;
    while i < |checks| - 2 && checks[i + 1] <= v
      invariant i < |checks| - 1 && checks[i] <= v
    {
      i := i + 1;
    }
  }

  lemma PacedOneMore(checks: seq<nat>, interval: nat)
    requires |checks| > 0 && Paced(checks, interval)
    ensures Paced(checks + [checks[|checks| - 1] + interval], interval)
  {
  }

  /** Before any check has fired the same holds up to the instant the next check is due. */
  lemma HardCapSoFar(p: OverrunPolicy, limit: nat, spend: nat -> int, checks: seq<nat>, v: nat)
    requires Watched(p, limit, spend, checks) && spend(checks[|checks| - 1]) < EarlyStopAt(p, limit)
    requires checks[0] <= v <= checks[|checks| - 1] + p.interval
    ensures spend(v) < limit
  {
    var n := |checks|;
    var more := checks + [checks[n - 1] + p.interval];
    PacedOneMore(checks, p.interval);
    var i := n - 1;
    if v <= checks[n - 1] { i := Bracket(p, more, v); }
    assert more[i] == checks[i];
    hide Paced, Overshoot;
    NeverOverrunsWhileWatching(p, limit, spend, checks[i], v);
  }

  /** The bound cannot be improved: some admissible trajectory ends one minor unit below the limit. */
  lemma BoundIsTight(p: OverrunPolicy, limit: nat) returns (spend: nat -> int)
    ensures Watched(p, limit, spend, [0, p.interval])
    ensures spend(0) == EarlyStopAt(p, limit) - 1
    ensures forall u: nat :: p.interval + p.stopDuration <= u ==> spend(u) == limit - 1
  {
    var rate, until := Combined(p.rates), p.interval + p.stopDuration;
    spend := (u: nat) => EarlyStopAt(p, limit) - 1 + rate * Min(u, until);
    forall u: nat ensures spend(u + 1) <= spend(u) + rate {
      assert rate * (u + 1) == rate * u + rate;
    }
    assert rate * until == Overshoot(p);
  }
}
