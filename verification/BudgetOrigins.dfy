/**
 Where a block comes from: its figures and its plan are those some enforcer was started
 with, its confirmations are receipts and its pending phase is a timeout.
 */
module BudgetOrigins {
  import opened Basics
  import opened BudgetEnforcer

  /** Some enforcer was started with exactly these figures and resources. */
  ghost predicate Ordered(actions: seq<Action>, spend: nat, limit: nat, now: nat, wanted: seq<string>) {
    exists i :: 0 <= i < |actions| && actions[i].Start?
      && actions[i].spend == spend && actions[i].limit == limit && actions[i].now == now && actions[i].wanted == wanted
  }

  /** While thread t waited for the stop of rid, this reply came. */
  ghost predicate RepliedAt(actions: seq<Action>, i: int, rid: string, reply: Reply) {
    && 0 <= i < |actions| && actions[i].Answer? && actions[i].reply == reply
    && var threads := Run(INITIAL, actions[..i]).threads;
       actions[i].t in threads && threads[actions[i].t].Waiting? && threads[actions[i].t].rid == rid
  }

  ghost predicate Replied(actions: seq<Action>, rid: string, reply: Reply) {
    exists i :: RepliedAt(actions, i, rid, reply)
  }

  ghost predicate ThreadFrom(actions: seq<Action>, th: Thread) {
    match th
    case Entering(spend, limit, now, wanted) => Ordered(actions, spend, limit, now, wanted)
    case Answered(rid, receipt, _) => Replied(actions, rid, if receipt then Receipt else TimedOut)
    case _ => true
  }

  ghost predicate RecordFrom(actions: seq<Action>, r: Record) {
    && Ordered(actions, r.spend, r.limit, r.blockedAt, r.planned)
    && (forall rid :: rid in r.confirmed ==> Replied(actions, rid, Receipt))
    && (r.phase.StopPending? <==> StopTimeout in r.alerts)
    && (r.phase.StopPending? ==> exists rid :: rid in r.planned && Replied(actions, rid, TimedOut))
  }

  ghost predicate From(actions: seq<Action>, s: System) {
    && (forall t :: t in s.threads ==> ThreadFrom(actions, s.threads[t]))
    && (s.store.Some? ==> RecordFrom(actions, s.store.value))
  }

  lemma OrderedLater(actions: seq<Action>, a: Action, spend: nat, limit: nat, now: nat, wanted: seq<string>)
    requires Ordered(actions, spend, limit, now, wanted)
    ensures Ordered(actions + [a], spend, limit, now, wanted)
  {
    var i :| 0 <= i < |actions| && actions[i].Start?
      && actions[i].spend == spend && actions[i].limit == limit && actions[i].now == now && actions[i].wanted == wanted;
    assert (actions + [a])[i] == actions[i];
  }

  lemma RepliedLater(actions: seq<Action>, a: Action, rid: string, reply: Reply)
    requires Replied(actions, rid, reply)
    ensures Replied(actions + [a], rid, reply)
  {
    var i :| RepliedAt(actions, i, rid, reply);
    assert (actions + [a])[i] == actions[i] && (actions + [a])[..i] == actions[..i];
    assert RepliedAt(actions + [a], i, rid, reply);
  }

  lemma LastReply(actions: seq<Action>, a: Action, rid: string)
    requires a.Answer?
    requires var threads := Run(INITIAL, actions).threads; a.t in threads && threads[a.t].Waiting? && threads[a.t].rid == rid
    ensures Replied(actions + [a], rid, a.reply)
  {
    var n := |actions|;
    assert (actions + [a])[n] == a && (actions + [a])[..n] == actions;
    assert RepliedAt(actions + [a], n, rid, a.reply);
  }

  lemma LastOrder(actions: seq<Action>, a: Action)
    requires a.Start?
    ensures Ordered(actions + [a], a.spend, a.limit, a.now, a.wanted)
  {
    assert (actions + [a])[|actions|] == a;
  }

  lemma ThreadLater(actions: seq<Action>, a: Action, th: Thread)
    requires ThreadFrom(actions, th)
    ensures ThreadFrom(actions + [a], th)
  {
    match th
    case Entering(spend, limit, now, wanted) => OrderedLater(actions, a, spend, limit, now, wanted);
    case Answered(rid, receipt, _) => RepliedLater(actions, a, rid, if receipt then Receipt else TimedOut);
    case _ =>
  }

  lemma RecordLater(actions: seq<Action>, a: Action, r: Record)
    requires RecordFrom(actions, r)
    ensures RecordFrom(actions + [a], r)
  {
    OrderedLater(actions, a, r.spend, r.limit, r.blockedAt, r.planned);
    forall rid | rid in r.confirmed ensures Replied(actions + [a], rid, Receipt) { RepliedLater(actions, a, rid, Receipt); }
    if r.phase.StopPending? {
      var rid :| rid in r.planned && Replied(actions, rid, TimedOut);
      RepliedLater(actions, a, rid, TimedOut);
    }
  }

  /** The thread an action moves is where its own history says. */
  lemma MovedFrom(actions: seq<Action>, a: Action)
    requires var s := Run(INITIAL, actions); Inv(s) && From(actions, s)
    ensures var next := Step(Run(INITIAL, actions), a); a.t in next.threads ==> ThreadFrom(actions + [a], next.threads[a.t])
  {
    var s := Run(INITIAL, actions);
    hide Run, Ordered, Replied, Inv, RecordFrom, NeverIssued;
    if a.Start? && a.t !in s.threads {
      LastOrder(actions, a);
    } else if a.t in s.threads {
      ThreadLater(actions, a, s.threads[a.t]);
      if a.Answer? && s.threads[a.t].Waiting? { LastReply(actions, a, s.threads[a.t].rid); }
    }
  }

  lemma StoredFrom(actions: seq<Action>, a: Action)
    requires var s := Run(INITIAL, actions); Inv(s) && From(actions, s)
    ensures var next := Step(Run(INITIAL, actions), a); next.store.Some? ==> RecordFrom(actions + [a], next.store.value)
  {
    var s := Run(INITIAL, actions);
    var next := Step(s, a);
    if s.store.Some? { RecordLater(actions, a, s.store.value); }
    if a.t in s.threads { ThreadLater(actions, a, s.threads[a.t]); }
    if a.Settle? && a.t in s.threads && s.threads[a.t].Answered? && s.store.Some? {
      assert HoldsStop(s.threads, a.t, s.threads[a.t].rid);
      SettledFrom(actions + [a], s.store.value, s.threads[a.t]);
    } else if a.Take? && a.t in s.threads && s.threads[a.t].Looping? && s.store.Some? {
      TakenFrom(actions + [a], s, a.t);
    }
    hide Run, Ordered, Replied, Inv, RecordFrom, NeverIssued, SetPhase;
    if s.store.None? && next.store.Some? {
      NewFrom(actions + [a], next.store.value, s.threads[a.t]);
    }
  }

  lemma NewFrom(actions: seq<Action>, r: Record, th: Thread)
    requires th.Entering? && ThreadFrom(actions, th) && r == NewRecord(th.spend, th.limit, th.now, th.wanted)
    ensures RecordFrom(actions, r)
  {
  }

  lemma TakenFrom(actions: seq<Action>, s: System, t: nat)
    requires Inv(s) && t in s.threads && s.threads[t].Looping? && s.store.Some? && RecordFrom(actions, s.store.value)
    ensures RecordFrom(actions, TakeStep(s, t, s.threads[t], s.store.value).store.value)
  {
    hide Ordered, Replied, CallsOk, TraceOk, HoldersOk, CoversPlan;
    var r := s.store.value;
    if r.phase.StopPending? {
      var rid :| rid in r.issued && rid !in r.confirmed && Abandoned(s.threads, rid);
      assert rid in r.planned;
    }
  }

  lemma SettledFrom(actions: seq<Action>, r: Record, th: Thread)
    requires th.Answered? && ThreadFrom(actions, th) && RecordFrom(actions, r) && RecordOk(r)
    requires th.rid in r.issued && th.rid !in r.confirmed
    requires r.phase.StopPending? ==> exists rid :: rid in r.issued && rid !in r.confirmed && rid != th.rid
    ensures RecordFrom(actions, if th.receipt then RecordConfirmed(r, th.rid) else RecordTimeout(r))
  {
    hide Ordered, Replied;
    assert th.rid in r.planned;
    if r.phase.StopPending? {
      var rid :| rid in r.issued && rid !in r.confirmed && rid != th.rid;
      assert rid in r.planned;
    }
  }

  lemma {:induction false} RunFrom(actions: seq<Action>)
    ensures From(actions, Run(INITIAL, actions)) && Inv(Run(INITIAL, actions))
  {
    InitialInv();
    RunInv(INITIAL, actions);
    if actions != [] {
      var front, a := actions[..|actions| - 1], actions[|actions| - 1];
      RunFrom(front);
      var s := Run(INITIAL, front);
      assert actions == front + [a];
      MovedFrom(front, a);
      StoredFrom(front, a);
      forall t | t in s.threads && t != a.t ensures ThreadFrom(actions, s.threads[t]) { ThreadLater(front, a, s.threads[t]); }
      OthersStand(s, a);
      hide Inv, Step, ThreadFrom, RecordFrom;
    }
  }

  lemma OthersStand(s: System, a: Action)
    ensures forall t :: t in Step(s, a).threads && t != a.t ==> t in s.threads && Step(s, a).threads[t] == s.threads[t]
  {
  }

  // ------------------------------------------- the guarantees

  /** The stored block carries exactly the spend, limit, time and resources that one enforcer was started with. */
  lemma BlockIsOrdered(actions: seq<Action>)
    requires Run(INITIAL, actions).store.Some?
    ensures var r := Run(INITIAL, actions).store.value; Ordered(actions, r.spend, r.limit, r.blockedAt, r.planned)
  {
    RunFrom(actions);
  }

  /** Enforcers that are all started with the same resources stop all of them, each by one call. */
  lemma WantedAreStopped(actions: seq<Action>, wanted: seq<string>, t: nat)
    requires forall i :: 0 <= i < |actions| && actions[i].Start? ==> actions[i].wanted == wanted
    ensures var s := Run(INITIAL, actions);
            && (t in s.threads && s.threads[t].Finished? ==>
                  s.store.Some? && forall rid :: rid in wanted ==> rid in s.store.value.issued)
            && (s.store.Some? && s.store.value.phase.Stopped? ==>
                  forall rid :: rid in wanted ==> Calls(s.trace, rid) == 1 && Replied(actions, rid, Receipt))
  {
    RunFrom(actions);
    var s := Run(INITIAL, actions);
    if s.store.Some? {
      assert s.store.value.planned == wanted;
      RecordIsHonest(actions);
    }
    if t in s.threads && s.threads[t].Finished? { FinishedMeansIssued(actions, t); }
  }

  /** A stop counts as confirmed only on a receipt; a timeout is pending, raises the alerts, and is the only thing that does. */
  lemma ConfirmedOnReceipt(actions: seq<Action>)
    requires Run(INITIAL, actions).store.Some?
    ensures var r := Run(INITIAL, actions).store.value;
            && (forall rid :: rid in r.confirmed ==> Replied(actions, rid, Receipt))
            && (r.phase.StopPending? <==> StopTimeout in r.alerts)
            && (r.phase.StopPending? ==> WatchdogFollowup in r.alerts && exists rid :: rid in r.planned && Replied(actions, rid, TimedOut))
  {
    RunFrom(actions);
  }
}
