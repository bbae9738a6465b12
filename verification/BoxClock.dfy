/**
 The browser demo clock of lifecycle.js: one box accounts its time to the state it is
 in, delayed ticks are split at the transitions, and a reload shifts the anchors.
 Times and durations are integer milliseconds.
 */
module BoxClock {
  import opened Basics

  datatype State = Active | Idle | Suspend

  datatype Policy = Policy(idleAfter: int, suspendAfter: int)

  /** Milliseconds accounted to each state. */
  datatype Spent = Spent(active: int, idle: int, suspend: int)
  {
    function Total(): int { active + idle + suspend }

    function Of(s: State): int {
      match s case Active => active case Idle => idle case Suspend => suspend
    }

    function Add(s: State, ms: int): Spent {
      match s
      case Active => this.(active := active + ms)
      case Idle => this.(idle := idle + ms)
      case Suspend => this.(suspend := suspend + ms)
    }
  }

  /** logs holds the states announced by automatic transitions. */
  datatype Box = Box(status: State, lastActivity: int, stateSince: int, accountedAt: int, spent: Spent, logs: seq<State>)

  /** The next automatic transition; None is never. */
  function Deadline(b: Box, p: Policy): Option<int> {
    match b.status
    case Active => Some(b.lastActivity + p.idleAfter)
    case Idle => Some(Max(b.stateSince, b.lastActivity) + p.suspendAfter)
    case Suspend => None
  }

  function Due(b: Box, cursor: int, end: int, p: Policy): bool {
    Deadline(b, p).Some? && Max(cursor, Deadline(b, p).value) <= end
  }

  function Transition(b: Box, at: int): Box {
    var next := if b.status.Active? then Idle else Suspend;
    b.(status := next, stateSince := at, logs := b.logs + [next])
  }

  function Rank(s: State): nat { match s case Active => 2 case Idle => 1 case Suspend => 0 }

  /** Account from the cursor to the end, splitting at every transition on the way. */
  function Walk(b: Box, cursor: int, end: int, p: Policy): Box
    decreases Rank(b.status)
  {
    if Due(b, cursor, end, p) then
      var boundary := Max(cursor, Deadline(b, p).value);
      Walk(Transition(b.(spent := b.spent.Add(b.status, boundary - cursor)), boundary), boundary, end, p)
    else
      b.(spent := b.spent.Add(b.status, end - cursor), accountedAt := end)
  }

  function Advance(b: Box, now: int, p: Policy): Box {
    Walk(b, b.accountedAt, Max(b.accountedAt, now), p)
  }

  function SetState(b: Box, s: State, now: int, p: Policy): Box {
    var a := Advance(b, now, p);
    a.(status := s, stateSince := a.accountedAt, lastActivity := a.accountedAt)
  }

  function RecordActivity(b: Box, now: int, p: Policy): Box {
    var a := Advance(b, now, p);
    a.(lastActivity := a.accountedAt)
  }

  // ---------------------------------------------------------- one late tick, many small ones

  /** A walk looks at its cursor, not at the instant accounted so far. */
  lemma {:induction false} WalkFromCursor(b: Box, at: int, cursor: int, end: int, p: Policy)
    ensures Walk(b.(accountedAt := at), cursor, end, p) == Walk(b, cursor, end, p)
    decreases Rank(b.status)
  {
    if Due(b, cursor, end, p) {
      var boundary := Max(cursor, Deadline(b, p).value);
      WalkFromCursor(Transition(b.(spent := b.spent.Add(b.status, boundary - cursor)), boundary), at, boundary, end, p);
    }
  }

  /** Stopping at mid and going on from there is going straight to the end. */
  lemma {:induction false} WalkSplits(b: Box, cursor: int, mid: int, end: int, p: Policy)
    requires cursor <= mid <= end
    ensures Walk(Walk(b, cursor, mid, p), mid, end, p) == Walk(b, cursor, end, p)
    ensures Walk(b, cursor, mid, p).accountedAt == mid
    decreases Rank(b.status)
  {
    if Due(b, cursor, mid, p) {
      var boundary := Max(cursor, Deadline(b, p).value);
      WalkSplits(Transition(b.(spent := b.spent.Add(b.status, boundary - cursor)), boundary), boundary, mid, end, p);
    } else {
      var half := b.(spent := b.spent.Add(b.status, mid - cursor));
      WalkFromCursor(half, mid, mid, end, p);
      if Due(b, cursor, end, p) {
        var boundary := Max(cursor, Deadline(b, p).value);
        assert half.spent.Add(b.status, boundary - mid) == b.spent.Add(b.status, boundary - cursor);
      } else {
        assert half.spent.Add(b.status, end - mid) == b.spent.Add(b.status, end - cursor);
      }
    }
  }

  lemma AdvanceTwice(b: Box, t1: int, t2: int, p: Policy)
    ensures Advance(Advance(b, t1, p), t2, p) == Advance(b, Max(t1, t2), p)
    ensures Advance(b, t1, p).accountedAt == Max(b.accountedAt, t1)
  {
    var c := b.accountedAt;
    var mid := Max(c, t1);
    WalkSplits(b, c, mid, Max(mid, t2), p);
  }

  function Ticks(b: Box, times: seq<int>, p: Policy): Box {
    if times == [] then b else Advance(Ticks(b, times[..|times| - 1], p), times[|times| - 1], p)
  }

  function Latest(times: seq<int>): int
    requires times != []
  {
    if |times| == 1 then times[0] else Max(Latest(times[..|times| - 1]), times[|times| - 1])
  }

  /** Any number of ticks, in any order, with any repeats, is the one tick at the latest of them. */
  lemma {:induction false} ManyTicksAreOne(b: Box, times: seq<int>, p: Policy)
    requires times != []
    ensures Ticks(b, times, p) == Advance(b, Latest(times), p)
  {
    var n := |times| - 1;
    if n > 0 {
      ManyTicksAreOne(b, times[..n], p);
      AdvanceTwice(b, Latest(times[..n]), times[n], p);
    } else {
      assert times[..0] == [];
    }
  }

  lemma {:induction false} WalkTotal(b: Box, cursor: int, end: int, p: Policy)
    requires cursor <= end
    ensures Walk(b, cursor, end, p).spent.Total() == b.spent.Total() + end - cursor
    ensures forall s :: Walk(b, cursor, end, p).spent.Of(s) >= b.spent.Of(s)
    decreases Rank(b.status)
  {
    if Due(b, cursor, end, p) {
      var boundary := Max(cursor, Deadline(b, p).value);
      WalkTotal(Transition(b.(spent := b.spent.Add(b.status, boundary - cursor)), boundary), boundary, end, p);
    }
  }

  /** No time is lost or invented: the accounted total grows by exactly the elapsed time, state by state never shrinking. */
  lemma AdvanceAccountsExactly(b: Box, now: int, p: Policy)
    ensures Advance(b, now, p).spent.Total() == b.spent.Total() + Max(0, now - b.accountedAt)
    ensures forall s :: Advance(b, now, p).spent.Of(s) >= b.spent.Of(s)
    ensures Advance(Advance(b, now, p), now, p) == Advance(b, now, p)
  {
    WalkTotal(b, b.accountedAt, Max(b.accountedAt, now), p);
    AdvanceTwice(b, now, now, p);
  }

  /** How many of the milliseconds from lo to hi a box, ticked every millisecond, spends in s. */
  function MillisIn(b: Box, lo: int, hi: int, s: State, p: Policy): int
    requires lo <= hi
    decreases hi - lo
  {
    if lo == hi then 0
    else MillisIn(b, lo, hi - 1, s, p) + (if Advance(b, hi - 1, p).status == s then 1 else 0)
  }

  lemma OneMillisecond(b: Box, now: int, s: State, p: Policy)
    requires b.accountedAt <= now
    ensures Advance(b, now + 1, p).spent.Of(s) == Advance(b, now, p).spent.Of(s) + (if Advance(b, now, p).status == s then 1 else 0)
  {
    var a := Advance(b, now, p);
    AdvanceTwice(b, now, now + 1, p);
    AdvanceTwice(b, now, now, p);
    Settled(b, now, p);
    assert Advance(a, now + 1, p).spent == a.spent.Add(a.status, 1);
  }

  /** Once ticked at now, a transition due at now or earlier has happened. */
  lemma Settled(b: Box, now: int, p: Policy)
    requires b.accountedAt <= now
    ensures var a := Advance(b, now, p);
            a.accountedAt == now && !Due(a, now, now, p)
            && Advance(a, now + 1, p).spent == a.spent.Add(a.status, 1)
  {
    WalkSettles(b, b.accountedAt, now, p);
    var a := Advance(b, now, p);
    if Due(a, now, now + 1, p) {
      assert Deadline(a, p).value == now + 1;
      var t := Transition(a.(spent := a.spent.Add(a.status, 1)), now + 1);
      NoTimeNoSpending(t, now + 1, p);
    }
  }

  lemma {:induction false} NoTimeNoSpending(b: Box, at: int, p: Policy)
    ensures Walk(b, at, at, p).spent == b.spent
    decreases Rank(b.status)
  {
    if Due(b, at, at, p) {
      NoTimeNoSpending(Transition(b.(spent := b.spent.Add(b.status, 0)), at), at, p);
    }
  }

  lemma {:induction false} WalkSettles(b: Box, cursor: int, end: int, p: Policy)
    requires cursor <= end
    ensures Walk(b, cursor, end, p).accountedAt == end && !Due(Walk(b, cursor, end, p), end, end, p)
    decreases Rank(b.status)
  {
    if Due(b, cursor, end, p) {
      var boundary := Max(cursor, Deadline(b, p).value);
      WalkSettles(Transition(b.(spent := b.spent.Add(b.status, boundary - cursor)), boundary), boundary, end, p);
    }
  }

  /** The split form refines the plain one: each state gets exactly the milliseconds the box is in it. */
  lemma {:induction false} AdvanceRefinesMilliseconds(b: Box, now: int, s: State, p: Policy)
    requires b.accountedAt <= now
    ensures Advance(b, now, p).spent.Of(s) == b.spent.Of(s) + MillisIn(b, b.accountedAt, now, s, p)
    decreases now - b.accountedAt
  {
    if now == b.accountedAt {
      NoTimeNoSpending(b, now, p);
    } else {
      AdvanceRefinesMilliseconds(b, now - 1, s, p);
      OneMillisecond(b, now - 1, s, p);
    }
  }

  // ---------------------------------------------------------- reload

  /** A stored box: a field that is missing or not a number is None. */
  datatype Saved = Saved(
    status: State, lastActivity: Option<int>, stateSince: Option<int>, accountedAt: Option<int>,
    active: Option<int>, idle: Option<int>, suspend: Option<int>, logs: seq<State>)

  function Store(b: Box): Saved {
    Saved(b.status, Some(b.lastActivity), Some(b.stateSince), Some(b.accountedAt),
          Some(b.spent.active), Some(b.spent.idle), Some(b.spent.suspend), b.logs)
  }

  function Anchor(v: Option<int>, savedAt: int, now: int): int {
    if v.Some? then Min(v.value, savedAt) + (now - savedAt) else now
  }

  function CleanSpent(v: Option<int>): int { if v.Some? && v.value >= 0 then v.value else 0 }

  function RestoreClock(s: Saved, now: int): Box {
    var savedAt := if s.accountedAt.Some? then Min(s.accountedAt.value, now) else now;
    Box(s.status, Anchor(s.lastActivity, savedAt, now), Anchor(s.stateSince, savedAt, now), now,
        Spent(CleanSpent(s.active), CleanSpent(s.idle), CleanSpent(s.suspend)), s.logs)
  }

  /** No anchor in the future of the accounted instant, no negative time. */
  predicate Ordered(b: Box) {
    && b.lastActivity <= b.accountedAt && b.stateSince <= b.accountedAt
    && b.spent.active >= 0 && b.spent.idle >= 0 && b.spent.suspend >= 0
  }

  function Shift(b: Box, ms: int): Box {
    b.(lastActivity := b.lastActivity + ms, stateSince := b.stateSince + ms, accountedAt := b.accountedAt + ms)
  }

  /** Reloading later is a pure shift of the anchors exactly for ordered boxes. */
  lemma RestoreIsShiftExactly(b: Box, now: int)
    requires b.accountedAt <= now
    ensures RestoreClock(Store(b), now) == Shift(b, now - b.accountedAt) <==> Ordered(b)
  {
  }

  /** Whatever was stored, the restored box is ordered and accounts from now on. */
  lemma RestoreRepairs(s: Saved, now: int)
    ensures Ordered(RestoreClock(s, now)) && RestoreClock(s, now).accountedAt == now
  {
  }

  datatype Action = Tick(now: int) | Switch(s: State, now: int) | Touch(now: int)

  function Do(b: Box, a: Action, p: Policy): Box {
    match a
    case Tick(now) => Advance(b, now, p)
    case Switch(s, now) => SetState(b, s, now, p)
    case Touch(now) => RecordActivity(b, now, p)
  }

  function Later(a: Action, ms: int): Action {
    a.(now := a.now + ms)
  }

  function Run(b: Box, actions: seq<Action>, p: Policy): Box {
    if actions == [] then b else Do(Run(b, actions[..|actions| - 1], p), actions[|actions| - 1], p)
  }

  function AllLater(actions: seq<Action>, ms: int): seq<Action> {
    seq(|actions|, i requires 0 <= i < |actions| => Later(actions[i], ms))
  }

  lemma {:induction false} WalkShifts(b: Box, cursor: int, end: int, ms: int, p: Policy)
    ensures Walk(Shift(b, ms), cursor + ms, end + ms, p) == Shift(Walk(b, cursor, end, p), ms)
    decreases Rank(b.status)
  {
    if Due(b, cursor, end, p) {
      var boundary := Max(cursor, Deadline(b, p).value);
      var next := Transition(b.(spent := b.spent.Add(b.status, boundary - cursor)), boundary);
      WalkShifts(next, boundary, end, ms, p);
    }
  }

  lemma DoShifts(b: Box, a: Action, ms: int, p: Policy)
    ensures Do(Shift(b, ms), Later(a, ms), p) == Shift(Do(b, a, p), ms)
  {
    WalkShifts(b, b.accountedAt, Max(b.accountedAt, a.now), ms, p);
    hide Walk;
  }

  lemma {:induction false} RunShifts(b: Box, actions: seq<Action>, ms: int, p: Policy)
    ensures Run(Shift(b, ms), AllLater(actions, ms), p) == Shift(Run(b, actions, p), ms)
  {
    hide Do, Shift, Later;
    if actions != [] {
      var n := |actions| - 1;
      RunShifts(b, actions[..n], ms, p);
      assert AllLater(actions, ms)[..n] == AllLater(actions[..n], ms);
      DoShifts(Run(b, actions[..n], p), actions[n], ms, p);
    }
  }

  lemma {:induction false} WalkOrdered(b: Box, cursor: int, end: int, p: Policy)
    requires cursor <= end && b.lastActivity <= cursor && b.stateSince <= cursor && Ordered(b.(accountedAt := cursor))
    ensures Ordered(Walk(b, cursor, end, p)) && Walk(b, cursor, end, p).accountedAt == end
    decreases Rank(b.status)
  {
    if Due(b, cursor, end, p) {
      var boundary := Max(cursor, Deadline(b, p).value);
      WalkOrdered(Transition(b.(spent := b.spent.Add(b.status, boundary - cursor)), boundary), boundary, end, p);
    }
  }

  /** Every box reachable from a restored one is ordered. */
  lemma {:induction false} RunOrdered(b: Box, actions: seq<Action>, p: Policy)
    requires Ordered(b)
    ensures Ordered(Run(b, actions, p))
  {
    if actions != [] {
      var before := Run(b, actions[..|actions| - 1], p);
      RunOrdered(b, actions[..|actions| - 1], p);
      WalkOrdered(before, before.accountedAt, Max(before.accountedAt, actions[|actions| - 1].now), p);
    }
  }

  /**
   Closed-page time is excluded: storing any reachable box, reloading it later and then
   doing anything is the same as doing it at the corresponding earlier times without the
   pause, with the anchors shifted by the pause.
   */
  lemma ReloadCommutes(s: Saved, loadedAt: int, lived: seq<Action>, now: int, more: seq<Action>, p: Policy)
    requires var b := Run(RestoreClock(s, loadedAt), lived, p); b.accountedAt <= now
    ensures var b := Run(RestoreClock(s, loadedAt), lived, p);
            var pause := now - b.accountedAt;
            Run(RestoreClock(Store(b), now), AllLater(more, pause), p) == Shift(Run(b, more, p), pause)
  {
    var b := Run(RestoreClock(s, loadedAt), lived, p);
    RestoreRepairs(s, loadedAt);
    RunOrdered(RestoreClock(s, loadedAt), lived, p);
    RestoreIsShiftExactly(b, now);
    RunShifts(b, more, now - b.accountedAt, p);
  }

  // ---------------------------------------------------------- policy

  /** A stored policy in whole seconds; a missing or non-numeric field is None. */
  function NormalizePolicy(idleAfter: Option<int>, suspendAfter: Option<int>): (p: Policy)
    ensures p.idleAfter > 0 && p.suspendAfter > 0
    ensures idleAfter.Some? && idleAfter.value > 0 ==> p.idleAfter == idleAfter.value * 1000
    ensures idleAfter.None? || idleAfter.value <= 0 ==> p.idleAfter == 120_000
    ensures suspendAfter.Some? && suspendAfter.value > 0 ==> p.suspendAfter == suspendAfter.value * 1000
    ensures suspendAfter.None? || suspendAfter.value <= 0 ==> p.suspendAfter == 300_000
  {
    Policy(
      (if idleAfter.Some? && idleAfter.value > 0 then idleAfter.value else 120) * 1000,
      (if suspendAfter.Some? && suspendAfter.value > 0 then suspendAfter.value else 300) * 1000)
  }

  // ---------------------------------------------------------- the object

  class DemoBox {
    var status: State
    var lastActivity: int
    var stateSince: int
    var accountedAt: int
    var spent: Spent
    var logs: seq<State>

    constructor (s: Saved, now: int)
      ensures View() == RestoreClock(s, now)
    {
      var savedAt := if s.accountedAt.Some? then Min(s.accountedAt.value, now) else now;
      status, logs := s.status, s.logs;
      lastActivity := Anchor(s.lastActivity, savedAt, now);
      stateSince := Anchor(s.stateSince, savedAt, now);
      accountedAt := now;
      spent := Spent(CleanSpent(s.active), CleanSpent(s.idle), CleanSpent(s.suspend));
    }

    function View(): Box
      reads this
    {
      Box(status, lastActivity, stateSince, accountedAt, spent, logs)
    }

    method AdvanceTo(now: int, p: Policy) returns (changed: bool)
      modifies this
      ensures View() == Advance(old(View()), now, p)
      ensures changed == (status != old(status))
    {
      var cursor := accountedAt;
      var end := Max(cursor, now);
      changed := false;
      var done := false;
      while !done && cursor <= end
        invariant !done ==> cursor <= end && Walk(View(), cursor, end, p) == Advance(old(View()), now, p)
        invariant done ==> View().(accountedAt := end) == Advance(old(View()), now, p)
        invariant Rank(status) <= Rank(old(status)) && changed == (Rank(status) < Rank(old(status)))
        decreases !done, Rank(status)
      {
        var due := Deadline(View(), p);
        if due.None? || Max(cursor, due.value) > end {
          spent := spent.Add(status, end - cursor);
          cursor := end;
          done := true;
        } else {
          var boundary := Max(cursor, due.value);
          spent := spent.Add(status, boundary - cursor);
          cursor := boundary;
          status := if status.Active? then Idle else Suspend;
          stateSince := cursor;
          logs := logs + [status];
          changed := true;
        }
      }
      accountedAt := end;
    }

    method SwitchTo(s: State, now: int, p: Policy)
      modifies this
      ensures View() == SetState(old(View()), s, now, p)
    {
      var _ := AdvanceTo(now, p);
      status := s;
      stateSince := accountedAt;
      lastActivity := accountedAt;
    }

    method Touched(now: int, p: Policy)
      modifies this
      ensures View() == RecordActivity(old(View()), now, p)
    {
      var _ := AdvanceTo(now, p);
      lastActivity := accountedAt;
    }
  }
}
