/** Where the demo clock stands at an instant, in closed form: no walk, no deadline. */
module ClockStates {
  import opened Basics
  import opened BoxClock

  /** An active box turns idle idleAfter its last activity, but never before what is accounted. */
  function IdleAt(b: Box, p: Policy): int {
    if b.lastActivity + p.idleAfter >= b.accountedAt then b.lastActivity + p.idleAfter else b.accountedAt
  }

  /** An idle box is suspended suspendAfter the later of its last activity and its turn to idle. */
  function SuspendAt(idleSince: int, b: Box, p: Policy): int {
    (if idleSince >= b.lastActivity then idleSince else b.lastActivity) + p.suspendAfter
  }

  /** The state of a box that nothing touches, at instant now. */
  function StateAt(b: Box, now: int, p: Policy): State {
    match b.status
    case Active =>
      if now < IdleAt(b, p) then Active
      else if now < SuspendAt(IdleAt(b, p), b, p) then Idle else Suspend
    case Idle => if now < SuspendAt(b.stateSince, b, p) then Idle else Suspend
    case Suspend => Suspend
  }

  /** Since when it is in that state. */
  function SinceAt(b: Box, now: int, p: Policy): int {
    match b.status
    case Active =>
      if now < IdleAt(b, p) then b.stateSince
      else if now < SuspendAt(IdleAt(b, p), b, p) then IdleAt(b, p) else SuspendAt(IdleAt(b, p), b, p)
    case Idle =>
      if now < SuspendAt(b.stateSince, b, p) then b.stateSince
      else if SuspendAt(b.stateSince, b, p) >= b.accountedAt then SuspendAt(b.stateSince, b, p) else b.accountedAt
    case Suspend => b.stateSince
  }

  /** The states it announces on the way. */
  function AnnouncedBy(b: Box, now: int, p: Policy): seq<State> {
    match StateAt(b, now, p)
    case Active => []
    case Idle => if b.status == Active then [Idle] else []
    case Suspend => if b.status == Active then [Idle, Suspend] else if b.status == Idle then [Suspend] else []
  }

  /** After a tick the box is in the state of that instant, since then, and has announced every state it went through. */
  lemma TickedState(b: Box, now: int, p: Policy)
    requires b.accountedAt <= now && p.suspendAfter >= 0
    ensures var a := Advance(b, now, p);
            && a.status == StateAt(b, now, p) && a.stateSince == SinceAt(b, now, p)
            && a.lastActivity == b.lastActivity && a.logs == b.logs + AnnouncedBy(b, now, p)
  {
    if Due(b, b.accountedAt, now, p) {
      var first := Max(b.accountedAt, Deadline(b, p).value);
      var next := Transition(b.(spent := b.spent.Add(b.status, first - b.accountedAt)), first);
      OneStep(b, b.accountedAt, now, p);
      if Due(next, first, now, p) {
        OneStep(next, first, now, p);
        assert b.logs + [Idle] + [Suspend] == b.logs + [Idle, Suspend];
      } else {
        NoStep(next, first, now, p);
      }
    } else {
      NoStep(b, b.accountedAt, now, p);
    }
    hide Walk;
    assert b.logs + [] == b.logs;
  }

  lemma OneStep(b: Box, cursor: int, end: int, p: Policy)
    requires Due(b, cursor, end, p)
    ensures var boundary := Max(cursor, Deadline(b, p).value);
            var next := Transition(b.(spent := b.spent.Add(b.status, boundary - cursor)), boundary);
            && Walk(b, cursor, end, p) == Walk(next, boundary, end, p)
            && (b.status == Idle ==> Walk(next, boundary, end, p).(spent := b.spent, accountedAt := 0) == next.(spent := b.spent, accountedAt := 0))
  {
  }

  lemma NoStep(b: Box, cursor: int, end: int, p: Policy)
    requires !Due(b, cursor, end, p)
    ensures var a := Walk(b, cursor, end, p);
            a.status == b.status && a.stateSince == b.stateSince && a.lastActivity == b.lastActivity && a.logs == b.logs
  {
  }

  /**
   A box touched at an instant is active until idleAfter has passed, then idle until
   suspendAfter has passed as well, then suspended, however often it is ticked meanwhile.
   */
  lemma UntouchedFor(b: Box, times: seq<int>, p: Policy)
    requires b.status == Active && b.lastActivity == b.accountedAt && times != [] && Latest(times) >= b.accountedAt
    requires p.idleAfter >= 0 && p.suspendAfter >= 0
    ensures var untouched := Latest(times) - b.lastActivity;
            Ticks(b, times, p).status ==
              if untouched < p.idleAfter then Active else if untouched < p.idleAfter + p.suspendAfter then Idle else Suspend
  {
    ManyTicksAreOne(b, times, p);
    TickedState(b, Latest(times), p);
  }

  /** A switch or an activity first accounts for the time up to now; both restart the wait, a switch also the state. */
  lemma ActionsRestartTheWait(b: Box, s: State, now: int, p: Policy)
    ensures var ticked, switched := Do(b, Tick(now), p), Do(b, Switch(s, now), p);
            && switched.spent == ticked.spent && switched.logs == ticked.logs && switched.accountedAt == ticked.accountedAt
            && switched.status == s && switched.stateSince == switched.lastActivity == switched.accountedAt
    ensures var ticked, touched := Do(b, Tick(now), p), Do(b, Touch(now), p);
            touched == ticked.(lastActivity := ticked.accountedAt)
    ensures Do(b, Tick(now), p).accountedAt == Max(b.accountedAt, now)
  {
    AdvanceTwice(b, now, now, p);
    hide Walk;
  }

  /** How long ago something was when the box was stored; nothing is known to lie in the future. */
  function Age(v: Option<int>, savedAt: int): int {
    match v case None => 0 case Some(x) => if x < savedAt then savedAt - x else 0
  }

  /** A restored box is as long in its state, and as long untouched, as when it was stored; time spent is kept unless it is no time at all. */
  lemma RestoredAges(s: Saved, now: int)
    ensures var b := RestoreClock(s, now);
            var savedAt := if s.accountedAt.Some? && s.accountedAt.value < now then s.accountedAt.value else now;
            && b.status == s.status && b.logs == s.logs && b.accountedAt == now
            && now - b.lastActivity == Age(s.lastActivity, savedAt) && now - b.stateSince == Age(s.stateSince, savedAt)
            && b.spent.active == Kept(s.active) && b.spent.idle == Kept(s.idle) && b.spent.suspend == Kept(s.suspend)
  {
  }

  function Kept(v: Option<int>): int { match v case None => 0 case Some(x) => if x < 0 then 0 else x }
}
