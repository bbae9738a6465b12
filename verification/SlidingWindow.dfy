/** The create rate limit of scripts/tenant_authz.py: a pruned queue of stamps bounds every window of an unbounded run. */
module SlidingWindow {
  /** The queue without its leading stamps at or before the cutoff. */
  function Pruned(queue: seq<int>, cutoff: int): seq<int> {
    if queue != [] && queue[0] <= cutoff then Pruned(queue[1..], cutoff) else queue
  }

  function TryCreate(queue: seq<int>, now: int, limit: int, window: int): (seq<int>, bool) {
    var kept := Pruned(queue, now - window);
    if |kept| >= limit then (kept, false) else (kept + [now], true)
  }

  /** A run of requests for one workspace: the queue it leaves, and every admission ever made. */
  datatype History = History(queue: seq<int>, admitted: seq<int>)

  function Request(h: History, now: int, limit: int, window: int): History {
    var (queue, ok) := TryCreate(h.queue, now, limit, window);
    History(queue, if ok then h.admitted + [now] else h.admitted)
  }

  function Run(times: seq<int>, limit: int, window: int): History {
    if times == [] then History([], [])
    else Request(Run(times[..|times| - 1], limit, window), times[|times| - 1], limit, window)
  }

  predicate NonDecreasing(s: seq<int>) { forall i, j :: 0 <= i <= j < |s| ==> s[i] <= s[j] }

  /** The stamps after the cutoff. */
  function After(s: seq<int>, cutoff: int): seq<int> {
    if s == [] then []
    else After(s[..|s| - 1], cutoff) + (if s[|s| - 1] > cutoff then [s[|s| - 1]] else [])
  }

  /** The first count stamps are at or before the cutoff, all later ones after it or not yet judged. */
  predicate Expired(admitted: seq<int>, count: int, cutoff: int) {
    forall i :: 0 <= i < count && i < |admitted| ==> admitted[i] <= cutoff
  }

  predicate TailOf(queue: seq<int>, admitted: seq<int>) {
    |queue| <= |admitted| && queue == admitted[|admitted| - |queue|..]
  }

  /** The queue is the tail of the admissions, and everything dropped from it is at or before the last cutoff. */
  predicate Tracks(h: History, now: int, limit: int, window: int) {
    && NonDecreasing(h.admitted)
    && Expired(h.admitted, |h.admitted|, now)
    && TailOf(h.queue, h.admitted)
    && Expired(h.admitted, |h.admitted| - |h.queue|, now - window)
    && Spaced(h.admitted, limit, window)
  }

  /** Any two admissions at least limit places apart are at least a window apart. */
  predicate Spaced(admitted: seq<int>, limit: int, window: int) {
    forall i, j :: 0 <= i <= j < |admitted| && j - i >= limit ==> admitted[j] - admitted[i] >= window
  }

  lemma {:induction false} PrunedIsSuffix(queue: seq<int>, cutoff: int)
    requires NonDecreasing(queue)
    ensures var kept := Pruned(queue, cutoff);
            && |kept| <= |queue| && kept == queue[|queue| - |kept|..]
            && (forall i :: 0 <= i < |queue| - |kept| ==> queue[i] <= cutoff)
            && (forall i :: 0 <= i < |kept| ==> kept[i] > cutoff)
  {
    if queue != [] && queue[0] <= cutoff {
      PrunedIsSuffix(queue[1..], cutoff);
      var kept := Pruned(queue[1..], cutoff);
      forall i | 0 <= i < |queue| - |kept| ensures queue[i] <= cutoff {
        if i > 0 { assert queue[1..][i - 1] == queue[i]; }
      }
    }
  }

  lemma SuffixOfSuffix(s: seq<int>, m: nat, n: nat)
    requires n <= m <= |s|
    ensures s[|s| - m..][m - n..] == s[|s| - n..]
  {
  }

  lemma TailSorted(queue: seq<int>, admitted: seq<int>)
    requires TailOf(queue, admitted) && NonDecreasing(admitted)
    ensures NonDecreasing(queue)
  {
  }

  /** Pruning leaves exactly the admissions after the cutoff. */
  lemma PruneTracks(h: History, before: int, now: int, limit: int, window: int)
    requires Tracks(h, before, limit, window) && before <= now
    ensures var kept := Pruned(h.queue, now - window); var cut := |h.admitted| - |kept|;
            && TailOf(kept, h.admitted)
            && Expired(h.admitted, cut, now - window)
            && (forall i :: 0 <= i < |kept| ==> kept[i] > now - window)
  {
    hide Spaced, Pruned;
    TailSorted(h.queue, h.admitted);
    PrunedIsSuffix(h.queue, now - window);
    var kept := Pruned(h.queue, now - window);
    var n, m := |h.admitted|, |h.queue|;
    SuffixOfSuffix(h.admitted, m, |kept|);
    hide NonDecreasing;
    forall i | 0 <= i < n - |kept| ensures h.admitted[i] <= now - window {
      if i >= n - m { assert h.queue[i - (n - m)] == h.admitted[i]; }
    }
  }

  lemma OneMoreAdmission(admitted: seq<int>, cut: nat, now: int, limit: int, window: int)
    requires Spaced(admitted, limit, window) && cut <= |admitted| && |admitted| - cut < limit
    requires Expired(admitted, cut, now - window)
    ensures Spaced(admitted + [now], limit, window)
  {
  }

  lemma AdmittedLast(kept: seq<int>, admitted: seq<int>, before: int, now: int)
    requires TailOf(kept, admitted) && NonDecreasing(admitted) && Expired(admitted, |admitted|, before) && before <= now
    ensures TailOf(kept + [now], admitted + [now]) && NonDecreasing(admitted + [now])
    ensures Expired(admitted, |admitted|, now) && Expired(admitted + [now], |admitted| + 1, now)
  {
  }

  /** Pruning alone: what a refused request leaves. */
  lemma RefusedTracks(h: History, before: int, now: int, limit: int, window: int)
    requires Tracks(h, before, limit, window) && before <= now
    ensures Tracks(History(Pruned(h.queue, now - window), h.admitted), now, limit, window)
  {
    PruneTracks(h, before, now, limit, window);
    hide Spaced, Pruned, TailOf, NonDecreasing;
  }

  lemma AdmittedTracks(h: History, now: int, limit: int, window: int)
    requires Tracks(h, now, limit, window) && |h.queue| < limit
    ensures Tracks(History(h.queue + [now], h.admitted + [now]), now, limit, window)
  {
    AdmittedLast(h.queue, h.admitted, now, now);
    OneMoreAdmission(h.admitted, |h.admitted| - |h.queue|, now, limit, window);
    hide Spaced, TailOf, NonDecreasing;
  }

  lemma RequestTracks(h: History, before: int, now: int, limit: int, window: int)
    requires Tracks(h, before, limit, window) && before <= now
    ensures Tracks(Request(h, now, limit, window), now, limit, window)
  {
    hide Tracks, Pruned;
    var kept := Pruned(h.queue, now - window);
    RefusedTracks(h, before, now, limit, window);
    if |kept| < limit { AdmittedTracks(History(kept, h.admitted), now, limit, window); }
  }

  lemma {:induction false} RunTracks(times: seq<int>, limit: int, window: int)
    requires NonDecreasing(times)
    ensures times == [] ==> Run(times, limit, window) == History([], [])
    ensures times != [] ==> Tracks(Run(times, limit, window), times[|times| - 1], limit, window)
  {
    if times != [] {
      var n := |times| - 1;
      RunTracks(times[..n], limit, window);
      if n == 0 {
        RequestTracks(History([], []), times[0], times[0], limit, window);
      } else {
        RequestTracks(Run(times[..n], limit, window), times[n - 1], times[n], limit, window);
      }
    }
  }

  /**
   The rate limit over an unbounded run: although the queue holds only unexpired stamps,
   the i-th and the (i + limit)-th admission are always at least a window apart.
   */
  lemma AdmissionsAreSpaced(times: seq<int>, limit: nat, window: int, i: nat)
    requires NonDecreasing(times) && i + limit < |Run(times, limit, window).admitted|
    ensures var admitted := Run(times, limit, window).admitted; admitted[i + limit] - admitted[i] >= window
  {
    RunTracks(times, limit, window);
    assert Spaced(Run(times, limit, window).admitted, limit, window);
  }

  lemma {:induction false} AfterOfSuffix(s: seq<int>, cut: nat, cutoff: int)
    requires cut <= |s|
    requires forall i :: 0 <= i < cut ==> s[i] <= cutoff
    requires forall i :: cut <= i < |s| ==> s[i] > cutoff
    ensures After(s, cutoff) == s[cut..]
    decreases |s|
  {
    if s != [] {
      var n := |s| - 1;
      if cut <= n {
        AfterOfSuffix(s[..n], cut, cutoff);
        assert s[cut..] == s[..n][cut..] + [s[n]];
      } else {
        AfterOfSuffix(s[..n], n, cutoff);
      }
    }
  }

  /** A request is refused exactly when limit admissions lie in the window that ends now. */
  lemma RefusedExactly(times: seq<int>, now: int, limit: int, window: int)
    requires NonDecreasing(times) && (times != [] ==> times[|times| - 1] <= now)
    ensures var h := Run(times, limit, window);
            !TryCreate(h.queue, now, limit, window).1 <==> |After(h.admitted, now - window)| >= limit
  {
    hide Tracks, Run, Pruned, After, NonDecreasing;
    RunTracks(times, limit, window);
    var h := Run(times, limit, window);
    if times == [] {
      NothingAdmitted(now - window);
    } else {
      PruneTracks(h, times[|times| - 1], now, limit, window);
      assert Expired(h.admitted, |h.admitted| - |Pruned(h.queue, now - window)|, now - window);
      AfterOfTail(h.admitted, Pruned(h.queue, now - window), now - window);
    }
  }

  lemma NothingAdmitted(cutoff: int)
    ensures Pruned([], cutoff) == [] && After([], cutoff) == []
  {
  }

  lemma AfterOfTail(admitted: seq<int>, kept: seq<int>, cutoff: int)
    requires TailOf(kept, admitted) && Expired(admitted, |admitted| - |kept|, cutoff)
    requires forall i :: 0 <= i < |kept| ==> kept[i] > cutoff
    ensures After(admitted, cutoff) == kept
  {
    var cut := |admitted| - |kept|;
    forall i | cut <= i < |admitted| ensures admitted[i] > cutoff { assert kept[i - cut] == admitted[i]; }
    AfterOfSuffix(admitted, cut, cutoff);
  }

  /** The admissions inside the half-open window that ends at t. */
  function Inside(admitted: seq<int>, t: int, window: int): set<nat> {
    set i: nat | i < |admitted| && t - window < admitted[i] <= t
  }

  /** Every window of the run, wherever it ends, holds at most limit admissions. */
  lemma EveryWindowHoldsAtMostLimit(times: seq<int>, limit: nat, window: int, t: int)
    requires NonDecreasing(times)
    ensures |Inside(Run(times, limit, window).admitted, t, window)| <= limit
  {
    var admitted := Run(times, limit, window).admitted;
    var inside := Inside(admitted, t, window);
    RunTracks(times, limit, window);
    if inside != {} {
      var lo := Least(inside);
      forall i | i in inside ensures lo <= i < lo + limit {
        CloseTogether(admitted, limit, window, t, lo, i);
      }
      Bounded(inside, lo, limit);
    }
  }

  lemma CloseTogether(admitted: seq<int>, limit: nat, window: int, t: int, lo: nat, i: nat)
    requires Spaced(admitted, limit, window)
    requires lo <= i < |admitted| && t - window < admitted[lo] && admitted[i] <= t
    ensures i < lo + limit
  {
  }

  lemma {:induction false} Least(s: set<nat>) returns (lo: nat)
    requires s != {}
    ensures lo in s && forall i :: i in s ==> lo <= i
    decreases |s|
  {
    var x :| x in s;
    if s == {x} {
      lo := x;
    } else {
      var rest := s - {x};
      assert s == rest + {x};
      lo := Least(rest);
      if x < lo { lo := x; }
    }
  }

  lemma {:induction false} Bounded(s: set<nat>, lo: nat, n: nat)
    requires forall i :: i in s ==> lo <= i < lo + n
    ensures |s| <= n
    decreases n
  {
    if n == 0 {
      assert s == {};
    } else {
      Bounded(s - {lo + n - 1}, lo, n - 1);
    }
  }

  // ---------------------------------------------------------- the object

  class QuotaGate {
    var creates: map<string, seq<int>>
    var used: map<string, int>

    constructor ()
      ensures creates == map[] && used == map[]
    {
      creates, used := map[], map[];
    }

    function Queue(workspace: string): seq<int>
      reads this
    {
      if workspace in creates then creates[workspace] else []
    }

    function Used(workspace: string): int
      reads this
    {
      if workspace in used then used[workspace] else 0
    }

    /** At most limit creates per sliding window, decided and recorded in one critical section. */
    method TryCreateIn(workspace: string, now: int, limit: int, window: int) returns (ok: bool)
      modifies this
      ensures (Queue(workspace), ok) == TryCreate(old(Queue(workspace)), now, limit, window)
      ensures forall other :: other != workspace ==> Queue(other) == old(Queue(other))
      ensures used == old(used)
    {
      var queue := Queue(workspace);
      var cutoff := now - window;
      while queue != [] && queue[0] <= cutoff
        invariant Pruned(queue, cutoff) == Pruned(old(Queue(workspace)), cutoff)
        decreases |queue|
      {
        queue := queue[1..];
      }
      ok := |queue| < limit;
      creates := creates[workspace := if ok then queue + [now] else queue];
    }

    /** Reserve count units only if the workspace stays within its quota. */
    method TryAdmit(workspace: string, count: int, quota: int) returns (ok: bool)
      modifies this
      ensures ok == (old(Used(workspace)) + count <= quota)
      ensures Used(workspace) == old(Used(workspace)) + (if ok then count else 0)
      ensures ok ==> Used(workspace) <= quota
      ensures forall other :: other != workspace ==> Used(other) == old(Used(other))
      ensures creates == old(creates)
    {
      ok := Used(workspace) + count <= quota;
      if ok { used := used[workspace := Used(workspace) + count]; }
    }
  }
}
