/**
 Pricing of usage segments (price in scripts/usage_engine.py).  The fast form clips
 sealed windows out of each segment, cuts the rest at month and rate boundaries and
 prices every cut once; it is proved equal to pricing each millisecond on its own.
 */
module Pricing {
  import opened Basics
  import opened Calendar
  import opened RateCards

  datatype UsageSegment = UsageSegment(
    start: nat,
    end: nat,
    quantity: map<string, nat>,
    uncertain: bool,
    workspace: string,
    state: Option<string>)

  datatype Window = Window(start: nat, end: nat)

  datatype FrozenLine = FrozenLine(currency: string, minor: int)

  datatype SealedPeriod = SealedPeriod(name: string, start: nat, end: nat, lines: seq<FrozenLine>)

  /** One meter of a segment, as far as pricing an instant of it goes. */
  datatype Piece = Piece(meter: string, quantity: nat, workspace: string, uncertain: bool, state: Option<string>)

  /** Rows of the three result tables: confirmed lines, trial estimates, unpriced gaps. */
  datatype Key =
    | Line(month: nat, workspace: string, currency: string, meter: string)
    | Estimate(workspace: string, currency: string, meter: string)
    | Unpriced(month: nat, workspace: string, meter: string)

  /** Integrated units, the exact, unrounded amount, and the rate versions that priced them. */
  datatype Tally = Tally(units: int, exact: real, rates: set<(string, int)>)

  const ZERO := Tally(0, 0.0, {})

  function Plus(a: Tally, b: Tally): Tally { Tally(a.units + b.units, a.exact + b.exact, a.rates + b.rates) }

  lemma PlusLaws(a: Tally, b: Tally, c: Tally)
    ensures Plus(Plus(a, b), c) == Plus(a, Plus(b, c))
    ensures Plus(a, ZERO) == a == Plus(ZERO, a)
    ensures Plus(a, b) == Plus(b, a)
  {
  }

  function Amount(units: int, r: Rate): real
    requires r.denominator >= 1
  {
    (units * r.numerator) as real / r.denominator as real
  }

  // ------------------------------------------------------ one millisecond at a time

  /** A rate that no valid card holds has no amount. */
  function SafeAmount(units: int, r: Rate): real {
    if r.denominator >= 1 then Amount(units, r) else 0.0
  }

  predicate AmbiguousAt(rows: seq<Rate>, p: Piece, t: nat) { RateFor(rows, p.meter, t, p.state).Ambiguous? }

  /** Where the usage at instant t is booked. */
  function KeyAt(rows: seq<Rate>, p: Piece, t: nat): Key {
    match RateFor(rows, p.meter, t, p.state)
    case Found(r) => if p.uncertain then Estimate(p.workspace, r.currency, p.meter)
                     else Line(MonthOf(t), p.workspace, r.currency, p.meter)
    case _ => Unpriced(MonthOf(t), p.workspace, p.meter)
  }

  /** What n milliseconds at the price of instant t come to. */
  function TallyAt(rows: seq<Rate>, p: Piece, t: nat, n: nat): Tally {
    match RateFor(rows, p.meter, t, p.state)
    case Found(r) => Tally(p.quantity * n, SafeAmount(p.quantity * n, r), if n == 0 then {} else {(r.rateId, r.version)})
    case _ => Tally(p.quantity * n, 0.0, {})
  }

  datatype Span = Span(start: nat, end: nat)

  datatype Mask = Always | Inside(spans: seq<Span>) | Billable(period: Option<Window>, sealed: seq<SealedPeriod>)

  predicate Within(spans: seq<Span>, t: nat) {
    exists i :: 0 <= i < |spans| && spans[i].start <= t < spans[i].end
  }

  predicate IsSealed(sealed: seq<SealedPeriod>, t: nat) {
    exists i :: 0 <= i < |sealed| && sealed[i].start <= t < sealed[i].end
  }

  predicate On(mask: Mask, t: nat) {
    match mask
    case Always => true
    case Inside(spans) => Within(spans, t)
    case Billable(period, sealed) =>
      (period.None? || period.value.start <= t < period.value.end) && !IsSealed(sealed, t)
  }

  /** What instant t adds to row k. */
  function PartAt(rows: seq<Rate>, p: Piece, k: Key, mask: Mask, t: nat): Tally {
    if On(mask, t) && KeyAt(rows, p, t) == k then TallyAt(rows, p, t, 1) else ZERO
  }

  /** The sum over every millisecond of [a, b). */
  function Sum(rows: seq<Rate>, p: Piece, k: Key, mask: Mask, a: nat, b: nat): Tally
    decreases b - a
  {
    if b <= a then ZERO else Plus(Sum(rows, p, k, mask, a, b - 1), PartAt(rows, p, k, mask, b - 1))
  }

  lemma {:induction false} SumSplits(rows: seq<Rate>, p: Piece, k: Key, mask: Mask, a: nat, m: nat, b: nat)
    requires a <= m <= b
    ensures Sum(rows, p, k, mask, a, b) == Plus(Sum(rows, p, k, mask, a, m), Sum(rows, p, k, mask, m, b))
    decreases b - m
  {
    hide PartAt, Plus;
    PlusLaws(Sum(rows, p, k, mask, a, m), ZERO, ZERO);
    if m < b {
      SumSplits(rows, p, k, mask, a, m, b - 1);
      PlusLaws(Sum(rows, p, k, mask, a, m), Sum(rows, p, k, mask, m, b - 1), PartAt(rows, p, k, mask, b - 1));
    }
  }

  lemma {:induction false} SameMask(rows: seq<Rate>, p: Piece, k: Key, m1: Mask, m2: Mask, a: nat, b: nat)
    requires forall t: nat :: a <= t < b ==> (On(m1, t) <==> On(m2, t))
    ensures Sum(rows, p, k, m1, a, b) == Sum(rows, p, k, m2, a, b)
    decreases b - a
  {
    hide On;
    if a < b { SameMask(rows, p, k, m1, m2, a, b - 1); }
  }

  lemma PartOff(rows: seq<Rate>, p: Piece, k: Key, mask: Mask, t: nat)
    requires !On(mask, t)
    ensures PartAt(rows, p, k, mask, t) == ZERO
  {
  }

  lemma {:induction false} NothingOn(rows: seq<Rate>, p: Piece, k: Key, mask: Mask, a: nat, b: nat)
    requires forall t: nat :: a <= t < b ==> !On(mask, t)
    ensures Sum(rows, p, k, mask, a, b) == ZERO
    decreases b - a
  {
    hide On, PartAt, Plus;
    PlusLaws(ZERO, ZERO, ZERO);
    if a < b {
      NothingOn(rows, p, k, mask, a, b - 1);
      PartOff(rows, p, k, mask, b - 1);
    }
  }

  lemma TallyAdds(rows: seq<Rate>, p: Piece, t: nat, n: nat)
    ensures TallyAt(rows, p, t, n + 1) == Plus(TallyAt(rows, p, t, n), TallyAt(rows, p, t, 1))
    ensures TallyAt(rows, p, t, 0) == ZERO
  {
  }

  lemma SamePrice(rows: seq<Rate>, p: Piece, a: nat, t: nat, n: nat)
    requires RateFor(rows, p.meter, t, p.state) == RateFor(rows, p.meter, a, p.state) && MonthOf(t) == MonthOf(a)
    ensures KeyAt(rows, p, t) == KeyAt(rows, p, a) && TallyAt(rows, p, t, n) == TallyAt(rows, p, a, n)
  {
  }

  /** Where neither month nor rate changes, one multiplication prices the whole span. */
  lemma {:induction false} ConstantSpan(rows: seq<Rate>, p: Piece, k: Key, a: nat, b: nat)
    requires a <= b && Boundaries(rows, p.meter, p.state, a, b) == {} && SameMonth(a, b)
    ensures Sum(rows, p, k, Always, a, b) == if KeyAt(rows, p, a) == k then TallyAt(rows, p, a, b - a) else ZERO
    decreases b - a
  {
    hide RateFor, Boundaries, MonthOf, KeyAt, TallyAt, Plus;
    TallyAdds(rows, p, a, if a < b then b - a - 1 else 0);
    PlusLaws(ZERO, ZERO, ZERO);
    if a < b {
      BoundariesNarrow(rows, p.meter, p.state, a, b, a, b - 1);
      ConstantSpan(rows, p, k, a, b - 1);
      RateConstant(rows, p.meter, p.state, a, b, b - 1);
      MonthConstant(a, b, b - 1);
      SamePrice(rows, p, a, b - 1, 1);
    }
  }

  // ------------------------------------------------------------------- sealed windows

  function ClipOne(g: Span, p: SealedPeriod): seq<Span> {
    if g.end <= p.start || g.start >= p.end then [g]
    else (if g.start < p.start then [Span(g.start, p.start)] else []) +
         (if p.end < g.end then [Span(p.end, g.end)] else [])
  }

  function ClipAll(spans: seq<Span>, p: SealedPeriod): seq<Span> {
    if spans == [] then [] else ClipAll(spans[..|spans| - 1], p) + ClipOne(spans[|spans| - 1], p)
  }

  function Remaining(start: nat, end: nat, sealed: seq<SealedPeriod>): seq<Span> {
    if sealed == [] then [Span(start, end)]
    else ClipAll(Remaining(start, end, sealed[..|sealed| - 1]), sealed[|sealed| - 1])
  }

  function NonEmpty(spans: seq<Span>): seq<Span> {
    if spans == [] then []
    else
      var g := spans[|spans| - 1];
      NonEmpty(spans[..|spans| - 1]) + (if g.start < g.end then [g] else [])
  }

  /** _outside_sealed: the span minus every sealed window. */
  method OutsideSealed(start: nat, end: nat, sealed: seq<SealedPeriod>) returns (spans: seq<Span>)
    ensures spans == NonEmpty(Remaining(start, end, sealed))
  {
    spans := [Span(start, end)];
    for n := 0 to |sealed|
      invariant spans == Remaining(start, end, sealed[..n])
    {
      assert sealed[..n + 1][..n] == sealed[..n];
      spans := ClipEach(spans, sealed[n]);
    }
    assert sealed[..|sealed|] == sealed;
    spans := DropEmpty(spans);
  }

  method ClipEach(spans: seq<Span>, p: SealedPeriod) returns (clipped: seq<Span>)
    ensures clipped == ClipAll(spans, p)
  {
    clipped := [];
    for i := 0 to |spans|
      invariant clipped == ClipAll(spans[..i], p)
    {
      assert spans[..i + 1][..i] == spans[..i];
      var g := spans[i];
      ghost var before := clipped;
      if g.end <= p.start || g.start >= p.end {
        clipped := clipped + [g];
      } else {
        if g.start < p.start { clipped := clipped + [Span(g.start, p.start)]; }
        if p.end < g.end { clipped := clipped + [Span(p.end, g.end)]; }
      }
      assert clipped == before + ClipOne(g, p);
    }
    assert spans[..|spans|] == spans;
  }

  method DropEmpty(spans: seq<Span>) returns (kept: seq<Span>)
    ensures kept == NonEmpty(spans)
  {
    kept := [];
    for i := 0 to |spans|
      invariant kept == NonEmpty(spans[..i])
    {
      assert spans[..i + 1][..i] == spans[..i];
      if spans[i].start < spans[i].end { kept := kept + [spans[i]]; }
    }
    assert spans[..|spans|] == spans;
  }

  /** In time order, disjoint, within [lo, hi]. */
  predicate Ordered(spans: seq<Span>, lo: nat, hi: nat) {
    && lo <= hi
    && (forall i :: 0 <= i < |spans| ==> lo <= spans[i].start <= spans[i].end <= hi)
    && (forall i, j :: 0 <= i < j < |spans| ==> spans[i].end <= spans[j].start)
  }

  /** No window is sealed backwards. */
  predicate Forward(sealed: seq<SealedPeriod>) {
    forall i :: 0 <= i < |sealed| ==> sealed[i].start <= sealed[i].end
  }

  lemma WithinConcat(a: seq<Span>, b: seq<Span>, t: nat)
    ensures Within(a + b, t) <==> Within(a, t) || Within(b, t)
  {
    if Within(a, t) {
      var i :| 0 <= i < |a| && a[i].start <= t < a[i].end;
      assert (a + b)[i] == a[i];
    }
    if Within(b, t) {
      var i :| 0 <= i < |b| && b[i].start <= t < b[i].end;
      assert (a + b)[|a| + i] == b[i];
    }
  }

  lemma ClipOneExact(g: Span, p: SealedPeriod, t: nat)
    requires p.start <= p.end
    ensures Within(ClipOne(g, p), t) <==> g.start <= t < g.end && !(p.start <= t < p.end)
  {
    var left := if g.start < p.start then [Span(g.start, p.start)] else [];
    var right := if p.end < g.end then [Span(p.end, g.end)] else [];
    WithinConcat(left, right, t);
    assert Within([g], t) <==> [g][0].start <= t < [g][0].end;
    if left != [] { assert Within(left, t) <==> left[0].start <= t < left[0].end; }
    if right != [] { assert Within(right, t) <==> right[0].start <= t < right[0].end; }
  }

  lemma {:induction false} ClipAllExact(spans: seq<Span>, p: SealedPeriod, t: nat)
    requires p.start <= p.end
    ensures Within(ClipAll(spans, p), t) <==> Within(spans, t) && !(p.start <= t < p.end)
  {
    if spans != [] {
      var front, g := spans[..|spans| - 1], spans[|spans| - 1];
      ClipAllExact(front, p, t);
      ClipOneExact(g, p, t);
      WithinConcat(ClipAll(front, p), ClipOne(g, p), t);
      WithinConcat(front, [g], t);
      assert spans == front + [g];
      assert Within([g], t) <==> [g][0].start <= t < [g][0].end;
    }
  }

  lemma OrderedConcat(a: seq<Span>, b: seq<Span>, lo: nat, m: nat, hi: nat)
    requires Ordered(a, lo, m) && Ordered(b, m, hi)
    ensures Ordered(a + b, lo, hi)
  {
  }

  lemma {:induction false} ClipAllOrdered(spans: seq<Span>, p: SealedPeriod, lo: nat, hi: nat)
    requires p.start <= p.end && Ordered(spans, lo, hi)
    ensures Ordered(ClipAll(spans, p), lo, hi)
  {
    if spans != [] {
      var front, g := spans[..|spans| - 1], spans[|spans| - 1];
      ClipAllOrdered(front, p, lo, g.start);
      assert Ordered(ClipOne(g, p), g.start, hi);
      OrderedConcat(ClipAll(front, p), ClipOne(g, p), lo, g.start, hi);
    }
  }

  lemma {:induction false} RemainingExact(start: nat, end: nat, sealed: seq<SealedPeriod>, t: nat)
    requires Forward(sealed)
    ensures Within(Remaining(start, end, sealed), t) <==> start <= t < end && !IsSealed(sealed, t)
  {
    var whole := [Span(start, end)];
    assert Within(whole, t) <==> whole[0].start <= t < whole[0].end;
    if sealed != [] {
      var front, p := sealed[..|sealed| - 1], sealed[|sealed| - 1];
      RemainingExact(start, end, front, t);
      ClipAllExact(Remaining(start, end, front), p, t);
      if IsSealed(front, t) {
        var i :| 0 <= i < |front| && front[i].start <= t < front[i].end;
        assert sealed[i].start <= t < sealed[i].end;
      }
    }
  }

  lemma {:induction false} RemainingOrdered(start: nat, end: nat, sealed: seq<SealedPeriod>)
    requires Forward(sealed) && start <= end
    ensures Ordered(Remaining(start, end, sealed), start, end)
  {
    if sealed != [] {
      RemainingOrdered(start, end, sealed[..|sealed| - 1]);
      ClipAllOrdered(Remaining(start, end, sealed[..|sealed| - 1]), sealed[|sealed| - 1], start, end);
    }
  }

  lemma {:induction false} NonEmptyExact(spans: seq<Span>, lo: nat, hi: nat, t: nat)
    requires Ordered(spans, lo, hi)
    ensures Ordered(NonEmpty(spans), lo, hi)
    ensures forall g :: g in NonEmpty(spans) ==> g.start < g.end
    ensures Within(NonEmpty(spans), t) <==> Within(spans, t)
  {
    if spans != [] {
      var front, g := spans[..|spans| - 1], spans[|spans| - 1];
      NonEmptyExact(front, lo, g.start, t);
      assert spans == front + [g];
      WithinConcat(front, [g], t);
      WithinConcat(NonEmpty(front), if g.start < g.end then [g] else [], t);
      assert Within([g], t) <==> [g][0].start <= t < [g][0].end;
      OrderedConcat(NonEmpty(front), if g.start < g.end then [g] else [], lo, g.start, hi);
    }
  }

  /**
   Clipping is exact: what is left of a span is the set difference with all sealed
   windows, as non-empty disjoint spans in order.
   */
  lemma OutsideSealedExact(start: nat, end: nat, sealed: seq<SealedPeriod>)
    requires Forward(sealed) && start <= end
    ensures var spans := NonEmpty(Remaining(start, end, sealed));
            && Ordered(spans, start, end)
            && (forall g :: g in spans ==> g.start < g.end)
            && (forall t: nat :: Within(spans, t) <==> start <= t < end && !IsSealed(sealed, t))
  {
    RemainingOrdered(start, end, sealed);
    NonEmptyExact(Remaining(start, end, sealed), start, end, start);
    forall t: nat ensures Within(NonEmpty(Remaining(start, end, sealed)), t) <==> start <= t < end && !IsSealed(sealed, t) {
      RemainingExact(start, end, sealed, t);
      NonEmptyExact(Remaining(start, end, sealed), start, end, t);
    }
  }

  /**
   A window sealed backwards is not refused, and can make the clipped spans overlap so
   that usage is priced twice; clipping by one window is safe for every span exactly
   when the window runs forward (or ends at time zero, where no span can meet it).
   */
  lemma ClipSafeExactly(p: SealedPeriod)
    ensures (forall g: Span :: g.start <= g.end ==> Ordered(ClipOne(g, p), g.start, g.end)) <==>
            (p.start <= p.end || p.end == 0)
  {
    if p.end < p.start && p.end > 0 {
      var g := Span(0, p.start + 1);
      assert ClipOne(g, p)[0].end > ClipOne(g, p)[1].start;
      assert !Ordered(ClipOne(g, p), g.start, g.end);
    }
  }

  // ----------------------------------------------------- spans add up to the whole

  function SumSpans(rows: seq<Rate>, p: Piece, k: Key, spans: seq<Span>): Tally {
    if spans == [] then ZERO
    else
      var g := spans[|spans| - 1];
      Plus(SumSpans(rows, p, k, spans[..|spans| - 1]), Sum(rows, p, k, Always, g.start, g.end))
  }

  lemma WithinSnoc(front: seq<Span>, g: Span, t: nat)
    ensures Within(front + [g], t) <==> Within(front, t) || g.start <= t < g.end
  {
    WithinConcat(front, [g], t);
    assert Within([g], t) <==> [g][0].start <= t < [g][0].end;
  }

  lemma NotYet(spans: seq<Span>, lo: nat, hi: nat, t: nat)
    requires Ordered(spans, lo, hi) && hi <= t
    ensures !Within(spans, t)
  {
  }

  lemma {:induction false} SpansAddUp(rows: seq<Rate>, p: Piece, k: Key, spans: seq<Span>, lo: nat, hi: nat)
    requires Ordered(spans, lo, hi)
    ensures SumSpans(rows, p, k, spans) == Sum(rows, p, k, Inside(spans), lo, hi)
  {
    hide PartAt, Sum, Plus;
    if spans == [] {
      NothingOn(rows, p, k, Inside(spans), lo, hi);
    } else {
      var front, g := spans[..|spans| - 1], spans[|spans| - 1];
      assert spans == front + [g];
      SpansAddUp(rows, p, k, front, lo, g.start);
      hide Within;
      forall t: nat
        ensures Within(spans, t) <==> Within(front, t) || g.start <= t < g.end
        ensures t >= g.start ==> !Within(front, t)
      {
        WithinSnoc(front, g, t);
        if t >= g.start { NotYet(front, lo, g.start, t); }
      }
      SumSplits(rows, p, k, Inside(spans), lo, g.start, hi);
      SumSplits(rows, p, k, Inside(spans), g.start, g.end, hi);
      SameMask(rows, p, k, Inside(spans), Inside(front), lo, g.start);
      SameMask(rows, p, k, Inside(spans), Always, g.start, g.end);
      NothingOn(rows, p, k, Inside(spans), g.end, hi);
      PlusLaws(Sum(rows, p, k, Always, g.start, g.end), ZERO, ZERO);
    }
  }
}
