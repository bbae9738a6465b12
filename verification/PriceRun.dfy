/**
 The accumulator loops of price: segments, meters, clipped spans and cuts, booked
 into the result tables, then rounded once per line.
 */
module PriceRun {
  import opened Basics
  import opened Calendar
  import opened RateCards
  import opened Pricing

  type Ledger = map<Key, Tally>

  function Booked(table: Ledger, k: Key): Tally { if k in table then table[k] else ZERO }

  function Book(table: Ledger, k: Key, x: Tally): Ledger { table[k := Plus(Booked(table, k), x)] }

  // --------------------------------------------------------------- sorted cut points

  predicate Rising(s: seq<int>) { forall i, j :: 0 <= i < j < |s| ==> s[i] < s[j] }

  lemma SomeMember<T>(s: set<T>) returns (x: T)
    requires s != {}
    ensures x in s
  {
    x :| x in s;
  }

  method Least(todo: set<int>) returns (least: int)
    requires todo != {}
    ensures least in todo && forall y :: y in todo ==> least <= y
  {
    ghost var some := SomeMember(todo);
    least :| least in todo;
    var rest := todo - {least};
    while rest != {}
      invariant rest <= todo && least in todo
      invariant forall y :: y in todo && y !in rest ==> least <= y
    {
      some := SomeMember(rest);
      var y :| y in rest;
      rest := rest - {y};
      if y < least {
        least := y;
      }
    }
  }

  /** sorted() of a set of instants. */
  method SortInstants(cuts: set<int>) returns (r: seq<int>)
    ensures Rising(r) && forall x :: x in r <==> x in cuts
  {
    r := [];
    var todo := cuts;
    while todo != {}
      invariant todo <= cuts && Rising(r)
      invariant forall x :: x in r <==> x in cuts - todo
      invariant forall i, y :: 0 <= i < |r| && y in todo ==> r[i] < y
    {
      var least := Least(todo);
      r := r + [least];
      todo := todo - {least};
    }
  }

  // ------------------------------------------------------------------ conservation

  /** Units booked for a meter, over every row of the tables. */
  ghost function UnitsOf(table: Ledger, m: string): int
    decreases |table|
  {
    if table == map[] then 0
    else
      var k :| k in table;
      (if k.meter == m then table[k].units else 0) + UnitsOf(table - {k}, m)
  }

  lemma {:induction false} UnitsWithout(table: Ledger, m: string, k: Key)
    requires k in table
    ensures UnitsOf(table, m) == (if k.meter == m then table[k].units else 0) + UnitsOf(table - {k}, m)
    decreases |table|
  {
    var c :| c in table && UnitsOf(table, m) == (if c.meter == m then table[c].units else 0) + UnitsOf(table - {c}, m);
    if c != k {
      UnitsWithout(table - {c}, m, k);
      UnitsWithout(table - {k}, m, c);
      assert table - {c} - {k} == table - {k} - {c};
    }
  }

  lemma BookedUnits(table: Ledger, k: Key, x: Tally, m: string)
    ensures UnitsOf(Book(table, k, x), m) == UnitsOf(table, m) + (if k.meter == m then x.units else 0)
  {
    var table' := Book(table, k, x);
    UnitsWithout(table', m, k);
    if k in table {
      UnitsWithout(table, m, k);
      assert table' - {k} == table - {k};
    } else {
      assert table' - {k} == table;
    }
  }

  // --------------------------------------------------------------------- one span

  /** Prices one clipped span of one meter, cut by cut. */
  method PriceSpan(rows: seq<Rate>, p: Piece, g: Span, table: Ledger) returns (ok: bool, table': Ledger)
    requires g.start < g.end
    ensures ok ==> forall k :: Booked(table', k) == Plus(Booked(table, k), Sum(rows, p, k, Always, g.start, g.end))
    ensures ok ==> forall m :: UnitsOf(table', m) == UnitsOf(table, m) + (if m == p.meter then p.quantity * (g.end - g.start) else 0)
    ensures ok <==> forall t: nat :: g.start <= t < g.end ==> !AmbiguousAt(rows, p, t)
  {
    hide Sum, Plus, UnitsOf, Boundaries, RateFor, KeyAt, TallyAt, MonthOf, MonthStart;
    var months := MonthBoundaries(g.start, g.end);
    var cuts := SortInstants(months + Boundaries(rows, p.meter, p.state, g.start, g.end));
    var points := [g.start] + cuts + [g.end];
    PointsRise(g, cuts);
    table' := table;
    NothingYet(rows, p, g.start, table);
    for n := 0 to |points| - 1
      invariant forall k :: Booked(table', k) == Plus(Booked(table, k), Sum(rows, p, k, Always, g.start, points[n]))
      invariant forall m :: UnitsOf(table', m) == UnitsOf(table, m) + (if m == p.meter then p.quantity * (points[n] - g.start) else 0)
      invariant forall t: nat :: g.start <= t < points[n] ==> !AmbiguousAt(rows, p, t)
    {
      var s: nat, e: nat := points[n], points[n + 1];
      NoCutInside(rows, p, g, months, cuts, n);
      forall t: nat | s <= t < e ensures AmbiguousAt(rows, p, t) <==> AmbiguousAt(rows, p, s) {
        RateConstant(rows, p.meter, p.state, s, e, t);
      }
      if AmbiguousAt(rows, p, s) {
        return false, table;
      }
      BookSpan(rows, p, g.start, s, e, table, table');
      table' := Book(table', KeyAt(rows, p, s), TallyAt(rows, p, s, e - s));
    }
    ok := true;
  }

  lemma NothingYet(rows: seq<Rate>, p: Piece, a: nat, table: Ledger)
    ensures forall k :: Booked(table, k) == Plus(Booked(table, k), Sum(rows, p, k, Always, a, a))
  {
  }

  lemma PointsRise(g: Span, cuts: seq<int>)
    requires g.start < g.end && Rising(cuts) && forall x :: x in cuts ==> g.start < x < g.end
    ensures var points := [g.start] + cuts + [g.end];
            Rising(points) && forall i :: 0 <= i < |points| ==> g.start <= points[i] <= g.end
  {
    var points := [g.start] + cuts + [g.end];
    forall i | 0 <= i < |points|
      ensures g.start <= points[i] <= g.end
      ensures 0 < i ==> g.start < points[i]
      ensures i < |points| - 1 ==> points[i] < g.end
    {
      if 0 < i < |points| - 1 { assert points[i] == cuts[i - 1] && cuts[i - 1] in cuts; }
    }
    forall i, j | 0 <= i < j < |points| ensures points[i] < points[j] {
      if 0 < i && j < |points| - 1 { assert points[i] == cuts[i - 1] && points[j] == cuts[j - 1]; }
    }
  }

  /** Between neighbouring points neither month nor rate changes. */
  lemma NoCutInside(rows: seq<Rate>, p: Piece, g: Span, months: set<int>, cuts: seq<int>, n: nat)
    requires n <= |cuts| && Rising([g.start] + cuts + [g.end])
    requires forall i :: 0 <= i < |cuts| + 2 ==> g.start <= ([g.start] + cuts + [g.end])[i] <= g.end
    requires forall m: nat :: g.start < MonthStart(m) < g.end ==> MonthStart(m) in months
    requires forall x :: x in cuts <==> x in months + Boundaries(rows, p.meter, p.state, g.start, g.end)
    ensures var s: nat, e: nat := ([g.start] + cuts + [g.end])[n], ([g.start] + cuts + [g.end])[n + 1];
            Boundaries(rows, p.meter, p.state, s, e) == {} && SameMonth(s, e)
  {
    hide Boundaries, MonthStart;
    var points := [g.start] + cuts + [g.end];
    var s: nat, e: nat := points[n], points[n + 1];
    BoundariesNarrow(rows, p.meter, p.state, g.start, g.end, s, e);
    var fine := Boundaries(rows, p.meter, p.state, s, e);
    forall x | x in cuts ensures !(s < x < e) {
      var i :| 0 <= i < |cuts| && cuts[i] == x;
      assert points[i + 1] == x;
      if i + 1 < n { assert points[i + 1] < points[n]; }
      if n + 1 < i + 1 { assert points[n + 1] < points[i + 1]; }
    }
    forall m: nat ensures !(s < MonthStart(m) < e) {
      assert s < MonthStart(m) < e ==> MonthStart(m) in cuts;
    }
    forall x ensures x !in fine {
      assert x in fine ==> x in cuts;
    }
  }

  /** One booking advances every row's sum from s to e ... */
  lemma BookSums(rows: seq<Rate>, p: Piece, a: nat, s: nat, e: nat, table: Ledger, now: Ledger, k: Key)
    requires a <= s < e && Boundaries(rows, p.meter, p.state, s, e) == {} && SameMonth(s, e)
    requires Booked(now, k) == Plus(Booked(table, k), Sum(rows, p, k, Always, a, s))
    ensures Booked(Book(now, KeyAt(rows, p, s), TallyAt(rows, p, s, e - s)), k) ==
            Plus(Booked(table, k), Sum(rows, p, k, Always, a, e))
  {
    hide Sum, Plus, Boundaries, KeyAt, TallyAt, SameMonth;
    SumSplits(rows, p, k, Always, a, s, e);
    ConstantSpan(rows, p, k, s, e);
    PlusLaws(Booked(table, k), Sum(rows, p, k, Always, a, s), Sum(rows, p, k, Always, s, e));
    PlusLaws(Booked(now, k), ZERO, ZERO);
  }

  lemma TallyShape(rows: seq<Rate>, p: Piece, t: nat, n: nat)
    ensures KeyAt(rows, p, t).meter == p.meter && TallyAt(rows, p, t, n).units == p.quantity * n
  {
  }

  /** ... and the meter's units with it. */
  lemma BookSpan(rows: seq<Rate>, p: Piece, a: nat, s: nat, e: nat, table: Ledger, now: Ledger)
    requires a <= s < e && Boundaries(rows, p.meter, p.state, s, e) == {} && SameMonth(s, e)
    requires forall k :: Booked(now, k) == Plus(Booked(table, k), Sum(rows, p, k, Always, a, s))
    requires forall m :: UnitsOf(now, m) == UnitsOf(table, m) + (if m == p.meter then p.quantity * (s - a) else 0)
    ensures var now' := Book(now, KeyAt(rows, p, s), TallyAt(rows, p, s, e - s));
            && (forall k :: Booked(now', k) == Plus(Booked(table, k), Sum(rows, p, k, Always, a, e)))
            && (forall m :: UnitsOf(now', m) == UnitsOf(table, m) + (if m == p.meter then p.quantity * (e - a) else 0))
  {
    hide Sum, Plus, UnitsOf, Boundaries, KeyAt, TallyAt, SameMonth, Book, Booked;
    var k0, x := KeyAt(rows, p, s), TallyAt(rows, p, s, e - s);
    TallyShape(rows, p, s, e - s);
    var now' := Book(now, k0, x);
    forall k ensures Booked(now', k) == Plus(Booked(table, k), Sum(rows, p, k, Always, a, e)) {
      BookSums(rows, p, a, s, e, table, now, k);
    }
    forall m ensures UnitsOf(now', m) == UnitsOf(table, m) + (if m == p.meter then p.quantity * (e - a) else 0) {
      BookedUnits(now, k0, x, m);
      assert p.quantity * (e - a) == p.quantity * (s - a) + p.quantity * (e - s);
    }
  }

  // ------------------------------------------------------------------- one segment

  function PieceOf(seg: UsageSegment, m: string): Piece
    requires m in seg.quantity
  {
    Piece(m, seg.quantity[m], seg.workspace, seg.uncertain, seg.state)
  }

  predicate Priced(seg: UsageSegment, m: string) { m in seg.quantity && seg.quantity[m] > 0 }

  /** What a segment adds to row k, millisecond by millisecond over its whole length. */
  function SegmentPart(rows: seq<Rate>, seg: UsageSegment, mask: Mask, k: Key): Tally {
    if Priced(seg, k.meter) then Sum(rows, PieceOf(seg, k.meter), k, mask, seg.start, seg.end) else ZERO
  }

  /** Priced milliseconds of a segment: inside the period, outside every sealed window. */
  function CountOn(mask: Mask, a: nat, b: nat): nat
    decreases b - a
  {
    if b <= a then 0 else CountOn(mask, a, b - 1) + (if On(mask, b - 1) then 1 else 0)
  }

  function SegmentUnits(seg: UsageSegment, mask: Mask, m: string): nat {
    if Priced(seg, m) then seg.quantity[m] * CountOn(mask, seg.start, seg.end) else 0
  }

  /** Some priced millisecond of the segment has no single rate. */
  ghost predicate SegmentAmbiguous(rows: seq<Rate>, seg: UsageSegment, mask: Mask) {
    exists m, t: nat :: Priced(seg, m) && seg.start <= t < seg.end && On(mask, t) && AmbiguousAt(rows, PieceOf(seg, m), t)
  }

  function Lengths(spans: seq<Span>): int {
    if spans == [] then 0
    else Lengths(spans[..|spans| - 1]) + (spans[|spans| - 1].end - spans[|spans| - 1].start)
  }

  lemma {:induction false} CountSplits(mask: Mask, a: nat, m: nat, b: nat)
    requires a <= m <= b
    ensures CountOn(mask, a, b) == CountOn(mask, a, m) + CountOn(mask, m, b)
    decreases b - m
  {
    if m < b { CountSplits(mask, a, m, b - 1); }
  }

  lemma {:induction false} CountSame(m1: Mask, m2: Mask, a: nat, b: nat)
    requires forall t: nat :: a <= t < b ==> (On(m1, t) <==> On(m2, t))
    ensures CountOn(m1, a, b) == CountOn(m2, a, b)
    decreases b - a
  {
    hide On;
    if a < b { CountSame(m1, m2, a, b - 1); }
  }

  lemma {:induction false} CountAll(a: nat, b: nat)
    requires a <= b
    ensures CountOn(Always, a, b) == b - a && CountOn(Inside([]), a, b) == 0
    decreases b - a
  {
    if a < b { CountAll(a, b - 1); }
  }

  lemma {:induction false} LengthsCount(spans: seq<Span>, lo: nat, hi: nat)
    requires Ordered(spans, lo, hi)
    ensures Lengths(spans) == CountOn(Inside(spans), lo, hi)
  {
    if spans == [] {
      CountAll(lo, hi);
    } else {
      var front, g := spans[..|spans| - 1], spans[|spans| - 1];
      assert spans == front + [g];
      LengthsCount(front, lo, g.start);
      hide Within, CountOn;
      forall t: nat
        ensures Within(spans, t) <==> Within(front, t) || g.start <= t < g.end
        ensures t >= g.start ==> !Within(front, t)
        ensures !Within([], t)
      {
        WithinSnoc(front, g, t);
        if t >= g.start { NotYet(front, lo, g.start, t); }
        NotYet([], 0, 0, t);
      }
      CountSplits(Inside(spans), lo, g.start, hi);
      CountSplits(Inside(spans), g.start, g.end, hi);
      CountSame(Inside(spans), Inside(front), lo, g.start);
      CountSame(Inside(spans), Always, g.start, g.end);
      CountSame(Inside(spans), Inside([]), g.end, hi);
      CountAll(g.start, g.end);
      CountAll(g.end, hi);
    }
  }

  lemma LengthsGrow(quantity: nat, spans: seq<Span>, n: nat)
    ensures quantity * Lengths([]) == 0
    ensures n < |spans| ==>
              quantity * Lengths(spans[..n + 1]) == quantity * Lengths(spans[..n]) + quantity * (spans[n].end - spans[n].start)
  {
    if n < |spans| {
      assert spans[..n + 1][..n] == spans[..n];
      assert Lengths(spans[..n + 1]) == Lengths(spans[..n]) + (spans[n].end - spans[n].start);
    }
  }

  /** All clipped spans of one meter. */
  method PriceMeter(rows: seq<Rate>, p: Piece, spans: seq<Span>, table: Ledger) returns (ok: bool, table': Ledger)
    requires forall g :: g in spans ==> g.start < g.end
    ensures ok ==> forall k :: Booked(table', k) == Plus(Booked(table, k), SumSpans(rows, p, k, spans))
    ensures ok ==> forall m :: UnitsOf(table', m) == UnitsOf(table, m) + (if m == p.meter then p.quantity * Lengths(spans) else 0)
    ensures ok <==> forall t: nat :: Within(spans, t) ==> !AmbiguousAt(rows, p, t)
  {
    hide Sum, Plus, UnitsOf, AmbiguousAt, Booked, Lengths;
    table' := table;
    forall k ensures Booked(table, k) == Plus(Booked(table, k), ZERO) {
      PlusLaws(Booked(table, k), ZERO, ZERO);
    }
    LengthsGrow(p.quantity, spans, 0);
    assert spans[..0] == [] && p.quantity * Lengths([]) == 0;
    for n := 0 to |spans|
      invariant forall k :: Booked(table', k) == Plus(Booked(table, k), SumSpans(rows, p, k, spans[..n]))
      invariant forall m :: UnitsOf(table', m) == UnitsOf(table, m) + (if m == p.meter then p.quantity * Lengths(spans[..n]) else 0)
      invariant forall i, t: nat :: 0 <= i < n && spans[i].start <= t < spans[i].end ==> !AmbiguousAt(rows, p, t)
    {
      assert spans[..n + 1][..n] == spans[..n];
      var g := spans[n];
      var fine, next := PriceSpan(rows, p, g, table');
      if !fine {
        var t: nat :| g.start <= t < g.end && AmbiguousAt(rows, p, t);
        assert Within(spans, t);
        return false, table;
      }
      forall k ensures Booked(next, k) == Plus(Booked(table, k), SumSpans(rows, p, k, spans[..n + 1])) {
        PlusLaws(Booked(table, k), SumSpans(rows, p, k, spans[..n]), Sum(rows, p, k, Always, g.start, g.end));
      }
      LengthsGrow(p.quantity, spans, n);
      table' := next;
    }
    assert spans[..|spans|] == spans;
    ok := true;
  }

  /** The part of a segment inside the period; None when nothing is left. */
  function ClippedTo(seg: UsageSegment, period: Option<Window>): Option<Span> {
    match period
    case None => Some(Span(seg.start, seg.end))
    case Some(w) =>
      var start: nat, end: nat := Max(seg.start, w.start), Min(seg.end, w.end);
      if start >= end then None else Some(Span(start, end))
  }

  /** The spans of a segment the fast form prices. */
  function SpansOf(seg: UsageSegment, period: Option<Window>, sealed: seq<SealedPeriod>): seq<Span> {
    match ClippedTo(seg, period)
    case None => []
    case Some(g) => NonEmpty(Remaining(g.start, g.end, sealed))
  }

  lemma {:induction false} NonEmptySpans(spans: seq<Span>)
    ensures forall g :: g in NonEmpty(spans) ==> g.start < g.end
  {
    if spans != [] { NonEmptySpans(spans[..|spans| - 1]); }
  }

  /** What the fast form adds to row k for one segment. */
  function SpansPart(rows: seq<Rate>, seg: UsageSegment, spans: seq<Span>, k: Key): Tally {
    if Priced(seg, k.meter) then SumSpans(rows, PieceOf(seg, k.meter), k, spans) else ZERO
  }

  function SpansUnits(seg: UsageSegment, spans: seq<Span>, m: string): int {
    if Priced(seg, m) then seg.quantity[m] * Lengths(spans) else 0
  }

  ghost predicate SpansAmbiguous(rows: seq<Rate>, seg: UsageSegment, spans: seq<Span>) {
    exists m, t: nat :: Priced(seg, m) && Within(spans, t) && AmbiguousAt(rows, PieceOf(seg, m), t)
  }

  lemma OtherMeterPart(rows: seq<Rate>, p: Piece, k: Key, mask: Mask, t: nat)
    requires k.meter != p.meter
    ensures PartAt(rows, p, k, mask, t) == ZERO
  {
  }

  lemma {:induction false} OtherMeter(rows: seq<Rate>, p: Piece, k: Key, mask: Mask, a: nat, b: nat)
    requires k.meter != p.meter
    ensures Sum(rows, p, k, mask, a, b) == ZERO
    decreases b - a
  {
    hide PartAt, Plus;
    PlusLaws(ZERO, ZERO, ZERO);
    if a < b {
      OtherMeter(rows, p, k, mask, a, b - 1);
      OtherMeterPart(rows, p, k, mask, b - 1);
    }
  }

  lemma {:induction false} OtherMeterSpans(rows: seq<Rate>, p: Piece, k: Key, spans: seq<Span>)
    requires k.meter != p.meter
    ensures SumSpans(rows, p, k, spans) == ZERO
  {
    hide Sum;
    if spans != [] {
      OtherMeterSpans(rows, p, k, spans[..|spans| - 1]);
      OtherMeter(rows, p, k, Always, spans[|spans| - 1].start, spans[|spans| - 1].end);
    }
  }

  /** Every meter of a segment, over the spans that survived clipping. */
  method PriceMeters(rows: seq<Rate>, seg: UsageSegment, spans: seq<Span>, table: Ledger)
    returns (ok: bool, table': Ledger)
    requires forall g :: g in spans ==> g.start < g.end
    ensures ok ==> forall k :: Booked(table', k) == Plus(Booked(table, k), SpansPart(rows, seg, spans, k))
    ensures ok ==> forall m :: UnitsOf(table', m) == UnitsOf(table, m) + SpansUnits(seg, spans, m)
    ensures !ok <==> SpansAmbiguous(rows, seg, spans)
  {
    hide Sum, SumSpans, Plus, UnitsOf, AmbiguousAt, Booked, Within, Lengths;
    table' := table;
    var todo := seg.quantity.Keys;
    forall k ensures Booked(table, k) == Plus(Booked(table, k), ZERO) {
      PlusLaws(Booked(table, k), ZERO, ZERO);
    }
    while todo != {}
      invariant todo <= seg.quantity.Keys
      invariant forall k :: Booked(table', k) ==
                            Plus(Booked(table, k), if k.meter in todo then ZERO else SpansPart(rows, seg, spans, k))
      invariant forall m :: UnitsOf(table', m) == UnitsOf(table, m) + (if m in todo then 0 else SpansUnits(seg, spans, m))
      invariant forall m, t: nat :: Priced(seg, m) && m !in todo && Within(spans, t) ==> !AmbiguousAt(rows, PieceOf(seg, m), t)
    {
      var m :| m in todo;
      if seg.quantity[m] > 0 {
        var fine, next := PriceMeter(rows, PieceOf(seg, m), spans, table');
        if !fine {
          var t: nat :| Within(spans, t) && AmbiguousAt(rows, PieceOf(seg, m), t);
          assert Priced(seg, m);
          return false, table;
        }
        forall k ensures Booked(next, k) == Plus(Booked(table, k), if k.meter in todo - {m} then ZERO else SpansPart(rows, seg, spans, k)) {
          if k.meter != m { OtherMeterSpans(rows, PieceOf(seg, m), k, spans); }
          PlusLaws(Booked(table, k), ZERO, SpansPart(rows, seg, spans, k));
          PlusLaws(Booked(table', k), ZERO, ZERO);
          PlusLaws(SpansPart(rows, seg, spans, k), ZERO, ZERO);
        }
        table' := next;
      }
      todo := todo - {m};
    }
    ok := true;
  }

  // ------------------------------------------------------------------ all segments

  datatype Failure = InvalidSegment | AmbiguousRate

  function AllSpansPart(rows: seq<Rate>, segs: seq<UsageSegment>, period: Option<Window>, sealed: seq<SealedPeriod>, k: Key): Tally {
    if segs == [] then ZERO
    else
      var seg := segs[|segs| - 1];
      Plus(AllSpansPart(rows, segs[..|segs| - 1], period, sealed, k), SpansPart(rows, seg, SpansOf(seg, period, sealed), k))
  }

  function AllSpansUnits(segs: seq<UsageSegment>, period: Option<Window>, sealed: seq<SealedPeriod>, m: string): int {
    if segs == [] then 0
    else
      var seg := segs[|segs| - 1];
      AllSpansUnits(segs[..|segs| - 1], period, sealed, m) + SpansUnits(seg, SpansOf(seg, period, sealed), m)
  }

  /** What is left of a segment inside the period and outside every sealed window. */
  method ClippedSpans(seg: UsageSegment, period: Option<Window>, sealed: seq<SealedPeriod>) returns (spans: seq<Span>)
    ensures spans == SpansOf(seg, period, sealed)
    ensures forall g :: g in spans ==> g.start < g.end
  {
    hide SpansOf;
    var g := ClippedTo(seg, period);
    spans := [];
    if g.Some? {
      spans := OutsideSealed(g.value.start, g.value.end, sealed);
      NonEmptySpans(Remaining(g.value.start, g.value.end, sealed));
    }
    SpansOfIs(seg, period, sealed, spans);
  }

  /** One segment: clipped to the period, cut out of every sealed window, and priced. */
  method PriceSegment(rows: seq<Rate>, seg: UsageSegment, period: Option<Window>, sealed: seq<SealedPeriod>, table: Ledger)
    returns (failed: Option<Failure>, next: Ledger)
    ensures failed.None? ==> forall k :: Booked(next, k) == Plus(Booked(table, k), SpansPart(rows, seg, SpansOf(seg, period, sealed), k))
    ensures failed.None? ==> forall m :: UnitsOf(next, m) == UnitsOf(table, m) + SpansUnits(seg, SpansOf(seg, period, sealed), m)
    ensures failed.None? <==> seg.start <= seg.end && !SpansAmbiguous(rows, seg, SpansOf(seg, period, sealed))
  {
    hide SumSpans, Plus, SpansAmbiguous, SpansPart, SpansOf, Booked, SpansUnits, UnitsOf;
    if seg.start > seg.end {
      return Some(InvalidSegment), table;
    }
    var spans := ClippedSpans(seg, period, sealed);
    var ok;
    ok, next := PriceMeters(rows, seg, spans, table);
    failed := if ok then None else Some(AmbiguousRate);
  }

  /** The pricing loop over segments. */
  method PriceSegments(rows: seq<Rate>, segs: seq<UsageSegment>, period: Option<Window>, sealed: seq<SealedPeriod>)
    returns (failed: Option<Failure>, table: Ledger)
    ensures failed.None? ==> forall k :: Booked(table, k) == AllSpansPart(rows, segs, period, sealed, k)
    ensures failed.None? ==> forall m :: UnitsOf(table, m) == AllSpansUnits(segs, period, sealed, m)
    ensures failed.None? <==> forall i :: 0 <= i < |segs| ==>
              segs[i].start <= segs[i].end && !SpansAmbiguous(rows, segs[i], SpansOf(segs[i], period, sealed))
  {
    hide Plus, SpansAmbiguous, SpansPart, SpansOf, Booked, SpansUnits, UnitsOf;
    table := map[];
    EmptyTable();
    for n := 0 to |segs|
      invariant forall k :: Booked(table, k) == AllSpansPart(rows, segs[..n], period, sealed, k)
      invariant forall m :: UnitsOf(table, m) == AllSpansUnits(segs[..n], period, sealed, m)
      invariant forall i :: 0 <= i < n ==>
                  segs[i].start <= segs[i].end && !SpansAmbiguous(rows, segs[i], SpansOf(segs[i], period, sealed))
    {
      assert segs[..n + 1][..n] == segs[..n];
      failed, table := PriceSegment(rows, segs[n], period, sealed, table);
      if failed.Some? {
        return;
      }
    }
    assert segs[..|segs|] == segs;
    failed := None;
  }

  lemma EmptyTable()
    ensures forall k :: Booked(map[], k) == ZERO
    ensures forall m :: UnitsOf(map[], m) == 0
  {
  }

  lemma SpansOfIs(seg: UsageSegment, period: Option<Window>, sealed: seq<SealedPeriod>, spans: seq<Span>)
    requires spans == match ClippedTo(seg, period) case None => [] case Some(g) => NonEmpty(Remaining(g.start, g.end, sealed))
    ensures spans == SpansOf(seg, period, sealed)
  {
  }

  // ----------------------------------------------------- the fast form is the slow form

  /** Per-millisecond pricing of all segments into row k. */
  function PerMillisecond(rows: seq<Rate>, segs: seq<UsageSegment>, mask: Mask, k: Key): Tally {
    if segs == [] then ZERO
    else Plus(PerMillisecond(rows, segs[..|segs| - 1], mask, k), SegmentPart(rows, segs[|segs| - 1], mask, k))
  }

  function PerMillisecondUnits(segs: seq<UsageSegment>, mask: Mask, m: string): nat {
    if segs == [] then 0 else PerMillisecondUnits(segs[..|segs| - 1], mask, m) + SegmentUnits(segs[|segs| - 1], mask, m)
  }

  /** Clipping to the period and then out of the sealed windows selects exactly the billable instants. */
  lemma SpansAreBillable(seg: UsageSegment, period: Option<Window>, sealed: seq<SealedPeriod>)
    requires seg.start <= seg.end && Pricing.Forward(sealed)
    ensures var spans := SpansOf(seg, period, sealed);
            && Ordered(spans, seg.start, seg.end)
            && (forall t: nat :: seg.start <= t < seg.end ==> (Within(spans, t) <==> On(Billable(period, sealed), t)))
            && (forall t: nat :: Within(spans, t) ==> seg.start <= t < seg.end)
  {
    var g := ClippedTo(seg, period);
    if g.Some? {
      OutsideSealedExact(g.value.start, g.value.end, sealed);
    }
  }

  lemma PartExact(rows: seq<Rate>, seg: UsageSegment, spans: seq<Span>, mask: Mask, k: Key)
    requires Ordered(spans, seg.start, seg.end)
    requires forall t: nat :: seg.start <= t < seg.end ==> (Within(spans, t) <==> On(mask, t))
    ensures SpansPart(rows, seg, spans, k) == SegmentPart(rows, seg, mask, k)
  {
    hide Sum, SumSpans, Within, Ordered;
    if Priced(seg, k.meter) {
      SpansAddUp(rows, PieceOf(seg, k.meter), k, spans, seg.start, seg.end);
      assert forall t: nat :: seg.start <= t < seg.end ==> (On(Inside(spans), t) <==> On(mask, t));
      hide On;
      SameMask(rows, PieceOf(seg, k.meter), k, Inside(spans), mask, seg.start, seg.end);
    }
  }

  lemma UnitsExact(seg: UsageSegment, spans: seq<Span>, mask: Mask, m: string)
    requires Ordered(spans, seg.start, seg.end)
    requires forall t: nat :: seg.start <= t < seg.end ==> (Within(spans, t) <==> On(mask, t))
    ensures SpansUnits(seg, spans, m) == SegmentUnits(seg, mask, m)
  {
    hide Within, Ordered, Lengths, CountOn;
    if Priced(seg, m) {
      LengthsCount(spans, seg.start, seg.end);
      CountSame(Inside(spans), mask, seg.start, seg.end);
    }
  }

  lemma SegmentExact(rows: seq<Rate>, seg: UsageSegment, period: Option<Window>, sealed: seq<SealedPeriod>, k: Key)
    requires seg.start <= seg.end && Pricing.Forward(sealed)
    ensures SpansPart(rows, seg, SpansOf(seg, period, sealed), k) == SegmentPart(rows, seg, Billable(period, sealed), k)
    ensures SpansUnits(seg, SpansOf(seg, period, sealed), k.meter) == SegmentUnits(seg, Billable(period, sealed), k.meter)
    ensures SpansAmbiguous(rows, seg, SpansOf(seg, period, sealed)) <==> SegmentAmbiguous(rows, seg, Billable(period, sealed))
  {
    hide Within, SpansOf, Ordered, On, SpansPart, SegmentPart, SpansUnits, SegmentUnits, SpansAmbiguous, SegmentAmbiguous;
    SpansAreBillable(seg, period, sealed);
    var spans := SpansOf(seg, period, sealed);
    PartExact(rows, seg, spans, Billable(period, sealed), k);
    UnitsExact(seg, spans, Billable(period, sealed), k.meter);
    AmbiguityExact(rows, seg, spans, Billable(period, sealed));
  }

  lemma AmbiguityExact(rows: seq<Rate>, seg: UsageSegment, spans: seq<Span>, mask: Mask)
    requires forall t: nat :: seg.start <= t < seg.end ==> (Within(spans, t) <==> On(mask, t))
    requires forall t: nat :: Within(spans, t) ==> seg.start <= t < seg.end
    ensures SpansAmbiguous(rows, seg, spans) <==> SegmentAmbiguous(rows, seg, mask)
  {
  }

  /**
   price equals per-millisecond pricing: with sealed windows that run forward, every
   row of the result tables, confirmed, estimated or unpriced, holds the sum over every
   billable millisecond of quantity times the rate in force then; no instant is booked
   twice or missed.
   */
  lemma {:induction false} PriceIsPerMillisecond(rows: seq<Rate>, segs: seq<UsageSegment>, period: Option<Window>,
                                                 sealed: seq<SealedPeriod>, k: Key)
    requires Pricing.Forward(sealed) && forall i :: 0 <= i < |segs| ==> segs[i].start <= segs[i].end
    ensures AllSpansPart(rows, segs, period, sealed, k) == PerMillisecond(rows, segs, Billable(period, sealed), k)
    ensures AllSpansUnits(segs, period, sealed, k.meter) == PerMillisecondUnits(segs, Billable(period, sealed), k.meter)
  {
    hide SpansPart, SegmentPart, SpansUnits, SegmentUnits, SpansOf, Plus;
    if segs != [] {
      PriceIsPerMillisecond(rows, segs[..|segs| - 1], period, sealed, k);
      SegmentExact(rows, segs[|segs| - 1], period, sealed, k);
    }
  }

  /** Cutting a segment anywhere changes no row. */
  lemma CuttingChangesNothing(rows: seq<Rate>, segs: seq<UsageSegment>, seg: UsageSegment, m: nat, mask: Mask, k: Key)
    requires seg.start <= m <= seg.end
    ensures PerMillisecond(rows, segs + [seg], mask, k) ==
            PerMillisecond(rows, segs + [seg.(end := m)] + [seg.(start := m)], mask, k)
  {
    hide Sum, Plus;
    var left, right := seg.(end := m), seg.(start := m);
    assert (segs + [seg])[..|segs|] == segs && (segs + [left])[..|segs|] == segs;
    assert (segs + [left] + [right])[..|segs| + 1] == segs + [left];
    PlusLaws(PerMillisecond(rows, segs, mask, k), SegmentPart(rows, left, mask, k), SegmentPart(rows, right, mask, k));
    PlusLaws(ZERO, ZERO, ZERO);
    if Priced(seg, k.meter) {
      SumSplits(rows, PieceOf(seg, k.meter), k, mask, seg.start, m, seg.end);
      assert PieceOf(left, k.meter) == PieceOf(right, k.meter) == PieceOf(seg, k.meter);
    }
  }

  lemma RemovalFront<T>(s: seq<T>, i: nat)
    requires i < |s| - 1
    ensures var less, front := s[..i] + s[i + 1..], s[..|s| - 1];
            less[..|s| - 2] == front[..i] + front[i + 1..] && less[|s| - 2] == s[|s| - 1]
  {
  }

  /** A segment may be priced last instead of in place. */
  lemma {:induction false} PricedLast(rows: seq<Rate>, segs: seq<UsageSegment>, i: nat, mask: Mask, k: Key)
    requires i < |segs|
    ensures PerMillisecond(rows, segs, mask, k) ==
            Plus(PerMillisecond(rows, segs[..i] + segs[i + 1..], mask, k), SegmentPart(rows, segs[i], mask, k))
  {
    hide SegmentPart, Plus;
    var n := |segs| - 1;
    if i == n {
      assert segs[..i] + segs[i + 1..] == segs[..n];
    } else {
      var front := segs[..n];
      PricedLast(rows, front, i, mask, k);
      RemovalFront(segs, i);
      var rest := PerMillisecond(rows, front[..i] + front[i + 1..], mask, k);
      PlusLaws(rest, SegmentPart(rows, segs[i], mask, k), SegmentPart(rows, segs[n], mask, k));
      PlusLaws(rest, SegmentPart(rows, segs[n], mask, k), SegmentPart(rows, segs[i], mask, k));
      PlusLaws(SegmentPart(rows, segs[i], mask, k), SegmentPart(rows, segs[n], mask, k), ZERO);
    }
  }

  lemma Remainder<T>(s: seq<T>, i: nat)
    requires i < |s|
    ensures multiset(s[..i] + s[i + 1..]) == multiset(s) - multiset{s[i]}
  {
    assert s == s[..i] + [s[i]] + s[i + 1..];
  }

  lemma SameRest<T>(a: seq<T>, b: seq<T>, i: nat)
    requires multiset(a) == multiset(b) && a != [] && i < |b| && b[i] == a[|a| - 1]
    ensures multiset(a[..|a| - 1]) == multiset(b[..i] + b[i + 1..])
  {
    Remainder(a, |a| - 1);
    Remainder(b, i);
    assert a[..|a| - 1] + a[|a|..] == a[..|a| - 1];
  }

  /** Reordering segments changes no row. */
  lemma {:induction false} ReorderingChangesNothing(rows: seq<Rate>, a: seq<UsageSegment>, b: seq<UsageSegment>, mask: Mask, k: Key)
    requires multiset(a) == multiset(b)
    ensures PerMillisecond(rows, a, mask, k) == PerMillisecond(rows, b, mask, k)
    decreases |a|
  {
    hide SegmentPart, Plus;
    if a == [] {
      assert |b| == |multiset(b)| == 0;
    } else {
      var n, x := |a| - 1, a[|a| - 1];
      assert x in multiset(b);
      var i: nat :| i < |b| && b[i] == x;
      SameRest(a, b, i);
      PricedLast(rows, b, i, mask, k);
      ReorderingChangesNothing(rows, a[..n], b[..i] + b[i + 1..], mask, k);
    }
  }
}
