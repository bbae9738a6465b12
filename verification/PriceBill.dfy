/**
 The whole of price: confirmed lines, frozen lines of sealed periods, adjustments,
 estimates, unpriced gaps and the totals, against per-millisecond pricing.
 */
module PriceBill {
  import opened Basics
  import opened RateCards
  import opened Pricing
  import opened PriceRun
  import opened PriceLines

  /** Usage nobody had a rate for. */
  datatype Gap = Gap(key: Key, units: int)

  datatype Adjustment = Adjustment(
    period: string, workspace: string, currency: string, meter: string, units: int, minor: int, reason: string)

  /** uncertainMs counts every meter of an uncertain segment by itself. */
  datatype Bill = Bill(
    lines: seq<BillLine>,
    frozen: seq<FrozenLine>,
    adjustments: seq<Adjustment>,
    totals: map<string, int>,
    adjustmentTotals: map<string, int>,
    gaps: seq<Gap>,
    estimates: seq<BillLine>,
    estimateTotals: map<string, int>,
    uncertainMs: int)

  const NO_BILL := Bill([], [], [], map[], map[], [], [], map[], 0)

  function At(totals: map<string, int>, c: string): int { if c in totals then totals[c] else 0 }

  // ------------------------------------------------------------------ against the milliseconds

  /** A line bills its row's integral over the billable milliseconds, rounded once, at exactly the rates used. */
  predicate BillsExactly(l: BillLine, rows: seq<Rate>, segs: seq<UsageSegment>, mask: Mask) {
    var due := PerMillisecond(rows, segs, mask, l.key);
    l.units == due.units && l.minor == RoundHalfUp(due.exact) && l.rates == due.rates
  }

  /** The lines are exactly the rows of one kind that are due, each once. */
  ghost predicate BillsAll(lines: seq<BillLine>, kind: LineKind, rows: seq<Rate>, segs: seq<UsageSegment>, mask: Mask) {
    && Distinct(lines)
    && (forall i :: 0 <= i < |lines| ==> Selected(lines[i].key, kind) && BillsExactly(lines[i], rows, segs, mask))
    && (forall k :: Selected(k, kind) && PerMillisecond(rows, segs, mask, k) != ZERO ==> k in KeysOf(lines))
  }

  predicate GapsDistinct(gaps: seq<Gap>) { forall i, j :: 0 <= i < j < |gaps| ==> gaps[i].key != gaps[j].key }

  function GapKeys(gaps: seq<Gap>): set<Key> { set i | 0 <= i < |gaps| :: gaps[i].key }

  /** The gaps are exactly the unpriced rows, each once, with their units. */
  ghost predicate GapsAll(gaps: seq<Gap>, rows: seq<Rate>, segs: seq<UsageSegment>, mask: Mask) {
    && GapsDistinct(gaps)
    && (forall i :: 0 <= i < |gaps| ==>
          gaps[i].key.Unpriced? && gaps[i].units == PerMillisecond(rows, segs, mask, gaps[i].key).units)
    && (forall k: Key :: k.Unpriced? && PerMillisecond(rows, segs, mask, k) != ZERO ==> k in GapKeys(gaps))
  }

  /** The exact amount due in a currency over the given lines. */
  function Due(lines: seq<BillLine>, rows: seq<Rate>, segs: seq<UsageSegment>, mask: Mask, c: string): real {
    if lines == [] then 0.0
    else
      var l := lines[|lines| - 1];
      Due(lines[..|lines| - 1], rows, segs, mask, c) +
      (if Currency(l.key) == c then PerMillisecond(rows, segs, mask, l.key).exact else 0.0)
  }

  ghost predicate TableIs(table: Ledger, rows: seq<Rate>, segs: seq<UsageSegment>, mask: Mask) {
    forall k :: Booked(table, k) == PerMillisecond(rows, segs, mask, k)
  }

  lemma RoundedBillsAll(lines: seq<BillLine>, kind: LineKind, table: Ledger, rows: seq<Rate>, segs: seq<UsageSegment>, mask: Mask)
    requires TableIs(table, rows, segs, mask)
    requires AllRounded(lines, table) && Distinct(lines)
    requires forall k :: k in KeysOf(lines) <==> k in table && Selected(k, kind)
    ensures BillsAll(lines, kind, rows, segs, mask)
  {
  }

  lemma {:induction false} DueIsExactSum(lines: seq<BillLine>, table: Ledger, rows: seq<Rate>, segs: seq<UsageSegment>, mask: Mask, c: string)
    requires TableIs(table, rows, segs, mask)
    ensures Due(lines, rows, segs, mask, c) == ExactSum(lines, table, c)
  {
    hide PerMillisecond, Booked;
    if lines != [] {
      DueIsExactSum(lines[..|lines| - 1], table, rows, segs, mask, c);
      assert Booked(table, lines[|lines| - 1].key) == PerMillisecond(rows, segs, mask, lines[|lines| - 1].key);
    }
  }

  predicate Fair(rounded: int, exact: real, lines: nat) {
    -(lines as real) * 0.5 <= rounded as real - exact <= lines as real * 0.5
  }

  lemma {:induction false} FairTotal(lines: seq<BillLine>, table: Ledger, rows: seq<Rate>, segs: seq<UsageSegment>, mask: Mask, c: string)
    requires AllRounded(lines, table) && TableIs(table, rows, segs, mask)
    ensures Fair(MinorSum(lines, c), Due(lines, rows, segs, mask, c), CountOf(lines, c))
  {
    DueIsExactSum(lines, table, rows, segs, mask, c);
    TotalsWithinHalf(lines, table, c);
  }

  /** A total is the frozen amounts plus the exact amount due, up to half a minor unit per line. */
  ghost predicate TotalsFair(bill: Bill, rows: seq<Rate>, segs: seq<UsageSegment>, mask: Mask, sealed: seq<SealedPeriod>) {
    forall c :: Fair(At(bill.totals, c) - FrozenSum(sealed, c), Due(bill.lines, rows, segs, mask, c), CountOf(bill.lines, c))
  }

  // ------------------------------------------------------------------ gaps and conservation

  method ListGaps(table: Ledger) returns (gaps: seq<Gap>)
    ensures GapsDistinct(gaps)
    ensures forall i :: 0 <= i < |gaps| ==> gaps[i].key in table && gaps[i].units == table[gaps[i].key].units
    ensures forall k :: k in GapKeys(gaps) <==> k in table && k.Unpriced?
  {
    gaps := [];
    var todo := table.Keys;
    while todo != {}
      invariant todo <= table.Keys && GapsDistinct(gaps)
      invariant forall i :: 0 <= i < |gaps| ==> gaps[i].key in table && gaps[i].units == table[gaps[i].key].units
      invariant forall k :: k in GapKeys(gaps) <==> k in table && k !in todo && k.Unpriced?
    {
      var k :| k in todo;
      todo := todo - {k};
      if k.Unpriced? {
        OneMoreGap(gaps, Gap(k, table[k].units));
        gaps := gaps + [Gap(k, table[k].units)];
      }
    }
  }

  lemma OneMoreGap(gaps: seq<Gap>, g: Gap)
    requires GapsDistinct(gaps) && g.key !in GapKeys(gaps)
    ensures GapsDistinct(gaps + [g]) && GapKeys(gaps + [g]) == GapKeys(gaps) + {g.key}
  {
    var more := gaps + [g];
    assert forall i :: 0 <= i < |gaps| ==> more[i] == gaps[i] && gaps[i].key in GapKeys(gaps);
    forall k ensures k in GapKeys(more) <==> k in GapKeys(gaps) + {g.key} {
      assert more[|gaps|].key == g.key;
      if k in GapKeys(gaps) {
        var i :| 0 <= i < |gaps| && gaps[i].key == k;
        assert more[i].key == k;
      }
    }
  }

  lemma ListedGapsAll(gaps: seq<Gap>, table: Ledger, rows: seq<Rate>, segs: seq<UsageSegment>, mask: Mask)
    requires TableIs(table, rows, segs, mask) && GapsDistinct(gaps)
    requires forall i :: 0 <= i < |gaps| ==> gaps[i].key in table && gaps[i].units == table[gaps[i].key].units
    requires forall k :: k in GapKeys(gaps) <==> k in table && k.Unpriced?
    ensures GapsAll(gaps, rows, segs, mask)
  {
    hide PerMillisecond;
    forall i | 0 <= i < |gaps|
      ensures gaps[i].key.Unpriced? && gaps[i].units == PerMillisecond(rows, segs, mask, gaps[i].key).units
    {
      assert gaps[i].key in GapKeys(gaps);
      assert Booked(table, gaps[i].key) == PerMillisecond(rows, segs, mask, gaps[i].key);
    }
  }

  function LineUnits(lines: seq<BillLine>, m: string): int {
    if lines == [] then 0
    else LineUnits(lines[..|lines| - 1], m) + (if lines[|lines| - 1].key.meter == m then lines[|lines| - 1].units else 0)
  }

  function GapUnits(gaps: seq<Gap>, m: string): int {
    if gaps == [] then 0
    else GapUnits(gaps[..|gaps| - 1], m) + (if gaps[|gaps| - 1].key.meter == m then gaps[|gaps| - 1].units else 0)
  }

  /** Taking the listed rows out of a table takes their units out. */
  lemma {:induction false} UnitsOfLines(table: Ledger, lines: seq<BillLine>, m: string)
    requires Distinct(lines) && forall i :: 0 <= i < |lines| ==> lines[i].key in table && lines[i].units == table[lines[i].key].units
    ensures UnitsOf(table, m) == LineUnits(lines, m) + UnitsOf(table - KeysOf(lines), m)
  {
    hide UnitsOf;
    if lines == [] {
      assert table - KeysOf(lines) == table;
    } else {
      var front, l := lines[..|lines| - 1], lines[|lines| - 1];
      UnitsOfLines(table, front, m);
      LastKey(lines);
      UnitsWithout(table - KeysOf(front), m, l.key);
      assert table - KeysOf(front) - {l.key} == table - KeysOf(lines);
    }
  }

  lemma LastKey(lines: seq<BillLine>)
    requires lines != [] && Distinct(lines)
    ensures KeysOf(lines) == KeysOf(lines[..|lines| - 1]) + {lines[|lines| - 1].key}
    ensures lines[|lines| - 1].key !in KeysOf(lines[..|lines| - 1])
  {
    var front, n := lines[..|lines| - 1], |lines| - 1;
    forall k ensures k in KeysOf(lines) <==> k in KeysOf(front) + {lines[n].key} {
      if k in KeysOf(front) {
        var i :| 0 <= i < n && front[i].key == k;
        assert lines[i].key == k;
      }
      if k in KeysOf(lines) {
        var i :| 0 <= i < |lines| && lines[i].key == k;
        assert i < n ==> front[i].key == k;
      }
    }
  }

  lemma {:induction false} UnitsOfGaps(table: Ledger, gaps: seq<Gap>, m: string)
    requires GapsDistinct(gaps) && forall i :: 0 <= i < |gaps| ==> gaps[i].key in table && gaps[i].units == table[gaps[i].key].units
    ensures UnitsOf(table, m) == GapUnits(gaps, m) + UnitsOf(table - GapKeys(gaps), m)
  {
    hide UnitsOf;
    if gaps == [] {
      assert table - GapKeys(gaps) == table;
    } else {
      var front, g := gaps[..|gaps| - 1], gaps[|gaps| - 1];
      UnitsOfGaps(table, front, m);
      OneMoreGapKeys(gaps);
      UnitsWithout(table - GapKeys(front), m, g.key);
      assert table - GapKeys(front) - {g.key} == table - GapKeys(gaps);
    }
  }

  lemma OneMoreGapKeys(gaps: seq<Gap>)
    requires gaps != [] && GapsDistinct(gaps)
    ensures GapKeys(gaps) == GapKeys(gaps[..|gaps| - 1]) + {gaps[|gaps| - 1].key}
    ensures gaps[|gaps| - 1].key !in GapKeys(gaps[..|gaps| - 1])
  {
    var front, n := gaps[..|gaps| - 1], |gaps| - 1;
    assert gaps == front + [gaps[n]];
    forall i | 0 <= i < n ensures front[i].key != gaps[n].key { assert front[i] == gaps[i]; }
    OneMoreGap(front, gaps[n]);
  }

  /** Every row of the tables is in the bill exactly once, so no unit is lost or counted twice. */
  lemma BillUnits(table: Ledger, lines: seq<BillLine>, estimates: seq<BillLine>, gaps: seq<Gap>, m: string)
    requires AllRounded(lines, table) && Distinct(lines) && AllRounded(estimates, table) && Distinct(estimates)
    requires forall k :: k in KeysOf(lines) <==> k in table && Selected(k, ConfirmedLines)
    requires forall k :: k in KeysOf(estimates) <==> k in table && Selected(k, EstimateLines)
    requires GapsDistinct(gaps) && forall i :: 0 <= i < |gaps| ==> gaps[i].key in table && gaps[i].units == table[gaps[i].key].units
    requires forall k :: k in GapKeys(gaps) <==> k in table && k.Unpriced?
    ensures LineUnits(lines, m) + LineUnits(estimates, m) + GapUnits(gaps, m) == UnitsOf(table, m)
  {
    hide UnitsOf, LineUnits, GapUnits, Distinct, GapsDistinct, AllRounded, Selected;
    var t1 := table - KeysOf(lines);
    var t2 := t1 - KeysOf(estimates);
    RoundedRows(lines, table);
    RoundedRows(estimates, table);
    UnitsOfLines(table, lines, m);
    forall i | 0 <= i < |estimates| ensures estimates[i].key in t1 && estimates[i].units == t1[estimates[i].key].units {
      TableParts(table, lines, estimates, estimates[i].key);
    }
    UnitsOfLines(t1, estimates, m);
    forall i | 0 <= i < |gaps| ensures gaps[i].key in t2 && gaps[i].units == t2[gaps[i].key].units {
      assert gaps[i].key in GapKeys(gaps);
      TableParts(table, lines, estimates, gaps[i].key);
    }
    UnitsOfGaps(t2, gaps, m);
    forall k ensures k !in t2 - GapKeys(gaps) { TableParts(table, lines, estimates, k); }
    assert t2 - GapKeys(gaps) == map[];
    EmptyTable();
  }

  lemma RoundedRows(lines: seq<BillLine>, table: Ledger)
    requires AllRounded(lines, table)
    ensures forall i :: 0 <= i < |lines| ==>
              lines[i].key in KeysOf(lines) && lines[i].key in table && lines[i].units == table[lines[i].key].units
  {
    hide RoundHalfUp;
    forall i | 0 <= i < |lines|
      ensures lines[i].key in KeysOf(lines) && lines[i].key in table && lines[i].units == table[lines[i].key].units
    {
      assert RoundedFrom(lines[i], table);
    }
  }

  /** A row is confirmed, estimated or unpriced, and only one of them. */
  lemma TableParts(table: Ledger, lines: seq<BillLine>, estimates: seq<BillLine>, k: Key)
    requires forall x :: x in KeysOf(lines) <==> x in table && Selected(x, ConfirmedLines)
    requires forall x :: x in KeysOf(estimates) <==> x in table && Selected(x, EstimateLines)
    ensures k in KeysOf(estimates) ==> k !in KeysOf(lines)
    ensures k in table && k.Unpriced? ==> k !in KeysOf(lines) && k !in KeysOf(estimates)
    ensures k in table && k !in KeysOf(lines) && k !in KeysOf(estimates) ==> k.Unpriced?
  {
  }

  // ------------------------------------------------------------------ the remaining parts

  function FrozenLines(sealed: seq<SealedPeriod>): seq<FrozenLine> {
    if sealed == [] then [] else FrozenLines(sealed[..|sealed| - 1]) + sealed[|sealed| - 1].lines
  }

  method ListFrozen(sealed: seq<SealedPeriod>) returns (frozen: seq<FrozenLine>)
    ensures frozen == FrozenLines(sealed)
  {
    frozen := [];
    for n := 0 to |sealed|
      invariant frozen == FrozenLines(sealed[..n])
    {
      assert sealed[..n + 1][..n] == sealed[..n];
      frozen := frozen + sealed[n].lines;
    }
    assert sealed[..|sealed|] == sealed;
  }

  function AdjustmentSum(adjustments: seq<Adjustment>, c: string): int {
    if adjustments == [] then 0
    else
      var a := adjustments[|adjustments| - 1];
      AdjustmentSum(adjustments[..|adjustments| - 1], c) + (if a.currency == c then a.minor else 0)
  }

  /** Frozen amounts, adjustments and rounded lines are plain sums: each item counts once, for its own currency only. */
  lemma {:induction false} FrozenAddsUp(a: seq<FrozenLine>, b: seq<FrozenLine>, l: FrozenLine, c: string)
    ensures FrozenOf([], c) == 0 && FrozenOf([l], c) == if l.currency == c then l.minor else 0
    ensures FrozenOf(a + b, c) == FrozenOf(a, c) + FrozenOf(b, c)
    decreases |b|
  {
    assert [l][..0] == [];
    if b == [] {
      assert a + b == a;
    } else {
      assert (a + b)[..|a + b| - 1] == a + b[..|b| - 1];
      FrozenAddsUp(a, b[..|b| - 1], l, c);
    }
  }

  /** What the sealed periods carry into a total is what all their frozen lines come to. */
  lemma {:induction false} FrozenIsAll(sealed: seq<SealedPeriod>, c: string)
    ensures FrozenSum(sealed, c) == FrozenOf(FrozenLines(sealed), c)
    ensures forall p :: p in sealed ==> forall l :: l in p.lines ==> l in FrozenLines(sealed)
  {
    if sealed != [] {
      var n := |sealed| - 1;
      FrozenIsAll(sealed[..n], c);
      FrozenAddsUp(FrozenLines(sealed[..n]), sealed[n].lines, FrozenLine("", 0), c);
      assert sealed == sealed[..n] + [sealed[n]];
    }
  }

  lemma {:induction false} AdjustmentsAddUp(a: seq<Adjustment>, b: seq<Adjustment>, x: Adjustment, c: string)
    ensures AdjustmentSum([], c) == 0 && AdjustmentSum([x], c) == if x.currency == c then x.minor else 0
    ensures AdjustmentSum(a + b, c) == AdjustmentSum(a, c) + AdjustmentSum(b, c)
    decreases |b|
  {
    assert [x][..0] == [];
    if b == [] {
      assert a + b == a;
    } else {
      assert (a + b)[..|a + b| - 1] == a + b[..|b| - 1];
      AdjustmentsAddUp(a, b[..|b| - 1], x, c);
    }
  }

  lemma {:induction false} LinesAddUp(a: seq<BillLine>, b: seq<BillLine>, l: BillLine, c: string)
    requires !l.key.Unpriced?
    ensures MinorSum([], c) == 0 && MinorSum([l], c) == if l.key.currency == c then l.minor else 0
    ensures MinorSum(a + b, c) == MinorSum(a, c) + MinorSum(b, c)
    decreases |b|
  {
    assert [l][..0] == [];
    if b == [] {
      assert a + b == a;
    } else {
      assert (a + b)[..|a + b| - 1] == a + b[..|b| - 1];
      LinesAddUp(a, b[..|b| - 1], l, c);
    }
  }

  method TotalAdjustments(adjustments: seq<Adjustment>) returns (totals: map<string, int>)
    ensures forall c :: At(totals, c) == AdjustmentSum(adjustments, c)
  {
    totals := map[];
    for n := 0 to |adjustments|
      invariant forall c :: At(totals, c) == AdjustmentSum(adjustments[..n], c)
    {
      assert adjustments[..n + 1][..n] == adjustments[..n];
      var a := adjustments[n];
      totals := totals[a.currency := At(totals, a.currency) + a.minor];
    }
    assert adjustments[..|adjustments|] == adjustments;
  }

  function PricedMeters(seg: UsageSegment): set<string> { set m | m in seg.quantity && seg.quantity[m] > 0 }

  /** Uncertain milliseconds over the billable instants, each meter counted by itself. */
  function UncertainOver(segs: seq<UsageSegment>, mask: Mask): int {
    if segs == [] then 0
    else
      var seg := segs[|segs| - 1];
      UncertainOver(segs[..|segs| - 1], mask) +
      (if seg.uncertain then |PricedMeters(seg)| * CountOn(mask, seg.start, seg.end) else 0)
  }

  method UncertainMillis(segs: seq<UsageSegment>, period: Option<Window>, sealed: seq<SealedPeriod>) returns (ms: int)
    ensures Forward(sealed) && (forall i :: 0 <= i < |segs| ==> segs[i].start <= segs[i].end) ==>
              ms == UncertainOver(segs, Billable(period, sealed))
  {
    hide SpansOf, CountOn, PricedMeters, Forward;
    ms := 0;
    for n := 0 to |segs|
      invariant Forward(sealed) && (forall i :: 0 <= i < n ==> segs[i].start <= segs[i].end) ==>
                  ms == UncertainOver(segs[..n], Billable(period, sealed))
    {
      assert segs[..n + 1][..n] == segs[..n];
      var seg := segs[n];
      if seg.uncertain {
        var spans := ClippedSpans(seg, period, sealed);
        var length := 0;
        for i := 0 to |spans|
          invariant length == Lengths(spans[..i])
        {
          assert spans[..i + 1][..i] == spans[..i];
          length := length + (spans[i].end - spans[i].start);
        }
        assert spans[..|spans|] == spans;
        if Forward(sealed) && seg.start <= seg.end { LengthsBillable(seg, period, sealed); }
        ms := ms + |PricedMeters(seg)| * length;
      }
    }
    assert segs[..|segs|] == segs;
  }

  lemma LengthsBillable(seg: UsageSegment, period: Option<Window>, sealed: seq<SealedPeriod>)
    requires seg.start <= seg.end && Forward(sealed)
    ensures Lengths(SpansOf(seg, period, sealed)) == CountOn(Billable(period, sealed), seg.start, seg.end)
  {
    hide SpansOf;
    SpansAreBillable(seg, period, sealed);
    hide Forward, Ordered, Within;
    LengthsCount(SpansOf(seg, period, sealed), seg.start, seg.end);
    CountSame(Inside(SpansOf(seg, period, sealed)), Billable(period, sealed), seg.start, seg.end);
  }

  // ------------------------------------------------------------------ price

  /** What a bill has to say, with sealed windows that run forward. */
  ghost predicate Complete(bill: Bill, rows: seq<Rate>, segs: seq<UsageSegment>, mask: Mask, sealed: seq<SealedPeriod>) {
    && BillsAll(bill.lines, ConfirmedLines, rows, segs, mask)
    && BillsAll(bill.estimates, EstimateLines, rows, segs, mask)
    && GapsAll(bill.gaps, rows, segs, mask)
    && TotalsFair(bill, rows, segs, mask, sealed)
    && (forall m :: LineUnits(bill.lines, m) + LineUnits(bill.estimates, m) + GapUnits(bill.gaps, m) == PerMillisecondUnits(segs, mask, m))
    && bill.uncertainMs == UncertainOver(segs, mask)
  }

  /**
   price: it fails exactly for a backwards segment or an ambiguous rate.  Otherwise, with
   sealed windows that run forward, the confirmed lines, the estimates and the gaps are
   exactly the due rows of per-millisecond pricing over the billable instants, lines
   rounded once each and naming exactly the rates used; their units are all units there
   are; totals are fair; and frozen lines and adjustments pass through.
   */
  method Price(rows: seq<Rate>, segs: seq<UsageSegment>, period: Option<Window>, sealed: seq<SealedPeriod>, adjustments: seq<Adjustment>)
    returns (failed: Option<Failure>, bill: Bill)
    ensures failed.None? <==> forall i :: 0 <= i < |segs| ==>
              segs[i].start <= segs[i].end && !SpansAmbiguous(rows, segs[i], SpansOf(segs[i], period, sealed))
    ensures failed.None? && Forward(sealed) ==> Complete(bill, rows, segs, Billable(period, sealed), sealed)
    ensures failed.None? ==>
              && bill.frozen == FrozenLines(sealed) && bill.adjustments == adjustments
              && (forall c :: At(bill.estimateTotals, c) == MinorSum(bill.estimates, c))
              && (forall c :: At(bill.adjustmentTotals, c) == AdjustmentSum(adjustments, c))
  {
    hide *;
    var table;
    failed, table := PriceSegments(rows, segs, period, sealed);
    bill := NO_BILL;
    if failed.None? {
      var lines, totals := RoundLines(table, ConfirmedLines);
      var estimates, estimateTotals := RoundLines(table, EstimateLines);
      ghost var rounded := totals;
      totals := AddFrozen(sealed, totals);
      var gaps := ListGaps(table);
      var frozen := ListFrozen(sealed);
      var adjustmentTotals := TotalAdjustments(adjustments);
      var uncertainMs := UncertainMillis(segs, period, sealed);
      bill := Bill(lines, frozen, adjustments, totals, adjustmentTotals, gaps, estimates, estimateTotals, uncertainMs);
      assert forall c :: At(estimateTotals, c) == MinorSum(estimates, c) by { TotalsAt(estimateTotals, estimates); }
      if Forward(sealed) {
        TableExact(rows, segs, period, sealed, table);
        TotalsAt(rounded, lines);
        assert forall c :: At(totals, c) == At(rounded, c) + FrozenSum(sealed, c) by { AtIs(totals); AtIs(rounded); }
        BillComplete(bill, table, rounded, rows, segs, Billable(period, sealed), sealed);
      }
    }
  }

  lemma AtIs(totals: map<string, int>)
    ensures forall c :: At(totals, c) == if c in totals then totals[c] else 0
  {
  }

  lemma TotalsAt(totals: map<string, int>, lines: seq<BillLine>)
    requires TotalsAre(totals, lines)
    ensures forall c :: At(totals, c) == MinorSum(lines, c)
  {
  }

  lemma TableExact(rows: seq<Rate>, segs: seq<UsageSegment>, period: Option<Window>, sealed: seq<SealedPeriod>, table: Ledger)
    requires Forward(sealed) && forall i :: 0 <= i < |segs| ==> segs[i].start <= segs[i].end
    requires forall k :: Booked(table, k) == AllSpansPart(rows, segs, period, sealed, k)
    requires forall m :: UnitsOf(table, m) == AllSpansUnits(segs, period, sealed, m)
    ensures TableIs(table, rows, segs, Billable(period, sealed))
    ensures forall m :: UnitsOf(table, m) == PerMillisecondUnits(segs, Billable(period, sealed), m)
  {
    hide AllSpansPart, AllSpansUnits, PerMillisecond, PerMillisecondUnits, Booked, UnitsOf;
    forall k ensures Booked(table, k) == PerMillisecond(rows, segs, Billable(period, sealed), k) {
      PriceIsPerMillisecond(rows, segs, period, sealed, k);
    }
    forall m ensures UnitsOf(table, m) == PerMillisecondUnits(segs, Billable(period, sealed), m) {
      PriceIsPerMillisecond(rows, segs, period, sealed, Unpriced(0, "", m));
    }
  }

  lemma BillComplete(bill: Bill, table: Ledger, rounded: map<string, int>, rows: seq<Rate>, segs: seq<UsageSegment>, mask: Mask, sealed: seq<SealedPeriod>)
    requires TableIs(table, rows, segs, mask) && forall m :: UnitsOf(table, m) == PerMillisecondUnits(segs, mask, m)
    requires AllRounded(bill.lines, table) && Distinct(bill.lines) && AllRounded(bill.estimates, table) && Distinct(bill.estimates)
    requires forall k :: k in KeysOf(bill.lines) <==> k in table && Selected(k, ConfirmedLines)
    requires forall k :: k in KeysOf(bill.estimates) <==> k in table && Selected(k, EstimateLines)
    requires GapsDistinct(bill.gaps)
    requires forall i :: 0 <= i < |bill.gaps| ==> bill.gaps[i].key in table && bill.gaps[i].units == table[bill.gaps[i].key].units
    requires forall k :: k in GapKeys(bill.gaps) <==> k in table && k.Unpriced?
    requires forall c :: At(rounded, c) == MinorSum(bill.lines, c)
    requires forall c :: At(bill.totals, c) == At(rounded, c) + FrozenSum(sealed, c)
    requires bill.uncertainMs == UncertainOver(segs, mask)
    ensures Complete(bill, rows, segs, mask, sealed)
  {
    hide PerMillisecond, PerMillisecondUnits, Booked, UnitsOf, MinorSum, FrozenSum, Due, CountOf, Fair, RoundHalfUp, Selected,
      AllRounded, Distinct, KeysOf, GapKeys, GapsDistinct, LineUnits, GapUnits, At, BillsAll, GapsAll, TableIs;
    RoundedBillsAll(bill.lines, ConfirmedLines, table, rows, segs, mask);
    RoundedBillsAll(bill.estimates, EstimateLines, table, rows, segs, mask);
    ListedGapsAll(bill.gaps, table, rows, segs, mask);
    forall m ensures LineUnits(bill.lines, m) + LineUnits(bill.estimates, m) + GapUnits(bill.gaps, m) == PerMillisecondUnits(segs, mask, m) {
      BillUnits(table, bill.lines, bill.estimates, bill.gaps, m);
    }
    forall c ensures Fair(At(bill.totals, c) - FrozenSum(sealed, c), Due(bill.lines, rows, segs, mask, c), CountOf(bill.lines, c)) {
      FairTotal(bill.lines, table, rows, segs, mask, c);
    }
  }
}
