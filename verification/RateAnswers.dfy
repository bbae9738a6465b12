/**
 What the rate card answers, in terms of its rows alone: which row a lookup finds, when a
 row is taken, what is priced afterwards, and at which version an instant is billed.
 */
module RateAnswers {
  import opened Basics
  import opened Calendar
  import opened RateCards
  import opened Pricing
  import opened PriceRun
  import opened PriceLines
  import opened PriceBill
  import RateCardStore

  predicate InForce(x: Rate, t: int) { x.start <= t && (x.to.Some? ==> t < x.to.value) }

  /** A row of the meter for exactly this state in force at t. */
  predicate Exact(x: Rate, meter: string, t: int, state: Option<string>) {
    x.meter == meter && x.state == state && InForce(x, t)
  }

  /** A row of the meter for every state in force at t. */
  predicate Wild(x: Rate, meter: string, t: int) { x.meter == meter && x.state.None? && InForce(x, t) }

  ghost predicate SomeExact(rows: seq<Rate>, meter: string, t: int, state: Option<string>) {
    exists x :: x in rows && Exact(x, meter, t, state)
  }

  lemma {:induction false} EffectIs(rows: seq<Rate>, meter: string, state: Option<string>, t: int, x: Rate)
    ensures x in InEffect(rows, meter, state, t) <==> x in rows && Exact(x, meter, t, state)
  {
    if rows != [] {
      var front, last := rows[..|rows| - 1], rows[|rows| - 1];
      EffectIs(front, meter, state, t, x);
      assert rows == front + [last];
    }
  }

  /** On a card each row in effect is listed once. */
  lemma OneInEffect(rows: seq<Rate>, meter: string, state: Option<string>, t: int)
    requires Card(rows)
    ensures |InEffect(rows, meter, state, t)| > 1 <==>
              exists x, y :: x in rows && y in rows && x != y && Exact(x, meter, t, state) && Exact(y, meter, t, state)
  {
    var s := InEffect(rows, meter, state, t);
    forall x ensures x in s <==> x in rows && Exact(x, meter, t, state) { EffectIs(rows, meter, state, t, x); }
    hide InEffect, Exact, Card;
    if |s| > 1 {
      InEffectDistinct(rows, meter, state, t, 0, 1);
      assert s[0] in s && s[1] in s;
    }
    if x, y :| x in rows && y in rows && x != y && Exact(x, meter, t, state) && Exact(y, meter, t, state) {
      assert x in s && y in s;
      assert |s| != 1 || x == y;
    }
  }

  /**
   What a lookup finds, whatever the rows: a row of the meter in force, of exactly the
   state if there is one and for every state only if there is none; and it finds nothing
   exactly if no row of either sort is in force.
   */
  lemma LookupFinds(rows: seq<Rate>, meter: string, t: int, state: Option<string>)
    ensures var found := RateFor(rows, meter, t, state);
            && (found.Found? ==>
                  found.rate in rows &&
                  (Exact(found.rate, meter, t, state) || (Wild(found.rate, meter, t) && !SomeExact(rows, meter, t, state))))
            && (found.NoRate? <==> forall x :: x in rows ==> !Exact(x, meter, t, state) && !Wild(x, meter, t))
  {
    var specific, wild := InEffect(rows, meter, state, t), InEffect(rows, meter, None, t);
    forall x ensures x in specific <==> x in rows && Exact(x, meter, t, state) { EffectIs(rows, meter, state, t, x); }
    forall x ensures x in wild <==> x in rows && Wild(x, meter, t) { EffectIs(rows, meter, None, t, x); }
    hide InEffect, Exact, Wild;
    if |specific| == 1 { assert specific[0] in specific; }
    if |wild| == 1 { assert wild[0] in wild; }
    if specific != [] { assert specific[0] in specific; }
    if wild != [] { assert wild[0] in wild; }
  }

  /** On a card a lookup is ambiguous exactly if two rows of the sort that counts are in force. */
  lemma AmbiguousExactly(rows: seq<Rate>, meter: string, t: int, state: Option<string>)
    requires Card(rows)
    ensures var sort := if SomeExact(rows, meter, t, state) then state else None;
            RateFor(rows, meter, t, state).Ambiguous? <==>
              exists x, y :: x in rows && y in rows && x != y && Exact(x, meter, t, sort) && Exact(y, meter, t, sort)
  {
    OneInEffect(rows, meter, state, t);
    OneInEffect(rows, meter, None, t);
    var specific := InEffect(rows, meter, state, t);
    forall x ensures x in specific <==> x in rows && Exact(x, meter, t, state) { EffectIs(rows, meter, state, t, x); }
    if specific != [] { assert specific[0] in specific; }
    hide InEffect, Exact, Card;
  }

  // ------------------------------------------- billing at the row that is found

  /** Instant t lies in the period and outside all sealed windows. */
  ghost predicate Open(period: Option<Window>, sealed: seq<SealedPeriod>, t: nat) {
    && (period.Some? ==> period.value.start <= t < period.value.end)
    && forall i :: 0 <= i < |sealed| ==> t < sealed[i].start || sealed[i].end <= t
  }

  lemma OpenIsOn(period: Option<Window>, sealed: seq<SealedPeriod>, t: nat)
    ensures On(Billable(period, sealed), t) <==> Open(period, sealed, t)
  {
  }

  /** Row k takes what row x prices at t: a line of that month, or an estimate. */
  predicate TakenBy(k: Key, x: Rate, p: Piece, t: nat) {
    if p.uncertain then k == Estimate(p.workspace, x.currency, p.meter)
    else k.Line? && MonthStart(k.month) <= t < MonthStart(k.month + 1)
         && k.workspace == p.workspace && k.currency == x.currency && k.meter == p.meter
  }

  /** Row k takes what nobody prices at t. */
  predicate LeftTo(k: Key, p: Piece, t: nat) {
    k.Unpriced? && MonthStart(k.month) <= t < MonthStart(k.month + 1) && k.workspace == p.workspace && k.meter == p.meter
  }

  /** Row x is the one that counts for the meter and the state at t. */
  ghost predicate Counts(rows: seq<Rate>, x: Rate, meter: string, t: int, state: Option<string>) {
    x in rows && (Exact(x, meter, t, state) || (Wild(x, meter, t) && !SomeExact(rows, meter, t, state)))
  }

  /**
   What one millisecond of a piece is billed at: at the row of its own state if one is in
   force, else at the row for every state, into the one row of its month, workspace,
   currency and meter.
   */
  lemma BilledAt(rows: seq<Rate>, p: Piece, k: Key, period: Option<Window>, sealed: seq<SealedPeriod>, t: nat, x: Rate)
    requires Card(rows) && !RateFor(rows, p.meter, t, p.state).Ambiguous?
    requires Open(period, sealed, t) && Counts(rows, x, p.meter, t, p.state)
    ensures PartAt(rows, p, k, Billable(period, sealed), t) == Charge(k, x, p, t)
  {
    OpenIsOn(period, sealed, t);
    OnlyOne(rows, p.meter, t, p.state, x);
    MonthIs(k, t);
    ValidRows(rows, x);
    hide Open, Card, RateFor, On, Exact, Wild, MonthOf;
  }

  /** Nothing is billed of an instant outside the period or inside a sealed window; nobody prices what no row of either sort covers. */
  lemma UnbilledAt(rows: seq<Rate>, p: Piece, k: Key, period: Option<Window>, sealed: seq<SealedPeriod>, t: nat)
    ensures !Open(period, sealed, t) ==> PartAt(rows, p, k, Billable(period, sealed), t) == ZERO
    ensures Open(period, sealed, t) && (forall y :: y in rows ==> !Exact(y, p.meter, t, p.state) && !Wild(y, p.meter, t)) ==>
              PartAt(rows, p, k, Billable(period, sealed), t) == if LeftTo(k, p, t) then Tally(p.quantity, 0.0, {}) else ZERO
  {
    OpenIsOn(period, sealed, t);
    LookupFinds(rows, p.meter, t, p.state);
    MonthIs(k, t);
    hide Open, RateFor, On, Exact, Wild, MonthOf;
  }

  /** One millisecond of usage at row x. */
  function Charge(k: Key, x: Rate, p: Piece, t: nat): Tally {
    if TakenBy(k, x, p, t) && x.denominator >= 1
    then Tally(p.quantity, (p.quantity * x.numerator) as real / x.denominator as real, {(x.rateId, x.version)})
    else ZERO
  }

  lemma ValidRows(rows: seq<Rate>, x: Rate)
    requires Card(rows) && x in rows
    ensures Valid(x)
  {
  }

  lemma MonthIs(k: Key, t: nat)
    ensures !k.Estimate? ==> (MonthOf(t) == k.month <==> MonthStart(k.month) <= t < MonthStart(k.month + 1))
  {
    if !k.Estimate? && MonthStart(k.month) <= t < MonthStart(k.month + 1) { MonthUnique(t, k.month); }
  }

  /** Unless the lookup is ambiguous, it finds any row of the sort that counts. */
  lemma OnlyOne(rows: seq<Rate>, meter: string, t: int, state: Option<string>, x: Rate)
    requires Card(rows) && !RateFor(rows, meter, t, state).Ambiguous? && x in rows
    ensures Exact(x, meter, t, state) ==> RateFor(rows, meter, t, state) == Found(x)
    ensures Wild(x, meter, t) && !SomeExact(rows, meter, t, state) ==> RateFor(rows, meter, t, state) == Found(x)
  {
    AmbiguousExactly(rows, meter, t, state);
    LookupFinds(rows, meter, t, state);
  }

  /** The meter of a segment with everything that decides its price. */
  function Metered(seg: UsageSegment, m: string): Piece
    requires m in seg.quantity
  {
    Piece(m, seg.quantity[m], seg.workspace, seg.uncertain, seg.state)
  }

  /**
   What is due grows segment by segment and millisecond by millisecond: a segment adds
   nothing while it is empty, and each further millisecond adds what that instant is
   billed at, for every meter with a quantity.
   */
  lemma DueGrows(rows: seq<Rate>, segs: seq<UsageSegment>, seg: UsageSegment, mask: Mask, k: Key)
    ensures PerMillisecond(rows, [], mask, k) == ZERO
    ensures seg.end <= seg.start ==> PerMillisecond(rows, segs + [seg], mask, k) == PerMillisecond(rows, segs, mask, k)
    ensures seg.start <= seg.end ==>
              PerMillisecond(rows, segs + [seg.(end := seg.end + 1)], mask, k) ==
                if k.meter in seg.quantity && seg.quantity[k.meter] > 0
                then Plus(PerMillisecond(rows, segs + [seg], mask, k), PartAt(rows, Metered(seg, k.meter), k, mask, seg.end))
                else PerMillisecond(rows, segs, mask, k)
  {
    hide PartAt, Plus, Sum, SegmentPart, PerMillisecond;
    var longer := seg.(end := seg.end + 1);
    var due := PerMillisecond(rows, segs, mask, k);
    PlusLaws(due, ZERO, ZERO);
    DueSnoc(rows, segs, seg, mask, k);
    DueSnoc(rows, segs, longer, mask, k);
    SegmentGrows(rows, seg, mask, k);
    if k.meter in seg.quantity && seg.quantity[k.meter] > 0 {
      PlusLaws(due, SegmentPart(rows, seg, mask, k), PartAt(rows, Metered(seg, k.meter), k, mask, seg.end));
    }
  }

  /**
   Units and uncertain time grow the same way: each further billable millisecond adds the
   quantity of the meter, and to the uncertain time of an uncertain segment one for every
   meter with a quantity.
   */
  lemma UseGrows(segs: seq<UsageSegment>, seg: UsageSegment, period: Option<Window>, sealed: seq<SealedPeriod>, m: string)
    requires seg.start <= seg.end
    ensures var mask, longer := Billable(period, sealed), seg.(end := seg.end + 1);
            && PerMillisecondUnits([], mask, m) == 0 && UncertainOver([], mask) == 0
            && PerMillisecondUnits(segs + [longer], mask, m) ==
                 PerMillisecondUnits(segs + [seg], mask, m) +
                 (if Open(period, sealed, seg.end) && m in seg.quantity then seg.quantity[m] else 0)
            && UncertainOver(segs + [longer], mask) ==
                 UncertainOver(segs + [seg], mask) +
                 (if Open(period, sealed, seg.end) && seg.uncertain then |set x | x in seg.quantity && seg.quantity[x] != 0| else 0)
    ensures var mask := Billable(period, sealed);
            seg.start == seg.end ==>
              PerMillisecondUnits(segs + [seg], mask, m) == PerMillisecondUnits(segs, mask, m) &&
              UncertainOver(segs + [seg], mask) == UncertainOver(segs, mask)
  {
    OpenIsOn(period, sealed, seg.end);
    hide Open, On;
    var mask, longer := Billable(period, sealed), seg.(end := seg.end + 1);
    assert (segs + [seg])[..|segs|] == segs && (segs + [longer])[..|segs|] == segs;
    assert CountOn(mask, seg.start, seg.end + 1) == CountOn(mask, seg.start, seg.end) + if On(mask, seg.end) then 1 else 0;
    assert CountOn(mask, seg.start, seg.start) == 0;
    assert PricedMeters(seg) == PricedMeters(longer) == set x | x in seg.quantity && seg.quantity[x] != 0;
    Spread(|PricedMeters(seg)|, CountOn(mask, seg.start, seg.end));
    if m in seg.quantity { Spread(seg.quantity[m], CountOn(mask, seg.start, seg.end)); }
    hide CountOn, PricedMeters;
  }

  lemma Spread(a: int, b: int)
    ensures a * (b + 1) == a * b + a && a * 0 == 0
  {
  }

  lemma DueSnoc(rows: seq<Rate>, segs: seq<UsageSegment>, seg: UsageSegment, mask: Mask, k: Key)
    ensures PerMillisecond(rows, [], mask, k) == ZERO
    ensures PerMillisecond(rows, segs + [seg], mask, k) == Plus(PerMillisecond(rows, segs, mask, k), SegmentPart(rows, seg, mask, k))
  {
    assert (segs + [seg])[..|segs|] == segs;
    hide SegmentPart, Plus;
  }

  lemma SegmentGrows(rows: seq<Rate>, seg: UsageSegment, mask: Mask, k: Key)
    ensures seg.end <= seg.start || !(k.meter in seg.quantity && seg.quantity[k.meter] > 0) ==> SegmentPart(rows, seg, mask, k) == ZERO
    ensures !(k.meter in seg.quantity && seg.quantity[k.meter] > 0) ==> SegmentPart(rows, seg.(end := seg.end + 1), mask, k) == ZERO
    ensures seg.start <= seg.end && k.meter in seg.quantity && seg.quantity[k.meter] > 0 ==>
              SegmentPart(rows, seg.(end := seg.end + 1), mask, k) ==
              Plus(SegmentPart(rows, seg, mask, k), PartAt(rows, Metered(seg, k.meter), k, mask, seg.end))
  {
    hide PartAt, Plus;
  }

  // ------------------------------------------- the versions a line names

  /** Version v of row k's price was used: some billable millisecond of some segment counts its row. */
  ghost predicate UsedAt(rows: seq<Rate>, seg: UsageSegment, mask: Mask, k: Key, v: (string, int), t: nat, x: Rate) {
    && seg.start <= t < seg.end && On(mask, t)
    && k.meter in seg.quantity && seg.quantity[k.meter] > 0
    && Counts(rows, x, k.meter, t, seg.state) && (x.rateId, x.version) == v
    && TakenBy(k, x, PieceOf(seg, k.meter), t)
  }

  lemma {:induction false} SumNames(rows: seq<Rate>, p: Piece, k: Key, mask: Mask, a: nat, b: nat, v: (string, int)) returns (t: nat, x: Rate)
    requires v in Sum(rows, p, k, mask, a, b).rates
    ensures a <= t < b && On(mask, t) && Counts(rows, x, p.meter, t, p.state) && (x.rateId, x.version) == v && TakenBy(k, x, p, t)
    decreases b - a
  {
    hide PartAt, Counts, TakenBy, On;
    if v in Sum(rows, p, k, mask, a, b - 1).rates {
      t, x := SumNames(rows, p, k, mask, a, b - 1, v);
    } else {
      t := b - 1;
      x := PartNames(rows, p, k, mask, t, v);
    }
  }

  lemma PartNames(rows: seq<Rate>, p: Piece, k: Key, mask: Mask, t: nat, v: (string, int)) returns (x: Rate)
    requires v in PartAt(rows, p, k, mask, t).rates
    ensures On(mask, t) && Counts(rows, x, p.meter, t, p.state) && (x.rateId, x.version) == v && TakenBy(k, x, p, t)
  {
    hide RateFor, Exact, Wild, On;
    LookupFinds(rows, p.meter, t, p.state);
    x := RateFor(rows, p.meter, t, p.state).rate;
  }

  lemma {:induction false} BillNames(rows: seq<Rate>, segs: seq<UsageSegment>, mask: Mask, k: Key, v: (string, int))
    returns (i: nat, t: nat, x: Rate)
    requires v in PerMillisecond(rows, segs, mask, k).rates
    ensures i < |segs| && UsedAt(rows, segs[i], mask, k, v, t, x)
  {
    hide Sum, Counts, TakenBy, On;
    var n := |segs| - 1;
    if v in PerMillisecond(rows, segs[..n], mask, k).rates {
      i, t, x := BillNames(rows, segs[..n], mask, k, v);
    } else {
      i := n;
      assert v in SegmentPart(rows, segs[n], mask, k).rates;
      t, x := SumNames(rows, PieceOf(segs[n], k.meter), k, mask, segs[n].start, segs[n].end, v);
    }
  }

  /**
   Every version a line of a complete bill names was the one that counted at some billable
   millisecond of a segment with that meter: of its own state, or for every state while no
   row of its state was in force.
   */
  lemma LinesNameWhatCounted(bill: Bill, rows: seq<Rate>, segs: seq<UsageSegment>, mask: Mask, sealed: seq<SealedPeriod>, l: BillLine, v: (string, int))
    returns (i: nat, t: nat, x: Rate)
    requires Complete(bill, rows, segs, mask, sealed) && (l in bill.lines || l in bill.estimates) && v in l.rates
    ensures i < |segs| && UsedAt(rows, segs[i], mask, l.key, v, t, x)
  {
    assert BillsExactly(l, rows, segs, mask);
    hide Complete;
    i, t, x := BillNames(rows, segs, mask, l.key, v);
  }

  // ------------------------------------------- what is taken

  /** What a row must be to be taken at all. */
  predicate WellFormed(e: Rate) {
    && |e.rateId| > 0 && |e.currency| > 0 && |e.meter| > 0 && e.rounding == "round_half_up"
    && 1 <= e.version && 0 <= e.start && 0 <= e.numerator && 1 <= e.denominator
    && (e.to.Some? ==> e.start < e.to.value)
  }

  predicate SamePrice(x: Rate, e: Rate) { x.currency == e.currency && x.meter == e.meter && x.state == e.state }

  /** Some instant is in the range of both. */
  predicate Meets(x: Rate, e: Rate) { (x.to.Some? ==> e.start < x.to.value) && (e.to.Some? ==> x.start < e.to.value) }

  /** The stored row makes way for e, which takes over from it in the future and lasts at least as long. */
  predicate MakesWay(x: Rate, e: Rate, now: int) {
    x.start < e.start && now < e.start && (e.to.Some? ==> x.to.Some? && x.to.value <= e.to.value)
  }

  /** Every row of e's price that meets it, but for the one e replaces, makes way for it. */
  ghost predicate Fits(rows: seq<Rate>, e: Rate, now: int, replaced: Option<Rate>) {
    forall x :: x in rows && replaced != Some(x) && SamePrice(x, e) && Meets(x, e) ==> MakesWay(x, e, now)
  }

  lemma MeetsIsOverlap(x: Rate, e: Rate)
    ensures Meets(x, e) <==> Overlap(x, e)
    ensures SamePrice(x, e) <==> KeyOf(x) == KeyOf(e)
    ensures InForce(x, e.start) <==> Covers(x, e.start)
  {
  }

  lemma {:induction false} ClearExactly(rows: seq<Rate>, e: Rate, now: int, replace: Option<Rate>)
    ensures CheckAll(rows, e, now, replace).Clear? <==> Fits(rows, e, now, replace)
  {
    if rows != [] {
      var front, last := rows[..|rows| - 1], rows[|rows| - 1];
      ClearExactly(front, e, now, replace);
      MeetsIsOverlap(last, e);
      assert rows == front + [last];
    }
  }

  /** The rows that were cut short are exactly those of the price that meet the new one. */
  lemma ClosedExactly(rows: seq<Rate>, e: Rate, now: int, replace: Option<Rate>)
    requires CheckAll(rows, e, now, replace).Clear?
    ensures forall x :: x in CheckAll(rows, e, now, replace).closing <==> x in rows && replace != Some(x) && SamePrice(x, e) && Meets(x, e)
  {
    ClosingOverlaps(rows, e, now, replace);
    forall x { MeetsIsOverlap(x, e); }
  }

  /** A misfit is refused as such. */
  lemma {:induction false} RejectsMisfits(rows: seq<Rate>, e: Rate, now: int, replace: Option<Rate>)
    ensures CheckAll(rows, e, now, replace).Rejected? ==>
              CheckAll(rows, e, now, replace).why in {Overlapping, CutsEffectiveRow, PunchesHole}
  {
    if rows != [] { RejectsMisfits(rows[..|rows| - 1], e, now, replace); }
  }

  ghost predicate Known(rows: seq<Rate>, e: Rate, x: Rate) { x in rows && x.rateId == e.rateId && x.version == e.version }

  /**
   The answer to an upsert, from the stored rows alone: unchanged exactly for a row on
   record; a known row with other content is history once it is in effect; and any other
   well-formed row is taken exactly if every row of its price that it meets, but for the
   one it replaces, makes way for it.
   */
  lemma UpsertAnswers(rows: seq<Rate>, e: Rate, now: int)
    requires Card(rows)
    ensures var (next, reply) := Upsert(rows, e, now);
            && (reply == Refused(Invalid) <==> !WellFormed(e))
            && (WellFormed(e) ==>
                  && (reply == Unchanged <==> e in rows)
                  && (reply == Refused(ImmutableHistory) <==> exists x :: Known(rows, e, x) && x != e && x.start <= now)
                  && (reply.Inserted? <==>
                        (forall x :: Known(rows, e, x) ==> x != e && x.start > now) &&
                        forall prior :: Replaces(rows, e, prior) ==> Fits(rows, e, now, prior)))
            && (!reply.Inserted? ==> next == rows)
            && (reply.Inserted? ==> forall prior, x :: Replaces(rows, e, prior) ==>
                  (x in reply.closed <==> x in rows && prior != Some(x) && SamePrice(x, e) && Meets(x, e)))
  {
    FindFinds(rows, e);
    if CheckAll(rows, e, now, Find(rows, e)).Clear? { ClosedExactly(rows, e, now, Find(rows, e)); }
    assert "round_half_up" == ROUNDING_POLICY;
    assert WellFormed(e) <==> Valid(e);
    ClearExactly(rows, e, now, Find(rows, e));
    RejectsMisfits(rows, e, now, Find(rows, e));
    forall x | Known(rows, e, x) ensures Find(rows, e) == Some(x) { UniqueRow(rows, x, Find(rows, e).value); }
    if Find(rows, e).Some? { assert Known(rows, e, Find(rows, e).value); }
    assert Replaces(rows, e, Find(rows, e));
    forall prior | Replaces(rows, e, prior) ensures prior == Find(rows, e) {}
    hide Card, CheckAll, Valid, WellFormed, Fits, Find, Kept, Truncated;
  }

  /** The row of e's identity, if there is one. */
  ghost predicate Replaces(rows: seq<Rate>, e: Rate, prior: Option<Rate>) {
    if prior.Some? then Known(rows, e, prior.value) else forall x :: x in rows ==> !Known(rows, e, x)
  }

  /** The price of instant t for e's currency, meter and state. */
  ghost predicate Sells(rows: seq<Rate>, key: PriceKey, t: int, terms: Rate) {
    exists x :: x in rows && PriceKey(x.currency, x.meter, x.state) == key && InForce(x, t) && x.(to := None) == terms
  }

  /**
   A row that is taken prices every instant of its range, and nothing else changes but
   what the replaced row priced: any other price of any other instant is what it was.
   */
  lemma TakenRowPrices(rows: seq<Rate>, e: Rate, now: int, prior: Option<Rate>, key: PriceKey, t: int, terms: Rate)
    requires Card(rows) && Replaces(rows, e, prior) && Upsert(rows, e, now).1.Inserted?
    ensures var next := Upsert(rows, e, now).0; var mine := key == PriceKey(e.currency, e.meter, e.state) && InForce(e, t);
            && (mine ==> (Sells(next, key, t, terms) <==> terms == e.(to := None)))
            && (!mine && !(prior.Some? && key == PriceKey(prior.value.currency, prior.value.meter, prior.value.state) && InForce(prior.value, t)) ==>
                  (Sells(next, key, t, terms) <==> Sells(rows, key, t, terms)))
  {
    hide Insert, Card, CheckAll, Sells, Truncated, Kept;
    var next := Upsert(rows, e, now).0;
    PriorIsFound(rows, e, prior);
    assert next == Insert(rows, e, now, prior).0 && Valid(e);
    InsertedIsClear(rows, e, now, prior);
    UpsertCard(rows, e, now);
    hide Upsert, Find, Valid;
    var closing := CheckAll(rows, e, now, prior).closing;
    forall x { InsertMembers(rows, e, now, prior, x); }
    if closing != [] { CutRow(rows, e, now, prior); AtMostOneTruncated(rows, e, now, prior); }
    TakenSells(rows, next, e, prior, if closing == [] then None else Some(closing[0]), key, t, terms);
  }

  lemma PriorIsFound(rows: seq<Rate>, e: Rate, prior: Option<Rate>)
    requires Card(rows) && Replaces(rows, e, prior)
    ensures Find(rows, e) == prior
  {
    FindFinds(rows, e);
    if prior.Some? { UniqueRow(rows, prior.value, Find(rows, e).value); }
    if Find(rows, e).Some? { assert Known(rows, e, Find(rows, e).value); }
  }

  lemma InsertedIsClear(rows: seq<Rate>, e: Rate, now: int, prior: Option<Rate>)
    ensures Insert(rows, e, now, prior).1.Inserted? <==> CheckAll(rows, e, now, prior).Clear?
    ensures CheckAll(rows, e, now, prior).Clear? ==>
              forall x :: x in CheckAll(rows, e, now, prior).closing ==> x in rows && prior != Some(x)
  {
    if CheckAll(rows, e, now, prior).Clear? { ClosingOverlaps(rows, e, now, prior); }
    hide CheckAll, Kept, Truncated;
  }

  /** The same over the rows as sets: survivors, the shortened predecessor and the new row. */
  lemma TakenSells(rows: seq<Rate>, next: seq<Rate>, e: Rate, prior: Option<Rate>, cut: Option<Rate>, key: PriceKey, t: int, terms: Rate)
    requires Card(rows) && Card(next) && (prior.Some? ==> prior.value in rows)
    requires cut.Some? ==> cut.value in rows && prior != cut && KeyOf(cut.value) == KeyOf(e) && cut.value.start < e.start && Reaches(cut.value, e.start)
                           && (e.to.None? || (cut.value.to.Some? && cut.value.to.value <= e.to.value))
    requires forall x :: x in next <==>
               x == e || (x in rows && cut != Some(x) && prior != Some(x)) || (cut.Some? && x == cut.value.(to := Some(e.start)))
    ensures var mine := key == PriceKey(e.currency, e.meter, e.state) && InForce(e, t);
            && (mine ==> (Sells(next, key, t, terms) <==> terms == e.(to := None)))
            && (!mine && !(prior.Some? && key == PriceKey(prior.value.currency, prior.value.meter, prior.value.state) && InForce(prior.value, t)) ==>
                  (Sells(next, key, t, terms) <==> Sells(rows, key, t, terms)))
  {
    var mine := key == PriceKey(e.currency, e.meter, e.state) && InForce(e, t);
    if mine {
      assert e in next;
      forall x | x in next && PriceKey(x.currency, x.meter, x.state) == key && InForce(x, t) ensures x == e {
        assert Overlap(x, e);
      }
    } else {
      if Sells(next, key, t, terms) {
        var x :| x in next && PriceKey(x.currency, x.meter, x.state) == key && InForce(x, t) && x.(to := None) == terms;
        if x !in rows { assert cut.Some? && InForce(cut.value, t) && cut.value.(to := None) == terms; }
      }
      if Sells(rows, key, t, terms) && !(prior.Some? && key == PriceKey(prior.value.currency, prior.value.meter, prior.value.state) && InForce(prior.value, t)) {
        var x :| x in rows && PriceKey(x.currency, x.meter, x.state) == key && InForce(x, t) && x.(to := None) == terms;
        if cut == Some(x) {
          var y := x.(to := Some(e.start));
          assert y in next && InForce(y, t) && y.(to := None) == terms;
        } else {
          assert x in next;
        }
      }
    }
  }

  /** A provider's row is taken exactly as an upsert would take it, but only if it is new and lies in the future. */
  lemma SyncTakes(rows: seq<Rate>, e: Rate, now: int)
    requires Card(rows)
    ensures SyncRow(rows, e, now) ==
            if WellFormed(e) && now < e.start && (forall x :: x in rows ==> !Known(rows, e, x)) then Upsert(rows, e, now).0 else rows
  {
    FindFinds(rows, e);
    assert WellFormed(e) <==> Valid(e);
    if Find(rows, e).Some? { assert Known(rows, e, Find(rows, e).value); }
    hide Upsert, Card, Valid, WellFormed;
  }

  /** The report of a sync row: appended exactly if the row was taken, already there exactly if it was on record. */
  lemma SyncReports(rows: seq<Rate>, e: Rate, now: int)
    requires Card(rows)
    ensures var outcome := RateCardStore.SyncReply(rows, e, now);
            && (outcome.Appended? <==>
                  WellFormed(e) && now < e.start && (forall x :: x in rows ==> !Known(rows, e, x)) && Fits(rows, e, now, None))
            && (outcome.AlreadyThere? <==> WellFormed(e) && e in rows)
            && (!outcome.Appended? ==> SyncRow(rows, e, now) == rows)
  {
    FindFinds(rows, e);
    UpsertAnswers(rows, e, now);
    assert WellFormed(e) <==> Valid(e);
    if Find(rows, e).Some? {
      assert Known(rows, e, Find(rows, e).value);
      if e in rows { UniqueRow(rows, e, Find(rows, e).value); }
    } else {
      assert Replaces(rows, e, None);
    }
    hide Upsert, Card, Valid, WellFormed, Fits;
  }
}
