/**
 The versioned rate card of scripts/usage_engine.py: rows are immutable once
 effective, a later row may only truncate a predecessor in the future, and a
 rejected row changes nothing.
 */
module RateCards {
  import opened Basics

  const ROUNDING_POLICY := "round_half_up"

  /** One rate-card row; `to` None is open-ended, `state` None prices every state. */
  datatype Rate = Rate(
    rateId: string,
    version: int,
    currency: string,
    meter: string,
    state: Option<string>,
    start: int,
    to: Option<int>,
    numerator: int,
    denominator: int,
    rounding: string)

  datatype PriceKey = PriceKey(currency: string, meter: string, state: Option<string>)

  function KeyOf(e: Rate): PriceKey { PriceKey(e.currency, e.meter, e.state) }

  /** What _coerce accepts. */
  predicate Valid(e: Rate) {
    && e.rateId != "" && e.currency != "" && e.meter != ""
    && e.version >= 1 && e.start >= 0
    && (e.to.Some? ==> e.to.value > e.start)
    && e.numerator >= 0 && e.denominator >= 1
    && e.rounding == ROUNDING_POLICY
  }

  predicate Reaches(e: Rate, t: int) { e.to.None? || t < e.to.value }

  predicate Covers(e: Rate, t: int) { e.start <= t && Reaches(e, t) }

  predicate Overlap(a: Rate, b: Rate) { Reaches(a, b.start) && Reaches(b, a.start) }

  predicate SameIdentity(a: Rate, b: Rate) { a.rateId == b.rateId && a.version == b.version }

  /** Everything but the end, which truncation may move. */
  function Terms(e: Rate): Rate { e.(to := None) }

  // ------------------------------------------------------------------ upsert

  datatype Refusal = Invalid | ImmutableHistory | Overlapping | CutsEffectiveRow | PunchesHole

  datatype Check = Clear(closing: seq<Rate>) | Rejected(why: Refusal)

  function Find(rows: seq<Rate>, e: Rate): Option<Rate> {
    if rows == [] then None
    else if SameIdentity(rows[0], e) then Some(rows[0])
    else Find(rows[1..], e)
  }

  /** What one stored row has to say about inserting e. */
  function Judge(other: Rate, e: Rate, now: int, replace: Option<Rate>): Check {
    if replace == Some(other) || KeyOf(other) != KeyOf(e) || !Overlap(other, e) then Clear([])
    else if other.start >= e.start then Rejected(Overlapping)
    else if e.start <= now then Rejected(CutsEffectiveRow)
    else if e.to.Some? && (other.to.None? || e.to.value < other.to.value) then Rejected(PunchesHole)
    else Clear([other])
  }

  /** Validation of the whole card, before anything is changed. */
  function CheckAll(rows: seq<Rate>, e: Rate, now: int, replace: Option<Rate>): Check {
    if rows == [] then Clear([])
    else
      var rest := CheckAll(rows[..|rows| - 1], e, now, replace);
      if rest.Rejected? then rest
      else
        var last := Judge(rows[|rows| - 1], e, now, replace);
        if last.Rejected? then last else Clear(rest.closing + last.closing)
  }

  function Kept(rows: seq<Rate>, closing: seq<Rate>, replace: Option<Rate>): seq<Rate> {
    if rows == [] then []
    else
      var last := rows[|rows| - 1];
      Kept(rows[..|rows| - 1], closing, replace) + (if replace == Some(last) || last in closing then [] else [last])
  }

  function Truncated(closing: seq<Rate>, at: int): seq<Rate> {
    if closing == [] then []
    else Truncated(closing[..|closing| - 1], at) + [closing[|closing| - 1].(to := Some(at))]
  }

  datatype Reply = Unchanged | Inserted(closed: seq<Rate>) | Refused(why: Refusal)

  function Insert(rows: seq<Rate>, e: Rate, now: int, replace: Option<Rate>): (seq<Rate>, Reply) {
    match CheckAll(rows, e, now, replace)
    case Rejected(why) => (rows, Refused(why))
    case Clear(closing) => (Kept(rows, closing, replace) + Truncated(closing, e.start) + [e], Inserted(closing))
  }

  function Upsert(rows: seq<Rate>, e: Rate, now: int): (seq<Rate>, Reply) {
    if !Valid(e) then (rows, Refused(Invalid))
    else
      match Find(rows, e)
      case None => Insert(rows, e, now, None)
      case Some(existing) =>
        if existing == e then (rows, Unchanged)
        else if existing.start <= now then (rows, Refused(ImmutableHistory))
        else Insert(rows, e, now, Some(existing))
  }

  // -------------------------------------------------------------------- sync

  /** One row of a provider sync: known rows are never rewritten, present time never repriced. */
  function SyncRow(rows: seq<Rate>, e: Rate, now: int): seq<Rate> {
    if !Valid(e) || Find(rows, e).Some? || e.start <= now then rows else Upsert(rows, e, now).0
  }

  function Sync(rows: seq<Rate>, incoming: seq<Rate>, now: int): seq<Rate> {
    if incoming == [] then rows
    else SyncRow(Sync(rows, incoming[..|incoming| - 1], now), incoming[|incoming| - 1], now)
  }

  // --------------------------------------------------------------- invariant

  predicate Unique(rows: seq<Rate>) {
    forall i, j :: 0 <= i < j < |rows| ==> !SameIdentity(rows[i], rows[j])
  }

  /** Identities are unique and rows of one price key never overlap. */
  ghost predicate Card(rows: seq<Rate>) {
    && (forall x :: x in rows ==> Valid(x))
    && Unique(rows)
    && (forall x, y :: x in rows && y in rows && KeyOf(x) == KeyOf(y) && Overlap(x, y) ==> x == y)
  }

  lemma {:induction false} FindFinds(rows: seq<Rate>, e: Rate)
    ensures Find(rows, e).Some? ==> Find(rows, e).value in rows && SameIdentity(Find(rows, e).value, e)
    ensures Find(rows, e).None? ==> forall x :: x in rows ==> !SameIdentity(x, e)
  {
    if rows != [] { FindFinds(rows[1..], e); }
  }

  lemma {:induction false} ClosingOverlaps(rows: seq<Rate>, e: Rate, now: int, replace: Option<Rate>)
    requires CheckAll(rows, e, now, replace).Clear?
    ensures var closing := CheckAll(rows, e, now, replace).closing;
            && (forall x :: x in closing ==> x in rows && Judge(x, e, now, replace) == Clear([x]))
            && (forall x :: x in rows && x !in closing ==> Judge(x, e, now, replace) == Clear([]))
  {
    if rows != [] { ClosingOverlaps(rows[..|rows| - 1], e, now, replace); }
  }

  /** At most one row is truncated per insert. */
  lemma {:induction false} AtMostOneTruncated(rows: seq<Rate>, e: Rate, now: int, replace: Option<Rate>)
    requires Card(rows) && Valid(e) && CheckAll(rows, e, now, replace).Clear?
    ensures |CheckAll(rows, e, now, replace).closing| <= 1
  {
    if rows != [] {
      var front, last := rows[..|rows| - 1], rows[|rows| - 1];
      assert Card(front) by { PrefixCard(rows, |rows| - 1); }
      AtMostOneTruncated(front, e, now, replace);
      ClosingOverlaps(front, e, now, replace);
      if Judge(last, e, now, replace).Clear? && Judge(last, e, now, replace).closing != [] && CheckAll(front, e, now, replace).closing != [] {
        var x := CheckAll(front, e, now, replace).closing[0];
        assert Judge(x, e, now, replace) == Clear([x]);
        assert Overlap(x, last);
        assert false;
      }
    }
  }

  lemma PrefixCard(rows: seq<Rate>, n: nat)
    requires Card(rows) && n <= |rows|
    ensures Card(rows[..n])
  {
  }

  lemma {:induction false} KeptMembers(rows: seq<Rate>, closing: seq<Rate>, replace: Option<Rate>, x: Rate)
    ensures x in Kept(rows, closing, replace) <==> x in rows && x !in closing && replace != Some(x)
  {
    if rows != [] {
      KeptMembers(rows[..|rows| - 1], closing, replace, x);
      assert rows == rows[..|rows| - 1] + [rows[|rows| - 1]];
    }
  }

  lemma {:induction false} KeptUnique(rows: seq<Rate>, closing: seq<Rate>, replace: Option<Rate>)
    requires Unique(rows)
    ensures Unique(Kept(rows, closing, replace))
  {
    if rows != [] {
      var front := rows[..|rows| - 1];
      KeptUnique(front, closing, replace);
      var k := Kept(front, closing, replace);
      forall i | 0 <= i < |k| ensures !SameIdentity(k[i], rows[|rows| - 1]) {
        KeptMembers(front, closing, replace, k[i]);
      }
    }
  }

  /** The rows after an accepted insert: survivors, the truncated predecessor if any, the new row. */
  lemma InsertShape(rows: seq<Rate>, e: Rate, now: int, replace: Option<Rate>)
    requires Card(rows) && Valid(e) && CheckAll(rows, e, now, replace).Clear?
    ensures var closing := CheckAll(rows, e, now, replace).closing;
            var kept := Kept(rows, closing, replace);
            Insert(rows, e, now, replace).0 ==
              if closing == [] then kept + [e] else kept + [closing[0].(to := Some(e.start))] + [e]
  {
    AtMostOneTruncated(rows, e, now, replace);
    var closing := CheckAll(rows, e, now, replace).closing;
    if closing != [] {
      assert closing[..|closing| - 1] == [];
      assert Truncated(closing, e.start) == [closing[0].(to := Some(e.start))];
    }
  }

  lemma InsertMembers(rows: seq<Rate>, e: Rate, now: int, replace: Option<Rate>, x: Rate)
    requires Card(rows) && Valid(e) && CheckAll(rows, e, now, replace).Clear?
    ensures var closing := CheckAll(rows, e, now, replace).closing;
            x in Insert(rows, e, now, replace).0 <==>
              x == e ||
              (x in rows && x !in closing && replace != Some(x)) ||
              (closing != [] && x == closing[0].(to := Some(e.start)))
  {
    InsertShape(rows, e, now, replace);
    KeptMembers(rows, CheckAll(rows, e, now, replace).closing, replace, x);
  }

  lemma InsertUnique(rows: seq<Rate>, e: Rate, now: int, replace: Option<Rate>)
    requires Card(rows) && Valid(e) && CheckAll(rows, e, now, replace).Clear?
    requires forall x :: x in rows && SameIdentity(x, e) ==> replace == Some(x)
    ensures Unique(Insert(rows, e, now, replace).0)
  {
    var closing := CheckAll(rows, e, now, replace).closing;
    var kept := Kept(rows, closing, replace);
    InsertShape(rows, e, now, replace);
    ClosingOverlaps(rows, e, now, replace);
    KeptUnique(rows, closing, replace);
    forall i | 0 <= i < |kept|
      ensures !SameIdentity(kept[i], e) && (closing != [] ==> !SameIdentity(kept[i], closing[0]))
    {
      KeptMembers(rows, closing, replace, kept[i]);
      if closing != [] && SameIdentity(kept[i], closing[0]) {
        UniqueRow(rows, kept[i], closing[0]);
      }
    }
    if closing != [] {
      assert closing[0] in rows && Judge(closing[0], e, now, replace) == Clear([closing[0]]);
    }
  }

  lemma UniqueRow(rows: seq<Rate>, x: Rate, y: Rate)
    requires Card(rows) && x in rows && y in rows && SameIdentity(x, y)
    ensures x == y
  {
  }

  /** A surviving row never overlaps the new row of its key. */
  lemma SurvivorClearsNew(rows: seq<Rate>, e: Rate, now: int, replace: Option<Rate>, x: Rate)
    requires CheckAll(rows, e, now, replace).Clear? && x in rows && KeyOf(x) == KeyOf(e)
    requires x !in CheckAll(rows, e, now, replace).closing && replace != Some(x)
    ensures !Overlap(x, e)
  {
  }

  /** The truncated row is a real row cut short at the new start. */
  lemma CutRow(rows: seq<Rate>, e: Rate, now: int, replace: Option<Rate>)
    requires Valid(e) && CheckAll(rows, e, now, replace).Clear? && CheckAll(rows, e, now, replace).closing != []
    ensures var c := CheckAll(rows, e, now, replace).closing[0];
            c in rows && KeyOf(c) == KeyOf(e) && c.start < e.start && Reaches(c, e.start) && e.start > now
    ensures var c := CheckAll(rows, e, now, replace).closing[0];
            e.to.None? || (c.to.Some? && c.to.value <= e.to.value)
  {
  }

  lemma InsertDisjoint(rows: seq<Rate>, e: Rate, now: int, replace: Option<Rate>, x: Rate, y: Rate)
    requires Card(rows) && Valid(e) && CheckAll(rows, e, now, replace).Clear?
    requires x in Insert(rows, e, now, replace).0 && y in Insert(rows, e, now, replace).0
    requires KeyOf(x) == KeyOf(y) && Overlap(x, y)
    ensures x == y
  {
    hide Insert, CheckAll;
    var closing := CheckAll(rows, e, now, replace).closing;
    InsertMembers(rows, e, now, replace, x);
    InsertMembers(rows, e, now, replace, y);
    if closing != [] {
      CutRow(rows, e, now, replace);
      AtMostOneTruncated(rows, e, now, replace);
    }
    if x in rows && x !in closing && replace != Some(x) && KeyOf(x) == KeyOf(e) { SurvivorClearsNew(rows, e, now, replace, x); }
    if y in rows && y !in closing && replace != Some(y) && KeyOf(y) == KeyOf(e) { SurvivorClearsNew(rows, e, now, replace, y); }
  }

  lemma InsertCard(rows: seq<Rate>, e: Rate, now: int, replace: Option<Rate>)
    requires Card(rows) && Valid(e)
    requires forall x :: x in rows && SameIdentity(x, e) ==> replace == Some(x)
    ensures Card(Insert(rows, e, now, replace).0)
  {
    if CheckAll(rows, e, now, replace).Clear? {
      var r := Insert(rows, e, now, replace).0;
      var closing := CheckAll(rows, e, now, replace).closing;
      InsertUnique(rows, e, now, replace);
      forall x | x in r ensures Valid(x) {
        InsertMembers(rows, e, now, replace, x);
        ClosingOverlaps(rows, e, now, replace);
        if closing != [] { assert closing[0] in closing; }
      }
      forall x, y | x in r && y in r && KeyOf(x) == KeyOf(y) && Overlap(x, y) ensures x == y {
        InsertDisjoint(rows, e, now, replace, x, y);
      }
    }
  }

  /** Identities stay unique and rows of a price key stay disjoint under every upsert. */
  lemma UpsertCard(rows: seq<Rate>, e: Rate, now: int)
    requires Card(rows)
    ensures Card(Upsert(rows, e, now).0)
  {
    FindFinds(rows, e);
    if Valid(e) {
      var existing := Find(rows, e);
      forall x | x in rows && SameIdentity(x, e) ensures existing == Some(x) {
        UniqueRow(rows, x, existing.value);
      }
      InsertCard(rows, e, now, existing);
    }
  }

  // ---------------------------------------------------------- history is fixed

  /** Instant t is priced by some row of this key under these terms. */
  predicate PricedAt(rows: seq<Rate>, key: PriceKey, t: int, terms: Rate) {
    exists x :: x in rows && KeyOf(x) == key && Covers(x, t) && Terms(x) == terms
  }

  lemma TermsUnique(rows: seq<Rate>, key: PriceKey, t: int, a: Rate, b: Rate)
    requires Card(rows) && PricedAt(rows, key, t, a) && PricedAt(rows, key, t, b)
    ensures a == b
  {
  }

  lemma InsertKeepsPast(rows: seq<Rate>, e: Rate, now: int, replace: Option<Rate>, key: PriceKey, t: int, terms: Rate)
    requires Card(rows) && Valid(e) && t <= now
    requires replace.Some? ==> replace.value.start > now
    requires PricedAt(rows, key, t, terms)
    ensures PricedAt(Insert(rows, e, now, replace).0, key, t, terms)
  {
    if CheckAll(rows, e, now, replace).Clear? {
      var closing := CheckAll(rows, e, now, replace).closing;
      ClosingOverlaps(rows, e, now, replace);
      var x :| x in rows && KeyOf(x) == key && Covers(x, t) && Terms(x) == terms;
      InsertMembers(rows, e, now, replace, x);
      if x in closing {
        assert Judge(x, e, now, replace) == Clear([x]);
        AtMostOneTruncated(rows, e, now, replace);
        assert x == closing[0];
        var cut := x.(to := Some(e.start));
        InsertMembers(rows, e, now, replace, cut);
        assert KeyOf(cut) == key && Covers(cut, t) && Terms(cut) == terms;
      }
    }
  }

  /** The terms covering an instant that has passed never change. */
  lemma UpsertKeepsPast(rows: seq<Rate>, e: Rate, now: int, key: PriceKey, t: int, terms: Rate)
    requires Card(rows) && t <= now && PricedAt(rows, key, t, terms)
    ensures PricedAt(Upsert(rows, e, now).0, key, t, terms)
  {
    if Valid(e) {
      FindFinds(rows, e);
      if Find(rows, e).None? || Find(rows, e).value.start > now {
        InsertKeepsPast(rows, e, now, Find(rows, e), key, t, terms);
      }
    }
  }

  predicate Covered(rows: seq<Rate>, key: PriceKey, t: int) {
    exists x :: x in rows && KeyOf(x) == key && Covers(x, t)
  }

  /** Whatever a row that is not replaced covered stays covered, by it, its remainder or the new row. */
  lemma CoverageSurvives(rows: seq<Rate>, e: Rate, now: int, replace: Option<Rate>, x: Rate, t: int)
    requires Card(rows) && Valid(e) && CheckAll(rows, e, now, replace).Clear?
    requires x in rows && replace != Some(x) && Covers(x, t)
    ensures Covered(Insert(rows, e, now, replace).0, KeyOf(x), t)
  {
    hide Insert, CheckAll;
    var closing := CheckAll(rows, e, now, replace).closing;
    InsertMembers(rows, e, now, replace, x);
    InsertMembers(rows, e, now, replace, e);
    if x in closing {
      CutRow(rows, e, now, replace);
      AtMostOneTruncated(rows, e, now, replace);
      assert x == closing[0];
      var cut := x.(to := Some(e.start));
      InsertMembers(rows, e, now, replace, cut);
      if t < e.start {
        assert Covers(cut, t) && KeyOf(cut) == KeyOf(x);
      } else {
        assert Covers(e, t);
      }
    }
  }

  /** An insert that replaces nothing never leaves a covered instant, past or future, without a price. */
  lemma InsertNeverUnprices(rows: seq<Rate>, e: Rate, now: int, key: PriceKey, t: int)
    requires Card(rows) && Find(rows, e).None? && Covered(rows, key, t)
    ensures Covered(Upsert(rows, e, now).0, key, t)
  {
    if Valid(e) && CheckAll(rows, e, now, None).Clear? {
      var x :| x in rows && KeyOf(x) == key && Covers(x, t);
      CoverageSurvives(rows, e, now, None, x, t);
    }
  }

  /** The replacement prices every instant the replaced row priced, for the same key. */
  predicate Spans(e: Rate, previous: Rate) {
    KeyOf(e) == KeyOf(previous) && e.start <= previous.start &&
    (e.to.None? || (previous.to.Some? && previous.to.value <= e.to.value))
  }

  lemma ReplacedInstantIsLost(rows: seq<Rate>, e: Rate, now: int, previous: Rate, t: int)
    requires Card(rows) && Valid(e) && CheckAll(rows, e, now, Some(previous)).Clear?
    requires previous in rows && Covers(previous, t) && !(KeyOf(e) == KeyOf(previous) && Covers(e, t))
    ensures !Covered(Insert(rows, e, now, Some(previous)).0, KeyOf(previous), t)
  {
    hide Insert, CheckAll;
    var r := Insert(rows, e, now, Some(previous)).0;
    var closing := CheckAll(rows, e, now, Some(previous)).closing;
    ClosingOverlaps(rows, e, now, Some(previous));
    forall x | x in r && KeyOf(x) == KeyOf(previous) ensures !Covers(x, t) {
      InsertMembers(rows, e, now, Some(previous), x);
      if closing != [] { CutRow(rows, e, now, Some(previous)); }
    }
  }

  /**
   Replacing a future row may leave an unpriced hole.  Coverage survives a
   replacement exactly when the new row spans the one it replaces.
   */
  lemma ReplacementKeepsCoverageExactly(rows: seq<Rate>, e: Rate, now: int)
    requires Card(rows) && Find(rows, e).Some? && Upsert(rows, e, now).1.Inserted?
    ensures (forall key, t :: Covered(rows, key, t) ==> Covered(Upsert(rows, e, now).0, key, t)) <==>
            Spans(e, Find(rows, e).value)
  {
    var previous := Find(rows, e).value;
    FindFinds(rows, e);
    assert Valid(previous);
    var r := Upsert(rows, e, now).0;
    if Spans(e, previous) {
      forall key, t | Covered(rows, key, t) ensures Covered(r, key, t) {
        var x :| x in rows && KeyOf(x) == key && Covers(x, t);
        if x == previous {
          InsertMembers(rows, e, now, Some(previous), e);
          assert e in r && Covers(e, t);
        } else {
          CoverageSurvives(rows, e, now, Some(previous), x, t);
        }
      }
    } else {
      var t := if KeyOf(e) == KeyOf(previous) && e.start <= previous.start
               then Max(previous.start, e.to.value) else previous.start;
      assert Covers(previous, t);
      assert Covered(rows, KeyOf(previous), t);
      ReplacedInstantIsLost(rows, e, now, previous, t);
    }
  }

  // -------------------------------------------------------------------- runs

  datatype Command = DoUpsert(row: Rate, now: int) | DoSync(rows: seq<Rate>, now: int)

  function Step(rows: seq<Rate>, c: Command): seq<Rate> {
    match c
    case DoUpsert(e, now) => Upsert(rows, e, now).0
    case DoSync(incoming, now) => Sync(rows, incoming, now)
  }

  function Run(rows: seq<Rate>, cs: seq<Command>): seq<Rate> {
    if cs == [] then rows else Step(Run(rows, cs[..|cs| - 1]), cs[|cs| - 1])
  }

  lemma {:induction false} SyncCard(rows: seq<Rate>, incoming: seq<Rate>, now: int)
    requires Card(rows)
    ensures Card(Sync(rows, incoming, now))
  {
    if incoming != [] {
      var front := incoming[..|incoming| - 1];
      SyncCard(rows, front, now);
      UpsertCard(Sync(rows, front, now), incoming[|incoming| - 1], now);
    }
  }

  lemma {:induction false} SyncKeepsPast(rows: seq<Rate>, incoming: seq<Rate>, now: int, key: PriceKey, t: int, terms: Rate)
    requires Card(rows) && t <= now && PricedAt(rows, key, t, terms)
    ensures PricedAt(Sync(rows, incoming, now), key, t, terms)
  {
    if incoming != [] {
      var front := incoming[..|incoming| - 1];
      SyncKeepsPast(rows, front, now, key, t, terms);
      SyncCard(rows, front, now);
      UpsertKeepsPast(Sync(rows, front, now), incoming[|incoming| - 1], now, key, t, terms);
    }
  }

  /** A sync never prices an instant that has passed and had no price. */
  lemma {:induction false} SyncNeverReprices(rows: seq<Rate>, incoming: seq<Rate>, now: int, key: PriceKey, t: int, terms: Rate)
    requires Card(rows) && t <= now && PricedAt(Sync(rows, incoming, now), key, t, terms)
    ensures PricedAt(rows, key, t, terms)
  {
    if incoming != [] {
      var front, e := incoming[..|incoming| - 1], incoming[|incoming| - 1];
      var mid := Sync(rows, front, now);
      SyncCard(rows, front, now);
      if Valid(e) && Find(mid, e).None? && e.start > now && CheckAll(mid, e, now, None).Clear? {
        var x :| x in Sync(rows, incoming, now) && KeyOf(x) == key && Covers(x, t) && Terms(x) == terms;
        InsertMembers(mid, e, now, None, x);
        ClosingOverlaps(mid, e, now, None);
        var closing := CheckAll(mid, e, now, None).closing;
        if closing != [] && x == closing[0].(to := Some(e.start)) {
          var y := closing[0];
          assert y in closing && Judge(y, e, now, None) == Clear([y]);
          assert y in mid && KeyOf(y) == key && Covers(y, t) && Terms(y) == terms;
        }
      }
      assert PricedAt(mid, key, t, terms);
      SyncNeverReprices(rows, front, now, key, t, terms);
    }
  }

  /** Over any run of upserts and syncs the card keeps unique identities and disjoint rows. */
  lemma {:induction false} RunCard(rows: seq<Rate>, cs: seq<Command>)
    requires Card(rows)
    ensures Card(Run(rows, cs))
  {
    if cs != [] {
      var before := Run(rows, cs[..|cs| - 1]);
      RunCard(rows, cs[..|cs| - 1]);
      match cs[|cs| - 1]
      case DoUpsert(e, now) => UpsertCard(before, e, now);
      case DoSync(incoming, now) => SyncCard(before, incoming, now);
    }
  }

  /**
   Pricing history is immutable: with clocks that do not run back behind t, what
   covered instant t covers it on the same terms after any run.
   */
  lemma {:induction false} HistoryIsImmutable(rows: seq<Rate>, cs: seq<Command>, key: PriceKey, t: int, terms: Rate)
    requires Card(rows) && (forall i :: 0 <= i < |cs| ==> t <= cs[i].now)
    requires PricedAt(rows, key, t, terms)
    ensures PricedAt(Run(rows, cs), key, t, terms)
  {
    if cs != [] {
      var front := cs[..|cs| - 1];
      HistoryIsImmutable(rows, front, key, t, terms);
      RunCard(rows, front);
      match cs[|cs| - 1]
      case DoUpsert(e, now) => UpsertKeepsPast(Run(rows, front), e, now, key, t, terms);
      case DoSync(incoming, now) => SyncKeepsPast(Run(rows, front), incoming, now, key, t, terms);
    }
  }

  // ----------------------------------------------------------------- lookups

  datatype Lookup = Found(rate: Rate) | NoRate | Ambiguous

  /** Rows of a meter and exactly this state (or wildcard) in effect at t. */
  function InEffect(rows: seq<Rate>, meter: string, state: Option<string>, t: int): seq<Rate> {
    if rows == [] then []
    else
      var last := rows[|rows| - 1];
      InEffect(rows[..|rows| - 1], meter, state, t) +
      (if last.meter == meter && last.state == state && Covers(last, t) then [last] else [])
  }

  /** The most specific row wins; two equally specific rows are an error, not a guess. */
  function RateFor(rows: seq<Rate>, meter: string, t: int, state: Option<string>): Lookup {
    var specific := InEffect(rows, meter, state, t);
    if |specific| > 1 then Ambiguous
    else if |specific| == 1 then Found(specific[0])
    else
      var wild := InEffect(rows, meter, None, t);
      if |wild| > 1 then Ambiguous else if |wild| == 1 then Found(wild[0]) else NoRate
  }

  predicate Prices(e: Rate, meter: string, state: Option<string>) {
    e.meter == meter && (e.state == state || e.state == None)
  }

  function Inside(x: int, a: int, b: int): set<int> { if a < x < b then {x} else {} }

  /** Rate-version instants strictly inside (a, b) that can matter to a meter and state. */
  function Boundaries(rows: seq<Rate>, meter: string, state: Option<string>, a: int, b: int): (cuts: set<int>)
    ensures forall x :: x in cuts ==> a < x < b
  {
    if rows == [] then {}
    else
      var last := rows[|rows| - 1];
      Boundaries(rows[..|rows| - 1], meter, state, a, b) +
      (if !Prices(last, meter, state) then {}
       else Inside(last.start, a, b) + (if last.to.Some? then Inside(last.to.value, a, b) else {}))
  }

  lemma {:induction false} InEffectConstant(rows: seq<Rate>, meter: string, state: Option<string>, exact: Option<string>,
                                            a: int, b: int, t: int)
    requires a <= t < b && Boundaries(rows, meter, state, a, b) == {} && (exact == state || exact == None)
    ensures InEffect(rows, meter, exact, t) == InEffect(rows, meter, exact, a)
  {
    if rows != [] {
      var front, last := rows[..|rows| - 1], rows[|rows| - 1];
      assert Boundaries(front, meter, state, a, b) <= Boundaries(rows, meter, state, a, b);
      InEffectConstant(front, meter, state, exact, a, b, t);
      if last.meter == meter && last.state == exact {
        assert Prices(last, meter, state);
        assert Inside(last.start, a, b) <= Boundaries(rows, meter, state, a, b);
        if last.to.Some? { assert Inside(last.to.value, a, b) <= Boundaries(rows, meter, state, a, b); }
      }
    }
  }

  /** Narrowing the interval uncovers no new boundary. */
  lemma {:induction false} BoundariesNarrow(rows: seq<Rate>, meter: string, state: Option<string>, a: int, b: int, s: int, e: int)
    requires a <= s && e <= b
    ensures Boundaries(rows, meter, state, s, e) <= Boundaries(rows, meter, state, a, b)
  {
    if rows != [] {
      var last := rows[|rows| - 1];
      BoundariesNarrow(rows[..|rows| - 1], meter, state, a, b, s, e);
      assert Inside(last.start, s, e) <= Inside(last.start, a, b);
      if last.to.Some? { assert Inside(last.to.value, s, e) <= Inside(last.to.value, a, b); }
    }
  }

  /** Between rate boundaries the rate in force does not change. */
  lemma RateConstant(rows: seq<Rate>, meter: string, state: Option<string>, a: int, b: int, t: int)
    requires a <= t < b && Boundaries(rows, meter, state, a, b) == {}
    ensures RateFor(rows, meter, t, state) == RateFor(rows, meter, a, state)
  {
    InEffectConstant(rows, meter, state, state, a, b, t);
    InEffectConstant(rows, meter, state, None, a, b, t);
  }

  lemma {:induction false} InEffectMembers(rows: seq<Rate>, meter: string, state: Option<string>, t: int, k: nat)
    requires k < |InEffect(rows, meter, state, t)|
    ensures var x := InEffect(rows, meter, state, t)[k];
            x in rows && x.meter == meter && x.state == state && Covers(x, t)
  {
    var front := InEffect(rows[..|rows| - 1], meter, state, t);
    if k < |front| { InEffectMembers(rows[..|rows| - 1], meter, state, t, k); }
  }

  lemma {:induction false} InEffectDistinct(rows: seq<Rate>, meter: string, state: Option<string>, t: int, i: nat, k: nat)
    requires Card(rows) && i < k < |InEffect(rows, meter, state, t)|
    ensures InEffect(rows, meter, state, t)[i] != InEffect(rows, meter, state, t)[k]
  {
    var n := |rows| - 1;
    var front := InEffect(rows[..n], meter, state, t);
    PrefixCard(rows, n);
    if k < |front| {
      InEffectDistinct(rows[..n], meter, state, t, i, k);
    } else {
      InEffectMembers(rows[..n], meter, state, t, i);
      var j :| 0 <= j < n && rows[j] == front[i];
      assert !SameIdentity(rows[j], rows[n]);
    }
  }

  /** On a card that keeps its invariant only a clash of currencies can be ambiguous. */
  lemma AmbiguityIsAboutCurrency(rows: seq<Rate>, meter: string, t: int, state: Option<string>)
    requires Card(rows) && RateFor(rows, meter, t, state).Ambiguous?
    ensures exists x, y :: x in rows && y in rows && x.meter == y.meter == meter && x.state == y.state &&
                           Covers(x, t) && Covers(y, t) && x.currency != y.currency
  {
    var exact := if |InEffect(rows, meter, state, t)| > 1 then state else None;
    InEffectMembers(rows, meter, exact, t, 0);
    InEffectMembers(rows, meter, exact, t, 1);
    InEffectDistinct(rows, meter, exact, t, 0, 1);
    var x, y := InEffect(rows, meter, exact, t)[0], InEffect(rows, meter, exact, t)[1];
    assert Overlap(x, y);
    assert x.currency != y.currency;
  }
}
