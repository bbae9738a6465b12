/**
 From exact amounts to billed lines: every line is rounded half away from zero
 exactly once, frozen lines of sealed periods pass through untouched, and totals
 add rounded lines.
 */
module PriceLines {
  import opened Pricing
  import opened PriceRun

  /** round_half_up on an exact rational. */
  function RoundHalfUp(x: real): int {
    if x < 0.0 then -((-x + 0.5).Floor) else (x + 0.5).Floor
  }

  /** The integer formula over a fraction's numerator and denominator computes the same number. */
  lemma RoundFraction(n: nat, d: nat)
    requires d > 0
    ensures RoundHalfUp(n as real / d as real) == (2 * n + d) / (2 * d)
  {
    var q, r := (2 * n + d) / (2 * d), (2 * n + d) % (2 * d);
    assert 2 * n + d == 2 * d * q + r;
    var x := n as real / d as real;
    assert x * d as real == n as real;
    assert (2.0 * d as real) * (x + 0.5) == (2.0 * d as real) * q as real + r as real;
    FloorOf(x + 0.5, q, r as real, 2.0 * d as real);
    assert x >= 0.0;
  }

  lemma FloorOf(y: real, q: int, r: real, d: real)
    requires d > 0.0 && 0.0 <= r < d && d * y == d * q as real + r
    ensures y.Floor == q
  {
    assert y < q as real ==> d * y < d * q as real;
    assert y >= (q + 1) as real ==> d * y >= d * (q + 1) as real;
    assert d * (q + 1) as real == d * q as real + d;
  }

  /** One rounding moves an amount by at most half a unit, half away from zero, symmetric in sign. */
  lemma RoundIsNearest(x: real)
    ensures -0.5 <= RoundHalfUp(x) as real - x <= 0.5
    ensures RoundHalfUp(-x) == -RoundHalfUp(x)
    ensures x >= 0.0 ==> RoundHalfUp(x) as real - 0.5 <= x < RoundHalfUp(x) as real + 0.5
  {
  }

  datatype BillLine = BillLine(key: Key, units: int, minor: int, rates: set<(string, int)>)

  datatype LineKind = ConfirmedLines | EstimateLines

  predicate Selected(k: Key, kind: LineKind) {
    if kind.ConfirmedLines? then k.Line? else k.Estimate?
  }

  function Currency(k: Key): string { if k.Unpriced? then "" else k.currency }

  function MinorSum(lines: seq<BillLine>, c: string): int {
    if lines == [] then 0
    else
      var l := lines[|lines| - 1];
      MinorSum(lines[..|lines| - 1], c) + (if Currency(l.key) == c then l.minor else 0)
  }

  function ExactSum(lines: seq<BillLine>, table: Ledger, c: string): real {
    if lines == [] then 0.0
    else
      var l := lines[|lines| - 1];
      ExactSum(lines[..|lines| - 1], table, c) + (if Currency(l.key) == c then Booked(table, l.key).exact else 0.0)
  }

  function CountOf(lines: seq<BillLine>, c: string): nat {
    if lines == [] then 0
    else CountOf(lines[..|lines| - 1], c) + (if Currency(lines[|lines| - 1].key) == c then 1 else 0)
  }

  predicate RoundedFrom(l: BillLine, table: Ledger) {
    && l.key in table && l.units == table[l.key].units && l.minor == RoundHalfUp(table[l.key].exact)
    && l.rates == table[l.key].rates
  }

  function KeysOf(lines: seq<BillLine>): set<Key> {
    set i | 0 <= i < |lines| :: lines[i].key
  }

  predicate Distinct(lines: seq<BillLine>) {
    forall i, j :: 0 <= i < j < |lines| ==> lines[i].key != lines[j].key
  }

  predicate AllRounded(lines: seq<BillLine>, table: Ledger) {
    forall i :: 0 <= i < |lines| ==> RoundedFrom(lines[i], table)
  }

  ghost predicate TotalsAre(totals: map<string, int>, lines: seq<BillLine>) {
    forall c :: (if c in totals then totals[c] else 0) == MinorSum(lines, c)
  }

  lemma OneMoreLine(lines: seq<BillLine>, table: Ledger, l: BillLine)
    requires AllRounded(lines, table) && Distinct(lines)
    requires RoundedFrom(l, table) && l.key !in KeysOf(lines)
    ensures AllRounded(lines + [l], table) && Distinct(lines + [l])
    ensures KeysOf(lines + [l]) == KeysOf(lines) + {l.key}
  {
    hide RoundedFrom, RoundHalfUp;
    var next := lines + [l];
    assert forall i :: 0 <= i < |lines| ==> next[i] == lines[i] && lines[i].key in KeysOf(lines);
    forall k ensures k in KeysOf(next) <==> k in KeysOf(lines) + {l.key} {
      assert next[|lines|].key == l.key;
      if k in KeysOf(lines) {
        var i :| 0 <= i < |lines| && lines[i].key == k;
        assert next[i].key == k;
      }
    }
  }

  lemma OneMoreTotal(totals: map<string, int>, lines: seq<BillLine>, l: BillLine)
    requires TotalsAre(totals, lines)
    ensures var c := Currency(l.key);
            TotalsAre(totals[c := (if c in totals then totals[c] else 0) + l.minor], lines + [l])
  {
  }

  /** One line per selected row of the table, each rounded once from its exact amount. */
  method RoundLines(table: Ledger, kind: LineKind) returns (lines: seq<BillLine>, totals: map<string, int>)
    ensures AllRounded(lines, table) && Distinct(lines)
    ensures forall k :: k in KeysOf(lines) <==> k in table && Selected(k, kind)
    ensures TotalsAre(totals, lines)
  {
    hide RoundHalfUp, AllRounded, Distinct, KeysOf, TotalsAre;
    lines, totals := [], map[];
    assert AllRounded(lines, table) && Distinct(lines) && KeysOf(lines) == {} && TotalsAre(totals, lines) by {
      NoLines(table);
    }
    var todo := table.Keys;
    while todo != {}
      invariant todo <= table.Keys
      invariant AllRounded(lines, table) && Distinct(lines) && TotalsAre(totals, lines)
      invariant forall k :: k in KeysOf(lines) <==> k in table && k !in todo && Selected(k, kind)
    {
      var k :| k in todo;
      todo := todo - {k};
      if Selected(k, kind) {
        var l := BillLine(k, table[k].units, RoundHalfUp(table[k].exact), table[k].rates);
        var c := Currency(k);
        OneMoreLine(lines, table, l);
        OneMoreTotal(totals, lines, l);
        lines := lines + [l];
        totals := totals[c := (if c in totals then totals[c] else 0) + l.minor];
      }
    }
  }

  lemma NoLines(table: Ledger)
    ensures AllRounded([], table) && Distinct([]) && KeysOf([]) == {} && TotalsAre(map[], [])
  {
  }

  /** Rounding once per line, the total of a currency is within half a minor unit per line of the exact sum. */
  lemma {:induction false} TotalsWithinHalf(lines: seq<BillLine>, table: Ledger, c: string)
    requires AllRounded(lines, table)
    ensures -(CountOf(lines, c) as real) * 0.5 <= MinorSum(lines, c) as real - ExactSum(lines, table, c)
    ensures MinorSum(lines, c) as real - ExactSum(lines, table, c) <= CountOf(lines, c) as real * 0.5
  {
    if lines != [] {
      var n := |lines| - 1;
      TotalsWithinHalf(lines[..n], table, c);
      assert RoundedFrom(lines[n], table);
      RoundIsNearest(table[lines[n].key].exact);
      hide RoundHalfUp;
    }
  }

  function FrozenOf(lines: seq<FrozenLine>, c: string): int {
    if lines == [] then 0
    else FrozenOf(lines[..|lines| - 1], c) + (if lines[|lines| - 1].currency == c then lines[|lines| - 1].minor else 0)
  }

  function FrozenSum(sealed: seq<SealedPeriod>, c: string): int {
    if sealed == [] then 0
    else FrozenSum(sealed[..|sealed| - 1], c) + FrozenOf(sealed[|sealed| - 1].lines, c)
  }

  /** Frozen lines enter the totals as they are; nothing about them is recomputed. */
  method AddFrozen(sealed: seq<SealedPeriod>, totals: map<string, int>) returns (sum: map<string, int>)
    ensures forall c :: (if c in sum then sum[c] else 0) == (if c in totals then totals[c] else 0) + FrozenSum(sealed, c)
  {
    sum := totals;
    for n := 0 to |sealed|
      invariant forall c :: (if c in sum then sum[c] else 0) == (if c in totals then totals[c] else 0) + FrozenSum(sealed[..n], c)
    {
      assert sealed[..n + 1][..n] == sealed[..n];
      var lines := sealed[n].lines;
      for i := 0 to |lines|
        invariant forall c :: (if c in sum then sum[c] else 0) ==
                              (if c in totals then totals[c] else 0) + FrozenSum(sealed[..n], c) + FrozenOf(lines[..i], c)
      {
        assert lines[..i + 1][..i] == lines[..i];
        var c := lines[i].currency;
        sum := sum[c := (if c in sum then sum[c] else 0) + lines[i].minor];
      }
      assert lines[..|lines|] == lines;
    }
    assert sealed[..|sealed|] == sealed;
  }
}
