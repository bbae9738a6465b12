/**
 How lines are judged, what is built and applied for them, and what a pass reports, told in
 the numbers of the two tables and the entries of the ledger.
 */
module CorrectionAnswers {
  import opened Basics
  import opened Corrections

  // ------------------------------------------- the numbers of a line

  function Used(inp: Inputs, k: Key): int { if k in inp.local then inp.local[k].units else 0 }

  function Owed(inp: Inputs, k: Key): int { if k in inp.local then inp.local[k].minor else 0 }

  function Sent(inp: Inputs, k: Key): int { if k in inp.inFlight then inp.inFlight[k] else 0 }

  /** The provider's count is final. */
  predicate Counted(inp: Inputs, k: Key) { k in inp.provider && inp.provider[k].ready }

  function Currency(inp: Inputs, k: Key): string {
    if k in inp.provider && inp.provider[k].currency != "" then inp.provider[k].currency
    else if k in inp.local then inp.local[k].currency else ""
  }

  /** A line that can be judged: named, in some currency, with no amount below zero and a count where it is final. */
  predicate Readable(inp: Inputs, k: Key) {
    && k.month != "" && k.workspace != "" && k.meter != "" && Currency(inp, k) != ""
    && Used(inp, k) >= 0 && Owed(inp, k) >= 0 && Sent(inp, k) >= 0
    && (k in inp.provider ==>
          var p := inp.provider[k];
          && (p.units.Some? ==> p.units.value >= 0) && (p.invoice.Some? ==> p.invoice.value >= 0) && (p.ready ==> p.units.Some?))
  }

  lemma ReadableIs(inp: Inputs, k: Key)
    ensures Readable(inp, k) <==> !Malformed(inp, k)
  {
  }

  /** Charged on the invoice after the credits. */
  function Charged(inp: Inputs, k: Key, credits: int): Option<int> {
    if k in inp.provider && inp.provider[k].invoice.Some? then Some(inp.provider[k].invoice.value - credits) else None
  }

  /**
   The judgment of a line in its numbers: nothing is judged before the count is final;
   units agree exactly if what was used is what was counted and what is still on its way;
   money is looked at only then, and agrees exactly if what is owed is what is charged.
   */
  lemma JudgedExactly(inp: Inputs, k: Key, credits: int)
    requires !Malformed(inp, k)
    ensures var j := Diff(inp, k, credits);
            && (j == Waiting <==> !Counted(inp, k))
            && (Counted(inp, k) ==>
                  var gap := Used(inp, k) - inp.provider[k].units.value - Sent(inp, k);
                  && (j.UnitsMismatch? <==> gap != 0) && (j.UnitsMismatch? ==> j.gap == gap)
                  && (gap == 0 ==>
                        match Charged(inp, k, credits)
                        case None => j == NoInvoice
                        case Some(charged) => j == if charged == Owed(inp, k) then Match else MoneyMismatch(Owed(inp, k) - charged)))
  {
  }

  /** The same tables after n units of line k have arrived at the provider. */
  function Arrived(inp: Inputs, k: Key, n: int): Inputs
    requires k in inp.provider && inp.provider[k].units.Some?
  {
    inp.(inFlight := inp.inFlight[k := Sent(inp, k) - n],
         provider := inp.provider[k := inp.provider[k].(units := Some(inp.provider[k].units.value + n))])
  }

  /** Units on their way are neither missing nor counted twice: while they arrive no judgment of any line changes. */
  lemma ArrivalChangesNoJudgment(inp: Inputs, k: Key, n: nat, other: Key, credits: int)
    requires k in inp.provider && inp.provider[k].units.Some? && n <= Sent(inp, k)
    requires !Malformed(inp, other) && !Malformed(inp, k)
    ensures !Malformed(Arrived(inp, k, n), other) && Diff(Arrived(inp, k, n), other, credits) == Diff(inp, other, credits)
  {
  }

  // ------------------------------------------- what is built

  /**
   A correction for units carries the missing units and no money; one for money gives
   back what is charged too much and carries no units, on the invoice while it is a
   draft and as a credit note otherwise.  Its id names the line and the sort of fix only.
   */
  lemma BuiltExactly(inp: Inputs, k: Key, credits: int)
    requires !Malformed(inp, k) && Mismatch(Diff(inp, k, credits))
    ensures var j := Diff(inp, k, credits); var c := Build(inp, k, j);
            && c.key == k && c.currency == Currency(inp, k) && c.approver == inp.approver && c.at == inp.now
            && (j.UnitsMismatch? ==>
                  c.kind == MeterAdjustment && c.minor == 0 && c.id == LineId(k, UnitsFix) &&
                  inp.provider[k].units.value + c.units + Sent(inp, k) == Used(inp, k))
            && (j.MoneyMismatch? ==>
                  && c.units == 0 && Charged(inp, k, credits).Some? && Charged(inp, k, credits).value - c.minor == Owed(inp, k)
                  && (if inp.provider[k].state == Some(Draft) then c.kind == DraftAmendment && c.id == LineId(k, MoneyDraft)
                      else c.kind == CreditNote && c.id == LineId(k, MoneyNext)))
  {
  }

  /** Credits are what money corrections on the line gave back; corrections of units and of other lines do not count. */
  lemma CreditsExactly(ledger: Ledger, e: Entry, k: Key)
    ensures CreditsFor([], k) == 0
    ensures CreditsFor(ledger + [e], k) ==
            CreditsFor(ledger, k) +
            if e.correction.key == k && (e.correction.kind == CreditNote || e.correction.kind == DraftAmendment) then e.correction.minor else 0
  {
    assert (ledger + [e])[..|ledger|] == ledger;
  }

  // ------------------------------------------- what is applied

  /** An entry with this id is on record. */
  predicate Recorded(ledger: Ledger, id: Id, e: Entry) { e in ledger && e.correction.id == id }

  /** No id is on record twice. */
  predicate OnceEach(ledger: Ledger) { forall i, j :: 0 <= i < j < |ledger| ==> ledger[i].correction.id != ledger[j].correction.id }

  /**
   The answer to an application: refused without an approver; answered with the recorded
   receipt if the id is on record; recovered without a write if a status query knows it;
   and otherwise written once, and recorded exactly if the write is acknowledged.
   */
  lemma ApplyAnswers(w: World, c: Correction, now: int, fates: nat -> Fate, e: Entry)
    ensures var (next, outcome) := Apply(w, c, now, fates); var p := w.provider;
            var known := KnownId(w.ledger, c.id); var asked := w.asks && c.id in p.receipts;
            if c.approver == "" then outcome == Refused && next == w
            else if known then next == w && outcome.AlreadyApplied? && (OnceEach(w.ledger) && Recorded(w.ledger, c.id, e) ==> outcome.receipt == e.receipt)
            else if asked then
              outcome == RecoveredNow(p.receipts[c.id]) && next == w.(ledger := w.ledger + [Entry(c, p.receipts[c.id], Recovered, now)])
            else
              && next.provider.attempts == p.attempts + 1 && next.asks == w.asks
              && (fates(p.attempts) == NeverArrived ==>
                    outcome == Failed && next == w.(provider := p.(attempts := p.attempts + 1)))
              && (fates(p.attempts) != NeverArrived ==>
                    && next.provider.arrived == p.arrived + [c.id] && c.id in next.provider.receipts
                    && (c.id in p.receipts ==> next.provider.receipts == p.receipts && next.provider.effects == p.effects)
                    && (c.id !in p.receipts ==>
                          var r := Receipt(p.effects + 1, c.id, c.kind, c.units, c.minor);
                          next.provider.receipts == p.receipts[c.id := r] && next.provider.effects == p.effects + 1)
                    && (if fates(p.attempts) == LostAck then outcome == Failed && next.ledger == w.ledger
                        else outcome == AppliedNow(next.provider.receipts[c.id])
                             && next.ledger == w.ledger + [Entry(c, next.provider.receipts[c.id], Applied, now)]))
  {
    var found := EntryOf(w.ledger, c.id);
    if found.Some? && OnceEach(w.ledger) && Recorded(w.ledger, c.id, e) {
      var i :| 0 <= i < |w.ledger| && w.ledger[i] == e;
      var j :| 0 <= j < |w.ledger| && w.ledger[j] == found.value;
      assert i == j;
    }
    hide EntryOf;
  }

  // ------------------------------------------- what a pass reports

  /** One row of the report: the judgment over the credits of the moment, and what came of it. */
  ghost predicate Reports(w: World, inp: Inputs, k: Key, fates: nat -> Fate, next: World, row: Row)
    requires !Malformed(inp, k)
  {
    var j := Diff(inp, k, CreditsFor(w.ledger, k));
    && row.key == k && row.judgment == j && row.credits == CreditsFor(w.ledger, k)
    && if !j.UnitsMismatch? && !j.MoneyMismatch? then next == w && row.outcome == Untouched
       else
         var c := Build(inp, k, j);
         if inp.approver == "" then next == w && row.outcome == Proposed
         else if c.kind !in inp.actions then next == w && row.outcome == NoAction
         else next == Apply(w, c, inp.now, fates).0 && row.outcome == Dispatched(Apply(w, c, inp.now, fates).1)
  }

  lemma RowReports(w: World, inp: Inputs, k: Key, fates: nat -> Fate)
    requires !Malformed(inp, k)
    ensures var (next, row) := PassRow(w, inp, k, fates); Reports(w, inp, k, fates, next, row)
  {
    hide Apply, Diff, Malformed;
  }

  /** The lines up to n can be judged. */
  ghost predicate ReadableTo(inp: Inputs, keys: seq<Key>, n: nat)
    requires n <= |keys|
  {
    forall i :: 0 <= i < n ==> Readable(inp, keys[i])
  }

  /** How many lines a pass gets to: all up to the first that cannot be judged. */
  ghost predicate Reaches(inp: Inputs, keys: seq<Key>, n: nat) {
    n <= |keys| && ReadableTo(inp, keys, n) && (n < |keys| ==> !Readable(inp, keys[n]))
  }

  lemma NothingReported(w: World, inp: Inputs, fates: nat -> Fate)
    ensures Reconcile(w, inp, [], fates) == Pass(w, [], false)
  {
  }

  lemma ReconcileNext(w: World, inp: Inputs, keys: seq<Key>, fates: nat -> Fate)
    requires keys != []
    ensures var before, k, pass := Reconcile(w, inp, keys[..|keys| - 1], fates), keys[|keys| - 1], Reconcile(w, inp, keys, fates);
            if before.raised then pass == before
            else if Malformed(inp, k) then pass == before.(raised := true)
            else pass == Pass(PassRow(before.world, inp, k, fates).0, before.rows + [PassRow(before.world, inp, k, fates).1], false)
  {
    hide PassRow, Malformed;
  }

  /**
   A pass takes the lines in order, each over the world the ones before have left, and
   ends with an error exactly at the first line that cannot be judged; it reports one
   row for every line it got to.
   */
  lemma {:induction false} PassReports(w: World, inp: Inputs, keys: seq<Key>, fates: nat -> Fate, n: nat)
    requires Reaches(inp, keys, n)
    ensures var pass := Reconcile(w, inp, keys, fates);
            && (pass.raised <==> n < |keys|) && |pass.rows| == n && pass.world == Reconcile(w, inp, keys[..n], fates).world
            && forall i :: 0 <= i < n ==>
                 Readable(inp, keys[i]) && !Malformed(inp, keys[i]) &&
                 Reports(Reconcile(w, inp, keys[..i], fates).world, inp, keys[i], fates, Reconcile(w, inp, keys[..i + 1], fates).world, pass.rows[i])
    decreases |keys|
  {
    hide PassRow, Readable, Malformed, Reports, Reconcile;
    if keys == [] {
      NothingReported(w, inp, fates);
      assert keys[..0] == [];
    } else {
      var m := |keys| - 1;
      var front := keys[..m];
      ReadableIs(inp, keys[m]);
      ReconcileNext(w, inp, keys, fates);
      forall i | 0 <= i <= m ensures front[..i] == keys[..i] {}
      if n == |keys| {
        PassReports(w, inp, front, fates, m);
        RowReports(Reconcile(w, inp, front, fates).world, inp, keys[m], fates);
        assert keys[..n] == keys && keys[..m + 1] == keys;
      } else if n == m {
        PassReports(w, inp, front, fates, m);
        assert front[..m] == front;
      } else {
        assert !Readable(inp, front[n]);
        PassReports(w, inp, front, fates, n);
      }
    }
  }

  /** The summary counts every row once, under its own name. */
  lemma {:induction false} CountsAddUp(a: seq<Row>, b: seq<Row>, row: Row, inp: Inputs, kind: RowKind)
    ensures CountKind([], inp, kind) == 0 && CountKind([row], inp, kind) == if KindOf(row, inp) == kind then 1 else 0
    ensures CountKind(a + b, inp, kind) == CountKind(a, inp, kind) + CountKind(b, inp, kind)
    decreases |b|
  {
    assert [row][..0] == [];
    if b == [] {
      assert a + b == a;
    } else {
      assert (a + b)[..|a + b| - 1] == a + b[..|b| - 1];
      CountsAddUp(a, b[..|b| - 1], row, inp, kind);
    }
  }

  /** A row is named after its judgment; a line still waiting is stalled exactly once its deadline has come. */
  lemma RowsAreNamed(row: Row, inp: Inputs)
    ensures KindOf(row, inp) == StalledRow <==> row.judgment == Waiting && inp.deadline.Some? && inp.deadline.value <= inp.now
    ensures KindOf(row, inp) == AwaitingRow <==> row.judgment == Waiting && (inp.deadline.Some? ==> inp.now < inp.deadline.value)
    ensures KindOf(row, inp) == UnitsMismatchRow <==> row.judgment.UnitsMismatch?
    ensures KindOf(row, inp) == MoneyMismatchRow <==> row.judgment.MoneyMismatch?
    ensures KindOf(row, inp) == NoInvoiceRow <==> row.judgment == NoInvoice
    ensures KindOf(row, inp) == MatchRow <==> row.judgment == Match
  {
  }
}
