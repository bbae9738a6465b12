/** The corrections ledger, its provider and the reconciler of scripts/billing_reconcile.py as objects. */
module BillingReconcilers {
  import opened Basics
  import opened Corrections

  class CorrectionProvider {
    var receipts: map<Id, Receipt>
    var effects: nat
    var arrived: seq<Id>
    var attempts: nat
    const fates: nat -> Fate

    constructor (fates: nat -> Fate)
      ensures this.fates == fates && View() == Provider(map[], 0, [], 0)
    {
      this.fates := fates;
      receipts, effects, arrived, attempts := map[], 0, [], 0;
    }

    ghost function View(): Provider
      reads this
    {
      Provider(receipts, effects, arrived, attempts)
    }

    /** One write; None is an action that raised, whether or not it took effect. */
    method Write(c: Correction) returns (receipt: Option<Receipt>)
      modifies this
      ensures (View(), receipt) == Act(old(View()), c, fates(old(attempts)))
    {
      var fate := fates(attempts);
      attempts := attempts + 1;
      if fate.NeverArrived? { return None; }
      arrived := arrived + [c.id];
      if c.id !in receipts {
        effects := effects + 1;
        receipts := receipts[c.id := Receipt(effects, c.id, c.kind, c.units, c.minor)];
      }
      receipt := if fate.LostAck? then None else Some(receipts[c.id]);
    }
  }

  class CorrectionsLedger {
    const provider: CorrectionProvider
    const asks: bool
    var entries: Ledger

    constructor (provider: CorrectionProvider, asks: bool)
      ensures this.provider == provider && this.asks == asks && entries == []
    {
      this.provider, this.asks := provider, asks;
      entries := [];
    }

    ghost function View(): World
      reads this, provider
    {
      World(entries, provider.View(), asks)
    }

    method ApplyOnce(c: Correction, now: int) returns (outcome: Outcome)
      modifies this, provider
      ensures (View(), outcome) == Apply(old(View()), c, now, provider.fates)
    {
      if c.approver == "" { return Refused; }
      var known := Find(c.id);
      if known.Some? { return AlreadyApplied(known.value.receipt); }
      if asks && c.id in provider.receipts {
        entries := entries + [Entry(c, provider.receipts[c.id], Recovered, now)];
        return RecoveredNow(provider.receipts[c.id]);
      }
      var receipt := provider.Write(c);
      match receipt
      case None => outcome := Failed;
      case Some(r) =>
        entries := entries + [Entry(c, r, Applied, now)];
        outcome := AppliedNow(r);
    }

    method Find(id: Id) returns (found: Option<Entry>)
      ensures found == EntryOf(entries, id)
    {
      var n := |entries|;
      assert entries[..n] == entries;
      while n > 0
        invariant 0 <= n <= |entries|
        invariant EntryOf(entries, id) == EntryOf(entries[..n], id)
      {
        if entries[n - 1].correction.id == id { return Some(entries[n - 1]); }
        assert entries[..n][..n - 1] == entries[..n - 1];
        n := n - 1;
      }
      found := None;
    }

    method Credits(k: Key) returns (sum: int)
      ensures sum == CreditsFor(entries, k)
    {
      sum := 0;
      for i := 0 to |entries|
        invariant sum == CreditsFor(entries[..i], k)
      {
        assert entries[..i + 1][..i] == entries[..i];
        sum := sum + CreditOf(entries[i], k);
      }
      assert entries[..|entries|] == entries;
    }
  }

  class BillingReconciler {
    const ledger: CorrectionsLedger

    constructor (ledger: CorrectionsLedger)
      ensures this.ledger == ledger
    {
      this.ledger := ledger;
    }

    method DispatchRow(inp: Inputs, k: Key, j: Judgment) returns (outcome: RowOutcome)
      requires Mismatch(j)
      modifies ledger, ledger.provider
      ensures (ledger.View(), outcome) == Dispatch(old(ledger.View()), inp, k, j, ledger.provider.fates)
    {
      var c := Build(inp, k, j);
      if inp.approver == "" { return Proposed; }
      if c.kind !in inp.actions { return NoAction; }
      var applied := ledger.ApplyOnce(c, inp.now);
      outcome := Dispatched(applied);
    }

    /** One pass: the rows so far with their counts, the ids on record, and whether a malformed line ended it with a value error. */
    method ReconcileLines(inp: Inputs, keys: seq<Key>)
      returns (rows: seq<Row>, summary: map<RowKind, nat>, ids: set<Id>, raised: bool)
      modifies ledger, ledger.provider
      ensures Pass(ledger.View(), rows, raised) == Reconcile(old(ledger.View()), inp, keys, ledger.provider.fates)
      ensures forall kind :: (if kind in summary then summary[kind] else 0) == CountKind(rows, inp, kind)
      ensures forall id :: id in ids <==> KnownId(ledger.entries, id)
    {
      ghost var start := ledger.View();
      ghost var fates := ledger.provider.fates;
      rows, summary, raised := [], map[], false;
      var i := 0;
      while i < |keys| && !raised
        invariant 0 <= i <= |keys|
        invariant Pass(ledger.View(), rows, raised) == Reconcile(start, inp, keys[..i], fates)
        invariant forall kind :: (if kind in summary then summary[kind] else 0) == CountKind(rows, inp, kind)
      {
        hide Malformed, Diff, Dispatch, KindOf;
        var k := keys[i];
        assert keys[..i + 1][..i] == keys[..i];
        if Malformed(inp, k) {
          raised := true;
        } else {
          var row := ReconcileRow(inp, k);
          var kind := KindOf(row, inp);
          summary := summary[kind := (if kind in summary then summary[kind] else 0) + 1];
          assert (rows + [row])[..|rows|] == rows;
          rows := rows + [row];
        }
        i := i + 1;
      }
      if raised { RaisedPrefix(start, inp, keys, i, fates); }
      assert keys[..|keys|] == keys;
      ids := set e | e in ledger.entries :: e.correction.id;
    }

    method ReconcileRow(inp: Inputs, k: Key) returns (row: Row)
      requires !Malformed(inp, k)
      modifies ledger, ledger.provider
      ensures (ledger.View(), row) == PassRow(old(ledger.View()), inp, k, ledger.provider.fates)
    {
      hide Malformed, Diff, Dispatch;
      var credits := ledger.Credits(k);
      var j := Diff(inp, k, credits);
      var outcome := Untouched;
      if Mismatch(j) {
        outcome := DispatchRow(inp, k, j);
      }
      row := Row(k, j, credits, outcome);
    }
  }

  /** Once a pass has raised, the remaining lines are not looked at. */
  lemma {:induction false} RaisedPrefix(w: World, inp: Inputs, keys: seq<Key>, i: nat, fates: nat -> Fate)
    requires i <= |keys| && Reconcile(w, inp, keys[..i], fates).raised
    ensures Reconcile(w, inp, keys, fates) == Reconcile(w, inp, keys[..i], fates)
  {
    if i < |keys| {
      var n := |keys| - 1;
      assert keys[..n][..i] == keys[..i];
      RaisedPrefix(w, inp, keys[..n], i, fates);
    } else {
      assert keys[..i] == keys;
    }
  }
}
