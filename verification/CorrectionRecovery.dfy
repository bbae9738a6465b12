/**
 When a correction recorded after a lost acknowledgement books what the provider booked:
 exactly when the line's gap is the one the lost write was built from, whatever happened
 to the ledger and to other lines in between.
 */
module CorrectionRecovery {
  import opened Corrections
  import opened CorrectionRuns

  // ---------------------------------------------------------- what concerns one line

  /** Receipts and entries under the ids of line k, and the credits that count towards it. */
  ghost predicate SameLine(a: World, b: World, k: Key) {
    && CreditsFor(a.ledger, k) == CreditsFor(b.ledger, k)
    && (forall s :: KnownId(a.ledger, LineId(k, s)) <==> KnownId(b.ledger, LineId(k, s)))
    && (forall e: Entry :: e.correction.id.LineId? && e.correction.id.key == k ==> (e in a.ledger <==> e in b.ledger))
    && (forall s :: LineId(k, s) in a.provider.receipts <==> LineId(k, s) in b.provider.receipts)
    && (forall s :: LineId(k, s) in a.provider.receipts && LineId(k, s) in b.provider.receipts ==>
          a.provider.receipts[LineId(k, s)] == b.provider.receipts[LineId(k, s)])
  }

  lemma Transitive(a: World, b: World, c: World, k: Key)
    requires SameLine(a, b, k) && SameLine(b, c, k)
    ensures SameLine(a, c, k)
  {
    hide CreditsFor, KnownId;
  }

  /** A row of another line leaves everything of line k as it is. */
  lemma OtherRow(w: World, inp: Inputs, other: Key, fates: nat -> Fate, k: Key)
    requires !Malformed(inp, other) && other != k
    ensures SameLine(w, PassRow(w, inp, other, fates).0, k)
  {
    hide Malformed, Diff, CreditsFor, KnownId, EntryOf;
    var next := PassRow(w, inp, other, fates).0;
    if next.ledger != w.ledger {
      var e := next.ledger[|w.ledger|];
      assert next.ledger == w.ledger + [e] && e.correction.key == other;
      AppendKeeps(w.ledger, e, k);
    }
  }

  lemma {:induction false} PassElsewhere(w: World, inp: Inputs, keys: seq<Key>, fates: nat -> Fate, k: Key)
    requires k !in keys
    ensures SameLine(w, Reconcile(w, inp, keys, fates).world, k)
  {
    hide Malformed, PassRow, SameLine, CreditsFor, KnownId;
    if keys == [] {
      assert SameLine(w, w, k) by { Reflexive(w, k); }
    } else {
      var n := |keys| - 1;
      PassElsewhere(w, inp, keys[..n], fates, k);
      var before := Reconcile(w, inp, keys[..n], fates);
      if !before.raised && !Malformed(inp, keys[n]) {
        OtherRow(before.world, inp, keys[n], fates, k);
        Transitive(w, before.world, PassRow(before.world, inp, keys[n], fates).0, k);
      }
    }
  }

  lemma Reflexive(w: World, k: Key)
    ensures SameLine(w, w, k)
  {
  }

  /** A pass deals with line k in one row, between which and either end nothing of the line changes, or never reaches it. */
  lemma {:induction false} PassOnLine(w: World, inp: Inputs, keys: seq<Key>, fates: nat -> Fate, k: Key)
    returns (reached: bool, mid: World)
    requires DistinctKeys(keys) && k in keys && !Malformed(inp, k)
    ensures SameLine(w, mid, k)
    ensures SameLine(if reached then PassRow(mid, inp, k, fates).0 else mid, Reconcile(w, inp, keys, fates).world, k)
    ensures Reconcile(w, inp, keys, fates).world.asks == w.asks == mid.asks
  {
    hide Malformed, PassRow, SameLine, CreditsFor, KnownId;
    AsksStays(w, inp, keys, fates);
    var n := |keys| - 1;
    var before := Reconcile(w, inp, keys[..n], fates);
    AsksStays(w, inp, keys[..n], fates);
    if keys[n] == k {
      PassElsewhere(w, inp, keys[..n], fates, k);
      mid := before.world;
      reached := !before.raised;
      Reflexive(Reconcile(w, inp, keys, fates).world, k);
    } else {
      assert k in keys[..n];
      reached, mid := PassOnLine(w, inp, keys[..n], fates, k);
      if !before.raised && !Malformed(inp, keys[n]) {
        OtherRow(before.world, inp, keys[n], fates, k);
        Transitive(if reached then PassRow(mid, inp, k, fates).0 else mid, before.world, PassRow(before.world, inp, keys[n], fates).0, k);
      }
    }
  }

  lemma {:induction false} AsksStays(w: World, inp: Inputs, keys: seq<Key>, fates: nat -> Fate)
    ensures Reconcile(w, inp, keys, fates).world.asks == w.asks
  {
    hide Malformed, Diff, CreditsFor, EntryOf;
    if keys != [] { AsksStays(w, inp, keys[..|keys| - 1], fates); }
  }

  // ---------------------------------------------------------- the write and the record

  /** What a line asks for in a world. */
  function Judged(w: World, inp: Inputs, k: Key): Judgment
    requires !Malformed(inp, k)
  {
    Diff(inp, k, CreditsFor(w.ledger, k))
  }

  /** A pass in which the line's write took effect: the provider then holds the amounts of the gap judged before the pass. */
  lemma WriteBooksGap(w: World, inp: Inputs, keys: seq<Key>, fates: nat -> Fate, k: Key)
    requires DistinctKeys(keys) && k in keys && !Malformed(inp, k) && Mismatch(Judged(w, inp, k))
    requires var id := IdOf(inp, k, Judged(w, inp, k));
             id !in w.provider.receipts && id in Reconcile(w, inp, keys, fates).world.provider.receipts
    ensures var c := Build(inp, k, Judged(w, inp, k));
            var r := Reconcile(w, inp, keys, fates).world.provider.receipts[c.id];
            r.units == c.units && r.minor == c.minor
  {
    hide Malformed, CreditsFor, KnownId, EntryOf, Diff;
    var id := IdOf(inp, k, Judged(w, inp, k));
    var reached, mid := PassOnLine(w, inp, keys, fates, k);
    assert id == LineId(k, id.suffix);
    assert Judged(mid, inp, k) == Judged(w, inp, k);
    assert reached;
    RowBooks(mid, inp, k, fates);
  }

  lemma RowBooks(w: World, inp: Inputs, k: Key, fates: nat -> Fate)
    requires !Malformed(inp, k) && Mismatch(Judged(w, inp, k))
    requires var id := IdOf(inp, k, Judged(w, inp, k));
             id !in w.provider.receipts && id in PassRow(w, inp, k, fates).0.provider.receipts
    ensures var c := Build(inp, k, Judged(w, inp, k));
            var r := PassRow(w, inp, k, fates).0.provider.receipts[c.id];
            r.units == c.units && r.minor == c.minor
  {
    hide Malformed, CreditsFor, KnownId, EntryOf, Diff;
  }

  /** A pass that records a line's new correction records what it judged before the pass, against the provider's receipt. */
  lemma RecordBooksGap(w: World, inp: Inputs, keys: seq<Key>, fates: nat -> Fate, k: Key) returns (e: Entry)
    requires DistinctKeys(keys) && k in keys && !Malformed(inp, k) && Mismatch(Judged(w, inp, k))
    requires var id := IdOf(inp, k, Judged(w, inp, k));
             && !KnownId(w.ledger, id) && id in w.provider.receipts
             && KnownId(Reconcile(w, inp, keys, fates).world.ledger, id)
    ensures e in Reconcile(w, inp, keys, fates).world.ledger
    ensures e.correction == Build(inp, k, Judged(w, inp, k)) && e.receipt == w.provider.receipts[e.correction.id]
    ensures e.status.Recovered? <==> w.asks
  {
    hide Malformed, CreditsFor, KnownId, Diff;
    var id := IdOf(inp, k, Judged(w, inp, k));
    var reached, mid := PassOnLine(w, inp, keys, fates, k);
    assert id == LineId(k, id.suffix);
    assert Judged(mid, inp, k) == Judged(w, inp, k);
    assert reached;
    e := RowRecordsReceipt(mid, inp, k, fates);
  }

  lemma RowRecordsReceipt(w: World, inp: Inputs, k: Key, fates: nat -> Fate) returns (e: Entry)
    requires !Malformed(inp, k) && Mismatch(Judged(w, inp, k))
    requires var id := IdOf(inp, k, Judged(w, inp, k));
             !KnownId(w.ledger, id) && id in w.provider.receipts && KnownId(PassRow(w, inp, k, fates).0.ledger, id)
    ensures e in PassRow(w, inp, k, fates).0.ledger
    ensures e.correction == Build(inp, k, Judged(w, inp, k)) && e.receipt == w.provider.receipts[e.correction.id]
    ensures e.status.Recovered? <==> w.asks
  {
    hide Malformed, CreditsFor, KnownId, Diff;
    var next := PassRow(w, inp, k, fates).0;
    assert next.ledger != w.ledger;
    e := next.ledger[|w.ledger|];
  }

  /**
   Exactly when a correction recorded after the fact books what the provider booked. Take
   any run up to a pass in which the line's write first takes effect, then anything at all
   - passes, single applications, backups, restores - and then a pass that builds the same
   id and records it. The entry is a recovered one exactly when the ledger asks its
   provider, and it books what the provider booked exactly when the gap judged then is the
   gap the write was built from.
   */
  lemma RecoveredAgreesExactly(
    earlier: seq<Action>, lost: Inputs, keys: seq<Key>, between: seq<Action>, later: Inputs, again: seq<Key>,
    k: Key, fates: nat -> Fate, asks: bool)
    requires DistinctKeys(keys) && k in keys && !Malformed(lost, k)
    requires DistinctKeys(again) && k in again && !Malformed(later, k)
    requires var s0 := Run(earlier, fates, asks);
             var s1 := Step(s0, PassOver(lost, keys), fates);
             var s2 := RunFrom(s1, between, fates);
             var s3 := Step(s2, PassOver(later, again), fates);
             var j0, j2 := Judged(s0.world, lost, k), Judged(s2.world, later, k);
             && Mismatch(j0) && Mismatch(j2)
             && var id := IdOf(lost, k, j0);
             && IdOf(later, k, j2) == id
             && id !in s0.world.provider.receipts && id in s1.world.provider.receipts
             && !KnownId(s2.world.ledger, id) && KnownId(s3.world.ledger, id)
    ensures var s0 := Run(earlier, fates, asks);
            var s1 := Step(s0, PassOver(lost, keys), fates);
            var s2 := RunFrom(s1, between, fates);
            var s3 := Step(s2, PassOver(later, again), fates);
            var j0, j2 := Judged(s0.world, lost, k), Judged(s2.world, later, k);
            exists e :: e in s3.world.ledger && e.correction.id == IdOf(lost, k, j0)
                        && (e.status.Recovered? <==> asks) && (BooksAlike(e) <==> j0.gap == j2.gap)
  {
    hide Malformed, CreditsFor, KnownId, Diff, Reconcile, RunFrom;
    var s0 := Run(earlier, fates, asks);
    var s1 := Step(s0, PassOver(lost, keys), fates);
    var s2 := RunFrom(s1, between, fates);
    RunOk(earlier, fates, asks);
    StepOk(s0, PassOver(lost, keys), fates);
    RunFromOk(s1, between, fates);
    hide Run, SystemOk;
    WriteBooksGap(s0.world, lost, keys, fates, k);
    var e := RecordBooksGap(s2.world, later, again, fates, k);
    SameIdSameSort(lost, later, k, Judged(s0.world, lost, k), Judged(s2.world, later, k));
  }

  /** The same id means the same sort of gap, so equal gaps are equal amounts. */
  lemma SameIdSameSort(lost: Inputs, later: Inputs, k: Key, j0: Judgment, j2: Judgment)
    requires Mismatch(j0) && Mismatch(j2) && IdOf(lost, k, j0) == IdOf(later, k, j2)
    ensures var c0, c2 := Build(lost, k, j0), Build(later, k, j2);
            c0.units == c2.units && c0.minor == c2.minor <==> j0.gap == j2.gap
  {
  }

  /** The shortest case, from any world: one row whose acknowledgement is lost, and the row that finds the receipt. */
  lemma LostAckRecoversExactly(w: World, lost: Inputs, later: Inputs, k: Key, fates: nat -> Fate)
    requires !Malformed(lost, k) && !Malformed(later, k) && Mismatch(Judged(w, lost, k)) && Mismatch(Judged(w, later, k))
    requires var c := Build(lost, k, Judged(w, lost, k));
             && w.asks && !KnownId(w.ledger, c.id) && c.id !in w.provider.receipts
             && c.approver != "" && c.kind in lost.actions && fates(w.provider.attempts).LostAck?
             && IdOf(later, k, Judged(w, later, k)) == c.id && later.approver != "" && MeantKind(later, k, Judged(w, later, k)) in later.actions
    ensures var first := PassRow(w, lost, k, fates).0;
            var second := PassRow(first, later, k, fates).0;
            && first.ledger == w.ledger && |second.ledger| == |w.ledger| + 1
            && var e := second.ledger[|w.ledger|];
               e.status.Recovered? && (BooksAlike(e) <==> Judged(w, lost, k).gap == Judged(w, later, k).gap)
  {
    hide Malformed, CreditsFor, KnownId, Diff;
    SameIdSameSort(lost, later, k, Judged(w, lost, k), Judged(w, later, k));
  }

  function MeantKind(inp: Inputs, k: Key, j: Judgment): Kind
    requires Mismatch(j)
  {
    Build(inp, k, j).kind
  }
}
