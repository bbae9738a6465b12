/** What holds over every run of the corrections ledger: at-most-once effects, a rerun that is a fixpoint, and netting. */
module CorrectionRuns {
  import opened Basics
  import opened Corrections

  // ---------------------------------------------------------- at most once

  /** The ledger may be restored from any earlier backup; the provider is never rolled back. */
  datatype System = System(world: World, backups: seq<Ledger>)

  datatype Action =
    | PassOver(inp: Inputs, keys: seq<Key>)
    | ApplyOne(correction: Correction, now: int)
    | Backup
    | Restore(i: nat)

  function Step(s: System, a: Action, fates: nat -> Fate): System {
    match a
    case PassOver(inp, keys) => s.(world := Reconcile(s.world, inp, keys, fates).world)
    case ApplyOne(c, now) => s.(world := Apply(s.world, c, now, fates).0)
    case Backup => s.(backups := s.backups + [s.world.ledger])
    case Restore(i) => if i < |s.backups| then s.(world := s.world.(ledger := s.backups[i])) else s
  }

  /** An empty ledger over a provider nobody has written to; asks as in World. */
  function Fresh(asks: bool): World { World([], Provider(map[], 0, [], 0), asks) }

  function RunFrom(s: System, actions: seq<Action>, fates: nat -> Fate): System {
    if actions == [] then s
    else Step(RunFrom(s, actions[..|actions| - 1], fates), actions[|actions| - 1], fates)
  }

  function Run(actions: seq<Action>, fates: nat -> Fate, asks: bool): System {
    RunFrom(System(Fresh(asks), []), actions, fates)
  }

  predicate BooksAlike(e: Entry) {
    e.receipt.minor == e.correction.minor && e.receipt.units == e.correction.units
  }

  /** Every recorded entry is backed by the provider's own receipt for its id; no id is recorded twice. */
  predicate Backed(ledger: Ledger, receipts: map<Id, Receipt>) {
    && (forall i :: 0 <= i < |ledger| ==>
          ledger[i].correction.id in receipts && ledger[i].receipt == receipts[ledger[i].correction.id])
    && (forall i, j :: 0 <= i < j < |ledger| ==> ledger[i].correction.id != ledger[j].correction.id)
  }

  predicate AppliedAlike(ledger: Ledger) {
    forall i :: 0 <= i < |ledger| && ledger[i].status.Applied? ==> BooksAlike(ledger[i])
  }

  /** Every arrival has its receipt, and there is one effect for each. */
  predicate ProviderOk(p: Provider) {
    && p.effects == |p.receipts|
    && (forall id :: id in p.receipts ==> p.receipts[id].id == id)
    && (forall i :: 0 <= i < |p.arrived| ==> p.arrived[i] in p.receipts)
  }

  /** Each id arrived at the provider at most once. */
  predicate ArrivedOnce(p: Provider) {
    && |p.arrived| == |p.receipts|
    && (forall i, j :: 0 <= i < j < |p.arrived| ==> p.arrived[i] != p.arrived[j])
  }

  /** A ledger that asks the provider also keeps every id from arriving twice. */
  predicate WorldOk(w: World) {
    && ProviderOk(w.provider) && Backed(w.ledger, w.provider.receipts)
    && (w.asks ==> ArrivedOnce(w.provider) && AppliedAlike(w.ledger))
  }

  /** Receipts only accumulate. */
  predicate Extends(now: map<Id, Receipt>, was: map<Id, Receipt>) {
    forall id :: id in was ==> id in now && now[id] == was[id]
  }

  lemma ActOk(p: Provider, c: Correction, fate: Fate)
    requires ProviderOk(p)
    ensures ProviderOk(Act(p, c, fate).0) && Extends(Act(p, c, fate).0.receipts, p.receipts)
    ensures ArrivedOnce(p) && c.id !in p.receipts ==> ArrivedOnce(Act(p, c, fate).0)
    ensures var (q, r) := Act(p, c, fate);
            r.Some? ==> c.id in q.receipts && r.value == q.receipts[c.id]
    ensures var (q, r) := Act(p, c, fate);
            r.Some? && c.id !in p.receipts ==> r.value.minor == c.minor && r.value.units == c.units
  {
  }

  lemma BackedMore(ledger: Ledger, was: map<Id, Receipt>, now: map<Id, Receipt>)
    requires Backed(ledger, was) && Extends(now, was)
    ensures Backed(ledger, now)
  {
  }

  lemma BackedAppend(ledger: Ledger, receipts: map<Id, Receipt>, e: Entry)
    requires Backed(ledger, receipts) && !KnownId(ledger, e.correction.id)
    requires e.correction.id in receipts && e.receipt == receipts[e.correction.id]
    ensures Backed(ledger + [e], receipts)
    ensures AppliedAlike(ledger) && (e.status.Applied? ==> BooksAlike(e)) ==> AppliedAlike(ledger + [e])
  {
  }

  lemma ApplyOk(w: World, c: Correction, now: int, fates: nat -> Fate)
    requires WorldOk(w)
    ensures var next := Apply(w, c, now, fates).0;
            WorldOk(next) && next.asks == w.asks && Extends(next.provider.receipts, w.provider.receipts)
  {
    if c.approver != "" && !KnownId(w.ledger, c.id) {
      var next := Apply(w, c, now, fates).0;
      if RemoteReceipt(w, c.id).Some? {
        BackedAppend(w.ledger, w.provider.receipts, Entry(c, w.provider.receipts[c.id], Recovered, now));
      } else {
        var fate := fates(w.provider.attempts);
        ActOk(w.provider, c, fate);
        var (p, r) := Act(w.provider, c, fate);
        BackedMore(w.ledger, w.provider.receipts, p.receipts);
        if r.Some? {
          BackedAppend(w.ledger, p.receipts, Entry(c, r.value, Applied, now));
        }
        hide Act;
      }
      hide Backed, ProviderOk, Extends, KnownId, ArrivedOnce, AppliedAlike;
    }
  }

  lemma PassRowOk(w: World, inp: Inputs, k: Key, fates: nat -> Fate)
    requires WorldOk(w) && !Malformed(inp, k)
    ensures var next := PassRow(w, inp, k, fates).0;
            WorldOk(next) && next.asks == w.asks && Extends(next.provider.receipts, w.provider.receipts)
  {
    hide WorldOk, Malformed, Apply, Diff;
    var j := Diff(inp, k, CreditsFor(w.ledger, k));
    if Mismatch(j) {
      ApplyOk(w, Build(inp, k, j), inp.now, fates);
    }
  }

  lemma {:induction false} ReconcileOk(w: World, inp: Inputs, keys: seq<Key>, fates: nat -> Fate)
    requires WorldOk(w)
    ensures var next := Reconcile(w, inp, keys, fates).world;
            WorldOk(next) && next.asks == w.asks && Extends(next.provider.receipts, w.provider.receipts)
  {
    hide WorldOk, PassRow, Malformed;
    if keys != [] {
      var n := |keys| - 1;
      ReconcileOk(w, inp, keys[..n], fates);
      var before := Reconcile(w, inp, keys[..n], fates);
      if !before.raised && !Malformed(inp, keys[n]) {
        PassRowOk(before.world, inp, keys[n], fates);
      }
    }
  }

  predicate SystemOk(s: System) {
    && WorldOk(s.world)
    && forall i :: 0 <= i < |s.backups| ==>
         Backed(s.backups[i], s.world.provider.receipts) && (s.world.asks ==> AppliedAlike(s.backups[i]))
  }

  lemma StepOk(s: System, a: Action, fates: nat -> Fate)
    requires SystemOk(s)
    ensures SystemOk(Step(s, a, fates)) && Step(s, a, fates).world.asks == s.world.asks
    ensures Extends(Step(s, a, fates).world.provider.receipts, s.world.provider.receipts)
  {
    var next := Step(s, a, fates);
    match a {
      case PassOver(inp, keys) => ReconcileOk(s.world, inp, keys, fates);
      case ApplyOne(c, now) => ApplyOk(s.world, c, now, fates);
      case _ =>
    }
    forall i | 0 <= i < |next.backups|
      ensures Backed(next.backups[i], next.world.provider.receipts) && (s.world.asks ==> AppliedAlike(next.backups[i]))
    {
      if i < |s.backups| { BackedMore(s.backups[i], s.world.provider.receipts, next.world.provider.receipts); }
    }
    hide Backed, ProviderOk, Reconcile, Apply, ArrivedOnce, AppliedAlike;
  }

  lemma {:induction false} RunFromOk(s: System, actions: seq<Action>, fates: nat -> Fate)
    requires SystemOk(s)
    ensures SystemOk(RunFrom(s, actions, fates)) && RunFrom(s, actions, fates).world.asks == s.world.asks
    ensures Extends(RunFrom(s, actions, fates).world.provider.receipts, s.world.provider.receipts)
  {
    if actions != [] {
      RunFromOk(s, actions[..|actions| - 1], fates);
      StepOk(RunFrom(s, actions[..|actions| - 1], fates), actions[|actions| - 1], fates);
      hide SystemOk, Step;
    }
  }

  lemma RunOk(actions: seq<Action>, fates: nat -> Fate, asks: bool)
    ensures SystemOk(Run(actions, fates, asks)) && Run(actions, fates, asks).world.asks == asks
  {
    RunFromOk(System(Fresh(asks), []), actions, fates);
    hide RunFrom;
  }

  /**
   Over every run of passes and single applications, with writes that never arrive,
   lost acknowledgements and restores of any earlier backup: each correction id has at
   most one effect at the provider, and every entry holds the provider's receipt for its
   id. A ledger whose status query reads the provider keeps every id from even arriving
   twice, so there the guarantee does not rest on the provider's own deduplication.
   */
  lemma AtMostOnceOverEveryRun(actions: seq<Action>, fates: nat -> Fate, asks: bool)
    ensures var s := Run(actions, fates, asks); var p := s.world.provider;
            && p.effects == |p.receipts|
            && (asks ==> |p.arrived| == |p.receipts| && forall i, j :: 0 <= i < j < |p.arrived| ==> p.arrived[i] != p.arrived[j])
            && (forall i :: 0 <= i < |s.world.ledger| ==>
                  var e := s.world.ledger[i];
                  e.correction.id in p.receipts && e.receipt == p.receipts[e.correction.id])
            && (forall i, j :: 0 <= i < j < |s.world.ledger| ==> s.world.ledger[i].correction.id != s.world.ledger[j].correction.id)
  {
    RunOk(actions, fates, asks);
  }

  /** An approved correction that arrived before but is not on record arrives again exactly when the ledger does not ask. */
  lemma ArrivesAgainExactly(w: World, c: Correction, now: int, fates: nat -> Fate)
    requires c.approver != "" && !KnownId(w.ledger, c.id) && c.id in w.provider.receipts
    requires !fates(w.provider.attempts).NeverArrived?
    ensures var p := Apply(w, c, now, fates).0.provider;
            && (p.arrived == w.provider.arrived + [c.id] <==> !w.asks)
            && p.effects == w.provider.effects && p.receipts == w.provider.receipts
  {
    hide KnownId;
  }

  // ---------------------------------------------------------- the rerun

  /** Nothing about this line would reach the provider or the ledger any more. */
  predicate Quiet(ledger: Ledger, inp: Inputs, k: Key)
    requires !Malformed(inp, k)
  {
    var j := Diff(inp, k, CreditsFor(ledger, k));
    Mismatch(j) ==> KnownId(ledger, IdOf(inp, k, j))
  }

  lemma QuietRow(w: World, inp: Inputs, k: Key, fates: nat -> Fate)
    requires !Malformed(inp, k) && Quiet(w.ledger, inp, k)
    ensures PassRow(w, inp, k, fates).0 == w
  {
  }

  lemma AppendKeeps(ledger: Ledger, e: Entry, k: Key)
    ensures CreditsFor(ledger + [e], k) == CreditsFor(ledger, k) + CreditOf(e, k)
    ensures forall id :: KnownId(ledger + [e], id) <==> KnownId(ledger, id) || id == e.correction.id
  {
    assert (ledger + [e])[..|ledger|] == ledger;
    forall id ensures KnownId(ledger + [e], id) <==> KnownId(ledger, id) || id == e.correction.id {
      if KnownId(ledger, id) {
        var i :| 0 <= i < |ledger| && ledger[i].correction.id == id;
        assert (ledger + [e])[i].correction.id == id;
      }
      if id == e.correction.id { assert (ledger + [e])[|ledger|].correction.id == id; }
    }
  }

  /** What an approved row leaves behind in the ledger: nothing, or one entry for the row's own correction. */
  ghost predicate RowRecords(w: World, inp: Inputs, k: Key, next: World)
    requires !Malformed(inp, k)
  {
    var j := Diff(inp, k, CreditsFor(w.ledger, k));
    || next.ledger == w.ledger
    || (Mismatch(j) && !KnownId(w.ledger, IdOf(inp, k, j))
        && exists e: Entry :: next.ledger == w.ledger + [e] && e.correction == Build(inp, k, j))
  }

  lemma RowRecorded(w: World, inp: Inputs, k: Key, fates: nat -> Fate)
    requires !Malformed(inp, k)
    ensures RowRecords(w, inp, k, PassRow(w, inp, k, fates).0)
    ensures Reliable(inp, fates) ==> PassRow(w, inp, k, fates).0.ledger != w.ledger || Quiet(w.ledger, inp, k)
  {
  }

  /** An approver, an action for every kind, and no raising action. */
  ghost predicate Reliable(inp: Inputs, fates: nat -> Fate) {
    && inp.approver != ""
    && (forall kind: Kind :: kind in inp.actions)
    && (forall n: nat :: fates(n).Acked?)
  }

  /** A recorded money correction closes the gap it was built from, to the unit. */
  lemma GapCloses(inp: Inputs, k: Key, credits: int)
    requires !Malformed(inp, k) && Diff(inp, k, credits).MoneyMismatch?
    ensures var j := Diff(inp, k, credits);
            Diff(inp, k, credits + Build(inp, k, j).minor) == Match
  {
  }

  lemma EntryQuiets(w: World, inp: Inputs, k: Key, next: World)
    requires !Malformed(inp, k) && RowRecords(w, inp, k, next) && next.ledger != w.ledger
    ensures Quiet(next.ledger, inp, k)
    ensures Diff(inp, k, CreditsFor(w.ledger, k)).MoneyMismatch? ==> Diff(inp, k, CreditsFor(next.ledger, k)) == Match
  {
    hide CreditsFor, KnownId, Malformed;
    var j := Diff(inp, k, CreditsFor(w.ledger, k));
    var e: Entry :| next.ledger == w.ledger + [e] && e.correction == Build(inp, k, j);
    AppendKeeps(w.ledger, e, k);
    if j.MoneyMismatch? { GapCloses(inp, k, CreditsFor(w.ledger, k)); }
  }

  /** A row of one line never touches what another line's judgment depends on. */
  lemma OtherLinesKeep(w: World, inp: Inputs, k: Key, next: World, other: Key)
    requires !Malformed(inp, k) && !Malformed(inp, other) && other != k
    requires RowRecords(w, inp, k, next)
    ensures CreditsFor(next.ledger, other) == CreditsFor(w.ledger, other)
    ensures Quiet(w.ledger, inp, other) ==> Quiet(next.ledger, inp, other)
    ensures forall s :: KnownId(next.ledger, LineId(other, s)) == KnownId(w.ledger, LineId(other, s))
  {
  }

  ghost predicate AllWellFormed(inp: Inputs, keys: seq<Key>) {
    forall k :: k in keys ==> !Malformed(inp, k)
  }

  predicate DistinctKeys(keys: seq<Key>) {
    forall i, j :: 0 <= i < j < |keys| ==> keys[i] != keys[j]
  }

  /** The money mismatch of a line whose correction id is new. */
  predicate NewMismatch(ledger: Ledger, inp: Inputs, k: Key)
    requires !Malformed(inp, k)
  {
    var j := Diff(inp, k, CreditsFor(ledger, k));
    j.MoneyMismatch? && !KnownId(ledger, IdOf(inp, k, j))
  }

  /** Lines a pass has not reached are judged as if the pass had not started. */
  lemma {:induction false} PassLeavesOthers(w: World, inp: Inputs, keys: seq<Key>, fates: nat -> Fate, other: Key)
    requires AllWellFormed(inp, keys) && !Malformed(inp, other) && other !in keys
    ensures !Reconcile(w, inp, keys, fates).raised
    ensures CreditsFor(Reconcile(w, inp, keys, fates).world.ledger, other) == CreditsFor(w.ledger, other)
    ensures forall s :: KnownId(Reconcile(w, inp, keys, fates).world.ledger, LineId(other, s)) == KnownId(w.ledger, LineId(other, s))
  {
    hide Malformed, CreditsFor, KnownId, PassRow;
    if keys != [] {
      var n := |keys| - 1;
      PassLeavesOthers(w, inp, keys[..n], fates, other);
      var before := Reconcile(w, inp, keys[..n], fates).world;
      RowRecorded(before, inp, keys[n], fates);
      OtherLinesKeep(before, inp, keys[n], PassRow(before, inp, keys[n], fates).0, other);
    }
  }

  lemma {:induction false} NeverRaises(w: World, inp: Inputs, keys: seq<Key>, fates: nat -> Fate)
    requires AllWellFormed(inp, keys)
    ensures !Reconcile(w, inp, keys, fates).raised
  {
    hide Malformed, PassRow;
    if keys != [] { NeverRaises(w, inp, keys[..|keys| - 1], fates); }
  }

  /** After a reliable pass every line is quiet, and each new money mismatch nets to exactly zero. */
  lemma {:induction false} PassSettles(w: World, inp: Inputs, keys: seq<Key>, fates: nat -> Fate)
    requires AllWellFormed(inp, keys) && DistinctKeys(keys) && Reliable(inp, fates)
    ensures var after := Reconcile(w, inp, keys, fates).world.ledger;
            && (forall k :: k in keys ==> Quiet(after, inp, k))
            && (forall k :: k in keys && NewMismatch(w.ledger, inp, k) ==> Diff(inp, k, CreditsFor(after, k)) == Match)
  {
    if keys != [] {
      var n := |keys| - 1;
      var k, before := keys[n], Reconcile(w, inp, keys[..n], fates).world;
      var after := PassRow(before, inp, k, fates).0;
      NeverRaises(w, inp, keys[..n], fates);
      PassSettles(w, inp, keys[..n], fates);
      PassLeavesOthers(w, inp, keys[..n], fates, k);
      RowRecorded(before, inp, k, fates);
      forall x | x in keys
        ensures Quiet(after.ledger, inp, x)
        ensures NewMismatch(w.ledger, inp, x) ==> Diff(inp, x, CreditsFor(after.ledger, x)) == Match
      {
        hide Malformed, PassRow, Diff, CreditsFor, KnownId, Reliable;
        if x == k {
          if after.ledger != before.ledger { EntryQuiets(before, inp, k, after); }
        } else {
          assert x in keys[..n];
          OtherLinesKeep(before, inp, k, after, x);
        }
      }
      hide Malformed, PassRow, Diff, CreditsFor, KnownId, Reliable, Quiet, NewMismatch;
    }
  }

  lemma {:induction false} QuietPass(w: World, inp: Inputs, keys: seq<Key>, fates: nat -> Fate)
    requires AllWellFormed(inp, keys) && forall k :: k in keys ==> !Malformed(inp, k) && Quiet(w.ledger, inp, k)
    ensures Reconcile(w, inp, keys, fates).world == w && !Reconcile(w, inp, keys, fates).raised
  {
    hide Malformed, PassRow, Quiet;
    if keys != [] {
      var n := |keys| - 1;
      QuietPass(w, inp, keys[..n], fates);
      QuietRow(w, inp, keys[n], fates);
    }
  }

  /** The same lines again: only the approver, the clock, the actions and the fates may differ. */
  predicate SameLines(inp: Inputs, rerun: Inputs) {
    inp.local == rerun.local && inp.provider == rerun.provider && inp.inFlight == rerun.inFlight
  }

  lemma SameQuiet(ledger: Ledger, inp: Inputs, rerun: Inputs, k: Key)
    requires SameLines(inp, rerun) && !Malformed(inp, k)
    ensures !Malformed(rerun, k)
    ensures Quiet(ledger, inp, k) ==> Quiet(ledger, rerun, k)
  {
  }

  /**
   Rerun fixpoint: after one reliable pass over well-formed lines, a second pass over
   the same lines - whoever approves it, whatever its actions would do - changes
   neither the ledger nor the provider, which is not even called.
   */
  lemma RerunIsFixpoint(w: World, inp: Inputs, rerun: Inputs, keys: seq<Key>, again: seq<Key>, fates: nat -> Fate, fates2: nat -> Fate)
    requires CoversLines(keys, inp) && CoversLines(again, rerun) && SameLines(inp, rerun)
    requires AllWellFormed(inp, keys) && Reliable(inp, fates)
    ensures var first := Reconcile(w, inp, keys, fates);
            && !first.raised
            && Reconcile(first.world, rerun, again, fates2).world == first.world
            && !Reconcile(first.world, rerun, again, fates2).raised
  {
    hide Reconcile, Malformed, Quiet, Reliable;
    NeverRaises(w, inp, keys, fates);
    PassSettles(w, inp, keys, fates);
    var after := Reconcile(w, inp, keys, fates).world;
    forall k | k in again ensures !Malformed(rerun, k) && Quiet(after.ledger, rerun, k) {
      assert k in keys;
      SameQuiet(after.ledger, inp, rerun, k);
    }
    QuietPass(after, rerun, again, fates2);
  }

  /** Every money mismatch whose correction was new nets to a zero gap in the rerun's judgment. */
  lemma NewMismatchesNetToZero(w: World, inp: Inputs, keys: seq<Key>, k: Key, fates: nat -> Fate)
    requires CoversLines(keys, inp) && AllWellFormed(inp, keys) && Reliable(inp, fates) && k in keys
    requires NewMismatch(w.ledger, inp, k)
    ensures Diff(inp, k, CreditsFor(Reconcile(w, inp, keys, fates).world.ledger, k)) == Match
  {
    PassSettles(w, inp, keys, fates);
  }

  /** Without an approver a pass proposes and changes nothing at all. */
  lemma {:induction false} UnapprovedOnlyProposes(w: World, inp: Inputs, keys: seq<Key>, fates: nat -> Fate)
    requires inp.approver == ""
    ensures Reconcile(w, inp, keys, fates).world == w
  {
    hide Malformed, Diff, Build, CreditsFor;
    if keys != [] { UnapprovedOnlyProposes(w, inp, keys[..|keys| - 1], fates); }
  }

  // ---------------------------------------------------------- recovered entries

  /**
   A recovered entry records the new correction, not what the provider booked: if the
   gap moved between the lost acknowledgement and the rerun, the ledger's credit is
   not the provider's. An applied entry always agrees.
   */
  lemma RecoveredMayDisagree()
    ensures var k := Key("2026-01", "ws", "cpu");
            var billed := ProviderLine(true, Some(5), "USD", Some(100), Some(Finalized));
            var lost := Inputs(map[k := LocalLine(5, 90, "USD")], map[k := billed], map[], {CreditNote}, 0, None, "ann");
            var later := lost.(local := map[k := LocalLine(5, 70, "USD")]);
            var start := Fresh(true);
            var first := Reconcile(start, lost, [k], n => LostAck).world;
            var second := Reconcile(first, later, [k], n => Acked).world;
            && first.ledger == []
            && |second.ledger| == 1 && second.ledger[0].status.Recovered?
            && second.ledger[0].correction.minor == 30 && second.ledger[0].receipt.minor == 10
            && second.provider.effects == 1
  {
  }

  /** Over every run of a ledger that asks, an applied entry books exactly what the provider booked. */
  lemma AppliedAgrees(actions: seq<Action>, fates: nat -> Fate, i: nat)
    requires i < |Run(actions, fates, true).world.ledger| && Run(actions, fates, true).world.ledger[i].status.Applied?
    ensures BooksAlike(Run(actions, fates, true).world.ledger[i])
  {
    RunOk(actions, fates, true);
    hide RunFrom;
  }

  // ---------------------------------------------------------- lines that stand still

  /** What the line asks for before any credit. */
  predicate AsksFor(inp: Inputs, k: Key, id: Id, units: int, minor: int) {
    && !Malformed(inp, k)
    && var j := Diff(inp, k, 0);
    Mismatch(j) && id == IdOf(inp, k, j) && units == Build(inp, k, j).units && minor == Build(inp, k, j).minor
  }

  predicate FaithfulEntry(e: Entry, inp: Inputs) {
    BooksAlike(e) && AsksFor(inp, e.correction.key, e.correction.id, e.correction.units, e.correction.minor)
  }

  predicate FaithfulReceipt(id: Id, r: Receipt, inp: Inputs) {
    id.LineId? && AsksFor(inp, id.key, id, r.units, r.minor)
  }

  /** Ledger and provider hold nothing but what the unchanged lines ask for, and agree on it. */
  predicate Faithful(w: World, inp: Inputs) {
    && (forall i :: 0 <= i < |w.ledger| ==> FaithfulEntry(w.ledger[i], inp))
    && (forall id :: id in w.provider.receipts ==> FaithfulReceipt(id, w.provider.receipts[id], inp))
  }

  /** Until a line's correction is recorded no credit counts towards the line. */
  lemma {:induction false} NoCreditYet(ledger: Ledger, inp: Inputs, k: Key)
    requires !Malformed(inp, k) && forall i :: 0 <= i < |ledger| ==> FaithfulEntry(ledger[i], inp)
    requires !KnownId(ledger, IdOf(inp, k, Diff(inp, k, 0)))
    ensures CreditsFor(ledger, k) == 0
  {
    hide Malformed, Diff;
    if ledger != [] {
      var front, last := ledger[..|ledger| - 1], ledger[|ledger| - 1];
      assert ledger == front + [last];
      AppendKeeps(front, last, k);
      NoCreditYet(front, inp, k);
      assert FaithfulEntry(last, inp);
    }
  }

  /** Credits cannot turn a unit gap into a money gap or back, so a line has one correction id. */
  lemma OneIdPerLine(inp: Inputs, k: Key, credits: int)
    requires !Malformed(inp, k) && Mismatch(Diff(inp, k, credits))
    ensures IdOf(inp, k, Diff(inp, k, credits)) == IdOf(inp, k, Diff(inp, k, 0))
  {
  }

  lemma SameBuild(inp: Inputs, now: Inputs, k: Key, credits: int)
    requires SameLines(inp, now) && !Malformed(now, k)
    ensures !Malformed(inp, k) && Diff(inp, k, credits) == Diff(now, k, credits)
    ensures var j := Diff(now, k, credits);
            Mismatch(j) ==>
              && IdOf(inp, k, j) == IdOf(now, k, j)
              && Build(inp, k, j).units == Build(now, k, j).units && Build(inp, k, j).minor == Build(now, k, j).minor
  {
  }

  lemma FaithfulApply(w: World, inp: Inputs, c: Correction, at: int, fates: nat -> Fate)
    requires Faithful(w, inp) && AsksFor(inp, c.key, c.id, c.units, c.minor) && c.id.LineId? && c.id.key == c.key
    ensures Faithful(Apply(w, c, at, fates).0, inp)
  {
    hide KnownId, EntryOf;
    if c.id in w.provider.receipts {
      var r := w.provider.receipts[c.id];
      assert FaithfulReceipt(c.id, r, inp);
      assert AsksFor(inp, c.key, c.id, r.units, r.minor);
      assert r.minor == c.minor && r.units == c.units;
    }
    hide AsksFor;
  }

  lemma FaithfulRow(w: World, inp: Inputs, now: Inputs, k: Key, fates: nat -> Fate)
    requires Faithful(w, inp) && SameLines(inp, now) && !Malformed(now, k)
    ensures Faithful(PassRow(w, now, k, fates).0, inp)
  {
    var credits := CreditsFor(w.ledger, k);
    var j := Diff(now, k, credits);
    SameBuild(inp, now, k, 0);
    SameBuild(inp, now, k, credits);
    if Mismatch(j) {
      OneIdPerLine(now, k, credits);
      var c := Build(now, k, j);
      if !KnownId(w.ledger, c.id) {
        NoCreditYet(w.ledger, inp, k);
        assert AsksFor(inp, k, c.id, c.units, c.minor);
        FaithfulApply(w, inp, c, now.now, fates);
      } else {
        assert PassRow(w, now, k, fates).0 == w by { hide Diff, Build, CreditsFor, KnownId; }
      }
    }
    hide Malformed, Diff, Build, CreditsFor, KnownId, Faithful, AsksFor, Apply, MoneyGap, UnitsGap, MoneyKind;
  }

  lemma {:induction false} FaithfulPass(w: World, inp: Inputs, now: Inputs, keys: seq<Key>, fates: nat -> Fate)
    requires Faithful(w, inp) && SameLines(inp, now)
    ensures Faithful(Reconcile(w, now, keys, fates).world, inp)
  {
    hide Malformed, PassRow, Faithful;
    if keys != [] {
      var n := |keys| - 1;
      FaithfulPass(w, inp, now, keys[..n], fates);
      var before := Reconcile(w, now, keys[..n], fates);
      if !before.raised && !Malformed(now, keys[n]) {
        FaithfulRow(before.world, inp, now, keys[n], fates);
      }
    }
  }

  datatype Rerun = Rerun(inp: Inputs, keys: seq<Key>)

  function Reruns(w: World, runs: seq<Rerun>, fates: nat -> Fate): World {
    if runs == [] then w
    else Reconcile(Reruns(w, runs[..|runs| - 1], fates), runs[|runs| - 1].inp, runs[|runs| - 1].keys, fates).world
  }

  /**
   As long as the lines stand still, any number of passes - with any approvers, any
   missing actions, lost writes and lost acknowledgements - book in the ledger exactly
   what the provider booked, recovered entries included.
   */
  lemma {:induction false} StillLinesBookAlike(inp: Inputs, runs: seq<Rerun>, fates: nat -> Fate, asks: bool)
    requires forall i :: 0 <= i < |runs| ==> SameLines(inp, runs[i].inp)
    ensures var w := Reruns(Fresh(asks), runs, fates);
            Faithful(w, inp) && forall i :: 0 <= i < |w.ledger| ==> BooksAlike(w.ledger[i])
  {
    if runs != [] {
      var n := |runs| - 1;
      StillLinesBookAlike(inp, runs[..n], fates, asks);
      FaithfulPass(Reruns(Fresh(asks), runs[..n], fates), inp, runs[n].inp, runs[n].keys, fates);
    }
    hide Reconcile;
    var w := Reruns(Fresh(asks), runs, fates);
    assert forall i :: 0 <= i < |w.ledger| ==> FaithfulEntry(w.ledger[i], inp);
  }
}
