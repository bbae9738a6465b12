/**
 What each step of the outbox answers and changes in any reachable world, told from the
 entries and the provider's receipts: which steps write, what a lost response leaves, and
 what a restart costs.
 */
module OutboxAnswers {
  import opened Basics
  import opened Outbox

  /** Nothing but entry id has changed. */
  predicate OnlyEntry(w: World, next: World, id: nat) {
    |next.entries| == |w.entries| && forall i :: 0 <= i < |w.entries| && i != id - 1 ==> next.entries[i] == w.entries[i]
  }

  /** One write under a key: it is billed exactly if the key is new, and counted in any case. */
  predicate Wrote(p: Provider, q: Provider, key: nat, amount: Option<int>) {
    && q.sendCalls == p.sendCalls + 1 && q.timeouts == p.timeouts
    && (key in p.receipts ==> q.receipts == p.receipts && q.billings == p.billings)
    && (key !in p.receipts ==>
          q.billings == p.billings + 1 && q.receipts == p.receipts[key := Receipt(p.billings + 1, key, amount)])
  }

  /** The intention comes first: a new entry under the next id, neither sent nor tried. */
  lemma RecordAnswers(w: World, payload: Payload)
    ensures var next := Record(w, payload);
            && next.provider == w.provider && |next.entries| == |w.entries| + 1 && next.entries[..|w.entries|] == w.entries
            && next.entries[|w.entries|] == Entry(payload, Pending, 0, None)
  {
  }

  /**
   A send of a delivered entry repeats its receipt without a write.  Any other send is
   one write under the entry's id; a lost response leaves the entry pending or sent as it
   was, one more time tried, and an answered one leaves it sent with the provider's receipt.
   */
  lemma SendAnswers(w: World, id: nat)
    requires Inv(w)
    ensures var (next, reply) := Send(w, id);
            if id < 1 || id > |w.entries| then next == w && reply == UnknownId
            else
              var e, now := w.entries[id - 1], next.entries[id - 1];
              if e.receipt.Some? then next == w && reply == Delivered(e.status, e.receipt.value, e.attempts, false)
              else
                && OnlyEntry(w, next, id) && Wrote(w.provider, next.provider, id, e.payload.amount)
                && now.payload == e.payload && now.attempts == e.attempts + 1
                && (if w.provider.sendCalls + 1 in w.provider.timeouts
                    then reply == TimedOut && now.status == e.status && now.receipt.None?
                    else now.status == Sent && now.receipt == Some(next.provider.receipts[id]) &&
                         reply == Delivered(Sent, next.provider.receipts[id], e.attempts + 1, e.attempts > 0))
  {
    if Known(w.entries, id) { EntryAt(w, id); }
    hide Inv, EntriesOk;
  }

  /** A confirmation never writes: it keeps the provider's receipt for ever, and is refused exactly where the provider has none. */
  lemma ConfirmAnswers(w: World, id: nat)
    requires Inv(w)
    ensures var (next, reply) := Confirm(w, id);
            if id < 1 || id > |w.entries| then next == w && reply == UnknownId
            else
              var e, now := w.entries[id - 1], next.entries[id - 1];
              if id !in w.provider.receipts then next == w && reply == NoRemoteRecord
              else
                && next.provider == w.provider && OnlyEntry(w, next, id)
                && now == e.(status := Confirmed, receipt := Some(w.provider.receipts[id]))
                && reply == ConfirmedNow(w.provider.receipts[id], !e.status.Confirmed?)
  {
    if Known(w.entries, id) { EntryAt(w, id); }
    hide Inv, EntriesOk;
  }

  /** A crash loses the receipts that are not confirmed, and nothing else. */
  lemma CrashLoses(w: World, i: nat)
    requires i < |w.entries|
    ensures var next := Crash(w); var e := w.entries[i];
            && next.provider == w.provider && |next.entries| == |w.entries|
            && next.entries[i] == if e.status.Confirmed? then e else Entry(e.payload, e.status, e.attempts, None)
  {
  }

  // ------------------------------------------- what recovery costs

  /** Entry i after a recovery that got past it: confirmed, and written once more exactly if it was pending. */
  predicate Recovered(e: Entry, now: Entry) {
    && now.status.Confirmed? && now.payload == e.payload
    && now.attempts == e.attempts + if e.status.Pending? then 1 else 0
  }


  /** What the replay of one entry comes to. */
  predicate Costs(w: World, id: nat, next: World, ok: bool)
    requires 1 <= id <= |w.entries|
  {
    var e := w.entries[id - 1];
    && OnlyEntry(w, next, id)
    && (ok <==> !(e.status.Pending? && w.provider.sendCalls + 1 in w.provider.timeouts))
    && (ok ==> Recovered(e, next.entries[id - 1]))
    && (!ok ==> next.entries[id - 1] == e.(attempts := e.attempts + 1))
    && next.provider.sendCalls == w.provider.sendCalls + (if e.status.Pending? then 1 else 0)
    && next.provider.timeouts == w.provider.timeouts
    && (!e.status.Pending? ==> next.provider == w.provider)
  }

  lemma PendingCosts(w: World, id: nat)
    requires Inv(w) && 1 <= id <= |w.entries| && w.entries[id - 1].status.Pending?
    ensures Costs(w, id, RecoverOne(w, id).0, RecoverOne(w, id).1)
  {
    EntryOf(w, id);
    hide Inv, Send, Confirm;
    SendAnswers(w, id);
    SendInv(w, id);
    ConfirmAnswers(Send(w, id).0, id);
  }

  lemma OthersCost(w: World, id: nat)
    requires Inv(w) && 1 <= id <= |w.entries| && !w.entries[id - 1].status.Pending?
    ensures Costs(w, id, RecoverOne(w, id).0, RecoverOne(w, id).1)
  {
    EntryOf(w, id);
    hide Inv, Send, Confirm;
    ConfirmAnswers(w, id);
  }

  lemma RecoverOneCosts(w: World, id: nat)
    requires Inv(w) && 1 <= id <= |w.entries|
    ensures Inv(RecoverOne(w, id).0) && Costs(w, id, RecoverOne(w, id).0, RecoverOne(w, id).1)
  {
    RecoverOneInv(w, id);
    hide Inv, RecoverOne, Costs;
    if w.entries[id - 1].status.Pending? { PendingCosts(w, id); } else { OthersCost(w, id); }
  }

  lemma EntryOf(w: World, id: nat)
    requires Inv(w) && 1 <= id <= |w.entries|
    ensures EntryOk(w.entries[id - 1], id, w.provider.receipts)
  {
    EntryAt(w, id);
  }

  /** Whether one of the next n writes loses its response. */
  predicate LosesWithin(p: Provider, n: nat) { exists c :: c in p.timeouts && p.sendCalls < c <= p.sendCalls + n }

  /**
   A recovery takes the entries in order and writes exactly once for each pending one; it
   gets through exactly if none of these writes loses its response, and then every entry
   is confirmed.
   */
  lemma {:induction false} RecoveryCosts(w: World, id: nat)
    requires Inv(w) && 1 <= id <= |w.entries| + 1
    ensures var (next, ok) := RecoverFrom(w, id); var todo := PendingFrom(w, id);
            && (ok <==> !LosesWithin(w.provider, todo))
            && (ok ==> next.provider.sendCalls == w.provider.sendCalls + todo)
            && |next.entries| == |w.entries| && (forall i :: 0 <= i < id - 1 ==> next.entries[i] == w.entries[i])
            && (ok ==> forall i :: id - 1 <= i < |w.entries| ==> Recovered(w.entries[i], next.entries[i]))
    decreases |w.entries| + 1 - id
  {
    hide Inv, RecoverOne, Recovered;
    if id <= |w.entries| {
      RecoverOneCosts(w, id);
      var one := RecoverOne(w, id);
      if one.1 {
        RecoveryCosts(one.0, id + 1);
        SamePending(w, one.0, id + 1);
        LosesLater(w.provider, one.0.provider, PendingFrom(w, id + 1), w.entries[id - 1].status.Pending?);
      } else {
        assert PendingFrom(w, id) >= 1;
        assert w.provider.sendCalls + 1 in w.provider.timeouts;
      }
    }
  }

  /** Pending entries from entry id on. */
  function PendingFrom(w: World, id: nat): nat
    requires 1 <= id <= |w.entries| + 1
    decreases |w.entries| + 1 - id
  {
    if id > |w.entries| then 0 else (if w.entries[id - 1].status.Pending? then 1 else 0) + PendingFrom(w, id + 1)
  }

  lemma {:induction false} SamePending(w: World, next: World, id: nat)
    requires 1 <= id <= |w.entries| + 1 && |next.entries| == |w.entries|
    requires forall i :: id - 1 <= i < |w.entries| ==> next.entries[i] == w.entries[i]
    ensures PendingFrom(next, id) == PendingFrom(w, id)
    decreases |w.entries| + 1 - id
  {
    if id <= |w.entries| { SamePending(w, next, id + 1); }
  }

  lemma LosesLater(p: Provider, q: Provider, n: nat, wrote: bool)
    requires q.timeouts == p.timeouts && q.sendCalls == p.sendCalls + (if wrote then 1 else 0)
    requires wrote ==> p.sendCalls + 1 !in p.timeouts
    ensures LosesWithin(q, n) <==> LosesWithin(p, n + if wrote then 1 else 0)
  {
  }
}
