/** The recorder and the provider of scripts/stripe_bridge.py as objects: each method is one step of the outbox. */
module OutboxRecorders {
  import opened Basics
  import opened Outbox

  class ProviderDouble {
    var receipts: map<nat, Receipt>
    var billings: nat
    var sendCalls: nat
    const timeouts: set<nat>

    constructor (timeouts: set<nat>)
      ensures View() == Provider(map[], 0, 0, timeouts)
    {
      this.timeouts := timeouts;
      receipts, billings, sendCalls := map[], 0, 0;
    }

    ghost function View(): Provider
      reads this
    {
      Provider(receipts, billings, sendCalls, timeouts)
    }

    /** One write attempt; None is a response lost after the remote side acted. */
    method Send(key: nat, amount: Option<int>) returns (answer: Option<Receipt>)
      modifies this
      ensures (View(), answer) == ProviderSend(old(View()), key, amount)
    {
      sendCalls := sendCalls + 1;
      if key !in receipts {
        billings := billings + 1;
        receipts := receipts[key := Receipt(billings, key, amount)];
      }
      answer := if sendCalls in timeouts then None else Some(receipts[key]);
    }

    method StatusOf(key: nat) returns (answer: Option<Receipt>)
      ensures answer == ProviderStatus(View(), key)
    {
      answer := if key in receipts then Some(receipts[key]) else None;
    }
  }

  class OutboxRecorder {
    const provider: ProviderDouble
    var entries: seq<Entry>

    constructor (provider: ProviderDouble)
      ensures this.provider == provider && entries == []
    {
      this.provider := provider;
      entries := [];
    }

    /** A recorder over a crash image. */
    constructor FromImage(image: seq<Entry>, provider: ProviderDouble)
      ensures this.provider == provider && entries == image
    {
      this.provider := provider;
      entries := image;
    }

    ghost function View(): World
      reads this, provider
    {
      World(entries, provider.View())
    }

    method RecordPayload(payload: Payload) returns (id: nat)
      modifies this
      ensures View() == Record(old(View()), payload) && id == |entries| && Known(entries, id)
    {
      entries := entries + [Entry(payload, Pending, 0, None)];
      id := |entries|;
    }

    method SendEntry(id: nat) returns (reply: Reply)
      modifies this, provider
      ensures (View(), reply) == Send(old(View()), id)
    {
      if !Known(entries, id) { return UnknownId; }
      var e := entries[id - 1];
      if !e.status.Pending? && e.receipt.Some? {
        return Delivered(e.status, e.receipt.value, e.attempts, false);
      }
      var tried := e.(attempts := e.attempts + 1);
      entries := entries[id - 1 := tried];
      var answer := provider.Send(id, e.payload.amount);
      match answer
      case None => reply := TimedOut;
      case Some(receipt) =>
        var done := tried.(receipt := Some(receipt), status := Sent);
        assert entries[id - 1 := done] == old(entries)[id - 1 := done];
        entries := entries[id - 1 := done];
        reply := Delivered(Sent, receipt, tried.attempts, tried.attempts > 1);
    }

    method ConfirmEntry(id: nat) returns (reply: Reply)
      modifies this
      ensures (View(), reply) == Confirm(old(View()), id)
    {
      if !Known(entries, id) { return UnknownId; }
      var e := entries[id - 1];
      if e.status.Confirmed? {
        return if e.receipt.Some? then ConfirmedNow(e.receipt.value, false) else ConfirmedWithout;
      }
      var receipt := e.receipt;
      if receipt.None? {
        receipt := provider.StatusOf(id);
      }
      match receipt
      case None => reply := NoRemoteRecord;
      case Some(r) =>
        entries := entries[id - 1 := e.(receipt := Some(r), status := Confirmed)];
        reply := ConfirmedNow(r, true);
    }

    /** The restart replay: drives every entry to confirmed, or stops where a call raised. */
    method RecoverEntries() returns (ok: bool)
      modifies this, provider
      ensures (View(), ok) == Recover(old(View()))
    {
      ghost var start := View();
      var id := 1;
      while id <= |entries|
        invariant 1 <= id <= |entries| + 1
        invariant RecoverFrom(View(), id) == Recover(start)
        decreases |entries| + 1 - id
      {
        hide Send, Confirm;
        ghost var before := View();
        if !entries[id - 1].status.Confirmed? {
          if entries[id - 1].status.Pending? {
            var reply := SendEntry(id);
            if !reply.Delivered? { return false; }
          }
          var answer := ConfirmEntry(id);
          if !answer.ConfirmedNow? { return false; }
        }
        assert RecoverOne(before, id) == (View(), true);
        id := id + 1;
      }
      ok := true;
    }

    /** The persisted image: what a crash leaves behind. */
    method Image() returns (image: seq<Entry>)
      ensures image == Crash(View()).entries
    {
      image := [];
      for i := 0 to |entries|
        invariant |image| == i && forall j :: 0 <= j < i ==> image[j] == StripEntry(entries[j])
      {
        image := image + [StripEntry(entries[i])];
      }
    }
  }
}
