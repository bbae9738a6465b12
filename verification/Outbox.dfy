/**
 The reliable outbox of scripts/stripe_bridge.py over a deduplicating provider:
 record first, send with lossy responses, confirm, crash, recover. Outbox ids are
 handed out as 1, 2, 3, ...; entry i is held at position i - 1.
 */
module Outbox {
  import opened Basics

  datatype Payload = Payload(amount: Option<int>, body: string)

  datatype Receipt = Receipt(provider: nat, key: nat, amount: Option<int>)

  datatype Status = Pending | Sent | Confirmed

  datatype Entry = Entry(payload: Payload, status: Status, attempts: nat, receipt: Option<Receipt>)

  /** The provider: one receipt and one billing per key; timeouts numbers the calls whose response is lost. */
  datatype Provider = Provider(receipts: map<nat, Receipt>, billings: nat, sendCalls: nat, timeouts: set<nat>)

  datatype World = World(entries: seq<Entry>, provider: Provider)

  datatype Reply =
    | UnknownId
    | TimedOut
    | NoRemoteRecord
    | Delivered(status: Status, receipt: Receipt, attempts: nat, resent: bool)
    | ConfirmedNow(receipt: Receipt, changed: bool)
    | ConfirmedWithout

  // ---------------------------------------------------------- provider

  function ProviderSend(p: Provider, key: nat, amount: Option<int>): (Provider, Option<Receipt>) {
    var calls := p.sendCalls + 1;
    var booked :=
      if key in p.receipts then p.(sendCalls := calls)
      else Provider(p.receipts[key := Receipt(p.billings + 1, key, amount)], p.billings + 1, calls, p.timeouts);
    (booked, if calls in p.timeouts then None else Some(booked.receipts[key]))
  }

  function ProviderStatus(p: Provider, key: nat): Option<Receipt> {
    if key in p.receipts then Some(p.receipts[key]) else None
  }

  // ---------------------------------------------------------- outbox steps

  predicate Known(entries: seq<Entry>, id: nat) { 1 <= id <= |entries| }

  function Record(w: World, payload: Payload): World {
    w.(entries := w.entries + [Entry(payload, Pending, 0, None)])
  }

  function Send(w: World, id: nat): (r: (World, Reply))
    ensures |r.0.entries| == |w.entries|
  {
    if !Known(w.entries, id) then (w, UnknownId)
    else
      var e := w.entries[id - 1];
      if !e.status.Pending? && e.receipt.Some? then
        (w, Delivered(e.status, e.receipt.value, e.attempts, false))
      else
        var tried := e.(attempts := e.attempts + 1);
        var (p, answer) := ProviderSend(w.provider, id, e.payload.amount);
        match answer
        case None => (World(w.entries[id - 1 := tried], p), TimedOut)
        case Some(receipt) =>
          (World(w.entries[id - 1 := tried.(receipt := Some(receipt), status := Sent)], p),
           Delivered(Sent, receipt, tried.attempts, tried.attempts > 1))
  }

  function Confirm(w: World, id: nat): (r: (World, Reply))
    ensures |r.0.entries| == |w.entries|
  {
    if !Known(w.entries, id) then (w, UnknownId)
    else
      var e := w.entries[id - 1];
      if e.status.Confirmed? then
        (w, if e.receipt.Some? then ConfirmedNow(e.receipt.value, false) else ConfirmedWithout)
      else
        var receipt := if e.receipt.Some? then e.receipt else ProviderStatus(w.provider, id);
        match receipt
        case None => (w, NoRemoteRecord)
        case Some(r) => (w.(entries := w.entries[id - 1 := e.(receipt := Some(r), status := Confirmed)]), ConfirmedNow(r, true))
  }

  /** One entry of the restart replay; false when the call raised and the replay stops there. */
  function RecoverOne(w: World, id: nat): (r: (World, bool))
    requires Known(w.entries, id)
    ensures |r.0.entries| == |w.entries|
  {
    var e := w.entries[id - 1];
    if e.status.Confirmed? then (w, true)
    else
      var (sent, reply) := if e.status.Pending? then Send(w, id) else (w, UnknownId);
      if e.status.Pending? && !reply.Delivered? then (sent, false)
      else
        var (confirmed, answer) := Confirm(sent, id);
        (confirmed, answer.ConfirmedNow?)
  }

  function RecoverFrom(w: World, id: nat): (World, bool)
    requires 1 <= id
    decreases |w.entries| + 1 - id
  {
    if !Known(w.entries, id) then (w, true)
    else
      var one := RecoverOne(w, id);
      if one.1 then RecoverFrom(one.0, id + 1) else one
  }

  function Recover(w: World): (World, bool) { RecoverFrom(w, 1) }

  /** The crash image: receipts not yet confirmed are gone. */
  function StripEntry(e: Entry): Entry { if e.status.Confirmed? then e else e.(receipt := None) }

  function Crash(w: World): World {
    w.(entries := seq(|w.entries|, i requires 0 <= i < |w.entries| => StripEntry(w.entries[i])))
  }

  datatype Action = RecordIt(payload: Payload) | SendIt(id: nat) | ConfirmIt(id: nat) | RecoverAll | CrashNow

  function Step(w: World, a: Action): World {
    match a
    case RecordIt(payload) => Record(w, payload)
    case SendIt(id) => Send(w, id).0
    case ConfirmIt(id) => Confirm(w, id).0
    case RecoverAll => Recover(w).0
    case CrashNow => Crash(w)
  }

  function Run(w: World, actions: seq<Action>): World {
    if actions == [] then w else Step(Run(w, actions[..|actions| - 1]), actions[|actions| - 1])
  }

  function Start(timeouts: set<nat>): World { World([], Provider(map[], 0, 0, timeouts)) }

  // ---------------------------------------------------------- invariant

  function Attempts(entries: seq<Entry>): nat {
    if entries == [] then 0 else Attempts(entries[..|entries| - 1]) + entries[|entries| - 1].attempts
  }

  /** What an entry knows is what the provider holds, and a confirmed entry knows it. */
  predicate EntryOk(e: Entry, id: nat, receipts: map<nat, Receipt>) {
    && (!e.status.Pending? ==> id in receipts)
    && (e.receipt.Some? ==> id in receipts && e.receipt.value == receipts[id] && !e.status.Pending?)
    && (e.status.Confirmed? ==> e.receipt.Some?)
    && (id in receipts ==> receipts[id].key == id && receipts[id].amount == e.payload.amount)
  }

  predicate EntriesOk(entries: seq<Entry>, receipts: map<nat, Receipt>) {
    forall i :: 0 <= i < |entries| ==> EntryOk(entries[i], i + 1, receipts)
  }

  /** One billing per receipt, receipts only for recorded entries, provider ids never shared. */
  predicate BilledOnce(p: Provider, entries: nat) {
    && p.billings == |p.receipts|
    && (forall k :: k in p.receipts ==> 1 <= k <= entries && 1 <= p.receipts[k].provider <= p.billings)
    && (forall k, l :: k in p.receipts && l in p.receipts && p.receipts[k].provider == p.receipts[l].provider ==> k == l)
  }

  predicate Inv(w: World) {
    && EntriesOk(w.entries, w.provider.receipts)
    && BilledOnce(w.provider, |w.entries|)
    && Attempts(w.entries) == w.provider.sendCalls
  }

  lemma {:induction false} AttemptsUpdated(entries: seq<Entry>, i: nat, e: Entry)
    requires i < |entries|
    ensures Attempts(entries[i := e]) == Attempts(entries) - entries[i].attempts + e.attempts
  {
    var n := |entries| - 1;
    if i == n {
      assert entries[i := e][..n] == entries[..n];
    } else {
      assert entries[i := e][..n] == entries[..n][i := e];
      AttemptsUpdated(entries[..n], i, e);
    }
  }

  lemma ProviderSendBillsOnce(p: Provider, key: nat, amount: Option<int>, entries: nat)
    requires BilledOnce(p, entries) && 1 <= key <= entries
    ensures BilledOnce(ProviderSend(p, key, amount).0, entries)
  {
  }

  lemma EntryAt(w: World, id: nat)
    requires EntriesOk(w.entries, w.provider.receipts) && Known(w.entries, id)
    ensures EntryOk(w.entries[id - 1], id, w.provider.receipts)
  {
  }

  lemma OneEntryChanges(entries: seq<Entry>, id: nat, e: Entry, receipts: map<nat, Receipt>, booked: map<nat, Receipt>)
    requires EntriesOk(entries, receipts) && Known(entries, id)
    requires EntryOk(e, id, booked)
    requires forall k :: k != id ==> (k in receipts <==> k in booked) && (k in receipts ==> receipts[k] == booked[k])
    ensures EntriesOk(entries[id - 1 := e], booked)
  {
  }

  predicate Skips(w: World, id: nat) {
    Known(w.entries, id) ==> !w.entries[id - 1].status.Pending? && w.entries[id - 1].receipt.Some?
  }

  lemma ProviderSendAt(p: Provider, key: nat, amount: Option<int>)
    ensures var q := ProviderSend(p, key, amount).0;
            && q.sendCalls == p.sendCalls + 1 && q.timeouts == p.timeouts
            && key in q.receipts
            && (key !in p.receipts ==> q.receipts[key].key == key && q.receipts[key].amount == amount)
            && (forall k :: k in p.receipts ==> k in q.receipts && q.receipts[k] == p.receipts[k])
            && (forall k :: k != key ==> (k in p.receipts <==> k in q.receipts))
  {
  }

  /** A delivery that reaches the provider changes one entry, and adds one attempt and one call. */
  lemma SendShape(w: World, id: nat)
    requires EntriesOk(w.entries, w.provider.receipts) && !Skips(w, id)
    ensures var next := Send(w, id).0; var e := w.entries[id - 1];
            && next.entries == w.entries[id - 1 := next.entries[id - 1]]
            && next.entries[id - 1].attempts == e.attempts + 1
            && next.entries[id - 1].payload == e.payload
            && next.provider == ProviderSend(w.provider, id, e.payload.amount).0
            && EntryOk(next.entries[id - 1], id, next.provider.receipts)
  {
  }

  lemma SendInv(w: World, id: nat)
    requires Inv(w)
    ensures Inv(Send(w, id).0)
  {
    if !Skips(w, id) {
      var e, next := w.entries[id - 1], Send(w, id).0;
      SendShape(w, id);
      ProviderSendAt(w.provider, id, e.payload.amount);
      ProviderSendBillsOnce(w.provider, id, e.payload.amount, |w.entries|);
      AttemptsUpdated(w.entries, id - 1, next.entries[id - 1]);
      OneEntryChanges(w.entries, id, next.entries[id - 1], w.provider.receipts, next.provider.receipts);
      hide BilledOnce, Attempts, EntriesOk, Send, ProviderSend, EntryOk;
    }
  }

  lemma ConfirmInv(w: World, id: nat)
    requires Inv(w)
    ensures Inv(Confirm(w, id).0) && |Confirm(w, id).0.entries| == |w.entries|
    ensures Confirm(w, id).0.provider == w.provider
  {
    if Known(w.entries, id) {
      var e, next := w.entries[id - 1], Confirm(w, id).0;
      EntryAt(w, id);
      AttemptsUpdated(w.entries, id - 1, next.entries[id - 1]);
      hide BilledOnce, Attempts;
    }
  }

  /** What the replay from id on does: nothing before id moves, and success means all of it is confirmed. */
  predicate Replayed(w: World, id: nat, upto: nat, next: World, ok: bool) {
    && |next.entries| == |w.entries|
    && (forall j :: 0 <= j < |w.entries| && (j < id - 1 || upto <= j) ==> next.entries[j] == w.entries[j])
    && (ok ==> forall j :: 0 <= j < |w.entries| && id - 1 <= j < upto ==> next.entries[j].status.Confirmed?)
  }

  lemma RecoverOneInv(w: World, id: nat)
    requires Inv(w) && Known(w.entries, id)
    ensures Inv(RecoverOne(w, id).0)
    ensures Replayed(w, id, id, RecoverOne(w, id).0, RecoverOne(w, id).1)
  {
    hide Inv, Send, Confirm, EntriesOk, Attempts;
    SendInv(w, id);
    ConfirmInv(w, id);
    OneEntryOnly(w, id);
    var sent := Send(w, id).0;
    if w.entries[id - 1].status.Pending? {
      ConfirmInv(sent, id);
      OneEntryOnly(sent, id);
    }
  }

  /** Sending and confirming touch no other entry, and a confirmation that succeeds leaves its entry confirmed. */
  lemma OneEntryOnly(w: World, id: nat)
    requires Known(w.entries, id)
    ensures forall j :: 0 <= j < |w.entries| && j != id - 1 ==> Send(w, id).0.entries[j] == w.entries[j]
    ensures forall j :: 0 <= j < |w.entries| && j != id - 1 ==> Confirm(w, id).0.entries[j] == w.entries[j]
    ensures Confirm(w, id).1.ConfirmedNow? ==> Confirm(w, id).0.entries[id - 1].status.Confirmed?
  {
  }

  lemma ReplayedOn(w: World, id: nat, mid: World, next: World, ok: bool)
    requires 1 <= id <= |w.entries|
    requires Replayed(w, id, id, mid, true) && Replayed(mid, id + 1, |w.entries|, next, ok)
    ensures Replayed(w, id, |w.entries|, next, ok)
  {
  }

  /** The replay loop keeps the invariant, and returning means everything from here on is confirmed. */
  lemma {:induction false} RecoverFromInv(w: World, id: nat)
    requires Inv(w) && 1 <= id
    ensures Inv(RecoverFrom(w, id).0)
    ensures Replayed(w, id, |w.entries|, RecoverFrom(w, id).0, RecoverFrom(w, id).1)
    decreases |w.entries| + 1 - id
  {
    if Known(w.entries, id) {
      var one := RecoverOne(w, id);
      RecoverOneInv(w, id);
      if one.1 {
        RecoverFromInv(one.0, id + 1);
        ReplayedOn(w, id, one.0, RecoverFrom(one.0, id + 1).0, RecoverFrom(one.0, id + 1).1);
      }
      hide Inv, RecoverOne;
    }
  }

  lemma {:induction false} CrashAttempts(w: World)
    ensures Attempts(Crash(w).entries) == Attempts(w.entries)
    decreases |w.entries|
  {
    if w.entries != [] {
      var shorter := w.(entries := w.entries[..|w.entries| - 1]);
      CrashAttempts(shorter);
      assert Crash(w).entries[..|w.entries| - 1] == Crash(shorter).entries;
    }
  }

  lemma StepInv(w: World, a: Action)
    requires Inv(w)
    ensures Inv(Step(w, a))
  {
    match a
    case RecordIt(payload) => assert Record(w, payload).entries[..|w.entries|] == w.entries;
    case SendIt(id) => SendInv(w, id);
    case ConfirmIt(id) => ConfirmInv(w, id);
    case RecoverAll => RecoverFromInv(w, 1);
    case CrashNow => CrashAttempts(w);
  }

  lemma {:induction false} RunInv(w: World, actions: seq<Action>)
    requires Inv(w)
    ensures Inv(Run(w, actions))
  {
    hide Inv, Step;
    if actions != [] {
      RunInv(w, actions[..|actions| - 1]);
      StepInv(Run(w, actions[..|actions| - 1]), actions[|actions| - 1]);
    }
  }

  // ---------------------------------------------------------- guarantees

  /**
   Exactly-once billing over every run with lost responses and crashes: never more
   billings than recorded entries, a confirmed entry holds the provider's own
   receipt for its own amount, and every send attempt is accounted for.
   */
  lemma AtMostOncePerEntry(timeouts: set<nat>, actions: seq<Action>)
    ensures var w := Run(Start(timeouts), actions);
            && w.provider.billings == |w.provider.receipts| <= |w.entries|
            && Attempts(w.entries) == w.provider.sendCalls
            && forall id :: 1 <= id <= |w.entries| && w.entries[id - 1].status.Confirmed? ==>
                 && id in w.provider.receipts
                 && w.entries[id - 1].receipt == Some(w.provider.receipts[id])
                 && w.provider.receipts[id].key == id
                 && w.provider.receipts[id].amount == w.entries[id - 1].payload.amount
  {
    RunInv(Start(timeouts), actions);
    var w := Run(Start(timeouts), actions);
    KeysWithin(w.provider.receipts.Keys, |w.entries|);
    forall id | 1 <= id <= |w.entries| && w.entries[id - 1].status.Confirmed?
      ensures id in w.provider.receipts && w.entries[id - 1].receipt == Some(w.provider.receipts[id])
      ensures w.provider.receipts[id].key == id && w.provider.receipts[id].amount == w.entries[id - 1].payload.amount
    {
      EntryAt(w, id);
    }
  }

  lemma {:induction false} KeysWithin(keys: set<nat>, n: nat)
    requires forall k :: k in keys ==> 1 <= k <= n
    ensures |keys| <= n
    ensures (forall k :: 1 <= k <= n ==> k in keys) ==> |keys| == n
  {
    if n == 0 {
      assert keys == {};
    } else {
      KeysWithin(keys - {n}, n - 1);
    }
  }

  /** Whenever recovery returns, every entry is confirmed and billed once: billings equal entries. */
  lemma RecoverReturnsConverged(w: World)
    requires Inv(w)
    ensures var (next, ok) := Recover(w);
            ok ==>
              && |next.entries| == |w.entries|
              && (forall i :: 0 <= i < |w.entries| ==> next.entries[i].status.Confirmed?)
              && next.provider.billings == |next.entries| == |w.entries|
              && Recover(next) == (next, true)
  {
    var (next, ok) := Recover(w);
    RecoverFromInv(w, 1);
    if ok {
      forall id | 1 <= id <= |next.entries| ensures id in next.provider.receipts {
        EntryAt(next, id);
      }
      KeysWithin(next.provider.receipts.Keys, |next.entries|);
      NothingToRecover(next, 1);
    }
  }

  lemma {:induction false} NothingToRecover(w: World, id: nat)
    requires 1 <= id && forall i :: 0 <= i < |w.entries| ==> w.entries[i].status.Confirmed?
    ensures RecoverFrom(w, id) == (w, true)
    decreases |w.entries| + 1 - id
  {
    if Known(w.entries, id) { NothingToRecover(w, id + 1); }
  }

  /** Lost responses still ahead of the provider. */
  function Ahead(p: Provider): set<nat> { set t | t in p.timeouts && t > p.sendCalls }

  lemma SendUsesATimeout(w: World, id: nat)
    requires Inv(w)
    ensures Ahead(Send(w, id).0.provider) <= Ahead(w.provider)
    ensures Send(w, id).1.TimedOut? ==> Ahead(Send(w, id).0.provider) < Ahead(w.provider)
  {
    hide Inv;
    var call := w.provider.sendCalls + 1;
    if call in w.provider.timeouts { assert call in Ahead(w.provider); }
  }

  /** Confirmation cannot fail in recovery: what was sent has a receipt somewhere. */
  lemma ConfirmSucceeds(w: World, id: nat)
    requires Inv(w) && Known(w.entries, id) && !w.entries[id - 1].status.Pending?
    ensures Confirm(w, id).1.ConfirmedNow? && Confirm(w, id).0.provider == w.provider
  {
  }

  lemma SendReplies(w: World, id: nat)
    requires Known(w.entries, id) && w.entries[id - 1].status.Pending?
    ensures Send(w, id).1.Delivered? || Send(w, id).1.TimedOut?
    ensures Send(w, id).1.Delivered? ==> Send(w, id).0.entries[id - 1].status.Sent?
  {
  }

  lemma RecoverOneUsesATimeout(w: World, id: nat)
    requires Inv(w) && Known(w.entries, id)
    ensures Ahead(RecoverOne(w, id).0.provider) <= Ahead(w.provider)
    ensures !RecoverOne(w, id).1 ==> Ahead(RecoverOne(w, id).0.provider) < Ahead(w.provider)
  {
    hide Inv, Ahead, Send, Confirm;
    var e, sent := w.entries[id - 1], Send(w, id).0;
    if e.status.Pending? {
      SendReplies(w, id);
      SendUsesATimeout(w, id);
      SendInv(w, id);
      if Send(w, id).1.Delivered? { ConfirmSucceeds(sent, id); }
    } else {
      ConfirmSucceeds(w, id);
    }
  }

  lemma {:induction false} FailureUsesATimeout(w: World, id: nat)
    requires Inv(w) && 1 <= id
    ensures var (next, ok) := RecoverFrom(w, id);
            Ahead(next.provider) <= Ahead(w.provider) && (!ok ==> Ahead(next.provider) < Ahead(w.provider))
    decreases |w.entries| + 1 - id
  {
    if Known(w.entries, id) {
      var one := RecoverOne(w, id);
      RecoverOneInv(w, id);
      RecoverOneUsesATimeout(w, id);
      hide Inv, RecoverOne, Ahead, Replayed;
      if one.1 {
        FailureUsesATimeout(one.0, id + 1);
      }
    }
  }

  function RecoverTimes(w: World, n: nat): (World, bool)
    decreases n
  {
    if n == 0 then (w, false)
    else
      var (next, ok) := Recover(w);
      if ok then (next, true) else RecoverTimes(next, n - 1)
  }

  /** Recovery retried once more than there are lost responses ahead always converges. */
  lemma {:induction false} RetriedRecoveryConverges(w: World, n: nat)
    requires Inv(w) && n > |Ahead(w.provider)|
    ensures var (next, ok) := RecoverTimes(w, n);
            ok && next.provider.billings == |next.entries| == |w.entries|
    decreases n
  {
    var (next, ok) := Recover(w);
    RecoverFromInv(w, 1);
    FailureUsesATimeout(w, 1);
    RecoverReturnsConverged(w);
    hide Inv, Recover;
    if !ok {
      Fewer(Ahead(next.provider), Ahead(w.provider));
      RetriedRecoveryConverges(next, n - 1);
    }
  }

  lemma Fewer(a: set<nat>, b: set<nat>)
    requires a < b
    ensures |a| < |b|
  {
    assert b == a + (b - a);
  }

  predicate Kept(w: World, next: World) {
    && |w.entries| <= |next.entries|
    && (forall k :: k in w.provider.receipts ==> k in next.provider.receipts && next.provider.receipts[k] == w.provider.receipts[k])
    && (forall i :: 0 <= i < |w.entries| && w.entries[i].status.Confirmed? ==> next.entries[i] == w.entries[i])
  }

  /** The provider's receipts are never rewritten, and a confirmed entry never changes. */
  lemma ReceiptsAreFinal(w: World, a: Action)
    requires Inv(w)
    ensures Kept(w, Step(w, a))
  {
    match a
    case RecoverAll => RecoverKeeps(w, 1);
    case SendIt(id) => SendKeeps(w, id);
    case _ => hide Inv;
  }

  lemma SendKeeps(w: World, id: nat)
    requires Inv(w)
    ensures Kept(w, Send(w, id).0)
  {
    if Known(w.entries, id) { EntryAt(w, id); }
    hide EntriesOk, Inv;
  }

  lemma RecoverOneKeeps(w: World, id: nat)
    requires Inv(w) && Known(w.entries, id)
    ensures Kept(w, RecoverOne(w, id).0)
  {
    SendInv(w, id);
    SendKeeps(w, id);
    hide Inv, Send;
    ConfirmKeeps(Send(w, id).0, id);
    ConfirmKeeps(w, id);
    hide Confirm;
  }

  lemma ConfirmKeeps(w: World, id: nat)
    ensures Kept(w, Confirm(w, id).0)
  {
  }

  lemma KeptThrough(w: World, mid: World, next: World)
    requires Kept(w, mid) && Kept(mid, next)
    ensures Kept(w, next)
  {
  }

  lemma {:induction false} RecoverKeeps(w: World, id: nat)
    requires Inv(w) && 1 <= id
    ensures Kept(w, RecoverFrom(w, id).0)
    decreases |w.entries| + 1 - id
  {
    if Known(w.entries, id) {
      RecoverOneInv(w, id);
      RecoverOneKeeps(w, id);
      hide Inv, RecoverOne;
      if RecoverOne(w, id).1 {
        RecoverKeeps(RecoverOne(w, id).0, id + 1);
        KeptThrough(w, RecoverOne(w, id).0, RecoverFrom(w, id).0);
        hide Kept;
      }
    }
  }
}
