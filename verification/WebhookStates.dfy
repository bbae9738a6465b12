/**
 What the accepted events make of invoices, subscriptions and customers, told from the
 events alone: no rank, no transition and no processing order.
 */
module WebhookStates {
  import opened Basics
  import opened Webhooks

  /** Invoice x is named by an event of kind s. */
  ghost predicate Told(events: set<Event>, x: string, s: InvoiceState) {
    x != "" && exists e :: e in events && e.body.InvoiceEvent? && e.body.target == Some(x) && e.body.state == s
  }

  /** Subscription x is named by an event of kind s. */
  ghost predicate SubTold(events: set<Event>, x: string, s: SubState) {
    x != "" && exists e :: e in events && e.body.SubEvent? && e.body.target == Some(x) && e.body.sub == s
  }

  lemma ToldOn(events: set<Event>, x: string, s: InvoiceState)
    ensures Told(events, x, s) <==> exists e :: e in events && OnInvoice(e, x) && e.body.state == s
  {
    if Told(events, x, s) {
      var e :| e in events && e.body.InvoiceEvent? && e.body.target == Some(x) && e.body.state == s;
      assert OnInvoice(e, x);
    }
  }

  lemma SubToldOn(events: set<Event>, x: string, s: SubState)
    ensures SubTold(events, x, s) <==> exists e :: e in events && OnSub(e, x) && e.body.sub == s
  {
    if SubTold(events, x, s) {
      var e :| e in events && e.body.SubEvent? && e.body.target == Some(x) && e.body.sub == s;
      assert OnSub(e, x);
    }
  }

  ghost predicate Deliverable(ds: seq<Delivery>) {
    (forall d :: d in ds ==> WellFormed(d)) && IdsDetermineContent(Accepted(ds))
  }

  lemma AcceptedProper(ds: seq<Delivery>, e: Event)
    requires Deliverable(ds) && e in Accepted(ds)
    ensures Proper(e.body)
  {
    var d :| d in ds && d.verified && d.event.Some? && d.event.value == e;
  }

  lemma HighestMeans(events: set<Event>, x: string, s: InvoiceState)
    requires HighestInvoice(events, x, s) && forall e :: e in events ==> Proper(e.body)
    ensures s == Paid <==> Told(events, x, Paid)
    ensures s == PaymentFailed <==> Told(events, x, PaymentFailed) && !Told(events, x, Paid)
    ensures s == Finalized <==> Told(events, x, Finalized) && !Told(events, x, PaymentFailed) && !Told(events, x, Paid)
  {
    ToldOn(events, x, Finalized);
    ToldOn(events, x, PaymentFailed);
    ToldOn(events, x, Paid);
    hide Told;
  }

  lemma HighestSubMeans(events: set<Event>, x: string, s: SubState)
    requires HighestSub(events, x, s) && forall e :: e in events ==> Proper(e.body)
    ensures s == Deleted <==> SubTold(events, x, Deleted)
    ensures s == Canceled <==> SubTold(events, x, Canceled) && !SubTold(events, x, Deleted)
  {
    SubToldOn(events, x, Canceled);
    SubToldOn(events, x, Deleted);
    hide SubTold;
  }

  /**
   An invoice is known exactly if an event names it.  It is paid exactly if a paid event
   does, failed exactly if a failed event and no paid one does, and finalized exactly if
   nothing but finalized events do, in whatever order they came.
   */
  lemma InvoiceStates(ds: seq<Delivery>, x: string)
    requires Deliverable(ds)
    ensures var invoices, events := Run(ds).invoices, Accepted(ds);
            && (x in invoices <==> Told(events, x, Paid) || Told(events, x, PaymentFailed) || Told(events, x, Finalized))
            && (x in invoices ==>
                  && (invoices[x].state == Paid <==> Told(events, x, Paid))
                  && (invoices[x].state == PaymentFailed <==> Told(events, x, PaymentFailed) && !Told(events, x, Paid))
                  && (invoices[x].state == Finalized <==>
                        Told(events, x, Finalized) && !Told(events, x, PaymentFailed) && !Told(events, x, Paid)))
  {
    RunFits(ds);
    var invoices, events := Run(ds).invoices, Accepted(ds);
    forall e | e in events ensures Proper(e.body) { AcceptedProper(ds, e); }
    hide Run, Accepted;
    if x in invoices {
      HighestMeans(events, x, invoices[x].state);
      var e :| e in events && OnInvoice(e, x) && e.body.state == invoices[x].state;
      assert Told(events, x, e.body.state);
    }
    forall s | Told(events, x, s) ensures x in invoices {
      ToldOn(events, x, s);
    }
  }

  /** A subscription is known exactly if an event names it; it is deleted exactly if a deleted event does, and canceled otherwise. */
  lemma SubStates(ds: seq<Delivery>, x: string)
    requires Deliverable(ds)
    ensures var subs, events := Run(ds).subscriptions, Accepted(ds);
            && (x in subs <==> SubTold(events, x, Deleted) || SubTold(events, x, Canceled))
            && (x in subs ==> subs[x].state == if SubTold(events, x, Deleted) then Deleted else Canceled)
  {
    RunFits(ds);
    var subs, events := Run(ds).subscriptions, Accepted(ds);
    forall e | e in events ensures Proper(e.body) { AcceptedProper(ds, e); }
    hide Run, Accepted;
    if x in subs {
      HighestSubMeans(events, x, subs[x].state);
      var e :| e in events && OnSub(e, x) && e.body.sub == subs[x].state;
      assert SubTold(events, x, e.body.sub);
    }
    forall s | SubTold(events, x, s) ensures x in subs {
      SubToldOn(events, x, s);
    }
  }

  // ------------------------------------------- customers

  /** An event on invoice x names customer c. */
  ghost predicate Bills(events: set<Event>, x: string, c: string) {
    x != "" && exists e :: e in events && e.body.InvoiceEvent? && e.body.target == Some(x) && e.body.customer == Some(c)
  }

  ghost predicate Subscribes(events: set<Event>, x: string, c: string) {
    x != "" && exists e :: e in events && e.body.SubEvent? && e.body.target == Some(x) && e.body.customer == Some(c)
  }

  /** With one customer per object, an invoice is its customer's exactly if an event on it names the customer. */
  lemma InvoiceHolder(ds: seq<Delivery>, x: string, c: string)
    requires Deliverable(ds) && OneCustomer(Accepted(ds))
    ensures Bills(Accepted(ds), x, c) <==> x in Run(ds).invoices && Run(ds).invoices[x].customer == Some(c)
  {
    RunFits(ds);
    var invoices, events := Run(ds).invoices, Accepted(ds);
    hide Run, Accepted;
    if Bills(events, x, c) {
      var e :| e in events && e.body.InvoiceEvent? && e.body.target == Some(x) && e.body.customer == Some(c);
      assert OnInvoice(e, x);
      assert NamedOnInvoice(events, x, invoices[x].customer);
    }
  }

  lemma SubHolder(ds: seq<Delivery>, x: string, c: string)
    requires Deliverable(ds) && OneCustomer(Accepted(ds))
    ensures Subscribes(Accepted(ds), x, c) <==> x in Run(ds).subscriptions && Run(ds).subscriptions[x].customer == Some(c)
  {
    RunFits(ds);
    var subs, events := Run(ds).subscriptions, Accepted(ds);
    hide Run, Accepted;
    if Subscribes(events, x, c) {
      var e :| e in events && e.body.SubEvent? && e.body.target == Some(x) && e.body.customer == Some(c);
      assert OnSub(e, x);
      assert NamedOnSub(events, x, subs[x].customer);
    }
  }

  ghost predicate Unpaid(events: set<Event>, x: string) { Told(events, x, PaymentFailed) && !Told(events, x, Paid) }

  lemma InvoiceEvidence(ds: seq<Delivery>, c: string)
    requires Deliverable(ds) && OneCustomer(Accepted(ds))
    ensures AnyInvoice(Run(ds), c, PaymentFailed) <==> exists x :: Bills(Accepted(ds), x, c) && Unpaid(Accepted(ds), x)
    ensures AnyInvoice(Run(ds), c, Paid) <==> exists x :: Bills(Accepted(ds), x, c) && Told(Accepted(ds), x, Paid)
  {
    forall x ensures Bills(Accepted(ds), x, c) <==> x in Run(ds).invoices && Run(ds).invoices[x].customer == Some(c) {
      InvoiceHolder(ds, x, c);
    }
    forall x | x in Run(ds).invoices
      ensures (Run(ds).invoices[x].state == Paid <==> Told(Accepted(ds), x, Paid))
      ensures (Run(ds).invoices[x].state == PaymentFailed <==> Unpaid(Accepted(ds), x))
    {
      InvoiceStates(ds, x);
    }
    hide Run, Accepted, Bills, Told, Unpaid, Deliverable, OneCustomer;
  }

  lemma SubEvidence(ds: seq<Delivery>, c: string)
    requires Deliverable(ds) && OneCustomer(Accepted(ds))
    ensures AnySub(Run(ds), c, Deleted) <==> exists x :: Subscribes(Accepted(ds), x, c) && SubTold(Accepted(ds), x, Deleted)
    ensures AnySub(Run(ds), c, Deleted) || AnySub(Run(ds), c, Canceled) <==> exists x :: Subscribes(Accepted(ds), x, c)
  {
    forall x ensures Subscribes(Accepted(ds), x, c) <==> x in Run(ds).subscriptions && Run(ds).subscriptions[x].customer == Some(c) {
      SubHolder(ds, x, c);
    }
    forall x | x in Run(ds).subscriptions
      ensures Run(ds).subscriptions[x].state == if SubTold(Accepted(ds), x, Deleted) then Deleted else Canceled
    {
      SubStates(ds, x);
    }
    hide Run, Accepted, Subscribes, SubTold, Deliverable, OneCustomer;
    var p := Run(ds);
    forall x | x in p.subscriptions && p.subscriptions[x].customer == Some(c)
      ensures AnySub(p, c, Deleted) || AnySub(p, c, Canceled)
    {
      assert p.subscriptions[x] == Sub(p.subscriptions[x].state, Some(c));
    }
  }

  /**
   A customer is deleted exactly if a subscription that names it is told deleted, else
   canceled exactly if any subscription names it, else failed exactly if an invoice that
   names it is told failed and never paid, else paid exactly if one is told paid.
   */
  lemma CustomerStates(ds: seq<Delivery>, c: string)
    requires Deliverable(ds) && OneCustomer(Accepted(ds))
    ensures var events := Accepted(ds);
            CustomerState(Run(ds), c) ==
              if exists x :: Subscribes(events, x, c) && SubTold(events, x, Deleted) then IsDeleted
              else if exists x :: Subscribes(events, x, c) then IsCanceled
              else if exists x :: Bills(events, x, c) && Unpaid(events, x) then HasFailed
              else if exists x :: Bills(events, x, c) && Told(events, x, Paid) then IsPaid
              else NoEvidence
  {
    InvoiceEvidence(ds, c);
    SubEvidence(ds, c);
    hide Run, Accepted, Bills, Told, Unpaid, Subscribes, SubTold, AnySub, AnyInvoice;
  }

  // ------------------------------------------- receipts and failure times

  /** Delivery i is the first accepted one with its event id. */
  ghost predicate First(ds: seq<Delivery>, i: int) {
    && 0 <= i < |ds| && ds[i].verified && ds[i].event.Some?
    && forall j :: 0 <= j < i && ds[j].verified && ds[j].event.Some? ==> ds[j].event.value.id != ds[i].event.value.id
  }

  ghost predicate Fails(ds: seq<Delivery>, i: int, x: string) {
    First(ds, i) && ds[i].event.value.body.InvoiceEvent? && ds[i].event.value.body.target == Some(x) && ds[i].event.value.body.state.PaymentFailed?
  }

  lemma FirstPrefix(ds: seq<Delivery>, i: int)
    requires ds != [] && i < |ds| - 1
    ensures First(ds[..|ds| - 1], i) <==> First(ds, i)
  {
  }

  /** An id is processed exactly if a verified delivery carried it. */
  lemma {:induction false} ProcessedIs(ds: seq<Delivery>, id: string)
    ensures id in Run(ds).processed <==> exists j :: 0 <= j < |ds| && ds[j].verified && ds[j].event.Some? && ds[j].event.value.id == id
  {
    if ds != [] {
      var n := |ds| - 1;
      ProcessedIs(ds[..n], id);
      DeliverProcesses(Run(ds[..n]), ds[n], id);
      hide Deliver;
    }
  }

  lemma DeliverProcesses(p: Processor, d: Delivery, id: string)
    ensures id in Deliver(p, d).0.processed <==> id in p.processed || (d.verified && d.event.Some? && d.event.value.id == id)
  {
  }

  /** The invoice's time of failure is the time of the latest failed event, by first delivery; redelivery does not move it. */
  lemma {:induction false} FailureTime(ds: seq<Delivery>, x: string, i: int)
    requires x in Run(ds).invoices && x != ""
    requires if i < 0 then forall j :: !Fails(ds, j, x) else Fails(ds, i, x) && forall j :: j > i ==> !Fails(ds, j, x)
    ensures Run(ds).invoices[x].failedAt == if i < 0 then None else ds[i].event.value.body.created
  {
    var n := |ds| - 1;
    var p, d := Run(ds[..n]), ds[n];
    if d.event.Some? { ProcessedIs(ds[..n], d.event.value.id); }
    DeliverFails(p, d, x);
    assert First(ds, n) <==> d.verified && d.event.Some? && d.event.value.id !in p.processed by {
      if d.event.Some? && d.verified && !First(ds, n) {
        var j :| 0 <= j < n && ds[j].verified && ds[j].event.Some? && ds[j].event.value.id == d.event.value.id;
        assert ds[..n][j] == ds[j];
      }
    }
    if !Fails(ds, n, x) && x in p.invoices {
      forall j ensures Fails(ds[..n], j, x) <==> Fails(ds, j, x) {
        if j < n { FirstPrefix(ds, j); }
      }
      hide First, Run, Deliver;
      FailureTime(ds[..n], x, i);
    } else if !Fails(ds, n, x) {
      forall j | 0 <= j < n ensures !Fails(ds, j, x) {
        if Fails(ds, j, x) {
          FirstPrefix(ds, j);
          NamedIsKnown(ds[..n], j, x);
        }
      }
      hide First, Run, Deliver;
    } else {
      assert i == n;
    }
  }

  lemma DeliverFails(p: Processor, d: Delivery, x: string)
    requires x != "" && x in Deliver(p, d).0.invoices
    ensures var fails := d.verified && d.event.Some? && d.event.value.id !in p.processed && d.event.value.body.InvoiceEvent? &&
                         d.event.value.body.target == Some(x) && d.event.value.body.state.PaymentFailed?;
            Deliver(p, d).0.invoices[x].failedAt ==
              if fails then d.event.value.body.created else if x in p.invoices then p.invoices[x].failedAt else None
  {
  }

  lemma {:induction false} NamedIsKnown(ds: seq<Delivery>, j: int, x: string)
    requires Fails(ds, j, x) && x != ""
    ensures x in Run(ds).invoices
  {
    var n := |ds| - 1;
    if j == n {
      forall i | 0 <= i < n ensures !(ds[i].verified && ds[i].event.Some? && ds[i].event.value.id == ds[n].event.value.id) {}
      ProcessedIs(ds[..n], ds[n].event.value.id);
    } else {
      FirstPrefix(ds, j);
      NamedIsKnown(ds[..n], j, x);
    }
  }

  predicate Named(b: Body) { (b.InvoiceEvent? || b.SubEvent?) && b.target.Some? && b.target.value != "" }

  function InvoiceStateIn(p: Processor, x: string): InvoiceState { if x in p.invoices then p.invoices[x].state else Open }

  function SubStateIn(p: Processor, x: string): SubState { if x in p.subscriptions then p.subscriptions[x].state else Active }

  /**
   What a delivery is answered: unsigned and unreadable ones are rejected and leave no
   trace, a known id gets its receipt, and a new event gets a receipt that names its kind
   and the states its object had before and has now.
   */
  lemma ReceiptTells(ds: seq<Delivery>, d: Delivery)
    ensures var p := Run(ds); var q, receipt := Run(ds + [d]), Deliver(p, d).1;
            if !d.verified then q == p && receipt == RejectedSignature
            else if d.event.None? then q == p && receipt == RejectedBody
            else
              var e := d.event.value;
              e.id in q.processed && receipt == q.processed[e.id] &&
              (e.id !in p.processed ==>
                && (e.body.UnknownType? ==> receipt == IgnoredType(e.id, e.body.name) && q.ignored == p.ignored + [e])
                && (e.body.MeterError? ==> receipt == AppliedMeter(e.id) && q.meterErrors == p.meterErrors + [e])
                && ((e.body.InvoiceEvent? || e.body.SubEvent?) && !Named(e.body) ==>
                      receipt == RejectedObject(e.id) && q == p.(processed := q.processed))
                && (e.body.InvoiceEvent? && Named(e.body) ==>
                      var x := e.body.target.value;
                      x in q.invoices && receipt == AppliedInvoice(e.id, x, InvoiceStateIn(p, x), q.invoices[x].state)
                      && q == p.(processed := q.processed, invoices := p.invoices[x := q.invoices[x]]))
                && (e.body.SubEvent? && Named(e.body) ==>
                      var x := e.body.target.value;
                      x in q.subscriptions && receipt == AppliedSub(e.id, x, SubStateIn(p, x), q.subscriptions[x].state)
                      && q == p.(processed := q.processed, subscriptions := p.subscriptions[x := q.subscriptions[x]])))
  {
    assert (ds + [d])[..|ds|] == ds;
  }
}
