/** The webhook processor of scripts/stripe_bridge.py as an object over the specification in Webhooks. */
module WebhookProcessors {
  import opened Basics
  import opened Webhooks

  class WebhookProcessor {
    var processed: map<string, Receipt>
    var invoices: map<string, Invoice>
    var subscriptions: map<string, Sub>
    var meterErrors: seq<Event>
    var ignored: seq<Event>

    constructor ()
      ensures View() == EMPTY
    {
      processed, invoices, subscriptions, meterErrors, ignored := map[], map[], map[], [], [];
    }

    ghost function View(): Processor
      reads this
    {
      Processor(processed, invoices, subscriptions, meterErrors, ignored)
    }

    method DeliverOne(d: Delivery) returns (receipt: Receipt)
      modifies this
      ensures (View(), receipt) == Deliver(old(View()), d)
    {
      if !d.verified { return RejectedSignature; }
      if d.event.None? { return RejectedBody; }
      var e := d.event.value;
      if e.id in processed { return processed[e.id]; }
      match e.body {
        case UnknownType(name) =>
          ignored := ignored + [e];
          receipt := IgnoredType(e.id, name);
        case MeterError(_) =>
          meterErrors := meterErrors + [e];
          receipt := AppliedMeter(e.id);
        case InvoiceEvent(_, _, _, _) =>
          receipt := ApplyInvoiceEvent(e);
        case SubEvent(_, _, _) =>
          receipt := ApplySubEvent(e);
      }
      processed := processed[e.id := receipt];
    }

    method ApplyInvoiceEvent(e: Event) returns (receipt: Receipt)
      requires e.body.InvoiceEvent?
      modifies this
      ensures (View(), receipt) == Apply(old(View()), e)
    {
      var b := e.body;
      if !HasObject(b) { return RejectedObject(e.id); }
      var x := b.target.value;
      var record := if x in invoices then invoices[x] else Invoice(Open, None, None);
      var before := record.state;
      record := record.(state := InvoiceTransition(before, b.state));
      if b.customer.Some? { record := record.(customer := b.customer); }
      if b.state.PaymentFailed? { record := record.(failedAt := b.created); }
      invoices := invoices[x := record];
      receipt := AppliedInvoice(e.id, x, before, record.state);
    }

    method ApplySubEvent(e: Event) returns (receipt: Receipt)
      requires e.body.SubEvent?
      modifies this
      ensures (View(), receipt) == Apply(old(View()), e)
    {
      var b := e.body;
      if !HasObject(b) { return RejectedObject(e.id); }
      var x := b.target.value;
      var record := if x in subscriptions then subscriptions[x] else Sub(Active, None);
      var before := record.state;
      record := record.(state := SubTransition(before, b.sub));
      if b.customer.Some? { record := record.(customer := b.customer); }
      subscriptions := subscriptions[x := record];
      receipt := AppliedSub(e.id, x, before, record.state);
    }
  }
}
