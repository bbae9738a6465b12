/**
 Webhook intake of scripts/stripe_bridge.py: verified, deduplicated by event id,
 and monotone, so that reordering and redelivery do not matter.
 */
module Webhooks {
  import opened Basics

  datatype InvoiceState = Open | Finalized | PaymentFailed | Paid

  datatype SubState = Active | Canceled | Deleted

  function InvoiceRank(s: InvoiceState): nat {
    match s case Open => 0 case Finalized => 1 case PaymentFailed => 2 case Paid => 3
  }

  function SubRank(s: SubState): nat {
    match s case Active => 0 case Canceled => 1 case Deleted => 2
  }

  /** A well-formed event; object and customer are None when the field is absent or not a string. */
  datatype Body =
    | InvoiceEvent(state: InvoiceState, target: Option<string>, customer: Option<string>, created: Option<int>)
    | SubEvent(sub: SubState, target: Option<string>, customer: Option<string>)
    | MeterError(detail: string)
    | UnknownType(name: string)

  datatype Event = Event(id: string, body: Body)

  /** The event types an invoice or a subscription can carry. */
  predicate Proper(b: Body) {
    && (b.InvoiceEvent? ==> !b.state.Open?)
    && (b.SubEvent? ==> !b.sub.Active?)
  }

  /** What arrives: a raw body, whether its signature verifies, and the event it parses to, if any. */
  datatype Delivery = Delivery(verified: bool, event: Option<Event>)

  predicate WellFormed(d: Delivery) {
    d.event.Some? ==> d.event.value.id != "" && Proper(d.event.value.body)
  }

  datatype Invoice = Invoice(state: InvoiceState, customer: Option<string>, failedAt: Option<int>)

  datatype Sub = Sub(state: SubState, customer: Option<string>)

  datatype Receipt =
    | RejectedSignature
    | RejectedBody
    | RejectedObject(id: string)
    | IgnoredType(id: string, name: string)
    | AppliedInvoice(id: string, invoice: string, before: InvoiceState, after: InvoiceState)
    | AppliedSub(id: string, subscription: string, was: SubState, becomes: SubState)
    | AppliedMeter(id: string)

  datatype Processor = Processor(
    processed: map<string, Receipt>,
    invoices: map<string, Invoice>,
    subscriptions: map<string, Sub>,
    meterErrors: seq<Event>,
    ignored: seq<Event>)

  const EMPTY := Processor(map[], map[], map[], [], [])

  predicate HasObject(b: Body) { (b.InvoiceEvent? || b.SubEvent?) && b.target.Some? && b.target.value != "" }

  function InvoiceTransition(state: InvoiceState, event: InvoiceState): InvoiceState {
    if InvoiceRank(event) > InvoiceRank(state) then event else state
  }

  function SubTransition(state: SubState, event: SubState): SubState {
    if SubRank(event) > SubRank(state) then event else state
  }

  function InvoiceOf(p: Processor, x: string): Invoice {
    if x in p.invoices then p.invoices[x] else Invoice(Open, None, None)
  }

  function SubOf(p: Processor, x: string): Sub {
    if x in p.subscriptions then p.subscriptions[x] else Sub(Active, None)
  }

  function ApplyInvoice(p: Processor, e: Event): (Processor, Receipt)
    requires e.body.InvoiceEvent? && HasObject(e.body)
  {
    var b, x := e.body, e.body.target.value;
    var record := InvoiceOf(p, x);
    var moved := Invoice(
      InvoiceTransition(record.state, b.state),
      if b.customer.Some? then b.customer else record.customer,
      if b.state.PaymentFailed? then b.created else record.failedAt);
    (p.(invoices := p.invoices[x := moved]), AppliedInvoice(e.id, x, record.state, moved.state))
  }

  function ApplySub(p: Processor, e: Event): (Processor, Receipt)
    requires e.body.SubEvent? && HasObject(e.body)
  {
    var b, x := e.body, e.body.target.value;
    var record := SubOf(p, x);
    var moved := Sub(SubTransition(record.state, b.sub), if b.customer.Some? then b.customer else record.customer);
    (p.(subscriptions := p.subscriptions[x := moved]), AppliedSub(e.id, x, record.state, moved.state))
  }

  function Apply(p: Processor, e: Event): (Processor, Receipt) {
    match e.body
    case UnknownType(name) => (p.(ignored := p.ignored + [e]), IgnoredType(e.id, name))
    case MeterError(_) => (p.(meterErrors := p.meterErrors + [e]), AppliedMeter(e.id))
    case InvoiceEvent(_, _, _, _) => if HasObject(e.body) then ApplyInvoice(p, e) else (p, RejectedObject(e.id))
    case SubEvent(_, _, _) => if HasObject(e.body) then ApplySub(p, e) else (p, RejectedObject(e.id))
  }

  function Deliver(p: Processor, d: Delivery): (Processor, Receipt) {
    if !d.verified then (p, RejectedSignature)
    else if d.event.None? then (p, RejectedBody)
    else
      var e := d.event.value;
      if e.id in p.processed then (p, p.processed[e.id])
      else
        var (next, receipt) := Apply(p, e);
        (next.(processed := next.processed[e.id := receipt]), receipt)
  }

  function Run(ds: seq<Delivery>): Processor {
    if ds == [] then EMPTY else Deliver(Run(ds[..|ds| - 1]), ds[|ds| - 1]).0
  }

  // ---------------------------------------------------------- what was delivered

  function Accepted(ds: seq<Delivery>): set<Event> {
    set d | d in ds && d.verified && d.event.Some? :: d.event.value
  }

  /** One id, one content. */
  predicate IdsDetermineContent(events: set<Event>) {
    forall e, f :: e in events && f in events && e.id == f.id ==> e == f
  }

  predicate OnInvoice(e: Event, x: string) { e.body.InvoiceEvent? && HasObject(e.body) && e.body.target.value == x }

  predicate OnSub(e: Event, x: string) { e.body.SubEvent? && HasObject(e.body) && e.body.target.value == x }

  /** The highest-ranked state delivered for an invoice. */
  ghost predicate HighestInvoice(events: set<Event>, x: string, s: InvoiceState) {
    && (exists e :: e in events && OnInvoice(e, x) && e.body.state == s)
    && (forall e :: e in events && OnInvoice(e, x) ==> InvoiceRank(e.body.state) <= InvoiceRank(s))
  }

  ghost predicate HighestSub(events: set<Event>, x: string, s: SubState) {
    && (exists e :: e in events && OnSub(e, x) && e.body.sub == s)
    && (forall e :: e in events && OnSub(e, x) ==> SubRank(e.body.sub) <= SubRank(s))
  }

  /** Some event on the object names this customer; none names any if there is none. */
  ghost predicate NamedOnInvoice(events: set<Event>, x: string, c: Option<string>) {
    if c.Some? then exists e :: e in events && OnInvoice(e, x) && e.body.customer == c
    else forall e :: e in events && OnInvoice(e, x) ==> e.body.customer.None?
  }

  ghost predicate NamedOnSub(events: set<Event>, x: string, c: Option<string>) {
    if c.Some? then exists e :: e in events && OnSub(e, x) && e.body.customer == c
    else forall e :: e in events && OnSub(e, x) ==> e.body.customer.None?
  }

  ghost predicate InvoicesFit(invoices: map<string, Invoice>, events: set<Event>) {
    && (forall e, x :: e in events && OnInvoice(e, x) ==> x in invoices)
    && (forall x :: x in invoices ==> HighestInvoice(events, x, invoices[x].state) && NamedOnInvoice(events, x, invoices[x].customer))
  }

  ghost predicate SubsFit(subs: map<string, Sub>, events: set<Event>) {
    && (forall e, x :: e in events && OnSub(e, x) ==> x in subs)
    && (forall x :: x in subs ==> HighestSub(events, x, subs[x].state) && NamedOnSub(events, x, subs[x].customer))
  }

  predicate HasId(events: set<Event>, i: string) {
    exists e :: e in events && e.id == i
  }

  ghost predicate Fits(p: Processor, events: set<Event>) {
    && (forall i :: i in p.processed <==> HasId(events, i))
    && InvoicesFit(p.invoices, events)
    && SubsFit(p.subscriptions, events)
    && (forall e :: e in p.ignored <==> e in events && e.body.UnknownType?)
    && (forall e :: e in p.meterErrors <==> e in events && e.body.MeterError?)
  }

  lemma InvoiceNext(invoices: map<string, Invoice>, events: set<Event>, e: Event, p: Processor)
    requires InvoicesFit(invoices, events) && p.invoices == invoices && Proper(e.body)
    ensures InvoicesFit(Apply(p, e).0.invoices, events + {e})
  {
    var next := Apply(p, e).0.invoices;
    var more := events + {e};
    forall f, x | f in more && OnInvoice(f, x) ensures x in next {
      if f != e { assert f in events && OnInvoice(f, x); }
    }
    forall x | x in next
      ensures HighestInvoice(more, x, next[x].state) && NamedOnInvoice(more, x, next[x].customer)
    {
      if !OnInvoice(e, x) {
        assert next[x] == invoices[x];
        var f :| f in events && OnInvoice(f, x) && f.body.state == invoices[x].state;
        assert f in more;
        if invoices[x].customer.Some? {
          var g :| g in events && OnInvoice(g, x) && g.body.customer == invoices[x].customer;
          assert g in more;
        }
      } else {
        InvoiceMoves(invoices, events, e, x, p);
      }
    }
  }

  lemma InvoiceMoves(invoices: map<string, Invoice>, events: set<Event>, e: Event, x: string, p: Processor)
    requires InvoicesFit(invoices, events) && p.invoices == invoices && Proper(e.body) && OnInvoice(e, x)
    ensures var next := Apply(p, e).0.invoices;
            x in next && HighestInvoice(events + {e}, x, next[x].state) && NamedOnInvoice(events + {e}, x, next[x].customer)
  {
  }

  lemma SubNext(subs: map<string, Sub>, events: set<Event>, e: Event, p: Processor)
    requires SubsFit(subs, events) && p.subscriptions == subs && Proper(e.body)
    ensures SubsFit(Apply(p, e).0.subscriptions, events + {e})
  {
    var next := Apply(p, e).0.subscriptions;
    var more := events + {e};
    forall f, x | f in more && OnSub(f, x) ensures x in next {
      if f != e { assert f in events && OnSub(f, x); }
    }
    forall x | x in next
      ensures HighestSub(more, x, next[x].state) && NamedOnSub(more, x, next[x].customer)
    {
      if !OnSub(e, x) {
        assert next[x] == subs[x];
        var f :| f in events && OnSub(f, x) && f.body.sub == subs[x].state;
        assert f in more;
        if subs[x].customer.Some? {
          var g :| g in events && OnSub(g, x) && g.body.customer == subs[x].customer;
          assert g in more;
        }
      } else {
        SubMoves(subs, events, e, x, p);
      }
    }
  }

  lemma SubMoves(subs: map<string, Sub>, events: set<Event>, e: Event, x: string, p: Processor)
    requires SubsFit(subs, events) && p.subscriptions == subs && Proper(e.body) && OnSub(e, x)
    ensures var next := Apply(p, e).0.subscriptions;
            x in next && HighestSub(events + {e}, x, next[x].state) && NamedOnSub(events + {e}, x, next[x].customer)
  {
  }

  lemma LogsFit(p: Processor, events: set<Event>, e: Event)
    requires Fits(p, events) && e !in events
    ensures forall f :: f in Apply(p, e).0.ignored <==> f in events + {e} && f.body.UnknownType?
    ensures forall f :: f in Apply(p, e).0.meterErrors <==> f in events + {e} && f.body.MeterError?
  {
    hide InvoicesFit, SubsFit;
  }

  lemma IdsGrow(events: set<Event>, e: Event)
    ensures forall i :: HasId(events + {e}, i) <==> i == e.id || HasId(events, i)
  {
  }

  lemma NewEventFits(p: Processor, events: set<Event>, d: Delivery)
    requires Fits(p, events) && WellFormed(d) && d.verified && d.event.Some?
    requires d.event.value.id !in p.processed
    ensures Fits(Deliver(p, d).0, events + {d.event.value})
  {
    var e := d.event.value;
    var next := Deliver(p, d).0;
    assert e !in events by { assert e in events ==> HasId(events, e.id); }
    InvoiceNext(p.invoices, events, e, p);
    SubNext(p.subscriptions, events, e, p);
    LogsFit(p, events, e);
    IdsGrow(events, e);
    assert Apply(p, e).0.processed == p.processed;
    assert forall i :: i in next.processed <==> i == e.id || i in p.processed;
    hide InvoicesFit, SubsFit, Apply, HasId;
  }

  lemma DeliverFits(p: Processor, events: set<Event>, d: Delivery)
    requires Fits(p, events) && WellFormed(d)
    requires d.verified && d.event.Some? ==> IdsDetermineContent(events + {d.event.value})
    ensures Fits(Deliver(p, d).0, events + (if d.verified && d.event.Some? then {d.event.value} else {}))
  {
    if d.verified && d.event.Some? {
      var e, more := d.event.value, events + {d.event.value};
      if e.id in p.processed {
        assert HasId(events, e.id);
        var f :| f in events && f.id == e.id;
        assert f in more && e in more;
        assert more == events;
      } else {
        NewEventFits(p, events, d);
      }
      hide Fits;
    } else {
      assert events + {} == events;
      hide Fits;
    }
  }

  /** The processor's state is determined by the set of accepted events alone. */
  lemma {:induction false} RunFits(ds: seq<Delivery>)
    requires forall d :: d in ds ==> WellFormed(d)
    requires IdsDetermineContent(Accepted(ds))
    ensures Fits(Run(ds), Accepted(ds))
  {
    if ds == [] {
      assert Accepted(ds) == {};
    } else {
      var n := |ds| - 1;
      var d, before := ds[n], Accepted(ds[..n]);
      var added: set<Event> := if d.verified && d.event.Some? then {d.event.value} else {};
      assert ds == ds[..n] + [d];
      assert Accepted(ds) == before + added;
      RunFits(ds[..n]);
      DeliverFits(Run(ds[..n]), before, d);
      hide Fits, Deliver;
    }
  }

  // ---------------------------------------------------------- confluence

  lemma HighestInvoiceUnique(events: set<Event>, x: string, s: InvoiceState, t: InvoiceState)
    requires HighestInvoice(events, x, s) && HighestInvoice(events, x, t)
    ensures s == t
  {
  }

  ghost predicate SameStates(p: Processor, q: Processor) {
    && p.processed.Keys == q.processed.Keys
    && p.invoices.Keys == q.invoices.Keys && (forall x :: x in p.invoices ==> p.invoices[x].state == q.invoices[x].state)
    && p.subscriptions.Keys == q.subscriptions.Keys && (forall x :: x in p.subscriptions ==> p.subscriptions[x].state == q.subscriptions[x].state)
    && (forall e :: e in p.ignored <==> e in q.ignored)
    && (forall e :: e in p.meterErrors <==> e in q.meterErrors)
  }

  lemma InvoicesAgree(p: map<string, Invoice>, q: map<string, Invoice>, events: set<Event>)
    requires InvoicesFit(p, events) && InvoicesFit(q, events)
    ensures p.Keys == q.Keys && forall x :: x in p ==> p[x].state == q[x].state
  {
    forall x ensures x in p <==> x in q {
      if x in p { var e :| e in events && OnInvoice(e, x) && e.body.state == p[x].state; }
      if x in q { var e :| e in events && OnInvoice(e, x) && e.body.state == q[x].state; }
    }
    forall x | x in p ensures p[x].state == q[x].state { HighestInvoiceUnique(events, x, p[x].state, q[x].state); }
  }

  lemma SubsAgree(p: map<string, Sub>, q: map<string, Sub>, events: set<Event>)
    requires SubsFit(p, events) && SubsFit(q, events)
    ensures p.Keys == q.Keys && forall x :: x in p ==> p[x].state == q[x].state
  {
  }

  /** Two deliveries of the same events, in any order and with any repetition, end in the same states. */
  lemma Confluence(ds: seq<Delivery>, es: seq<Delivery>)
    requires forall d :: d in ds || d in es ==> WellFormed(d)
    requires Accepted(ds) == Accepted(es) && IdsDetermineContent(Accepted(ds))
    ensures SameStates(Run(ds), Run(es))
    ensures forall x :: x in Run(ds).invoices ==> HighestInvoice(Accepted(ds), x, Run(ds).invoices[x].state)
    ensures forall x :: x in Run(ds).subscriptions ==> HighestSub(Accepted(ds), x, Run(ds).subscriptions[x].state)
  {
    RunFits(ds);
    RunFits(es);
    var p, q, events := Run(ds), Run(es), Accepted(ds);
    InvoicesAgree(p.invoices, q.invoices, events);
    SubsAgree(p.subscriptions, q.subscriptions, events);
    assert forall i :: i in p.processed <==> i in q.processed;
    assert p.processed.Keys == q.processed.Keys;
    hide Run, Accepted, HighestInvoice, HighestSub, NamedOnInvoice, NamedOnSub;
  }

  predicate SameCustomer(a: Option<string>, b: Option<string>) {
    a.Some? && b.Some? ==> a == b
  }

  /** Events on one object never name different customers. */
  ghost predicate OneCustomer(events: set<Event>) {
    && (forall x, e, f :: e in events && f in events && OnInvoice(e, x) && OnInvoice(f, x) ==> SameCustomer(e.body.customer, f.body.customer))
    && (forall x, e, f :: e in events && f in events && OnSub(e, x) && OnSub(f, x) ==> SameCustomer(e.body.customer, f.body.customer))
  }

  datatype PaymentState = NoEvidence | IsPaid | HasFailed | IsCanceled | IsDeleted

  predicate AnySub(p: Processor, c: string, s: SubState) {
    exists x :: x in p.subscriptions && p.subscriptions[x] == Sub(s, Some(c))
  }

  predicate AnyInvoice(p: Processor, c: string, s: InvoiceState) {
    exists x :: x in p.invoices && p.invoices[x].state == s && p.invoices[x].customer == Some(c)
  }

  function CustomerState(p: Processor, c: string): PaymentState {
    if AnySub(p, c, Deleted) then IsDeleted
    else if AnySub(p, c, Canceled) then IsCanceled
    else if AnyInvoice(p, c, PaymentFailed) then HasFailed
    else if AnyInvoice(p, c, Paid) then IsPaid
    else NoEvidence
  }

  lemma CustomersAgree(p: Processor, q: Processor, events: set<Event>)
    requires Fits(p, events) && Fits(q, events) && OneCustomer(events)
    ensures forall x :: x in p.invoices && x in q.invoices ==> p.invoices[x].customer == q.invoices[x].customer
    ensures forall x :: x in p.subscriptions && x in q.subscriptions ==> p.subscriptions[x].customer == q.subscriptions[x].customer
  {
    forall x | x in p.invoices && x in q.invoices ensures p.invoices[x].customer == q.invoices[x].customer {
      assert NamedOnInvoice(events, x, p.invoices[x].customer) && NamedOnInvoice(events, x, q.invoices[x].customer);
    }
    forall x | x in p.subscriptions && x in q.subscriptions ensures p.subscriptions[x].customer == q.subscriptions[x].customer {
      assert NamedOnSub(events, x, p.subscriptions[x].customer) && NamedOnSub(events, x, q.subscriptions[x].customer);
    }
  }

  /** When no two events on one object disagree about the customer, every customer's payment state agrees too. */
  lemma CustomerStateConfluence(ds: seq<Delivery>, es: seq<Delivery>, c: string)
    requires forall d :: d in ds || d in es ==> WellFormed(d)
    requires Accepted(ds) == Accepted(es) && IdsDetermineContent(Accepted(ds)) && OneCustomer(Accepted(ds))
    ensures CustomerState(Run(ds), c) == CustomerState(Run(es), c)
  {
    RunFits(ds);
    RunFits(es);
    Confluence(ds, es);
    CustomersAgree(Run(ds), Run(es), Accepted(ds));
    hide Run, Accepted, Fits;
    SameEvidence(Run(ds), Run(es), c);
  }

  lemma SameEvidence(p: Processor, q: Processor, c: string)
    requires SameStates(p, q)
    requires forall x :: x in p.invoices && x in q.invoices ==> p.invoices[x].customer == q.invoices[x].customer
    requires forall x :: x in p.subscriptions && x in q.subscriptions ==> p.subscriptions[x].customer == q.subscriptions[x].customer
    ensures CustomerState(p, c) == CustomerState(q, c)
  {
  }

  /** If two events do disagree about the customer, the last one delivered wins: order is then visible. */
  lemma CustomerDependsOnOrder()
    ensures var a := Delivery(true, Some(Event("evt_a", InvoiceEvent(Paid, Some("in_1"), Some("ann"), None))));
            var b := Delivery(true, Some(Event("evt_b", InvoiceEvent(Paid, Some("in_1"), Some("bob"), None))));
            CustomerState(Run([a, b]), "ann") != CustomerState(Run([b, a]), "ann")
  {
    var a := Delivery(true, Some(Event("evt_a", InvoiceEvent(Paid, Some("in_1"), Some("ann"), None))));
    var b := Delivery(true, Some(Event("evt_b", InvoiceEvent(Paid, Some("in_1"), Some("bob"), None))));
    assert "evt_a" != "evt_b" && "ann" != "bob" by { assert "evt_a"[4] != "evt_b"[4] && "ann"[0] != "bob"[0]; }
    TwoPayments("evt_a", "evt_b", "ann", "bob");
    TwoPayments("evt_b", "evt_a", "bob", "ann");
    assert AnyInvoice(Run([b, a]), "ann", Paid) by { assert "in_1" in Run([b, a]).invoices; }
    assert !AnyInvoice(Run([a, b]), "ann", Paid);
    assert forall s :: !AnyInvoice(Run([a, b]), "ann", s);
    assert forall s :: !AnySub(Run([a, b]), "ann", s);
  }

  lemma TwoPayments(i: string, j: string, c: string, d: string)
    requires i != j
    ensures var first := Delivery(true, Some(Event(i, InvoiceEvent(Paid, Some("in_1"), Some(c), None))));
            var second := Delivery(true, Some(Event(j, InvoiceEvent(Paid, Some("in_1"), Some(d), None))));
            && Run([first, second]).invoices == map["in_1" := Invoice(Paid, Some(d), None)]
            && Run([first, second]).subscriptions == map[]
  {
    var e, f := Event(i, InvoiceEvent(Paid, Some("in_1"), Some(c), None)), Event(j, InvoiceEvent(Paid, Some("in_1"), Some(d), None));
    var first, second := Delivery(true, Some(e)), Delivery(true, Some(f));
    assert [first, second][..1] == [first] && [first][..0] == [];
    assert HasObject(e.body) && HasObject(f.body) by { assert |"in_1"| == 4; }
    assert Run([]) == EMPTY;
    var p := Run([first]);
    assert p == Deliver(EMPTY, first).0;
    assert p.invoices == map["in_1" := Invoice(Paid, Some(c), None)];
    assert Run([first, second]) == Deliver(p, second).0;
    assert j !in p.processed;
  }

  /** A receipt, once given for an event id, is what every redelivery of that id gets, and nothing else changes. */
  lemma RedeliveryIsIdle(ds: seq<Delivery>, d: Delivery)
    requires d.verified && d.event.Some? && d.event.value.id in Run(ds).processed
    ensures Deliver(Run(ds), d) == (Run(ds), Run(ds).processed[d.event.value.id])
  {
  }

  lemma {:induction false} ReceiptsAreKept(ds: seq<Delivery>, more: seq<Delivery>, id: string)
    requires id in Run(ds).processed
    ensures id in Run(ds + more).processed && Run(ds + more).processed[id] == Run(ds).processed[id]
  {
    if more == [] {
      assert ds + more == ds;
    } else {
      var n := |more| - 1;
      ReceiptsAreKept(ds, more[..n], id);
      assert (ds + more)[..|ds + more| - 1] == ds + more[..n];
    }
  }
}
