/**
 Which customer an object ends with, and what a customer's payment state can be, over
 all deliveries of one set of events: exact conditions for order not to matter.
 */
module WebhookCustomers {
  import opened Basics
  import opened Webhooks

  /** An invoice or a subscription. */
  datatype Object = InvoiceNo(i: string) | SubNo(s: string)

  predicate On(e: Event, o: Object) {
    match o case InvoiceNo(i) => OnInvoice(e, i) case SubNo(s) => OnSub(e, s)
  }

  predicate Present(p: Processor, o: Object) {
    match o case InvoiceNo(i) => i in p.invoices case SubNo(s) => s in p.subscriptions
  }

  function HolderOf(p: Processor, o: Object): Option<string>
    requires Present(p, o)
  {
    match o case InvoiceNo(i) => p.invoices[i].customer case SubNo(s) => p.subscriptions[s].customer
  }

  /** The event names a customer on the object. */
  predicate Names(e: Event, o: Object) { On(e, o) && e.body.customer.Some? }

  predicate NamesThis(e: Event, o: Object, c: string) { On(e, o) && e.body.customer == Some(c) }

  // ------------------------------------------- events as deliveries

  predicate Plausible(events: set<Event>) {
    && (forall e :: e in events ==> e.id != "" && Proper(e.body))
    && IdsDetermineContent(events)
  }

  ghost predicate Delivers(ds: seq<Delivery>, events: set<Event>) {
    (forall d :: d in ds ==> WellFormed(d)) && Accepted(ds) == events
  }

  function Sent(es: seq<Event>): (ds: seq<Delivery>)
    ensures |ds| == |es| && forall i :: 0 <= i < |es| ==> ds[i] == Delivery(true, Some(es[i]))
  {
    seq(|es|, i requires 0 <= i < |es| => Delivery(true, Some(es[i])))
  }

  predicate Distinct(es: seq<Event>) { forall i, j :: 0 <= i < j < |es| ==> es[i] != es[j] }

  lemma SentDelivers(es: seq<Event>, events: set<Event>)
    requires Plausible(events) && forall e :: e in events <==> e in es
    ensures Delivers(Sent(es), events)
  {
    var ds := Sent(es);
    forall e ensures e in Accepted(ds) <==> e in events {
      if e in events {
        var i :| 0 <= i < |es| && es[i] == e;
        assert ds[i] in ds && ds[i].event.value == e;
      }
    }
  }

  lemma {:induction false} Listed(events: set<Event>) returns (es: seq<Event>)
    ensures Distinct(es) && forall e :: e in es <==> e in events
  {
    if events == {} {
      es := [];
    } else {
      var e :| e in events;
      var rest := Listed(events - {e});
      es := rest + [e];
    }
  }

  // ------------------------------------------- the last naming wins

  lemma FreshDelivery(p: Processor, e: Event, o: Object)
    requires e.id !in p.processed && Proper(e.body)
    ensures var q := Deliver(p, Delivery(true, Some(e))).0;
            && (Present(p, o) ==> Present(q, o))
            && (On(e, o) ==> Present(q, o))
            && (Names(e, o) ==> HolderOf(q, o) == e.body.customer)
            && (!Names(e, o) && Present(p, o) ==> HolderOf(q, o) == HolderOf(p, o))
  {
  }

  /** Delivered one after the other without repeats, the last event that names a customer decides. */
  lemma {:induction false} LastNamingWins(first: seq<Event>, last: seq<Event>, o: Object)
    requires Distinct(first + last) && Plausible(set e | e in first + last)
    requires exists e :: e in last && Names(e, o)
    ensures var p := Run(Sent(first + last));
            Present(p, o) && exists e :: e in last && Names(e, o) && HolderOf(p, o) == e.body.customer
    decreases |last|
  {
    hide Deliver, OnInvoice, OnSub, Present, HolderOf, Plausible, Distinct;
    var n := |last| - 1;
    var es, e := first + last, last[n];
    var front := first + last[..n];
    assert es == front + [e] && Sent(es)[..|es| - 1] == Sent(front);
    NewId(front, e);
    FreshDelivery(Run(Sent(front)), e, o);
    assert Run(Sent(es)) == Deliver(Run(Sent(front)), Delivery(true, Some(e))).0;
    if !Names(e, o) {
      assert exists x :: x in last[..n] && Names(x, o) by {
        var x :| x in last && Names(x, o);
        assert x in last[..n];
      }
      LastNamingWins(first, last[..n], o);
    }
  }

  lemma NotSeen(front: seq<Event>, e: Event)
    requires Distinct(front + [e]) && Plausible(set x | x in front + [e])
    ensures Distinct(front) && Plausible(set x | x in front) && !HasId((set x | x in front), e.id) && Proper(e.body)
  {
    var all, seen := set x | x in front + [e], set x | x in front;
    assert (front + [e])[|front|] == e;
    assert forall x :: x in front ==> x in front + [e];
    assert e in all && seen <= all;
    forall i | 0 <= i < |front| ensures front[i] != e {
      assert (front + [e])[i] == front[i];
    }
    forall x | x in seen ensures x.id != e.id {
      assert x in all && x != e;
    }
    forall i, j | 0 <= i < j < |front| ensures front[i] != front[j] {
      assert (front + [e])[i] == front[i] && (front + [e])[j] == front[j];
    }
  }

  /** An event delivered once has an id the processor has not seen. */
  lemma NewId(front: seq<Event>, e: Event)
    requires Distinct(front + [e]) && Plausible(set x | x in front + [e])
    ensures e.id !in Run(Sent(front)).processed && Proper(e.body)
    ensures Distinct(front) && Plausible(set x | x in front)
  {
    NotSeen(front, e);
    var seen := set x | x in front;
    SentDelivers(front, seen);
    RunFits(Sent(front));
    hide Run, InvoicesFit, SubsFit, Plausible, Distinct, HasId;
  }

  // ------------------------------------------- objects and their customers

  /** What every delivery of the events leaves on an object. */
  lemma HolderFits(ds: seq<Delivery>, events: set<Event>, o: Object)
    requires Delivers(ds, events) && IdsDetermineContent(events)
    ensures var p := Run(ds);
            && (Present(p, o) <==> exists e :: e in events && On(e, o))
            && (Present(p, o) && HolderOf(p, o).Some? ==> exists e :: e in events && NamesThis(e, o, HolderOf(p, o).value))
            && (Present(p, o) && HolderOf(p, o).None? ==> forall e :: e in events ==> !Names(e, o))
  {
    RunFits(ds);
    hide Run;
    match o {
      case InvoiceNo(i) =>
        if Present(Run(ds), o) { assert HighestInvoice(events, i, Run(ds).invoices[i].state); }
      case SubNo(n) =>
        if Present(Run(ds), o) { assert HighestSub(events, n, Run(ds).subscriptions[n].state); }
    }
  }

  ghost predicate SameHolders(p: Processor, q: Processor) {
    forall o :: Present(p, o) && Present(q, o) ==> HolderOf(p, o) == HolderOf(q, o)
  }

  /** The events with e last. */
  lemma EndingWith(events: set<Event>, e: Event) returns (rest: seq<Event>)
    requires Plausible(events) && e in events
    ensures Distinct(rest + [e]) && Delivers(Sent(rest + [e]), events) && (set x | x in rest + [e]) == events
  {
    rest := Listed(events - {e});
    assert forall x :: x in rest + [e] <==> x in events;
    SentDelivers(rest + [e], events);
  }

  /** Any event that names a customer can be made the one that decides. */
  lemma CanDecide(events: set<Event>, e: Event, o: Object) returns (ds: seq<Delivery>)
    requires Plausible(events) && e in events && Names(e, o)
    ensures Delivers(ds, events) && Present(Run(ds), o) && HolderOf(Run(ds), o) == e.body.customer
  {
    var rest := EndingWith(events, e);
    ds := Sent(rest + [e]);
    assert e in [e];
    LastNamingWins(rest, [e], o);
  }

  lemma Disagreement(events: set<Event>) returns (o: Object, e: Event, f: Event)
    requires !OneCustomer(events)
    ensures e in events && f in events && Names(e, o) && Names(f, o) && e.body.customer != f.body.customer
  {
    if !(forall x, e, f :: e in events && f in events && OnInvoice(e, x) && OnInvoice(f, x) ==> SameCustomer(e.body.customer, f.body.customer)) {
      var x, e0, f0 :| e0 in events && f0 in events && OnInvoice(e0, x) && OnInvoice(f0, x) && !SameCustomer(e0.body.customer, f0.body.customer);
      o, e, f := InvoiceNo(x), e0, f0;
    } else {
      var x, e0, f0 :| e0 in events && f0 in events && OnSub(e0, x) && OnSub(f0, x) && !SameCustomer(e0.body.customer, f0.body.customer);
      o, e, f := SubNo(x), e0, f0;
    }
  }

  /**
   For every set of well-formed events whose ids determine their content: all deliveries of
   exactly that set leave the same customer on every object if and only if no two events on
   one object name different customers.
   */
  lemma CustomersExactly(events: set<Event>)
    requires Plausible(events)
    ensures OneCustomer(events) <==>
            forall ds, es :: Delivers(ds, events) && Delivers(es, events) ==> SameHolders(Run(ds), Run(es))
  {
    if OneCustomer(events) {
      forall ds, es | Delivers(ds, events) && Delivers(es, events) ensures SameHolders(Run(ds), Run(es)) {
        RunFits(ds);
        RunFits(es);
        CustomersAgree(Run(ds), Run(es), events);
        hide Run, Fits, OneCustomer;
      }
    } else {
      var o, e, f := Disagreement(events);
      var ds := CanDecide(events, e, o);
      var es := CanDecide(events, f, o);
      assert !SameHolders(Run(ds), Run(es));
    }
  }

  // ------------------------------------------- a customer's payment state

  function Weight(s: PaymentState): nat {
    match s case NoEvidence => 0 case IsPaid => 1 case HasFailed => 2 case IsCanceled => 3 case IsDeleted => 4
  }

  function InvoiceSays(s: InvoiceState): PaymentState {
    match s case Paid => IsPaid case PaymentFailed => HasFailed case _ => NoEvidence
  }

  function SubSays(s: SubState): PaymentState {
    match s case Deleted => IsDeleted case Canceled => IsCanceled case Active => NoEvidence
  }

  /** What an object says about the customer that holds it. */
  function Says(p: Processor, o: Object): PaymentState
    requires Present(p, o)
  {
    match o case InvoiceNo(i) => InvoiceSays(p.invoices[i].state) case SubNo(s) => SubSays(p.subscriptions[s].state)
  }

  predicate Holds(p: Processor, o: Object, c: string) { Present(p, o) && HolderOf(p, o) == Some(c) }

  /** The payment state is the weightiest thing any object of the customer says. */
  lemma StateIsTop(p: Processor, c: string)
    ensures forall o :: Holds(p, o, c) ==> Weight(Says(p, o)) <= Weight(CustomerState(p, c))
    ensures CustomerState(p, c) == NoEvidence || exists o :: Holds(p, o, c) && Says(p, o) == CustomerState(p, c)
  {
    forall o | Holds(p, o, c) ensures Weight(Says(p, o)) <= Weight(CustomerState(p, c)) {
      match o
      case InvoiceNo(i) => assert AnyInvoice(p, c, p.invoices[i].state);
      case SubNo(s) => assert p.subscriptions[s] == Sub(p.subscriptions[s].state, Some(c)) && AnySub(p, c, p.subscriptions[s].state);
    }
    var s := CustomerState(p, c);
    if s == IsDeleted || s == IsCanceled {
      var x :| x in p.subscriptions && p.subscriptions[x] == Sub(if s == IsDeleted then Deleted else Canceled, Some(c));
      assert Holds(p, SubNo(x), c) && Says(p, SubNo(x)) == s;
    } else if s != NoEvidence {
      var t := if s == IsPaid then Paid else PaymentFailed;
      assert AnyInvoice(p, c, t);
      var x :| x in p.invoices && p.invoices[x].state == t && p.invoices[x].customer == Some(c);
      assert Holds(p, InvoiceNo(x), c) && Says(p, InvoiceNo(x)) == s;
    }
  }

  /** What the events alone make an object say. */
  ghost predicate Establish(events: set<Event>, o: Object, s: PaymentState) {
    match o
    case InvoiceNo(i) => exists t :: HighestInvoice(events, i, t) && InvoiceSays(t) == s
    case SubNo(n) => exists t :: HighestSub(events, n, t) && SubSays(t) == s
  }

  lemma SaysEstablished(ds: seq<Delivery>, events: set<Event>, o: Object, s: PaymentState)
    requires Delivers(ds, events) && IdsDetermineContent(events) && Present(Run(ds), o)
    ensures Establish(events, o, s) <==> Says(Run(ds), o) == s
  {
    RunFits(ds);
    hide Run;
    match o {
      case InvoiceNo(i) =>
        var t := Run(ds).invoices[i].state;
        assert HighestInvoice(events, i, t);
        forall u | HighestInvoice(events, i, u) ensures u == t { HighestInvoiceUnique(events, i, u, t); }
      case SubNo(n) =>
        var t := Run(ds).subscriptions[n].state;
        assert HighestSub(events, n, t);
        forall u | HighestSub(events, n, u) ensures u == t {
          assert SubRank(u) == SubRank(t);
        }
    }
  }

  predicate Claims(events: set<Event>, o: Object, c: string) { exists e :: e in events && NamesThis(e, o, c) }

  predicate Contested(events: set<Event>, o: Object, c: string) {
    Claims(events, o, c) && exists e :: e in events && Names(e, o) && !NamesThis(e, o, c)
  }

  predicate Firm(events: set<Event>, o: Object, c: string) { Claims(events, o, c) && !Contested(events, o, c) }

  /** Some object that can only be c's says at least s. */
  ghost predicate Secured(events: set<Event>, c: string, s: PaymentState) {
    exists o, t :: Firm(events, o, c) && Establish(events, o, t) && Weight(s) <= Weight(t)
  }

  /** Whatever objects are disputed, one that can only be c's says as much. */
  ghost predicate Undisputed(events: set<Event>, c: string) {
    forall o, s :: Contested(events, o, c) && Establish(events, o, s) && s != NoEvidence ==> Secured(events, c, s)
  }

  lemma HeldIsClaimed(ds: seq<Delivery>, events: set<Event>, o: Object, c: string)
    requires Delivers(ds, events) && IdsDetermineContent(events)
    ensures Holds(Run(ds), o, c) ==> Claims(events, o, c)
    ensures Firm(events, o, c) ==> Holds(Run(ds), o, c)
  {
    HolderFits(ds, events, o);
    hide Run, OnInvoice, OnSub;
  }

  /** A firm object that says s weighs in every delivery. */
  lemma SecuredWeighs(ds: seq<Delivery>, events: set<Event>, c: string, s: PaymentState)
    requires Delivers(ds, events) && IdsDetermineContent(events) && Secured(events, c, s)
    ensures Weight(s) <= Weight(CustomerState(Run(ds), c))
  {
    var o, t :| Firm(events, o, c) && Establish(events, o, t) && Weight(s) <= Weight(t);
    HeldIsClaimed(ds, events, o, c);
    SaysEstablished(ds, events, o, t);
    StateIsTop(Run(ds), c);
    assert Holds(Run(ds), o, c);
  }

  lemma UndisputedIsSecured(ds: seq<Delivery>, events: set<Event>, c: string)
    requires Delivers(ds, events) && IdsDetermineContent(events) && Undisputed(events, c)
    ensures var s := CustomerState(Run(ds), c); s == NoEvidence || Secured(events, c, s)
  {
    var s := CustomerState(Run(ds), c);
    StateIsTop(Run(ds), c);
    if s != NoEvidence {
      var o :| Holds(Run(ds), o, c) && Says(Run(ds), o) == s;
      HeldIsClaimed(ds, events, o, c);
      SaysEstablished(ds, events, o, s);
      hide Run, CustomerState;
      assert Firm(events, o, c) || Contested(events, o, c);
    }
  }

  lemma AtMostInEither(ds: seq<Delivery>, es: seq<Delivery>, events: set<Event>, c: string)
    requires Delivers(ds, events) && Delivers(es, events) && IdsDetermineContent(events) && Undisputed(events, c)
    ensures Weight(CustomerState(Run(ds), c)) <= Weight(CustomerState(Run(es), c))
  {
    UndisputedIsSecured(ds, events, c);
    var s := CustomerState(Run(ds), c);
    if s != NoEvidence { SecuredWeighs(es, events, c, s); }
  }

  /** The events that name c, and the others, in two lists. */
  lemma Parted(events: set<Event>, c: string) returns (mine: seq<Event>, others: seq<Event>)
    requires Plausible(events)
    ensures forall e :: e in mine <==> e in events && Mentions(e, c)
    ensures forall e :: e in others <==> e in events && !Mentions(e, c)
    ensures Distinct(mine + others) && Distinct(others + mine)
    ensures (set e | e in mine + others) == events == set e | e in others + mine
    ensures Delivers(Sent(mine + others), events) && Delivers(Sent(others + mine), events)
  {
    mine := Listed(set e | e in events && Mentions(e, c));
    others := Listed(set e | e in events && !Mentions(e, c));
    assert forall e :: e in mine + others <==> e in events;
    assert forall e :: e in others + mine <==> e in events;
    SentDelivers(mine + others, events);
    SentDelivers(others + mine, events);
  }

  predicate Mentions(e: Event, c: string) { (e.body.InvoiceEvent? || e.body.SubEvent?) && e.body.customer == Some(c) }

  /** Delivering the events that name c last gives c every object it can have; first, none that is disputed. */
  lemma Extremes(events: set<Event>, c: string) returns (most: seq<Delivery>, least: seq<Delivery>)
    requires Plausible(events)
    ensures Delivers(most, events) && Delivers(least, events)
    ensures forall o :: Claims(events, o, c) ==> Holds(Run(most), o, c)
    ensures forall o :: Holds(Run(least), o, c) ==> Firm(events, o, c)
  {
    var mine, others := Parted(events, c);
    most, least := Sent(others + mine), Sent(mine + others);
    forall o | Claims(events, o, c) ensures Holds(Run(most), o, c) {
      var e :| e in events && NamesThis(e, o, c);
      assert e in mine && Names(e, o);
      LastNamingWins(others, mine, o);
    }
    forall o | Holds(Run(least), o, c) ensures Firm(events, o, c) {
      HeldIsClaimed(least, events, o, c);
      if Contested(events, o, c) {
        var e :| e in events && Names(e, o) && !NamesThis(e, o, c);
        assert e in others;
        LastNamingWins(mine, others, o);
        assert false;
      }
    }
  }

  /**
   For every set of well-formed events whose ids determine their content, and every
   customer: all deliveries of exactly that set give the customer the same payment state
   if and only if every disputed object is outweighed by one that can only be the
   customer's.
   */
  lemma CustomerStateExactly(events: set<Event>, c: string)
    requires Plausible(events)
    ensures Undisputed(events, c) <==>
            forall ds, es :: Delivers(ds, events) && Delivers(es, events) ==> CustomerState(Run(ds), c) == CustomerState(Run(es), c)
  {
    if Undisputed(events, c) {
      forall ds, es | Delivers(ds, events) && Delivers(es, events)
        ensures CustomerState(Run(ds), c) == CustomerState(Run(es), c)
      {
        AtMostInEither(ds, es, events, c);
        AtMostInEither(es, ds, events, c);
        hide CustomerState, Run, Undisputed;
      }
    } else {
      var o, s :| Contested(events, o, c) && Establish(events, o, s) && s != NoEvidence && !Secured(events, c, s);
      var most, least := Extremes(events, c);
      DisputeShows(events, c, o, s, most, least);
    }
  }

  lemma DisputeShows(events: set<Event>, c: string, o: Object, s: PaymentState, most: seq<Delivery>, least: seq<Delivery>)
    requires Plausible(events) && Contested(events, o, c) && Establish(events, o, s) && s != NoEvidence && !Secured(events, c, s)
    requires Delivers(most, events) && Delivers(least, events)
    requires forall o :: Claims(events, o, c) ==> Holds(Run(most), o, c)
    requires forall o :: Holds(Run(least), o, c) ==> Firm(events, o, c)
    ensures Weight(CustomerState(Run(least), c)) < Weight(CustomerState(Run(most), c))
  {
    hide Run, CustomerState;
    StateIsTop(Run(most), c);
    SaysEstablished(most, events, o, s);
    StateIsTop(Run(least), c);
    var t := CustomerState(Run(least), c);
    if t != NoEvidence {
      var o2 :| Holds(Run(least), o2, c) && Says(Run(least), o2) == t;
      SaysEstablished(least, events, o2, t);
      assert Firm(events, o2, c) && Establish(events, o2, t);
    }
  }
}
