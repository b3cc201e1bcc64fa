/** Companies are kept apart: whose rows a billing request or a Stripe event may touch. */
module Tenancy {
  import opened Wrappers
  import opened Ledger
  import opened LedgerLaws

  /**
    Only rows of the companies `cs` change: other subscriptions and invoices stay as they are, past payments stay, and new
    invoices and payments are for companies of `cs`.
   */
  ghost predicate OnlyTouches(b: Books, t: Books, cs: set<nat>) {
    && t.plans == b.plans && |t.companies| == |b.companies| && |b.invoices| <= |t.invoices| && |b.payments| <= |t.payments|
    && (forall c :: 0 <= c < |b.companies| && c !in cs ==> t.companies[c] == b.companies[c])
    && (forall i :: 0 <= i < |b.invoices| ==> t.invoices[i].company == b.invoices[i].company)
    && (forall i :: 0 <= i < |b.invoices| && b.invoices[i].company !in cs ==> t.invoices[i] == b.invoices[i])
    && (forall i :: |b.invoices| <= i < |t.invoices| ==> t.invoices[i].company in cs)
    && (forall k :: 0 <= k < |b.payments| ==> t.payments[k] == b.payments[k])
    && (forall k :: |b.payments| <= k < |t.payments| ==>
          t.payments[k].invoice < |t.invoices| && t.invoices[t.payments[k].invoice].company in cs)
  }

  lemma TouchesNothing(b: Books, cs: set<nat>)
    ensures OnlyTouches(b, b, cs)
  {
  }

  lemma TouchesThenTouches(b: Books, m: Books, t: Books, cs: set<nat>)
    requires OnlyTouches(b, m, cs) && OnlyTouches(m, t, cs)
    ensures OnlyTouches(b, t, cs)
  {
    forall k | |b.payments| <= k < |t.payments|
      ensures t.payments[k].invoice < |t.invoices| && t.invoices[t.payments[k].invoice].company in cs
    {
      if k < |m.payments| {
        assert t.payments[k] == m.payments[k];
      }
    }
    forall i | |b.invoices| <= i < |t.invoices|
      ensures t.invoices[i].company in cs
    {
      if i < |m.invoices| {
        assert t.invoices[i].company == m.invoices[i].company;
      }
    }
  }

  lemma SubIsItsCompanys(b: Books, c: nat, s: Subscription, cs: set<nat>)
    requires c < |b.companies| && c in cs
    ensures OnlyTouches(b, WithSub(b, c, s), cs)
  {
  }

  lemma InvoiceIsItsCompanys(b: Books, i: nat, v: Invoice, cs: set<nat>)
    requires i < |b.invoices| && b.invoices[i].company in cs && v.company == b.invoices[i].company
    ensures OnlyTouches(b, WithInvoice(b, i, v), cs)
  {
  }

  lemma PaymentIsItsCompanys(b: Books, p: Payment, cs: set<nat>)
    requires p.invoice < |b.invoices| && b.invoices[p.invoice].company in cs
    ensures OnlyTouches(b, b.(payments := b.payments + [p]), cs)
  {
  }

  lemma NewInvoiceIsItsCompanys(b: Books, v: Invoice, cs: set<nat>)
    requires v.company in cs
    ensures OnlyTouches(b, b.(invoices := b.invoices + [v]), cs)
  {
  }

  lemma ActivatingIsItsCompanys(b: Books, i: nat, now: int, cs: set<nat>)
    requires i < |b.invoices| && b.invoices[i].company in cs
    ensures var r := Activate(b, i, now); r.Ok? ==> OnlyTouches(b, r.value, cs)
  {
    hide OnlyTouches;
    TouchesNothing(b, cs);
    var c := b.invoices[i].company;
    var r := Activate(b, i, now);
    if r.Ok? && r.value != b {
      SubIsItsCompanys(b, c, Sub(r.value, c), cs);
    }
  }

  lemma SettlingIsItsCompanys(b: Books, i: nat, reference: string, currency: string, paidAt: int, cs: set<nat>)
    requires i < |b.invoices| && b.invoices[i].company in cs
    ensures var r := SettleInFull(b, i, reference, currency, paidAt); r.Ok? ==> OnlyTouches(b, r.value, cs)
  {
    hide OnlyTouches, Activate, Used;
    var v := b.invoices[i];
    var paid := v.(paid := v.total, due := 0, status := Paid, paidAt := Some(paidAt));
    var done := WithInvoice(b, i, paid);
    var p := Payment(i, v.due, currency, Some(reference));
    var listed := done.(payments := done.payments + [p]);
    InvoiceIsItsCompanys(b, i, paid, cs);
    PaymentIsItsCompanys(done, p, cs);
    TouchesThenTouches(b, done, listed, cs);
    ActivatingIsItsCompanys(done, i, paidAt, cs);
    ActivatingIsItsCompanys(listed, i, paidAt, cs);
    var r := SettleInFull(b, i, reference, currency, paidAt);
    if r.Ok? {
      TouchesThenTouches(b, if Used(b, reference) || v.due <= 0 then done else listed, r.value, cs);
    }
  }

  // ----- requests

  /** The company a request is made for, or whose invoice it names. */
  function Subjects(b: Books, r: Request): set<nat> {
    match r
    case Record(i, _, _, _) => if i < |b.invoices| then {b.invoices[i].company} else {}
    case Cancel(i) => if i < |b.invoices| then {b.invoices[i].company} else {}
    case _ => {r.company}
  }

  lemma RecordingIsItsCompanys(b: Books, i: nat, amount: int, reference: Option<string>, now: int)
    ensures OnlyTouches(b, RecordPayment(b, i, amount, reference, now).books, Subjects(b, Record(i, amount, reference, now)))
  {
    hide OnlyTouches, Activate, Used;
    var cs := Subjects(b, Record(i, amount, reference, now));
    TouchesNothing(b, cs);
    var r := RecordPayment(b, i, amount, reference, now).books;
    if r != b {
      var v := b.invoices[i];
      var p := Payment(i, amount, v.currency, reference);
      var part := v.(paid := v.paid + amount, due := v.due - amount);
      var full := part.(status := Paid, paidAt := Some(now));
      var listed := b.(payments := b.payments + [p]);
      PaymentIsItsCompanys(b, p, cs);
      InvoiceIsItsCompanys(listed, i, part, cs);
      InvoiceIsItsCompanys(listed, i, full, cs);
      var done := WithInvoice(listed, i, if part.due != 0 then part else full);
      TouchesThenTouches(b, listed, done, cs);
      if part.due == 0 {
        ActivatingIsItsCompanys(done, i, now, cs);
        TouchesThenTouches(b, done, r, cs);
      }
    }
  }

  lemma OpeningIsItsCompanys(b: Books, c: nat, p: nat)
    requires HasSub(b, c) && p < |b.plans|
    ensures OnlyTouches(b, OpenChange(b, c, p), {c})
  {
  }

  lemma CheckoutIsItsCompanys(b: Books, c: nat, p: nat, customer: Option<string>, session: Option<string>)
    ensures OnlyTouches(b, CreateCheckout(b, c, p, customer, session).books, {c})
  {
    hide OnlyTouches, OpenChange;
    TouchesNothing(b, {c});
    var r := CreateCheckout(b, c, p, customer, session).books;
    if r != b {
      var prepared := if Sub(b, c).pending.None? then OpenChange(b, c, p) else b;
      if Sub(b, c).pending.None? {
        OpeningIsItsCompanys(b, c, p);
      }
      CheckoutMarks(b, c, p, customer, session);
      TouchesThenTouches(b, prepared, r, {c});
    }
  }

  /** After the change is open, a checkout only stores identifiers of its company. */
  lemma CheckoutMarks(b: Books, c: nat, p: nat, customer: Option<string>, session: Option<string>)
    ensures var r := CreateCheckout(b, c, p, customer, session).books;
            r != b ==> HasSub(b, c) && p < |b.plans|
                       && OnlyTouches(if Sub(b, c).pending.None? then OpenChange(b, c, p) else b, r, {c})
  {
  }

  lemma VoidingIsItsCompanys(b: Books, i: nat, checked: bool)
    ensures OnlyTouches(b, VoidInvoice(b, i, checked).books, Subjects(b, Cancel(i)))
  {
  }

  /** A billing request touches rows of one company only: the one it is made for or whose invoice it names. */
  lemma RequestsStayWithinTheirCompany(b: Books, r: Request, checked: bool)
    ensures OnlyTouches(b, Serve(b, r, checked).books, Subjects(b, r))
  {
    hide OnlyTouches, RecordPayment, CreateCheckout, VoidInvoice, OpenChange, Upper;
    var t := Serve(b, r, checked).books;
    TouchesNothing(b, Subjects(b, r));
    match r
    case Change(c, p) =>
      if HasSub(b, c) && p < |b.plans| {
        OpeningIsItsCompanys(b, c, p);
        SubIsItsCompanys(b, c, Sub(b, c).(plan := p, pending := None, status := Active, cancelAtEnd := false, cancelledAt := None), {c});
      }
    case Pay(c, p, customer, session) => CheckoutIsItsCompanys(b, c, p, customer, session);
    case Record(i, amount, reference, at) => RecordingIsItsCompanys(b, i, amount, reference, at);
    case Bill(c, amount, tax, currency, planChange, planRef) =>
      if t != b {
        NewInvoiceIsItsCompanys(b, t.invoices[|b.invoices|], {c});
      }
    case Cancel(i) => VoidingIsItsCompanys(b, i, checked);
    case KeepUntilEnd(c, cancel, at) =>
      if t != b {
        SubIsItsCompanys(b, c, Sub(t, c), {c});
      }
  }

  // ----- events

  /** The company whose subscription an event is about, and the company whose local invoice it settles. */
  function Parties(b: Books, k: Kind): set<nat> {
    match k
    case CheckoutCompleted(d) => if d.target.Some? then {d.target.value.company} else {}
    case InvoicePaid(d) =>
      var payer := PayerOf(b, d);
      if payer.None? then {}
      else if d.id.Some? && LocalInvoice(b, d).Some? then {payer.value, b.invoices[LocalInvoice(b, d).value].company}
      else {payer.value}
    case PaymentFailed(id) => if id.Some? then Holder(b, id.value) else {}
    case SubscriptionUpdated(n) => Holder(b, n.subscription)
    case SubscriptionDeleted(id, _) => Holder(b, id)
    case Other => {}
  }

  function Holder(b: Books, id: string): set<nat> {
    var c := FindSub(b.companies, id, 0);
    if c.Some? then {c.value} else {}
  }

  lemma CheckoutEventIsItsCompanys(b: Books, d: Checkout, now: int)
    ensures var r := OnCheckout(b, d, now); r.Ok? ==> OnlyTouches(b, r.value, Parties(b, CheckoutCompleted(d)))
  {
    hide OnlyTouches, SettleInFull, CheckoutReference, Upper, LinkCheckout;
    var r, cs := OnCheckout(b, d, now), Parties(b, CheckoutCompleted(d));
    TouchesNothing(b, cs);
    if d.paid && r.Ok? {
      var i := d.target.value.invoice;
      var v := b.invoices[i];
      LinkingIsItsCompanys(b, d);
      if v.status.Open? {
        SettlingIsItsCompanys(b, i, CheckoutReference(d), v.currency, now, cs);
        var m := SettleInFull(b, i, CheckoutReference(d), v.currency, now).value;
        OwnersStay(b, m, cs);
        LinkingIsItsCompanys(m, d);
        TouchesThenTouches(b, m, r.value, cs);
      }
    }
  }

  lemma OwnersStay(b: Books, t: Books, cs: set<nat>)
    requires OnlyTouches(b, t, cs)
    ensures |b.invoices| <= |t.invoices| && |t.companies| == |b.companies|
    ensures forall i :: 0 <= i < |b.invoices| ==> t.invoices[i].company == b.invoices[i].company
  {
  }

  lemma LinkingIsItsCompanys(b: Books, d: Checkout)
    requires d.target.Some? && d.target.value.invoice < |b.invoices|
    requires b.invoices[d.target.value.invoice].company == d.target.value.company
    ensures OnlyTouches(b, LinkCheckout(b, d), {d.target.value.company})
  {
  }

  lemma InvoiceEventIsItsCompanys(b: Books, d: StripeInvoice, now: int)
    ensures var r := OnInvoicePaid(b, d, now); r.Ok? ==> OnlyTouches(b, r.value, Parties(b, InvoicePaid(d)))
  {
    hide OnlyTouches, SettleInFull, InvoiceReference, Upper, LocalInvoice, PayerOf, Mirror;
    var r, cs, payer := OnInvoicePaid(b, d, now), Parties(b, InvoicePaid(d)), PayerOf(b, d);
    TouchesNothing(b, cs);
    if payer.Some? && HasSub(b, payer.value) && r.Ok? {
      var c := payer.value;
      var renewed := Renewed(b, c, d);
      SubIsItsCompanys(b, c, Sub(renewed, c), cs);
      if d.id.Some? {
        LocalInvoiceLooksAtInvoices(b, renewed, d);
        var local := LocalInvoice(renewed, d);
        if local.Some? && renewed.invoices[local.value].status.Open? {
          var i := local.value;
          var tagged := WithInvoice(renewed, i, renewed.invoices[i].(stripeInvoice := d.id));
          InvoiceIsItsCompanys(renewed, i, renewed.invoices[i].(stripeInvoice := d.id), cs);
          TouchesThenTouches(b, renewed, tagged, cs);
          SettlingIsItsCompanys(tagged, i, InvoiceReference(d.id.value), Upper(d.currency), d.paidAt.GetOr(now), cs);
          TouchesThenTouches(b, tagged, r.value, cs);
        } else if local.None? && d.amount > 0 {
          MirroringIsItsCompanys(renewed, c, d, d.paidAt.GetOr(now), cs);
          TouchesThenTouches(b, renewed, r.value, cs);
        }
      }
    }
  }

  lemma LocalInvoiceLooksAtInvoices(b: Books, r: Books, d: StripeInvoice)
    requires d.id.Some? && r.invoices == b.invoices
    ensures LocalInvoice(r, d) == LocalInvoice(b, d)
  {
  }

  lemma MirroringIsItsCompanys(b: Books, c: nat, d: StripeInvoice, paidAt: int, cs: set<nat>)
    requires d.id.Some? && c in cs
    ensures OnlyTouches(b, Mirror(b, c, d, paidAt), cs)
  {
    hide Upper, InvoiceReference, Used;
  }

  /** A Stripe event touches rows of its parties only. */
  lemma EventsStayWithinTheirParties(b: Books, k: Kind, now: int)
    requires Handle(b, k, now).Ok?
    ensures OnlyTouches(b, Handle(b, k, now).value, Parties(b, k))
  {
    hide OnlyTouches, OnCheckout, OnInvoicePaid;
    var t := Handle(b, k, now).value;
    TouchesNothing(b, Parties(b, k));
    match k {
      case CheckoutCompleted(d) => CheckoutEventIsItsCompanys(b, d, now);
      case InvoicePaid(d) => InvoiceEventIsItsCompanys(b, d, now);
      case PaymentFailed(id) => SubscriptionEventIsItsCompanys(b, k, now);
      case SubscriptionUpdated(n) => SubscriptionEventIsItsCompanys(b, k, now);
      case SubscriptionDeleted(id, at) => SubscriptionEventIsItsCompanys(b, k, now);
      case Other =>
    }
  }

  lemma SubscriptionEventIsItsCompanys(b: Books, k: Kind, now: int)
    requires k.PaymentFailed? || k.SubscriptionUpdated? || k.SubscriptionDeleted?
    ensures OnlyTouches(b, Handle(b, k, now).value, Parties(b, k))
  {
    hide OnlyTouches;
    var t := Handle(b, k, now).value;
    TouchesNothing(b, Parties(b, k));
    var id := match k
      case PaymentFailed(failed) => failed
      case SubscriptionUpdated(n) => Some(n.subscription)
      case SubscriptionDeleted(deleted, _) => Some(deleted);
    if id.Some? && FindSub(b.companies, id.value, 0).Some? {
      var c := FindSub(b.companies, id.value, 0).value;
      SubIsItsCompanys(b, c, Sub(t, c), {c});
    }
  }
}
