/** The billing services as they update their tables, each operation proved against its specification. */
module BillingEngine {
  import opened Wrappers
  import opened Ledger
  import opened Webhooks
  import LedgerLaws
  import PlanLaws
  import Tenancy

  class Service {
    var plans: seq<Plan>
    var companies: seq<Ledger.Company>
    var invoices: seq<Invoice>
    var payments: seq<Payment>
    var seen: set<string>

    ghost function State(): Books
      reads this
    {
      Books(plans, companies, invoices, payments)
    }

    constructor (plans: seq<Plan>)
      ensures State() == Books(plans, [], [], []) && seen == {}
    {
      this.plans := plans;
      companies, invoices, payments, seen := [], [], [], {};
    }

    /** Back to the state of the last commit. */
    method Rollback(b: Books)
      modifies this
      ensures State() == b && seen == old(seen)
    {
      plans, companies, invoices, payments := b.plans, b.companies, b.invoices, b.payments;
    }

    method SetSubscription(c: nat, s: Subscription)
      requires c < |companies|
      modifies this`companies
      ensures State() == WithSub(old(State()), c, s)
    {
      companies := companies[c := companies[c].(sub := Some(s))];
    }

    method ReferenceIsUsed(reference: string) returns (found: bool)
      ensures found <==> Used(State(), reference)
    {
      found := false;
      for k := 0 to |payments|
        invariant found <==> exists j :: 0 <= j < k && payments[j].reference == Some(reference)
      {
        if payments[k].reference == Some(reference) {
          found := true;
        }
      }
    }

    method ChangePlan(c: nat, p: nat) returns (error: Option<BillingError>)
      modifies this
      ensures Reply(State(), error) == Ledger.ChangePlan(old(State()), c, p) && seen == old(seen)
    {
      if c >= |companies| || companies[c].sub.None? {
        return Some(NotFound);
      }
      if p >= |plans| || !plans[p].isActive {
        return Some(NotFound);
      }
      var s := companies[c].sub.value;
      if p == s.plan || s.pending.Some? {
        return Some(Conflict);
      }
      if plans[p].price == 0 {
        SetSubscription(c, s.(plan := p, pending := None, status := Active, cancelAtEnd := false, cancelledAt := None));
        return None;
      }
      OpenPlanChange(c, p);
      return None;
    }

    /** `customer` and `session` are the gateway's answers; a customer it created is committed before the session is asked for. */
    method CreateCheckout(c: nat, p: nat, customer: Option<string>, session: Option<string>) returns (error: Option<BillingError>)
      modifies this
      ensures Reply(State(), error) == Ledger.CreateCheckout(old(State()), c, p, customer, session) && seen == old(seen)
    {
      hide FindOpen;
      if c >= |companies| || companies[c].sub.None? {
        return Some(NotFound);
      }
      if p >= |plans| || !plans[p].isActive {
        return Some(NotFound);
      }
      var s := companies[c].sub.value;
      if p == s.plan {
        return Some(Conflict);
      }
      if plans[p].price == 0 || !plans[p].hasStripePrice {
        return Some(Invalid);
      }
      if s.stripeId.Some? && !s.status.Cancelled? && !s.status.Expired? {
        return Some(Conflict);
      }
      var committed := Books(plans, companies, invoices, payments);
      var i: nat := |invoices|;
      if s.pending.Some? {
        var found := FindOpen(invoices, c, 0);
        if s.pending.value != p || found.None? {
          return Some(Conflict);
        }
        i := found.value;
      } else {
        OpenPlanChange(c, p);
      }
      if companies[c].customer.None? {
        if customer.None? {
          Rollback(committed);
          return Some(Gateway);
        }
        companies := companies[c := companies[c].(customer := customer)];
        committed := Books(plans, companies, invoices, payments);
      }
      if session.None? {
        Rollback(committed);
        return Some(Gateway);
      }
      invoices := invoices[i := invoices[i].(session := session)];
      return None;
    }

    method OpenPlanChange(c: nat, p: nat)
      requires c < |companies| && companies[c].sub.Some? && p < |plans|
      modifies this`companies, this`invoices
      ensures State() == OpenChange(old(State()), c, p)
    {
      var price := plans[p].price;
      SetSubscription(c, companies[c].sub.value.(pending := Some(p)));
      var invoice := Invoice(c, true, Open, plans[p].currency, price, 0, price, 0, price, true, ForPlan(p), None, None, None);
      invoices := invoices + [invoice];
    }

    method ActivatePaidPlanChange(i: nat, now: int) returns (error: Option<BillingError>)
      requires i < |invoices|
      modifies this`companies
      ensures match Activate(old(State()), i, now)
              case Ok(r) => error.None? && State() == r
              case Err(e) => error == Some(e) && State() == old(State())
    {
      var v := invoices[i];
      if !v.planChange || !v.linked {
        return None;
      }
      if !v.planRef.ForPlan? {
        return Some(Invalid);
      }
      if v.company >= |companies| || companies[v.company].sub.None? || v.planRef.plan >= |plans| {
        return Some(Invalid);
      }
      var s := companies[v.company].sub.value;
      var length := s.periodEnd - s.periodStart;
      if length <= 0 {
        length := THIRTY_DAYS;
      }
      s := s.(plan := v.planRef.plan, pending := None, status := Active);
      s := s.(periodStart := now, periodEnd := now + length, cancelAtEnd := false, cancelledAt := None);
      SetSubscription(v.company, s);
      return None;
    }

    method RecordPayment(i: nat, amount: int, reference: Option<string>, now: int) returns (error: Option<BillingError>)
      modifies this
      ensures Reply(State(), error) == Ledger.RecordPayment(old(State()), i, amount, reference, now) && seen == old(seen)
    {
      hide Activate;
      if amount <= 0 {
        return Some(Invalid);
      }
      if i >= |invoices| {
        return Some(NotFound);
      }
      var v := invoices[i];
      if !v.status.Open? {
        return Some(Conflict);
      }
      if amount > v.due {
        return Some(Invalid);
      }
      if reference.Some? && reference.value != "" {
        var known := FindPayment(payments, reference.value, 0);
        if known.Some? {
          var p := payments[known.value];
          if p.invoice == i && p.amount == amount {
            return None;
          }
          return Some(Conflict);
        }
      }
      var committed := Books(plans, companies, invoices, payments);
      v := v.(paid := v.paid + amount, due := v.due - amount);
      payments := payments + [Payment(i, amount, v.currency, reference)];
      if v.due == 0 {
        invoices := invoices[i := v.(status := Paid, paidAt := Some(now))];
        error := ActivatePaidPlanChange(i, now);
      } else {
        invoices := invoices[i := v];
        error := None;
      }
      if error.None? && reference == Some("") {
        var taken := FindPayment(committed.payments, "", 0);
        error := if taken.Some? then Some(Conflict) else None;
      }
      if error.Some? {
        Rollback(committed);
      }
    }

    /** `checked` says that the database enforces its CHECK constraint, which fails at the commit. */
    method VoidInvoice(i: nat, checked: bool) returns (error: Option<BillingError>)
      modifies this
      ensures Reply(State(), error) == Ledger.VoidInvoice(old(State()), i, checked) && seen == old(seen)
    {
      if i >= |invoices| {
        return Some(NotFound);
      }
      var v := invoices[i];
      if !v.status.Open? || v.paid != 0 {
        return Some(Conflict);
      }
      var committed := Books(plans, companies, invoices, payments);
      v := v.(status := Void, due := 0);
      invoices := invoices[i := v];
      if v.linked && v.planChange && v.company < |companies| && companies[v.company].sub.Some? {
        SetSubscription(v.company, companies[v.company].sub.value.(pending := None));
      }
      if checked && v.due != v.total - v.paid {
        Rollback(committed);
        return Some(Integrity);
      }
      return None;
    }

    method CreateInvoice(c: nat, amount: int, tax: int, currency: string, planChange: bool, planRef: PlanRef)
      returns (error: Option<BillingError>)
      modifies this
      ensures Reply(State(), error) == Ledger.CreateInvoice(old(State()), c, amount, tax, currency, planChange, planRef)
      ensures seen == old(seen)
    {
      hide Upper;
      if amount <= 0 || tax < 0 {
        return Some(Invalid);
      }
      if c >= |companies| {
        return Some(NotFound);
      }
      var total := amount + tax;
      var invoice := Invoice(c, companies[c].sub.Some?, Open, Upper(currency), amount, tax, total, 0, total,
                             planChange, planRef, None, None, None);
      invoices := invoices + [invoice];
      return None;
    }

    method SetCancelAtPeriodEnd(c: nat, value: bool, now: int) returns (error: Option<BillingError>)
      modifies this
      ensures Reply(State(), error) == SetCancellation(old(State()), c, value, now) && seen == old(seen)
    {
      if c >= |companies| || companies[c].sub.None? {
        return Some(NotFound);
      }
      var s := companies[c].sub.value;
      if s.status.Cancelled? || s.status.Expired? {
        return Some(Conflict);
      }
      SetSubscription(c, s.(cancelAtEnd := value, cancelledAt := if value then Some(now) else None));
      return None;
    }

    method FindSubscription(id: string) returns (c: Option<nat>)
      ensures c == FindSub(companies, id, 0)
    {
      for k := 0 to |companies|
        invariant FindSub(companies, id, 0) == FindSub(companies, id, k)
      {
        if companies[k].sub.Some? && companies[k].sub.value.stripeId == Some(id) {
          return Some(k);
        }
      }
      return None;
    }

    /** A settlement in full by Stripe, shared by the two events that can bring it. */
    method Settle(i: nat, reference: string, currency: string, paidAt: int) returns (error: Option<BillingError>)
      requires i < |invoices|
      modifies this
      ensures error.None? ==> Ok(State()) == SettleInFull(old(State()), i, reference, currency, paidAt)
      ensures error.Some? ==> Err(error.value) == SettleInFull(old(State()), i, reference, currency, paidAt)
      ensures seen == old(seen)
    {
      hide Activate, Used;
      var v := invoices[i];
      var known := ReferenceIsUsed(reference);
      invoices := invoices[i := v.(paid := v.total, due := 0, status := Paid, paidAt := Some(paidAt))];
      if !known && v.due > 0 {
        payments := payments + [Payment(i, v.due, currency, Some(reference))];
      }
      error := ActivatePaidPlanChange(i, paidAt);
    }

    method CheckoutCompleted(d: Checkout, now: int) returns (error: Option<BillingError>)
      modifies this
      ensures error.None? ==> Ok(State()) == OnCheckout(old(State()), d, now)
      ensures error.Some? ==> Err(error.value) == OnCheckout(old(State()), d, now)
      ensures seen == old(seen)
    {
      hide SettleInFull, CheckoutReference, Upper;
      if !d.paid {
        return None;
      }
      if d.target.None? {
        return Some(Invalid);
      }
      var c, p, i := d.target.value.company, d.target.value.plan, d.target.value.invoice;
      if i >= |invoices| || c >= |companies| || companies[c].sub.None? {
        return Some(NotFound);
      }
      var v := invoices[i];
      if v.company != c || !v.linked || v.planRef != ForPlan(p) {
        return Some(Invalid);
      }
      if v.status.Open? {
        if d.amount != v.due || Upper(d.currency) != Upper(v.currency) {
          return Some(Invalid);
        }
        error := Settle(i, CheckoutReference(d), v.currency, now);
        if error.Some? {
          return;
        }
      }
      Link(c, i, d);
      return None;
    }

    method Link(c: nat, i: nat, d: Checkout)
      requires d.target.Some? && d.target.value.company == c && d.target.value.invoice == i
      modifies this`companies, this`invoices
      ensures State() == LinkCheckout(old(State()), d)
    {
      if c < |companies| && companies[c].sub.Some? && i < |invoices| {
        var owner := companies[c];
        var s := owner.sub.value;
        companies := companies[c := Ledger.Company(Or(d.customer, owner.customer), Some(s.(stripeId := Or(d.subscription, s.stripeId))))];
        invoices := invoices[i := invoices[i].(session := Some(d.id), stripeInvoice := d.invoice)];
      }
    }

    method FindPayer(d: StripeInvoice) returns (payer: Option<nat>)
      ensures payer == PayerOf(State(), d) && (payer.Some? ==> HasSub(State(), payer.value))
    {
      if d.subscription.None? {
        return None;
      }
      payer := FindSubscription(d.subscription.value);
      if payer.None? && d.company.Some? && d.company.value < |companies| && companies[d.company.value].sub.Some? {
        payer := d.company;
      }
    }

    method Renew(c: nat, d: StripeInvoice)
      requires c < |companies| && companies[c].sub.Some?
      modifies this`companies
      ensures State() == Renewed(old(State()), c, d)
    {
      var s := companies[c].sub.value.(stripeId := d.subscription, status := Active);
      s := s.(periodStart := d.periodStart.GetOr(s.periodStart), periodEnd := d.periodEnd.GetOr(s.periodEnd));
      SetSubscription(c, s);
    }

    method MirrorInvoice(c: nat, d: StripeInvoice, paidAt: int)
      requires d.id.Some?
      modifies this`invoices, this`payments
      ensures State() == Mirror(old(State()), c, d, paidAt)
    {
      hide Used, Upper, InvoiceReference;
      var reference, currency := InvoiceReference(d.id.value), Upper(d.currency);
      var known := ReferenceIsUsed(reference);
      var copy := Invoice(c, true, Paid, currency, d.amount, 0, d.amount, d.amount, 0, false, NoPlan, Some(paidAt), d.id, None);
      invoices := invoices + [copy];
      if !known {
        payments := payments + [Payment(|invoices| - 1, d.amount, currency, Some(reference))];
      }
    }

    method InvoicePaid(d: StripeInvoice, now: int) returns (error: Option<BillingError>)
      modifies this
      ensures error.None? ==> Ok(State()) == OnInvoicePaid(old(State()), d, now)
      ensures error.Some? ==> Err(error.value) == OnInvoicePaid(old(State()), d, now)
      ensures seen == old(seen)
    {
      hide SettleInFull, Mirror, Renewed, PayerOf, Upper, InvoiceReference;
      var payer := FindPayer(d);
      if payer.None? {
        return None;
      }
      Renew(payer.value, d);
      if d.id.None? {
        return None;
      }
      var local := FindInvoice(invoices, d.id.value, 0);
      if local.None? && d.localInvoice.Some? && d.localInvoice.value < |invoices| {
        local := d.localInvoice;
      }
      var paidAt := d.paidAt.GetOr(now);
      if local.Some? {
        var v := invoices[local.value];
        if !v.status.Open? {
          return None;
        }
        if d.amount != v.due || Upper(d.currency) != Upper(v.currency) {
          return Some(Invalid);
        }
        invoices := invoices[local.value := v.(stripeInvoice := d.id)];
        error := Settle(local.value, InvoiceReference(d.id.value), Upper(d.currency), paidAt);
      } else {
        if d.amount > 0 {
          MirrorInvoice(payer.value, d, paidAt);
        }
        return None;
      }
    }

    /** The events that only touch a subscription. */
    method SubscriptionEvent(k: Kind, now: int)
      requires k.PaymentFailed? || k.SubscriptionUpdated? || k.SubscriptionDeleted? || k.Other?
      modifies this`companies
      ensures Ok(State()) == Handle(old(State()), k, now)
    {
      var id := match k
        case PaymentFailed(failed) => failed
        case SubscriptionUpdated(n) => Some(n.subscription)
        case SubscriptionDeleted(deleted, _) => Some(deleted)
        case Other => None;
      if id.None? {
        return;
      }
      var c := FindSubscription(id.value);
      if c.None? {
        return;
      }
      var s := companies[c.value].sub.value;
      match k {
        case PaymentFailed(_) =>
          s := s.(status := PastDue);
        case SubscriptionUpdated(n) =>
          s := s.(status := n.status.GetOr(s.status), cancelAtEnd := n.cancelAtEnd, cancelledAt := n.cancelledAt);
          if n.plan.Some? {
            s := s.(plan := n.plan.value, pending := None);
          }
          s := s.(periodStart := n.start.GetOr(s.periodStart), periodEnd := n.end.GetOr(s.periodEnd));
        case SubscriptionDeleted(_, at) =>
          s := s.(status := SubscriptionStatus.Cancelled, cancelAtEnd := false, cancelledAt := Some(at.GetOr(now)));
      }
      SetSubscription(c.value, s);
    }

    /** The reservation of the event's identifier is rolled back together with its effects. */
    method ProcessWebhook(d: Delivery)
      modifies this
      ensures Store(State(), seen) == Deliver(old(Store(State(), seen)), d)
    {
      hide OnCheckout, OnInvoicePaid;
      if d.id == "" || d.id in seen {
        return;
      }
      var committed, reserved := Books(plans, companies, invoices, payments), seen;
      seen := seen + {d.id};
      var error: Option<BillingError> := None;
      match d.kind {
        case CheckoutCompleted(e) => error := CheckoutCompleted(e, d.at);
        case InvoicePaid(e) => error := InvoicePaid(e, d.at);
        case _ => SubscriptionEvent(d.kind, d.at);
      }
      if error.Some? || d.crashes {
        Rollback(committed);
        seen := reserved;
      }
    }

    /** One request: it answers as specified, conserves the ledger and touches rows of its own company only. */
    method Answer(r: Request, checked: bool) returns (error: Option<BillingError>)
      modifies this
      ensures Reply(State(), error) == Serve(old(State()), r, checked) && seen == old(seen)
      ensures LedgerLaws.Conserved(old(State())) ==> LedgerLaws.Conserved(State())
      ensures Tenancy.OnlyTouches(old(State()), State(), Tenancy.Subjects(old(State()), r))
    {
      hide Ledger.ChangePlan, Ledger.CreateCheckout, Ledger.RecordPayment, Ledger.CreateInvoice, Ledger.VoidInvoice, SetCancellation;
      hide LedgerLaws.Conserved, Tenancy.OnlyTouches, Tenancy.Subjects;
      match r {
        case Change(c, p) => error := ChangePlan(c, p);
        case Pay(c, p, customer, session) => error := CreateCheckout(c, p, customer, session);
        case Record(i, amount, reference, at) => error := RecordPayment(i, amount, reference, at);
        case Bill(c, amount, tax, currency, planChange, planRef) => error := CreateInvoice(c, amount, tax, currency, planChange, planRef);
        case Cancel(i) => error := VoidInvoice(i, checked);
        case KeepUntilEnd(c, cancel, at) => error := SetCancelAtPeriodEnd(c, cancel, at);
      }
      if LedgerLaws.Conserved(old(State())) {
        LedgerLaws.ServingConserves(old(State()), r, checked);
      }
      Tenancy.RequestsStayWithinTheirCompany(old(State()), r, checked);
    }

    /**
      Requests and deliveries handled one after the other. The ledger ends conserved unless a committed settlement met its reference
      already used, and every pending plan ends with its one open invoice unless a step untied them.
     */
    method HandleAll(items: seq<Item>, checked: bool)
      modifies this
      ensures Store(State(), seen) == Play(old(Store(State(), seen)), items, checked)
      ensures LedgerLaws.Conserved(old(State())) && NeverResettles(old(Store(State(), seen)), items, checked)
              ==> LedgerLaws.Conserved(State())
      ensures PlanLaws.Law(old(State())) && PlanLaws.StaysTied(old(Store(State(), seen)), items, checked)
              ==> PlanLaws.Law(State())
    {
      hide Serve, Deliver, LedgerLaws.Conserved, PlanLaws.Law, NeverResettles, PlanLaws.StaysTied;
      ghost var before := Store(State(), seen);
      assert items[0..] == items;
      for i := 0 to |items|
        invariant Play(Store(State(), seen), items[i..], checked) == Play(before, items, checked)
      {
        assert items[i..][1..] == items[i + 1..];
        match items[i] {
          case Arrives(d) => ProcessWebhook(d);
          case Asks(r) =>
            var error := Answer(r, checked);
        }
      }
      assert items[..|items|] == items;
      if LedgerLaws.Conserved(before.books) && NeverResettles(before, items, checked) {
        LedgerIsConservedOverRuns(before, items, checked);
      }
      if PlanLaws.Law(before.books) && PlanLaws.StaysTied(before, items, checked) {
        PlanLaws.PendingLawHoldsOverRuns(before, items, checked);
      }
    }
  }
}
