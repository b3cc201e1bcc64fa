/** Pending plan changes: a subscription waits for a plan exactly while one open invoice asks for it. */
module PlanLaws {
  import opened Wrappers
  import opened Ledger
  import opened Webhooks

  /** An open plan-change invoice of the subscription of company `c`. */
  predicate IsChange(v: Invoice, c: nat) {
    v.status.Open? && v.planChange && v.linked && v.company == c
  }

  ghost predicate HasChange(b: Books, c: nat) {
    exists i :: 0 <= i < |b.invoices| && IsChange(b.invoices[i], c)
  }

  /** A pending plan means exactly one open plan-change invoice, for that plan; no pending plan means none. */
  ghost predicate Tracked(b: Books, c: nat) {
    HasSub(b, c) ==>
      && (forall i :: 0 <= i < |b.invoices| && IsChange(b.invoices[i], c) ==>
            Sub(b, c).pending.Some? && b.invoices[i].planRef == ForPlan(Sub(b, c).pending.value))
      && (forall i, j :: 0 <= i < j < |b.invoices| && IsChange(b.invoices[i], c) ==> !IsChange(b.invoices[j], c))
      && (Sub(b, c).pending.Some? ==> HasChange(b, c))
  }

  ghost predicate Law(b: Books) {
    && (forall c :: 0 <= c < |b.companies| ==> Tracked(b, c))
    && (forall i :: 0 <= i < |b.invoices| && b.invoices[i].linked ==> HasSub(b, b.invoices[i].company))
  }

  // ----- the four ways in which an operation touches the law

  predicate SameSubs(b: Books, t: Books) {
    && |b.companies| == |t.companies|
    && forall c :: 0 <= c < |b.companies| ==>
         (HasSub(b, c) <==> HasSub(t, c)) && (HasSub(b, c) ==> Sub(b, c).pending == Sub(t, c).pending)
  }

  predicate SameRole(v: Invoice, w: Invoice) {
    v.status == w.status && v.planChange == w.planChange && v.linked == w.linked && v.company == w.company && v.planRef == w.planRef
  }

  /** Same pending plans, same invoices up to amounts and identifiers, and possibly further invoices that change no plan. */
  predicate SameRoles(b: Books, t: Books) {
    && SameSubs(b, t) && |b.invoices| <= |t.invoices|
    && (forall i :: 0 <= i < |b.invoices| ==> SameRole(b.invoices[i], t.invoices[i]))
    && (forall i :: |b.invoices| <= i < |t.invoices| ==>
          var v := t.invoices[i]; !(v.status.Open? && v.planChange && v.linked) && (v.linked ==> HasSub(t, v.company)))
  }

  lemma SameTracked(b: Books, t: Books, c: nat)
    requires SameRoles(b, t)
    ensures Tracked(b, c) <==> Tracked(t, c)
  {
    assert forall i :: 0 <= i < |b.invoices| ==> (IsChange(b.invoices[i], c) <==> IsChange(t.invoices[i], c));
    if HasChange(b, c) {
      var i :| 0 <= i < |b.invoices| && IsChange(b.invoices[i], c);
      assert IsChange(t.invoices[i], c);
    }
  }

  lemma SameRolesKeepTheLaw(b: Books, t: Books)
    requires SameRoles(b, t) && Law(b)
    ensures Law(t)
  {
    hide Tracked;
    forall c | 0 <= c < |t.companies|
      ensures Tracked(t, c)
    {
      SameTracked(b, t, c);
    }
  }

  /** Opening a change: a pending plan appears together with its invoice. */
  lemma OpeningKeepsTheLaw(b: Books, c: nat, p: nat)
    requires Law(b) && HasSub(b, c) && p < |b.plans| && Sub(b, c).pending.None?
    ensures Law(OpenChange(b, c, p))
  {
    var t, n := OpenChange(b, c, p), |b.invoices|;
    assert IsChange(t.invoices[n], c) && forall i :: 0 <= i < n ==> t.invoices[i] == b.invoices[i];
    forall k | 0 <= k < |t.companies|
      ensures Tracked(t, k)
    {
      assert Tracked(b, k);
      if k != c && HasChange(b, k) {
        var i :| 0 <= i < |b.invoices| && IsChange(b.invoices[i], k);
        assert IsChange(t.invoices[i], k);
      }
    }
  }

  /** Closing a change: its invoice stops being open and nothing is pending any more. */
  lemma ClosingKeepsTheLaw(b: Books, t: Books, i: nat)
    requires Law(b) && i < |b.invoices| && b.invoices[i].status.Open?
    requires |t.invoices| == |b.invoices| && |t.companies| == |b.companies|
    requires forall j :: 0 <= j < |b.invoices| && j != i ==> SameRole(b.invoices[j], t.invoices[j])
    requires var v, w := b.invoices[i], t.invoices[i]; !w.status.Open? && w.linked == v.linked && w.company == v.company
    requires forall k :: 0 <= k < |b.companies| ==>
      (HasSub(b, k) <==> HasSub(t, k))
      && (HasSub(b, k) ==>
            Sub(t, k).pending == if IsChange(b.invoices[i], k) then None else Sub(b, k).pending)
    ensures Law(t)
  {
    forall k | 0 <= k < |t.companies|
      ensures Tracked(t, k)
    {
      assert Tracked(b, k);
      assert forall j :: 0 <= j < |b.invoices| && j != i ==> (IsChange(b.invoices[j], k) <==> IsChange(t.invoices[j], k));
      if HasSub(b, k) && !IsChange(b.invoices[i], k) && HasChange(b, k) {
        var j :| 0 <= j < |b.invoices| && IsChange(b.invoices[j], k);
        assert IsChange(t.invoices[j], k);
      }
    }
  }

  // ----- requests

  /** `Activate` on an invoice just paid: its plan becomes current, and nothing is pending. */
  lemma PayingKeepsTheLaw(b: Books, i: nat, paid: Books, now: int)
    requires Law(b) && i < |b.invoices| && b.invoices[i].status.Open?
    requires paid.companies == b.companies && |paid.invoices| == |b.invoices|
    requires forall j :: 0 <= j < |b.invoices| && j != i ==> SameRole(b.invoices[j], paid.invoices[j])
    requires paid.invoices[i].status.Paid? && SameRole(paid.invoices[i].(status := Open), b.invoices[i])
    ensures Activate(paid, i, now).Ok? ==> Law(Activate(paid, i, now).value)
  {
    hide Law, Tracked;
    var r := Activate(paid, i, now);
    if r.Ok? {
      ClosingKeepsTheLaw(b, r.value, i);
    }
  }

  lemma RecordingKeepsTheLaw(b: Books, i: nat, amount: int, reference: Option<string>, now: int)
    requires Law(b)
    ensures Law(RecordPayment(b, i, amount, reference, now).books)
  {
    hide Law, Used, Activate;
    var r := RecordPayment(b, i, amount, reference, now).books;
    if r != b {
      var v := b.invoices[i];
      var part := v.(paid := v.paid + amount, due := v.due - amount);
      if part.due != 0 {
        SameRolesKeepTheLaw(b, r);
      } else {
        var listed := b.(payments := b.payments + [Payment(i, amount, v.currency, reference)]);
        PayingKeepsTheLaw(b, i, WithInvoice(listed, i, part.(status := Paid, paidAt := Some(now))), now);
      }
    }
  }

  lemma SettlingKeepsTheLaw(b: Books, i: nat, reference: string, currency: string, paidAt: int)
    requires Law(b) && i < |b.invoices| && b.invoices[i].status.Open?
    ensures var r := SettleInFull(b, i, reference, currency, paidAt); r.Ok? ==> Law(r.value)
  {
    hide Law, Used, Activate;
    var v := b.invoices[i];
    var done := WithInvoice(b, i, v.(paid := v.total, due := 0, status := Paid, paidAt := Some(paidAt)));
    PayingKeepsTheLaw(b, i, done, paidAt);
    PayingKeepsTheLaw(b, i, done.(payments := done.payments + [Payment(i, v.due, currency, Some(reference))]), paidAt);
  }

  lemma VoidingKeepsTheLaw(b: Books, i: nat, checked: bool)
    requires Law(b)
    ensures Law(VoidInvoice(b, i, checked).books)
  {
    hide Tracked;
    var r := VoidInvoice(b, i, checked).books;
    if r != b {
      assert b.invoices[i].linked ==> HasSub(b, b.invoices[i].company);
      assert forall k :: 0 <= k < |b.companies| ==> (HasSub(b, k) <==> HasSub(r, k));
      assert forall k :: 0 <= k < |b.companies| && HasSub(b, k) ==>
        Sub(r, k).pending == if IsChange(b.invoices[i], k) then None else Sub(b, k).pending;
      ClosingKeepsTheLaw(b, r, i);
    }
  }

  /** Changes of Stripe identifiers, periods and statuses only. */
  ghost predicate OnlyRelabels(b: Books, t: Books) {
    && t.plans == b.plans && SameRoles(b, t) && |t.invoices| == |b.invoices|
    && forall c :: HasSub(b, c) ==> Sub(t, c).plan == Sub(b, c).plan
  }

  /** A checkout changes nothing but identifiers, after opening a change if none is pending. */
  lemma CheckoutShape(b: Books, c: nat, p: nat, customer: Option<string>, session: Option<string>)
    ensures var r := CreateCheckout(b, c, p, customer, session).books;
            r != b ==> HasSub(b, c) && p < |b.plans|
                       && OnlyRelabels(if Sub(b, c).pending.None? then OpenChange(b, c, p) else b, r)
  {
    hide FindOpen;
  }

  lemma CheckoutKeepsTheLaw(b: Books, c: nat, p: nat, customer: Option<string>, session: Option<string>)
    requires Law(b)
    ensures Law(CreateCheckout(b, c, p, customer, session).books)
  {
    hide Law, CreateCheckout, OpenChange, SameRoles;
    var r := CreateCheckout(b, c, p, customer, session).books;
    CheckoutShape(b, c, p, customer, session);
    if r != b {
      if Sub(b, c).pending.None? {
        OpeningKeepsTheLaw(b, c, p);
        SameRolesKeepTheLaw(OpenChange(b, c, p), r);
      } else {
        SameRolesKeepTheLaw(b, r);
      }
    }
  }

  /** An administrator's invoice whose metadata marks a plan change, for a company with a subscription. */
  predicate IsStray(b: Books, r: Request) {
    r.Bill? && r.planChange && HasSub(b, r.company) && r.amount > 0 && r.tax >= 0
  }

  lemma StrayBreaksTheLaw(b: Books, r: Request, checked: bool)
    requires Law(b) && IsStray(b, r)
    ensures !Law(Serve(b, r, checked).books)
  {
    hide Upper;
    var t, n, c := Serve(b, r, checked).books, |b.invoices|, r.company;
    assert IsChange(t.invoices[n], c) && Tracked(b, c);
    if Sub(b, c).pending.Some? {
      var i :| 0 <= i < n && IsChange(b.invoices[i], c);
      assert t.invoices[i] == b.invoices[i];
    }
    assert !Tracked(t, c);
  }

  /** A request keeps the law exactly when it is not an administrator's invoice posing as a plan change. */
  lemma RequestsKeepTheLaw(b: Books, r: Request, checked: bool)
    requires Law(b)
    ensures Law(Serve(b, r, checked).books) <==> !IsStray(b, r)
  {
    hide Law, CreateCheckout, RecordPayment, VoidInvoice, OpenChange, Upper;
    var t := Serve(b, r, checked).books;
    match r
    case Change(c, p) =>
      if ChangePlan(b, c, p).error.None? && b.plans[p].price > 0 {
        OpeningKeepsTheLaw(b, c, p);
      } else {
        SameRolesKeepTheLaw(b, t);
      }
    case Pay(c, p, customer, session) => CheckoutKeepsTheLaw(b, c, p, customer, session);
    case Record(i, amount, reference, at) => RecordingKeepsTheLaw(b, i, amount, reference, at);
    case Bill(_, _, _, _, _, _) =>
      if IsStray(b, r) {
        StrayBreaksTheLaw(b, r, checked);
      } else {
        SameRolesKeepTheLaw(b, t);
      }
    case Cancel(i) => VoidingKeepsTheLaw(b, i, checked);
    case KeepUntilEnd(_, _, _) => SameRolesKeepTheLaw(b, t);
  }

  // ----- events

  lemma CheckoutEventKeepsTheLaw(b: Books, d: Checkout, now: int)
    requires Law(b)
    ensures var r := OnCheckout(b, d, now); r.Ok? ==> Law(r.value)
  {
    hide Law, SettleInFull, CheckoutReference, Upper;
    var r := OnCheckout(b, d, now);
    if d.paid && r.Ok? {
      var i := d.target.value.invoice;
      if b.invoices[i].status.Open? {
        SettlingKeepsTheLaw(b, i, CheckoutReference(d), b.invoices[i].currency, now);
        SameRolesKeepTheLaw(SettleInFull(b, i, CheckoutReference(d), b.invoices[i].currency, now).value, r.value);
      } else {
        SameRolesKeepTheLaw(b, r.value);
      }
    }
  }

  lemma InvoiceEventKeepsTheLaw(b: Books, d: StripeInvoice, now: int)
    requires Law(b)
    ensures var r := OnInvoicePaid(b, d, now); r.Ok? ==> Law(r.value)
  {
    hide Law, SettleInFull, InvoiceReference, Upper, Used, LocalInvoice, PayerOf;
    var r, payer := OnInvoicePaid(b, d, now), PayerOf(b, d);
    if payer.Some? && HasSub(b, payer.value) && r.Ok? {
      var renewed := Renewed(b, payer.value, d);
      SameRolesKeepTheLaw(b, renewed);
      if d.id.Some? {
        var local := LocalInvoice(renewed, d);
        if local.Some? && renewed.invoices[local.value].status.Open? {
          var tagged := WithInvoice(renewed, local.value, renewed.invoices[local.value].(stripeInvoice := d.id));
          SameRolesKeepTheLaw(renewed, tagged);
          SettlingKeepsTheLaw(tagged, local.value, InvoiceReference(d.id.value), Upper(d.currency), d.paidAt.GetOr(now));
        } else {
          SameRolesKeepTheLaw(renewed, r.value);
        }
      }
    }
  }

  /** A subscription update that names a known price, the current one or another, while a local change is pending. */
  predicate DropsPending(b: Books, k: Kind) {
    k.SubscriptionUpdated? && k.notice.plan.Some?
    && var c := FindSub(b.companies, k.notice.subscription, 0); c.Some? && Sub(b, c.value).pending.Some?
  }

  lemma DroppingBreaksTheLaw(b: Books, n: Notice)
    requires Law(b) && DropsPending(b, SubscriptionUpdated(n))
    ensures !Law(OnNotice(b, n))
  {
    var c := FindSub(b.companies, n.subscription, 0).value;
    assert Tracked(b, c);
    var i :| 0 <= i < |b.invoices| && IsChange(b.invoices[i], c);
    var t := OnNotice(b, n);
    assert t.invoices == b.invoices && !Tracked(t, c);
  }

  /** A Stripe event keeps the law exactly when it is not a priced subscription update over a pending change. */
  lemma EventsKeepTheLaw(b: Books, k: Kind, now: int)
    requires Law(b) && Handle(b, k, now).Ok?
    ensures Law(Handle(b, k, now).value) <==> !DropsPending(b, k)
  {
    hide Law, OnCheckout, OnInvoicePaid;
    match k
    case CheckoutCompleted(d) => CheckoutEventKeepsTheLaw(b, d, now);
    case InvoicePaid(d) => InvoiceEventKeepsTheLaw(b, d, now);
    case SubscriptionUpdated(n) =>
      if DropsPending(b, k) {
        DroppingBreaksTheLaw(b, n);
      } else {
        SameRolesKeepTheLaw(b, Handle(b, k, now).value);
      }
    case _ => SameRolesKeepTheLaw(b, Handle(b, k, now).value);
  }

  // ----- a plan becomes current in the step that pays for it

  /** What an invoice is for never changes, and a settled one stays as it is. */
  predicate KeepsLabels(v: Invoice, w: Invoice) {
    SameRole(v.(status := Open), w.(status := Open)) && (v.status.Open? || v.status == w.status)
  }

  ghost predicate Kept(b: Books, t: Books) {
    && t.plans == b.plans && |b.invoices| <= |t.invoices|
    && (forall i :: 0 <= i < |b.invoices| ==> KeepsLabels(b.invoices[i], t.invoices[i]))
    && (forall c :: HasSub(b, c) ==> HasSub(t, c))
  }

  predicate IsPaidIn(b: Books, t: Books, i: nat) {
    i < |b.invoices| && i < |t.invoices| && b.invoices[i].status.Open? && t.invoices[i].status.Paid?
  }

  /** No plan moves, and nothing is paid. */
  ghost predicate Steady(b: Books, t: Books) {
    && Kept(b, t)
    && (forall c :: HasSub(b, c) ==> Sub(t, c).plan == Sub(b, c).plan)
    && (forall i: nat :: !IsPaidIn(b, t, i))
  }

  /** Invoice `i` is paid; if it is for a plan change of company `c`, that plan becomes current there, and nothing else moves. */
  ghost predicate PaysFor(b: Books, t: Books, i: nat) {
    && Kept(b, t) && IsPaidIn(b, t, i)
    && (forall j: nat :: j != i ==> !IsPaidIn(b, t, j))
    && (forall c :: HasSub(b, c) ==>
          if IsChange(b.invoices[i], c) then b.invoices[i].planRef == ForPlan(Sub(t, c).plan) && Sub(t, c).pending.None?
          else Sub(t, c).plan == Sub(b, c).plan)
  }

  lemma PayingMovesThePlan(b: Books, i: nat, paid: Books, now: int)
    requires i < |b.invoices| && b.invoices[i].status.Open?
    requires paid.companies == b.companies && paid.plans == b.plans
    requires |paid.invoices| == |b.invoices| && paid.invoices[i].status.Paid?
    requires SameRole(paid.invoices[i].(status := Open), b.invoices[i])
    requires forall j :: 0 <= j < |b.invoices| && j != i ==> SameRole(b.invoices[j], paid.invoices[j])
    ensures var r := Activate(paid, i, now); r.Ok? ==> PaysFor(b, r.value, i)
  {
  }

  lemma RecordingMovesThePlan(b: Books, i: nat, amount: int, reference: Option<string>, now: int)
    ensures var t := RecordPayment(b, i, amount, reference, now).books; Steady(b, t) || PaysFor(b, t, i)
  {
    hide Used, Activate;
    var r := RecordPayment(b, i, amount, reference, now).books;
    if r != b {
      var v := b.invoices[i];
      var part := v.(paid := v.paid + amount, due := v.due - amount);
      if part.due == 0 {
        var listed := b.(payments := b.payments + [Payment(i, amount, v.currency, reference)]);
        PayingMovesThePlan(b, i, WithInvoice(listed, i, part.(status := Paid, paidAt := Some(now))), now);
      }
    }
  }

  lemma SettlingMovesThePlan(b: Books, i: nat, reference: string, currency: string, paidAt: int)
    requires i < |b.invoices| && b.invoices[i].status.Open?
    ensures var r := SettleInFull(b, i, reference, currency, paidAt); r.Ok? ==> PaysFor(b, r.value, i)
  {
    hide Used, Activate, PaysFor;
    var v := b.invoices[i];
    var done := WithInvoice(b, i, v.(paid := v.total, due := 0, status := Paid, paidAt := Some(paidAt)));
    PayingMovesThePlan(b, i, done, paidAt);
    PayingMovesThePlan(b, i, done.(payments := done.payments + [Payment(i, v.due, currency, Some(reference))]), paidAt);
  }

  /** Relabelling before or after a payment does not matter. */
  lemma RelabelThenPay(b: Books, m: Books, t: Books, i: nat)
    requires OnlyRelabels(b, m) && PaysFor(m, t, i)
    ensures PaysFor(b, t, i)
  {
    assert SameRole(b.invoices[i], m.invoices[i]);
    forall j: nat
      ensures IsPaidIn(b, t, j) ==> IsPaidIn(m, t, j)
    {
    }
  }

  lemma PayThenRelabel(b: Books, m: Books, t: Books, i: nat)
    requires PaysFor(b, m, i) && OnlyRelabels(m, t)
    ensures PaysFor(b, t, i)
  {
    assert SameRole(m.invoices[i], t.invoices[i]);
    forall j: nat
      ensures IsPaidIn(b, t, j) ==> IsPaidIn(b, m, j)
    {
    }
  }

  /** A free plan taken by the company itself. */
  predicate IsFreeChange(b: Books, item: Item) {
    item.Asks? && item.request.Change? && item.request.plan < |b.plans| && b.plans[item.request.plan].price == 0
  }

  predicate CarriesPlan(item: Item) {
    item.Arrives? && item.delivery.kind.SubscriptionUpdated? && item.delivery.kind.notice.plan.Some?
  }

  ghost predicate Moves(b: Books, t: Books) {
    Steady(b, t) || exists i: nat :: PaysFor(b, t, i)
  }

  lemma CheckoutEventMoves(b: Books, d: Checkout, now: int)
    ensures var r := OnCheckout(b, d, now); r.Ok? ==> Moves(b, r.value)
  {
    hide SettleInFull, CheckoutReference, Upper, PaysFor;
    var r := OnCheckout(b, d, now);
    if d.paid && r.Ok? {
      var i := d.target.value.invoice;
      if b.invoices[i].status.Open? {
        SettlingMovesThePlan(b, i, CheckoutReference(d), b.invoices[i].currency, now);
        var m := SettleInFull(b, i, CheckoutReference(d), b.invoices[i].currency, now).value;
        LinkingRelabels(m, d);
        PayThenRelabel(b, m, r.value, i);
      }
    }
  }

  lemma LinkingRelabels(b: Books, d: Checkout)
    requires d.target.Some?
    ensures OnlyRelabels(b, LinkCheckout(b, d))
  {
  }

  lemma InvoiceEventMoves(b: Books, d: StripeInvoice, now: int)
    ensures var r := OnInvoicePaid(b, d, now); r.Ok? ==> Moves(b, r.value)
  {
    hide SettleInFull, InvoiceReference, Upper, Used, LocalInvoice, PayerOf, PaysFor;
    var r, payer := OnInvoicePaid(b, d, now), PayerOf(b, d);
    if payer.Some? && HasSub(b, payer.value) && r.Ok? && d.id.Some? {
      var renewed := Renewed(b, payer.value, d);
      var local := LocalInvoice(renewed, d);
      if local.Some? && renewed.invoices[local.value].status.Open? {
        var tagged := WithInvoice(renewed, local.value, renewed.invoices[local.value].(stripeInvoice := d.id));
        SettlingMovesThePlan(tagged, local.value, InvoiceReference(d.id.value), Upper(d.currency), d.paidAt.GetOr(now));
        RelabelThenPay(b, tagged, r.value, local.value);
      }
    }
  }

  lemma EventMoves(b: Books, k: Kind, now: int)
    requires Handle(b, k, now).Ok? && (k.SubscriptionUpdated? ==> k.notice.plan.None?)
    ensures Moves(b, Handle(b, k, now).value)
  {
    hide OnCheckout, OnInvoicePaid, PaysFor;
    match k
    case CheckoutCompleted(d) => CheckoutEventMoves(b, d, now);
    case InvoicePaid(d) => InvoiceEventMoves(b, d, now);
    case _ =>
  }

  lemma OpeningIsSteady(b: Books, c: nat, p: nat)
    requires HasSub(b, c) && p < |b.plans|
    ensures Steady(b, OpenChange(b, c, p))
  {
  }

  lemma RelabelIsSteady(b: Books, t: Books)
    requires OnlyRelabels(b, t)
    ensures Steady(b, t)
  {
  }

  lemma SteadyTwice(b: Books, m: Books, t: Books)
    requires Steady(b, m) && OnlyRelabels(m, t)
    ensures Steady(b, t)
  {
    forall i: nat
      ensures IsPaidIn(b, t, i) ==> IsPaidIn(b, m, i)
    {
    }
  }

  lemma CheckoutIsSteady(b: Books, c: nat, p: nat, customer: Option<string>, session: Option<string>)
    ensures Steady(b, CreateCheckout(b, c, p, customer, session).books)
  {
    hide Steady, CreateCheckout, OpenChange, OnlyRelabels;
    var r := CreateCheckout(b, c, p, customer, session).books;
    CheckoutShape(b, c, p, customer, session);
    if r == b {
      NothingIsSteady(b);
    } else if Sub(b, c).pending.None? {
      OpeningIsSteady(b, c, p);
      SteadyTwice(b, OpenChange(b, c, p), r);
    } else {
      RelabelIsSteady(b, r);
    }
  }

  lemma NothingIsSteady(b: Books)
    ensures Steady(b, b)
  {
  }

  lemma VoidingIsSteady(b: Books, i: nat, checked: bool)
    ensures Steady(b, VoidInvoice(b, i, checked).books)
  {
  }

  lemma BillingIsSteady(b: Books, c: nat, amount: int, tax: int, currency: string, planChange: bool, planRef: PlanRef)
    ensures Steady(b, CreateInvoice(b, c, amount, tax, currency, planChange, planRef).books)
  {
    hide Upper;
  }

  lemma RequestMoves(b: Books, r: Request, checked: bool)
    requires !(r.Change? && r.plan < |b.plans| && b.plans[r.plan].price == 0)
    ensures Moves(b, Serve(b, r, checked).books)
  {
    hide OpenChange, CreateCheckout, VoidInvoice, CreateInvoice, RecordPayment, PaysFor, Steady;
    match r
    case Change(c, p) =>
      NothingIsSteady(b);
      if HasSub(b, c) && p < |b.plans| {
        OpeningIsSteady(b, c, p);
      }
    case Pay(c, p, customer, session) => CheckoutIsSteady(b, c, p, customer, session);
    case Record(i, amount, reference, at) => RecordingMovesThePlan(b, i, amount, reference, at);
    case Bill(c, amount, tax, currency, planChange, planRef) => BillingIsSteady(b, c, amount, tax, currency, planChange, planRef);
    case Cancel(i) => VoidingIsSteady(b, i, checked);
    case KeepUntilEnd(_, _, _) => RelabelIsSteady(b, Serve(b, r, checked).books);
  }

  lemma NextMoves(s: Store, item: Item, checked: bool)
    requires !IsFreeChange(s.books, item) && !CarriesPlan(item)
    ensures Moves(s.books, Next(s, item, checked).books)
  {
    hide Handle, Serve, PaysFor;
    match item
    case Arrives(d) =>
      if Handle(s.books, d.kind, d.at).Ok? {
        EventMoves(s.books, d.kind, d.at);
      }
    case Asks(r) => RequestMoves(s.books, r, checked);
  }

  /** An open plan-change invoice of company `c` for plan `p` that the step brings to full payment. */
  ghost predicate IsBought(b: Books, t: Books, c: nat, p: nat) {
    exists i: nat :: IsPaidIn(b, t, i) && IsChange(b.invoices[i], c) && b.invoices[i].planRef == ForPlan(p)
  }

  /** The company itself takes a free plan. */
  predicate TakesFreePlan(s: Store, item: Item, c: nat) {
    IsFreeChange(s.books, item) && item.request.company == c
  }

  /** A subscription update of the company's own subscription commits and names a known price. */
  predicate IsRepriced(s: Store, item: Item, c: nat) {
    Commits(s, item) && CarriesPlan(item) && FindSub(s.books.companies, item.delivery.kind.notice.subscription, 0) == Some(c)
  }

  /** A free plan taken by another company, and an update of another subscription, do not reach this one. */
  lemma OthersDoNotReach(s: Store, item: Item, checked: bool, c: nat)
    requires HasSub(s.books, c) && (IsFreeChange(s.books, item) || CarriesPlan(item))
    requires !TakesFreePlan(s, item, c) && !IsRepriced(s, item, c)
    ensures var t := Next(s, item, checked).books;
            t.invoices == s.books.invoices && t.plans == s.books.plans && HasSub(t, c) && Sub(t, c) == Sub(s.books, c)
  {
  }

  /**
    Unless the company takes a free plan or its own subscription is repriced, another plan becomes current for it in a step
    exactly when the step pays for it.
   */
  lemma PlanBecomesCurrentExactlyWhenPaid(s: Store, item: Item, checked: bool, c: nat, p: nat)
    requires HasSub(s.books, c) && p != Sub(s.books, c).plan
    requires !TakesFreePlan(s, item, c) && !IsRepriced(s, item, c)
    ensures var t := Next(s, item, checked).books;
            HasSub(t, c) && (Sub(t, c).plan == p <==> IsBought(s.books, t, c, p))
  {
    hide Next, TakesFreePlan, IsRepriced, Moves;
    if IsFreeChange(s.books, item) || CarriesPlan(item) {
      OthersDoNotReach(s, item, checked, c);
    } else {
      NextMoves(s, item, checked);
      MovesBuy(s.books, Next(s, item, checked).books, c, p);
    }
  }

  lemma MovesBuy(b: Books, t: Books, c: nat, p: nat)
    requires Moves(b, t) && HasSub(b, c) && p != Sub(b, c).plan
    ensures HasSub(t, c) && (Sub(t, c).plan == p <==> IsBought(b, t, c, p))
  {
  }

  // ----- runs

  /** The step breaks the tie between pending plans and their invoices. */
  predicate Unties(s: Store, item: Item) {
    || (item.Asks? && IsStray(s.books, item.request))
    || (Commits(s, item) && DropsPending(s.books, item.delivery.kind))
  }

  /** A step keeps the law exactly when it does neither. */
  lemma NextKeepsTheLaw(s: Store, item: Item, checked: bool)
    requires Law(s.books)
    ensures Law(Next(s, item, checked).books) <==> !Unties(s, item)
  {
    hide Law, Handle, Serve, IsStray, DropsPending;
    match item
    case Arrives(d) =>
      if Commits(s, item) {
        EventsKeepTheLaw(s.books, d.kind, d.at);
      }
    case Asks(r) => RequestsKeepTheLaw(s.books, r, checked);
  }

  ghost predicate StaysTied(s: Store, items: seq<Item>, checked: bool)
    decreases items
  {
    items == [] || (!Unties(s, items[0]) && StaysTied(Next(s, items[0], checked), items[1..], checked))
  }

  /** In every state of a run a plan is pending exactly while one open invoice asks for it, if and only if no step unties them. */
  lemma {:induction false} PendingLawHoldsOverRuns(s: Store, items: seq<Item>, checked: bool)
    requires Law(s.books)
    ensures (forall n :: 0 <= n <= |items| ==> Law(Play(s, items[..n], checked).books)) <==> StaysTied(s, items, checked)
    decreases items
  {
    hide Law, Next, Unties;
    if items != [] {
      var next, rest := Next(s, items[0], checked), items[1..];
      NextKeepsTheLaw(s, items[0], checked);
      PlayFrom(s, items, checked);
      assert Play(s, items[..1], checked) == Play(next, rest[..0], checked) == next;
      if !Unties(s, items[0]) {
        PendingLawHoldsOverRuns(next, rest, checked);
        if forall n :: 0 <= n <= |items| ==> Law(Play(s, items[..n], checked).books) {
          forall n | 0 <= n <= |rest|
            ensures Law(Play(next, rest[..n], checked).books)
          {
            assert Play(s, items[..n + 1], checked) == Play(next, rest[..n], checked);
          }
        }
      }
    } else {
      assert forall n :: 0 <= n <= |items| ==> items[..n] == [];
    }
  }

  /** The invoice that paid for plan `p`. */
  ghost predicate HasPaidFor(b: Books, c: nat, p: nat) {
    exists i :: 0 <= i < |b.invoices|
      && var v := b.invoices[i];
         v.status.Paid? && v.planChange && v.linked && v.company == c && v.planRef == ForPlan(p)
  }

  /** Company `c` has its first plan, a free one, or one it has paid for. */
  ghost predicate Entitled(b: Books, c: nat, first: nat) {
    && HasSub(b, c)
    && var p := Sub(b, c).plan;
       p == first || (p < |b.plans| && b.plans[p].price == 0) || HasPaidFor(b, c, p)
  }

  lemma PaidForStays(b: Books, t: Books, c: nat, p: nat)
    requires Kept(b, t) && HasPaidFor(b, c, p)
    ensures HasPaidFor(t, c, p)
  {
    var i :| 0 <= i < |b.invoices|
      && var v := b.invoices[i]; v.status.Paid? && v.planChange && v.linked && v.company == c && v.planRef == ForPlan(p);
    assert KeepsLabels(b.invoices[i], t.invoices[i]);
  }

  /** A step that moves no plan, or pays for the plan it moves to, leaves the company entitled. */
  lemma MovesKeepEntitled(b: Books, t: Books, c: nat, first: nat)
    requires Entitled(b, c, first) && Moves(b, t)
    ensures Entitled(t, c, first)
  {
    hide HasPaidFor;
    var p := Sub(b, c).plan;
    if HasPaidFor(b, c, p) {
      PaidForStays(b, t, c, p);
    }
    if Sub(t, c).plan != p {
      var i: nat :| PaysFor(b, t, i);
      BoughtIsPaidFor(b, t, i, c, Sub(t, c).plan);
    }
  }

  lemma BoughtIsPaidFor(b: Books, t: Books, i: nat, c: nat, p: nat)
    requires Kept(b, t) && IsPaidIn(b, t, i) && IsChange(b.invoices[i], c) && b.invoices[i].planRef == ForPlan(p)
    ensures HasPaidFor(t, c, p)
  {
    assert KeepsLabels(b.invoices[i], t.invoices[i]);
  }

  lemma NextKeepsEntitled(s: Store, item: Item, checked: bool, c: nat, first: nat)
    requires Entitled(s.books, c, first) && !IsRepriced(s, item, c)
    ensures Entitled(Next(s, item, checked).books, c, first)
  {
    hide HasPaidFor, Next, Moves, IsRepriced;
    var b, t := s.books, Next(s, item, checked).books;
    if IsFreeChange(b, item) {
      FreeChangeKeepsRows(s, item, checked);
      if HasPaidFor(b, c, Sub(b, c).plan) {
        PaidForStays(b, t, c, Sub(b, c).plan);
      }
    } else if CarriesPlan(item) {
      OthersDoNotReach(s, item, checked, c);
      if HasPaidFor(b, c, Sub(b, c).plan) {
        SamePaidFor(b, t, c, Sub(b, c).plan);
      }
    } else {
      NextMoves(s, item, checked);
      MovesKeepEntitled(b, t, c, first);
    }
  }

  lemma SamePaidFor(b: Books, t: Books, c: nat, p: nat)
    requires t.invoices == b.invoices && HasPaidFor(b, c, p)
    ensures HasPaidFor(t, c, p)
  {
  }

  lemma FreeChangeKeepsRows(s: Store, item: Item, checked: bool)
    requires IsFreeChange(s.books, item)
    ensures var t := Next(s, item, checked).books;
            && Kept(s.books, t)
            && forall c :: HasSub(s.books, c) ==> Sub(t, c).plan in {Sub(s.books, c).plan, item.request.plan}
  {
  }

  /** No committed update names a price for the company's own subscription. */
  ghost predicate NeverRepriced(s: Store, items: seq<Item>, checked: bool, c: nat)
    decreases items
  {
    items == [] || (!IsRepriced(s, items[0], c) && NeverRepriced(Next(s, items[0], checked), items[1..], checked, c))
  }

  /** Over every run in which its subscription is not repriced, no company comes to a paid plan without a fully paid invoice for it. */
  lemma {:induction false} NoPaidPlanWithoutAPaidInvoice(s: Store, items: seq<Item>, checked: bool, c: nat)
    requires HasSub(s.books, c) && NeverRepriced(s, items, checked, c)
    ensures Entitled(Play(s, items, checked).books, c, Sub(s.books, c).plan)
  {
    EntitledOverRuns(s, items, checked, c, Sub(s.books, c).plan);
  }

  lemma {:induction false} EntitledOverRuns(s: Store, items: seq<Item>, checked: bool, c: nat, first: nat)
    requires Entitled(s.books, c, first) && NeverRepriced(s, items, checked, c)
    ensures Entitled(Play(s, items, checked).books, c, first)
    decreases items
  {
    hide Entitled, Next, IsRepriced;
    if items != [] {
      NextKeepsEntitled(s, items[0], checked, c, first);
      EntitledOverRuns(Next(s, items[0], checked), items[1..], checked, c, first);
    }
  }
}
