/** Which payments are taken, and what each of them writes: the guards and the rows, said without the handlers. */
module PaymentEffects {
  import opened Wrappers
  import opened Ledger
  import opened Webhooks
  import LedgerLaws

  /** No payment carries this reference. */
  predicate IsFresh(b: Books, reference: string) {
    forall k :: 0 <= k < |b.payments| ==> b.payments[k].reference != Some(reference)
  }

  lemma FreshIsUnused(b: Books, reference: string)
    ensures IsFresh(b, reference) <==> !Used(b, reference)
  {
    var k := FindPayment(b.payments, reference, 0);
    if k.Some? {
      assert b.payments[k.value].reference == Some(reference);
    }
  }

  /** The invoice is not for a plan change, or names a plan and a subscription that exist. */
  predicate CanActivate(b: Books, v: Invoice) {
    v.planChange && v.linked ==> v.planRef.ForPlan? && v.planRef.plan < |b.plans| && HasSub(b, v.company)
  }

  /** The subscription after the full payment of a plan change: the plan is current for a period as long as the one before. */
  ghost predicate IsActivated(before: Subscription, after: Subscription, plan: nat, at: int) {
    && after.plan == plan && after.pending == None && after.status == Active
    && after.periodStart == at
    && after.periodEnd - at == (if before.periodEnd > before.periodStart then before.periodEnd - before.periodStart else 2_592_000)
    && !after.cancelAtEnd && after.cancelledAt == None
  }

  /** The company of a plan change has its plan activated; any other keeps what it has, Stripe's identifiers aside. */
  ghost predicate FollowsPayment(b: Books, t: Books, v: Invoice, at: int, c: nat)
    requires c < |b.companies| == |t.companies|
  {
    if v.planChange && v.linked && c == v.company then
      HasSub(b, c) && HasSub(t, c) && v.planRef.ForPlan? && IsActivated(Sub(b, c), Sub(t, c), v.planRef.plan, at)
    else SamePlan(b.companies[c], t.companies[c])
  }

  /** A full payment of the invoice at `at`: the plan becomes current if it is for a plan change. */
  ghost predicate Activates(b: Books, t: Books, v: Invoice, at: int) {
    && t.plans == b.plans && |t.companies| == |b.companies|
    && forall c :: 0 <= c < |b.companies| ==> FollowsPayment(b, t, v, at, c)
  }

  /** Equal up to Stripe's identifiers. */
  predicate SamePlan(before: Company, after: Company) {
    if before.sub.None? then after.sub.None?
    else after.sub.Some? && after.sub.value == before.sub.value.(stripeId := after.sub.value.stripeId)
  }

  /** The company carries these Stripe identifiers of its own and of its subscription. */
  predicate HasStripeIds(company: Company, customer: Option<string>, stripeId: Option<string>) {
    company.customer == customer && (company.sub.Some? ==> company.sub.value.stripeId == stripeId)
  }

  ghost predicate KeepsStripeIds(b: Books, t: Books) {
    && |t.companies| == |b.companies|
    && forall c :: 0 <= c < |b.companies| ==>
         HasStripeIds(t.companies[c], b.companies[c].customer, if b.companies[c].sub.Some? then b.companies[c].sub.value.stripeId else None)
  }

  lemma ActivationIsExact(b: Books, i: nat, now: int)
    requires i < |b.invoices|
    ensures var r := Activate(b, i, now);
            && (r.Ok? <==> CanActivate(b, b.invoices[i]))
            && (r.Ok? ==> Activates(b, r.value, b.invoices[i], now) && KeepsStripeIds(b, r.value)
                          && r.value.invoices == b.invoices && r.value.payments == b.payments)
            && (r.Err? ==> r.error == Invalid)
  {
  }

  // ----- manual payments

  /** What a manual payment needs. */
  predicate IsTaken(b: Books, i: nat, amount: int, reference: Option<string>) {
    && 0 < amount && i < |b.invoices| && b.invoices[i].status == Open && amount <= b.invoices[i].due
    && (reference.Some? ==> IsFresh(b, reference.value))
    && (amount == b.invoices[i].due ==> CanActivate(b, b.invoices[i]))
  }

  /** A manual payment is recorded exactly when it is due and its reference is new; in part or in full, row by row. */
  lemma PaymentIsRecordedExactlyWhenTaken(b: Books, i: nat, amount: int, reference: Option<string>, now: int)
    ensures var r := RecordPayment(b, i, amount, reference, now);
            && (r.books.payments != b.payments <==> IsTaken(b, i, amount, reference))
            && (!IsTaken(b, i, amount, reference) ==> r.books == b)
            && (IsTaken(b, i, amount, reference) ==>
                  && r.error.None? && i < |b.invoices| && |r.books.invoices| == |b.invoices|
                  && (forall j :: 0 <= j < |b.invoices| && j != i ==> r.books.invoices[j] == b.invoices[j])
                  && var v, w := b.invoices[i], r.books.invoices[i];
                     && r.books.payments == b.payments + [Payment(i, amount, v.currency, reference)]
                     && w.paid == v.paid + amount && w.due == v.due - amount
                     && (amount < v.due ==> w == v.(paid := w.paid, due := w.due) && r.books.companies == b.companies)
                     && (amount == v.due ==> w == v.(paid := w.paid, due := 0, status := Paid, paidAt := Some(now))
                                             && Activates(b, r.books, v, now) && KeepsStripeIds(b, r.books)))
  {
    hide Activate, IsFresh, Used, Activates, KeepsStripeIds;
    if reference.Some? {
      FreshIsUnused(b, reference.value);
      UsedIsFound(b, reference.value);
    }
    if i < |b.invoices| && 0 < amount {
      var v := b.invoices[i];
      var full := v.(paid := v.paid + amount, due := v.due - amount, status := Paid, paidAt := Some(now));
      var listed := b.(payments := b.payments + [Payment(i, amount, v.currency, reference)]);
      ActivationIsExact(WithInvoice(listed, i, full), i, now);
      var done := Activate(WithInvoice(listed, i, full), i, now);
      if done.Ok? {
        RowsDoNotMatter(b, WithInvoice(listed, i, full), done.value, v, full, now);
      }
    }
  }

  lemma UsedIsFound(b: Books, reference: string)
    ensures Used(b, reference) <==> FindPayment(b.payments, reference, 0).Some?
  {
  }

  lemma RowsDoNotMatter(b: Books, m: Books, t: Books, v: Invoice, w: Invoice, at: int)
    requires m.companies == b.companies && m.plans == b.plans && Activates(m, t, w, at) && KeepsStripeIds(m, t)
    requires v.planChange == w.planChange && v.linked == w.linked && v.company == w.company && v.planRef == w.planRef
    ensures Activates(b, t, v, at) && KeepsStripeIds(b, t)
  {
    forall c | 0 <= c < |b.companies|
      ensures FollowsPayment(b, t, v, at, c)
    {
      assert FollowsPayment(m, t, w, at, c);
    }
  }

  /** A payment of the same amount for the same invoice carries this reference already. */
  ghost predicate IsRepeated(b: Books, i: nat, amount: int, reference: Option<string>) {
    && reference.Some? && reference.value != "" && Used(b, reference.value)
    && var known := b.payments[FindPayment(b.payments, reference.value, 0).value]; known.invoice == i && known.amount == amount
  }

  /** Each refusal of a manual payment has its condition, and a repeated payment is answered as a success. */
  lemma RefusalsAreExact(b: Books, i: nat, amount: int, reference: Option<string>, now: int)
    ensures var error := RecordPayment(b, i, amount, reference, now).error;
            && (error == Some(NotFound) <==> 0 < amount && i >= |b.invoices|)
            && (0 < amount && i < |b.invoices| ==>
                  var v := b.invoices[i];
                  && (v.status != Open ==> error == Some(Conflict))
                  && (v.status == Open && amount > v.due ==> error == Some(Invalid))
                  && (v.status == Open && amount <= v.due && reference.Some? && reference.value != "" && !IsFresh(b, reference.value) ==>
                        error == if IsRepeated(b, i, amount, reference) then None else Some(Conflict))
                  && (v.status == Open && amount <= v.due && (reference.Some? && reference.value != "" ==> IsFresh(b, reference.value)) ==>
                        error == if amount == v.due && !CanActivate(b, v) then Some(Invalid)
                                 else if reference == Some("") && !IsFresh(b, "") then Some(Conflict) else None))
            && (amount <= 0 ==> error == Some(Invalid))
  {
    hide Activate, IsFresh, Used, Activates, KeepsStripeIds;
    if reference.Some? {
      FreshIsUnused(b, reference.value);
      UsedIsFound(b, reference.value);
    }
    if i < |b.invoices| && 0 < amount {
      var v := b.invoices[i];
      var full := v.(paid := v.paid + amount, due := v.due - amount, status := Paid, paidAt := Some(now));
      var listed := b.(payments := b.payments + [Payment(i, amount, v.currency, reference)]);
      ActivationIsExact(WithInvoice(listed, i, full), i, now);
      SubsDoNotMatter(b, WithInvoice(listed, i, full));
    }
  }

  lemma SubsDoNotMatter(b: Books, m: Books)
    requires m.companies == b.companies
    ensures forall c: nat :: HasSub(m, c) <==> HasSub(b, c)
  {
  }

  // ----- Stripe's payments

  /** Equal up to the case of ASCII letters. */
  predicate IsSameCurrency(a: string, b: string) {
    && |a| == |b|
    && forall i :: 0 <= i < |a| ==>
         || a[i] == b[i]
         || ('a' <= a[i] <= 'z' && a[i] as int - 32 == b[i] as int)
         || ('a' <= b[i] <= 'z' && b[i] as int - 32 == a[i] as int)
  }

  lemma SameCurrencyIgnoresCase(a: string, b: string)
    ensures IsSameCurrency(a, b) <==> Upper(a) == Upper(b)
  {
    if |a| == |b| {
      forall i | 0 <= i < |a|
        ensures Upper(a)[i] == Upper(b)[i]
                <==> (|| a[i] == b[i]
                      || ('a' <= a[i] <= 'z' && a[i] as int - 32 == b[i] as int)
                      || ('a' <= b[i] <= 'z' && b[i] as int - 32 == a[i] as int))
      {
      }
    } else {
      assert |Upper(a)| == |a| && |Upper(b)| == |b|;
    }
  }

  /** The invoice's own amount and currency are paid. */
  predicate IsForTheAmount(v: Invoice, amount: int, currency: string) {
    amount == v.due && IsSameCurrency(currency, v.currency)
  }

  /** What a full settlement by Stripe writes on the invoice, up to its Stripe identifiers, and on the payments. */
  ghost predicate IsSettledBy(b: Books, t: Books, i: nat, reference: string, at: int) {
    && i < |b.invoices| && |t.invoices| == |b.invoices|
    && (forall j :: 0 <= j < |b.invoices| && j != i ==> t.invoices[j] == b.invoices[j])
    && var v, w := b.invoices[i], t.invoices[i];
       && w == v.(paid := v.total, due := 0, status := Paid, paidAt := Some(at), session := w.session, stripeInvoice := w.stripeInvoice)
       && (if v.due > 0 && IsFresh(b, reference) then
             && |t.payments| == |b.payments| + 1 && t.payments[..|b.payments|] == b.payments
             && var p := t.payments[|b.payments|];
                && p.invoice == i && p.amount == v.due && p.reference == Some(reference)
                && IsSameCurrency(p.currency, v.currency)
           else t.payments == b.payments)
  }

  lemma SettlingIsExact(b: Books, i: nat, reference: string, currency: string, paidAt: int)
    requires i < |b.invoices| && IsSameCurrency(currency, b.invoices[i].currency)
    ensures var r := SettleInFull(b, i, reference, currency, paidAt);
            && (r.Ok? <==> CanActivate(b, b.invoices[i]))
            && (r.Ok? ==> IsSettledBy(b, r.value, i, reference, paidAt)
                          && Activates(b, r.value, b.invoices[i], paidAt) && KeepsStripeIds(b, r.value))
            && (r.Err? ==> r.error == Invalid)
  {
    hide Activate, Activates, KeepsStripeIds, Used, IsFresh, IsSameCurrency;
    FreshIsUnused(b, reference);
    var v := b.invoices[i];
    var w := v.(paid := v.total, due := 0, status := Paid, paidAt := Some(paidAt));
    var done := WithInvoice(b, i, w);
    var listed := if Used(b, reference) || v.due <= 0 then done
                  else done.(payments := done.payments + [Payment(i, v.due, currency, Some(reference))]);
    ActivationIsExact(listed, i, paidAt);
    var r := Activate(listed, i, paidAt);
    if r.Ok? {
      RowsDoNotMatter(b, listed, r.value, v, w, paidAt);
    }
  }

  /** The metadata name an existing invoice and the subscription of the company it is for, and the plan it is for. */
  predicate IsDirected(b: Books, d: Checkout) {
    && d.target.Some?
    && var g := d.target.value;
       && g.invoice < |b.invoices| && HasSub(b, g.company)
       && var v := b.invoices[g.invoice]; v.company == g.company && v.linked && v.planRef == ForPlan(g.plan)
  }

  /** A paid checkout is accepted: directed, and if the invoice is open, for its amount and currency and a plan that exists. */
  predicate IsAccepted(b: Books, d: Checkout) {
    && IsDirected(b, d)
    && var v := b.invoices[d.target.value.invoice];
       v.status == Open ==> IsForTheAmount(v, d.amount, d.currency) && CanActivate(b, v)
  }

  /** A checkout fails exactly when it is paid and not accepted; a failed delivery changes no table and leaves no identifier. */
  lemma CheckoutFailsExactlyUnlessAccepted(s: Store, d: Checkout, id: string, at: int, crashes: bool)
    ensures OnCheckout(s.books, d, at).Err? <==> d.paid && !IsAccepted(s.books, d)
    ensures OnCheckout(s.books, d, at) == Err(NotFound)
            <==> d.paid && d.target.Some? && (d.target.value.invoice >= |s.books.invoices| || !HasSub(s.books, d.target.value.company))
    ensures OnCheckout(s.books, d, at).Err? ==> OnCheckout(s.books, d, at).error in {NotFound, Invalid}
    ensures d.paid && !IsAccepted(s.books, d) ==> Deliver(s, Delivery(id, CheckoutCompleted(d), at, crashes)) == s
  {
    hide SettleInFull, LinkCheckout, CheckoutReference, Upper, IsSameCurrency, Used;
    var b := s.books;
    if IsDirected(b, d) {
      var i := d.target.value.invoice;
      var v := b.invoices[i];
      SameCurrencyIgnoresCase(d.currency, v.currency);
      SameCurrencyIgnoresCase(v.currency, v.currency);
      SettlingIsExact(b, i, CheckoutReference(d), v.currency, at);
    }
  }

  /** The identifiers a checkout brings are kept, and where it brings none the old ones. */
  ghost predicate IsLinkedBy(b: Books, t: Books, d: Checkout)
    requires IsDirected(b, d)
  {
    var c, i := d.target.value.company, d.target.value.invoice;
    && |t.companies| == |b.companies| && |t.invoices| == |b.invoices|
    && HasStripeIds(t.companies[c], if d.customer.Some? then d.customer else b.companies[c].customer,
                    if d.subscription.Some? then d.subscription else Sub(b, c).stripeId)
    && t.invoices[i].session == Some(d.id) && t.invoices[i].stripeInvoice == d.invoice
  }

  lemma LinkingIsExact(b: Books, m: Books, d: Checkout, reference: string, now: int)
    requires IsDirected(b, d) && IsSettledBy(b, m, d.target.value.invoice, reference, now)
    requires Activates(b, m, b.invoices[d.target.value.invoice], now) && KeepsStripeIds(b, m)
    ensures var t := LinkCheckout(m, d);
            && IsSettledBy(b, t, d.target.value.invoice, reference, now)
            && Activates(b, t, b.invoices[d.target.value.invoice], now) && IsLinkedBy(b, t, d)
  {
    hide IsFresh, IsSameCurrency;
    var c, v := d.target.value.company, b.invoices[d.target.value.invoice];
    assert FollowsPayment(b, m, v, now, c);
    forall k | 0 <= k < |b.companies|
      ensures FollowsPayment(b, LinkCheckout(m, d), v, now, k)
    {
      assert FollowsPayment(b, m, v, now, k);
    }
    assert HasStripeIds(m.companies[c], b.companies[c].customer, Sub(b, c).stripeId);
  }

  /** An open invoice is paid by a checkout exactly when the checkout is paid, names it, and is accepted; then it is settled in full. */
  lemma CheckoutPaysExactlyWhenAccepted(b: Books, d: Checkout, now: int, i: nat)
    requires i < |b.invoices| && b.invoices[i].status == Open
    ensures var r := OnCheckout(b, d, now);
            && (r.Ok? && IsPaid(r.value, i) <==> d.paid && IsAccepted(b, d) && d.target.value.invoice == i)
            && (d.paid && IsAccepted(b, d) && d.target.value.invoice == i ==>
                  && IsSettledBy(b, r.value, i, if d.intent.Some? then d.intent.value else "checkout:" + d.id, now)
                  && Activates(b, r.value, b.invoices[i], now) && IsLinkedBy(b, r.value, d))
  {
    hide SettleInFull, LinkCheckout, Upper, IsSameCurrency, Used, IsFresh, Activates, KeepsStripeIds, IsLinkedBy, IsSettledBy;
    CheckoutFailsExactlyUnlessAccepted(Store(b, {}), d, "", now, false);
    if d.paid && IsAccepted(b, d) {
      var j := d.target.value.invoice;
      var v := b.invoices[j];
      if v.status.Open? {
        SameCurrencyIgnoresCase(d.currency, v.currency);
        SameCurrencyIgnoresCase(v.currency, v.currency);
        SettlingIsExact(b, j, CheckoutReference(d), v.currency, now);
        LinkingIsExact(b, SettleInFull(b, j, CheckoutReference(d), v.currency, now).value, d, CheckoutReference(d), now);
        OnlyThisIsPaid(b, OnCheckout(b, d, now).value, j, CheckoutReference(d), now, i);
      } else {
        LinkingPaysNothing(b, d, i);
      }
    }
  }

  lemma OnlyThisIsPaid(b: Books, t: Books, j: nat, reference: string, now: int, i: nat)
    requires IsSettledBy(b, t, j, reference, now) && i < |b.invoices| && b.invoices[i].status == Open
    ensures IsPaid(t, i) <==> i == j
  {
  }

  lemma LinkingPaysNothing(b: Books, d: Checkout, i: nat)
    requires d.target.Some?
    ensures IsPaid(LinkCheckout(b, d), i) <==> IsPaid(b, i)
  {
  }

  // ----- paid Stripe invoices

  /** Some subscription carries the Stripe identifier, or the metadata name a company with a subscription. */
  predicate HasPayer(b: Books, d: StripeInvoice) {
    && d.subscription.Some?
    && (|| (exists c :: 0 <= c < |b.companies| && b.companies[c].sub.Some? && b.companies[c].sub.value.stripeId == d.subscription)
        || (d.company.Some? && HasSub(b, d.company.value)))
  }

  /** No local invoice before `n` is linked to the Stripe invoice. */
  predicate NoneLinked(b: Books, d: StripeInvoice, n: int) {
    forall j :: 0 <= j < |b.invoices| && j < n ==> b.invoices[j].stripeInvoice != d.id
  }

  /** The Stripe invoice is about local invoice `i`: it is the first one linked to it, or none is and the metadata name it. */
  predicate IsAbout(b: Books, d: StripeInvoice, i: nat) {
    && d.id.Some? && i < |b.invoices|
    && ((NoneLinked(b, d, i) && b.invoices[i].stripeInvoice == d.id)
        || (NoneLinked(b, d, |b.invoices|) && d.localInvoice == Some(i)))
  }

  lemma PayerIsFound(b: Books, d: StripeInvoice)
    ensures PayerOf(b, d).Some? <==> HasPayer(b, d)
    ensures PayerOf(b, d).Some? ==> HasSub(b, PayerOf(b, d).value)
  {
    if d.subscription.Some? {
      var known := FindSub(b.companies, d.subscription.value, 0);
      if known.Some? {
        assert b.companies[known.value].sub.value.stripeId == d.subscription;
      }
    }
  }

  lemma LocalIsAbout(b: Books, d: StripeInvoice, i: nat)
    requires d.id.Some?
    ensures LocalInvoice(b, d) == Some(i) <==> IsAbout(b, d, i)
    ensures LocalInvoice(b, d).None? <==> NoneLinked(b, d, |b.invoices|) && (d.localInvoice.Some? ==> d.localInvoice.value >= |b.invoices|)
  {
    var linked := FindInvoice(b.invoices, d.id.value, 0);
    FindsTheFirst(b.invoices, d.id.value, 0);
    if linked.Some? {
      assert b.invoices[linked.value].stripeInvoice == d.id;
    }
  }

  lemma {:induction false} FindsTheFirst(vs: seq<Invoice>, id: string, from: nat)
    requires from <= |vs|
    ensures var r := FindInvoice(vs, id, from);
            r.Some? ==> forall j :: from <= j < r.value ==> vs[j].stripeInvoice != Some(id)
    decreases |vs| - from
  {
    if from < |vs| {
      FindsTheFirst(vs, id, from + 1);
    }
  }

  /** A renewal writes the company's subscription; a bound of the period that Stripe leaves out stays. */
  ghost predicate IsRenewal(b: Books, t: Books, c: nat, d: StripeInvoice)
    requires HasSub(b, c)
  {
    && t.plans == b.plans && t.invoices == b.invoices && t.payments == b.payments && |t.companies| == |b.companies|
    && (forall k :: 0 <= k < |b.companies| && k != c ==> t.companies[k] == b.companies[k])
    && HasSub(t, c) && t.companies[c].customer == b.companies[c].customer
    && var s, u := Sub(b, c), Sub(t, c);
       && u.status == SubscriptionStatus.Active && u.stripeId == d.subscription
       && u.periodStart == (if d.periodStart.Some? then d.periodStart.value else s.periodStart)
       && u.periodEnd == (if d.periodEnd.Some? then d.periodEnd.value else s.periodEnd)
       && u == s.(status := u.status, stripeId := u.stripeId, periodStart := u.periodStart, periodEnd := u.periodEnd)
  }

  lemma RenewingIsExact(b: Books, c: nat, d: StripeInvoice)
    requires HasSub(b, c)
    ensures IsRenewal(b, Renewed(b, c, d), c, d)
    ensures forall v: Invoice :: CanActivate(Renewed(b, c, d), v) <==> CanActivate(b, v)
  {
    forall v: Invoice
      ensures HasSub(Renewed(b, c, d), v.company) <==> HasSub(b, v.company)
    {
    }
  }

  /** The open invoice is about this Stripe invoice, which pays its amount in its currency, and can take effect. */
  predicate IsPaidBy(b: Books, d: StripeInvoice, i: nat) {
    && HasPayer(b, d) && IsAbout(b, d, i)
    && IsForTheAmount(b.invoices[i], d.amount, d.currency) && CanActivate(b, b.invoices[i])
  }

  /** What handling comes to once the payer and the local invoice are known. */
  lemma InvoiceHandling(b: Books, d: StripeInvoice, now: int)
    requires HasPayer(b, d)
    ensures PayerOf(b, d).Some? && HasSub(b, PayerOf(b, d).value)
    ensures var m := Renewed(b, PayerOf(b, d).value, d);
            OnInvoicePaid(b, d, now)
            == (if d.id.None? then Ok(m)
                else
                  var local := LocalInvoice(b, d);
                  if local.None? then Ok(if d.amount > 0 then Mirror(m, PayerOf(b, d).value, d, d.paidAt.GetOr(now)) else m)
                  else if !b.invoices[local.value].status.Open? then Ok(m)
                  else if d.amount != b.invoices[local.value].due || Upper(d.currency) != Upper(b.invoices[local.value].currency)
                  then Err(Invalid)
                  else SettleInFull(WithInvoice(m, local.value, b.invoices[local.value].(stripeInvoice := d.id)), local.value,
                                    InvoiceReference(d.id.value), Upper(d.currency), d.paidAt.GetOr(now)))
  {
    hide SettleInFull, Mirror, InvoiceReference, Upper, PayerOf, HasPayer;
    PayerIsFound(b, d);
    var m := Renewed(b, PayerOf(b, d).value, d);
    assert m.invoices == b.invoices;
    assert d.id.Some? ==> LocalInvoice(m, d) == LocalInvoice(b, d);
  }

  /** A paid Stripe invoice fails exactly when it is about an open invoice and does not match it; a failed delivery changes nothing. */
  lemma StripeInvoiceFailsExactlyOnAMismatch(s: Store, d: StripeInvoice, id: string, at: int, crashes: bool)
    ensures OnInvoicePaid(s.books, d, at).Err?
            <==> HasPayer(s.books, d)
                 && exists i: nat :: IsAbout(s.books, d, i) && s.books.invoices[i].status == Open && !IsPaidBy(s.books, d, i)
    ensures OnInvoicePaid(s.books, d, at).Err? ==> OnInvoicePaid(s.books, d, at).error == Invalid
    ensures OnInvoicePaid(s.books, d, at).Err? ==> Deliver(s, Delivery(id, InvoicePaid(d), at, crashes)) == s
  {
    hide SettleInFull, Mirror, InvoiceReference, Upper, PayerOf, HasPayer, Renewed, LocalInvoice, IsSameCurrency, IsAbout;
    var b := s.books;
    PayerIsFound(b, d);
    if HasPayer(b, d) {
      InvoiceHandling(b, d, at);
      if d.id.Some? {
        forall i: nat
          ensures LocalInvoice(b, d) == Some(i) <==> IsAbout(b, d, i)
        {
          LocalIsAbout(b, d, i);
        }
        if LocalInvoice(b, d).Some? {
          var i := LocalInvoice(b, d).value;
          if b.invoices[i].status.Open? {
            LocalPaysExactly(b, d, at, i);
          }
        }
      } else {
        NotAbout(b, d);
      }
    }
  }

  lemma NotAbout(b: Books, d: StripeInvoice)
    requires d.id.None?
    ensures forall i: nat :: !IsAbout(b, d, i)
  {
  }

  /** Settling the local invoice, after the renewal. */
  lemma LocalPaysExactly(b: Books, d: StripeInvoice, now: int, i: nat)
    requires HasPayer(b, d) && d.id.Some? && LocalInvoice(b, d) == Some(i) && b.invoices[i].status == Open
    ensures var r, paidAt := OnInvoicePaid(b, d, now), if d.paidAt.Some? then d.paidAt.value else now;
            && IsAbout(b, d, i) && PayerOf(b, d).Some? && HasSub(b, PayerOf(b, d).value)
            && (r.Ok? <==> IsPaidBy(b, d, i)) && (r.Err? ==> r.error == Invalid)
            && (r.Ok? ==>
                  && IsSettledBy(b, r.value, i, "stripe-invoice:" + d.id.value, paidAt)
                  && Activates(Renewed(b, PayerOf(b, d).value, d), r.value, b.invoices[i], paidAt)
                  && KeepsStripeIds(Renewed(b, PayerOf(b, d).value, d), r.value)
                  && r.value.invoices[i].stripeInvoice == d.id && r.value.invoices[i].session == b.invoices[i].session)
  {
    hide SettleInFull, Upper, PayerOf, HasPayer, Renewed, LocalInvoice, IsSameCurrency, IsAbout, Activates, KeepsStripeIds, IsFresh;
    InvoiceHandling(b, d, now);
    LocalIsAbout(b, d, i);
    var v, m := b.invoices[i], Renewed(b, PayerOf(b, d).value, d);
    var paidAt := d.paidAt.GetOr(now);
    RenewingIsExact(b, PayerOf(b, d).value, d);
    SameCurrencyIgnoresCase(d.currency, v.currency);
    var tagged := WithInvoice(m, i, v.(stripeInvoice := d.id));
    assert CanActivate(tagged, tagged.invoices[i]) == CanActivate(m, v) by {
      assert HasSub(tagged, v.company) == HasSub(m, v.company);
    }
    UpperIsTheSameCurrency(d.currency, v.currency);
    if IsForTheAmount(v, d.amount, d.currency) {
      SettlingIsExact(tagged, i, InvoiceReference(d.id.value), Upper(d.currency), paidAt);
      var r := SettleInFull(tagged, i, InvoiceReference(d.id.value), Upper(d.currency), paidAt);
      if r.Ok? {
        TaggingDoesNotMatter(b, tagged, r.value, i, InvoiceReference(d.id.value), paidAt);
        RowsDoNotMatter(m, tagged, r.value, v, tagged.invoices[i], paidAt);
        TagIsKept(tagged, m, i, d, paidAt);
      }
    }
  }

  lemma UpperIsTheSameCurrency(a: string, b: string)
    ensures IsSameCurrency(a, b) ==> IsSameCurrency(Upper(a), b)
  {
  }

  lemma TaggingDoesNotMatter(b: Books, m: Books, t: Books, i: nat, reference: string, at: int)
    requires i < |b.invoices| && IsSettledBy(m, t, i, reference, at) && m.payments == b.payments
    requires m.invoices == b.invoices[i := b.invoices[i].(stripeInvoice := m.invoices[i].stripeInvoice)]
    ensures IsSettledBy(b, t, i, reference, at)
  {
    hide IsSameCurrency;
  }

  lemma TagIsKept(tagged: Books, m: Books, i: nat, d: StripeInvoice, paidAt: int)
    requires i < |m.invoices| && tagged == WithInvoice(m, i, m.invoices[i].(stripeInvoice := d.id)) && d.id.Some?
    ensures var r := SettleInFull(tagged, i, InvoiceReference(d.id.value), Upper(d.currency), paidAt);
            r.Ok? ==> i < |r.value.invoices| && r.value.invoices[i].stripeInvoice == d.id
                      && r.value.invoices[i].session == m.invoices[i].session
  {
    hide Used, Upper, InvoiceReference;
  }

  /** An open invoice is paid by a Stripe invoice exactly when that is about it and matches it; then it is settled in full. */
  lemma StripeInvoicePaysExactlyOnAMatch(b: Books, d: StripeInvoice, now: int, i: nat)
    requires i < |b.invoices| && b.invoices[i].status == Open
    ensures var r, paidAt := OnInvoicePaid(b, d, now), if d.paidAt.Some? then d.paidAt.value else now;
            && (r.Ok? && IsPaid(r.value, i) <==> IsPaidBy(b, d, i))
            && (IsPaidBy(b, d, i) ==>
                  && IsSettledBy(b, r.value, i, "stripe-invoice:" + d.id.value, paidAt)
                  && r.value.invoices[i].stripeInvoice == d.id && r.value.invoices[i].session == b.invoices[i].session)
  {
    hide SettleInFull, Upper, PayerOf, HasPayer, Renewed, LocalInvoice, IsSameCurrency, IsAbout, IsSettledBy, Activates, KeepsStripeIds;
    PayerIsFound(b, d);
    if HasPayer(b, d) {
      InvoiceHandling(b, d, now);
      RenewingIsExact(b, PayerOf(b, d).value, d);
      if d.id.Some? {
        LocalIsAbout(b, d, i);
        var local := LocalInvoice(b, d);
        if local.Some? && b.invoices[local.value].status.Open? {
          LocalPaysExactly(b, d, now, local.value);
          var r := OnInvoicePaid(b, d, now);
          if r.Ok? {
            OnlyThisIsPaid(b, r.value, local.value, "stripe-invoice:" + d.id.value, if d.paidAt.Some? then d.paidAt.value else now, i);
          }
        }
      } else {
        NotAbout(b, d);
      }
    }
  }

  /** The Stripe invoice has a payer and an amount, and no local invoice. */
  predicate IsMirrored(b: Books, d: StripeInvoice) {
    && HasPayer(b, d) && d.id.Some? && d.amount > 0
    && NoneLinked(b, d, |b.invoices|) && (d.localInvoice.Some? ==> d.localInvoice.value >= |b.invoices|)
  }

  /** Such an invoice, and no other, is copied: paid in full with the event's amount, and with one payment of that amount if its reference is new. */
  lemma StripeInvoiceIsCopiedExactlyWhenUnknown(b: Books, d: StripeInvoice, now: int)
    ensures var r := OnInvoicePaid(b, d, now);
            r.Ok? ==>
              && (|r.value.invoices| == |b.invoices| + if IsMirrored(b, d) then 1 else 0)
              && (IsMirrored(b, d) ==>
                    && PayerOf(b, d).Some? && r.value.invoices[..|b.invoices|] == b.invoices
                    && var w, reference := r.value.invoices[|b.invoices|], "stripe-invoice:" + d.id.value;
                       && w.company == PayerOf(b, d).value && w.linked && w.status == Paid && !w.planChange && w.planRef == NoPlan
                       && w.total == w.paid == w.subtotal == d.amount && w.tax == 0 && w.due == 0
                       && IsSameCurrency(w.currency, d.currency) && w.stripeInvoice == d.id && w.session == None
                       && w.paidAt == Some(if d.paidAt.Some? then d.paidAt.value else now)
                       && (if IsFresh(b, reference) then
                             && |r.value.payments| == |b.payments| + 1 && r.value.payments[..|b.payments|] == b.payments
                             && r.value.payments[|b.payments|] == Payment(|b.invoices|, d.amount, w.currency, Some(reference))
                           else r.value.payments == b.payments))
  {
    hide SettleInFull, Upper, PayerOf, HasPayer, Renewed, LocalInvoice, IsSameCurrency, IsAbout, Activates, KeepsStripeIds, IsFresh, Used;
    PayerIsFound(b, d);
    if HasPayer(b, d) {
      InvoiceHandling(b, d, now);
      RenewingIsExact(b, PayerOf(b, d).value, d);
      if d.id.Some? {
        LocalIsAbout(b, d, 0);
        var local := LocalInvoice(b, d);
        var reference := InvoiceReference(d.id.value);
        FreshIsUnused(b, reference);
        LedgerLaws.UsedLooksAtPayments(b, Renewed(b, PayerOf(b, d).value, d), reference);
        ItsOwnCurrency(d.currency);
        if local.Some? && b.invoices[local.value].status.Open? {
          LocalPaysExactly(b, d, now, local.value);
        }
      }
    }
  }

  lemma ItsOwnCurrency(currency: string)
    ensures IsSameCurrency(Upper(currency), currency)
  {
  }
}
