/** When the billing requests and subscription events take effect, and the rows they leave. */
module BillingOutcomes {
  import opened Wrappers
  import opened Ledger

  /** The tables of `t` are those of `b` but for company `c` and what is said about invoices. */
  ghost predicate OnlyCompany(b: Books, t: Books, c: nat) {
    && t.plans == b.plans && t.payments == b.payments && |t.companies| == |b.companies|
    && forall d :: 0 <= d < |b.companies| && d != c ==> t.companies[d] == b.companies[d]
  }

  /** Company `c` keeps its customer, and its subscription becomes `after`. */
  ghost predicate NowHas(b: Books, t: Books, c: nat, after: Subscription) {
    && OnlyCompany(b, t, c) && c < |b.companies| && t.companies[c] == Company(b.companies[c].customer, Some(after))
  }

  predicate IsOnSale(b: Books, p: nat) {
    p < |b.plans| && b.plans[p].isActive
  }

  /** An unpaid invoice over the price of plan `p`, for the change to it. */
  predicate IsChangeInvoice(b: Books, v: Invoice, c: nat, p: nat)
    requires p < |b.plans|
  {
    && v.company == c && v.linked && v.status == Open && v.currency == b.plans[p].currency
    && v.subtotal == v.total == v.due == b.plans[p].price && v.tax == v.paid == 0
    && v.planChange && v.planRef == ForPlan(p) && v.paidAt == None && v.stripeInvoice == None
  }

  // ----- changes of plan

  /** Another plan on sale is taken unless a change is pending: at once when it is free, else by an invoice for its price. */
  lemma PlanChangesAreExact(b: Books, c: nat, p: nat)
    ensures var r := ChangePlan(b, c, p);
            && (r.error == Some(NotFound) <==> !HasSub(b, c) || !IsOnSale(b, p))
            && (r.error == Some(Conflict) <==> HasSub(b, c) && IsOnSale(b, p) && (p == Sub(b, c).plan || Sub(b, c).pending != None))
            && (r.error == None <==> HasSub(b, c) && IsOnSale(b, p) && p != Sub(b, c).plan && Sub(b, c).pending == None)
            && (r.error != None ==> r.books == b)
            && (r.error == None && b.plans[p].price == 0 ==>
                  && r.books.invoices == b.invoices
                  && NowHas(b, r.books, c, Sub(b, c).(plan := p, pending := None, status := SubscriptionStatus.Active,
                                                     cancelAtEnd := false, cancelledAt := None)))
            && (r.error == None && b.plans[p].price > 0 ==>
                  && NowHas(b, r.books, c, Sub(b, c).(pending := Some(p)))
                  && |r.books.invoices| == |b.invoices| + 1 && r.books.invoices[..|b.invoices|] == b.invoices
                  && IsChangeInvoice(b, r.books.invoices[|b.invoices|], c, p) && r.books.invoices[|b.invoices|].session == None)
  {
  }

  /** The first open invoice of the company's subscription. */
  predicate IsFirstOpen(b: Books, c: nat, i: nat) {
    && i < |b.invoices| && b.invoices[i].status == Open && b.invoices[i].linked && b.invoices[i].company == c
    && forall j :: 0 <= j < i ==> !(b.invoices[j].status == Open && b.invoices[j].linked && b.invoices[j].company == c)
  }

  lemma {:induction false} FindsTheFirstOpen(vs: seq<Invoice>, c: nat, from: nat)
    requires from <= |vs|
    ensures FindOpen(vs, c, from).Some? ==> forall j :: from <= j < FindOpen(vs, c, from).value ==> !IsOpenFor(vs[j], c)
    decreases |vs| - from
  {
    if from < |vs| {
      FindsTheFirstOpen(vs, c, from + 1);
    }
  }

  /** A paid plan that Stripe knows, for a company without a live Stripe subscription and without another unpaid change. */
  ghost predicate MayCheckOut(b: Books, c: nat, p: nat) {
    && HasSub(b, c) && IsOnSale(b, p) && p != Sub(b, c).plan && b.plans[p].price > 0 && b.plans[p].hasStripePrice
    && (Sub(b, c).stripeId == None || Sub(b, c).status in {SubscriptionStatus.Cancelled, Expired})
    && (Sub(b, c).pending == None || (Sub(b, c).pending == Some(p) && exists i: nat :: IsFirstOpen(b, c, i)))
  }

  /** The invoice a checkout is for, before Stripe is asked: the open one of the pending change, or a new one. */
  ghost predicate IsPrepared(b: Books, t: Books, c: nat, p: nat, i: nat, customer: Option<string>, session: Option<string>)
    requires MayCheckOut(b, c, p)
  {
    && OnlyCompany(b, t, c) && t.companies[c] == Company(customer, Some(Sub(b, c).(pending := Some(p))))
    && (if Sub(b, c).pending == None then
          && i == |b.invoices| && |t.invoices| == i + 1 && t.invoices[..i] == b.invoices
          && IsChangeInvoice(b, t.invoices[i], c, p) && t.invoices[i].session == session
        else
          IsFirstOpen(b, c, i) && t.invoices == b.invoices[i := b.invoices[i].(session := if session.Some? then session else b.invoices[i].session)])
  }

  lemma OpenIsFound(b: Books, c: nat)
    ensures match FindOpen(b.invoices, c, 0)
            case None => forall i: nat :: !IsFirstOpen(b, c, i)
            case Some(i) => IsFirstOpen(b, c, i)
  {
    FindsTheFirstOpen(b.invoices, c, 0);
    var found := FindOpen(b.invoices, c, 0);
    forall i: nat | IsFirstOpen(b, c, i)
      ensures found.Some?
    {
      assert IsOpenFor(b.invoices[i], c);
    }
  }

  /** A checkout succeeds exactly when it may be made and Stripe gives a session, and a customer if there is none yet. */
  lemma CheckoutsAreAnsweredExactly(b: Books, c: nat, p: nat, customer: Option<string>, session: Option<string>)
    ensures var r := CreateCheckout(b, c, p, customer, session);
            && (r.error == Some(NotFound) <==> !HasSub(b, c) || !IsOnSale(b, p))
            && (r.error == Some(Invalid) <==>
                  HasSub(b, c) && IsOnSale(b, p) && p != Sub(b, c).plan && (b.plans[p].price == 0 || !b.plans[p].hasStripePrice))
            && (r.error == Some(Gateway) <==>
                  MayCheckOut(b, c, p) && !((b.companies[c].customer.Some? || customer.Some?) && session.Some?))
            && (r.error == None <==> MayCheckOut(b, c, p) && (b.companies[c].customer.Some? || customer.Some?) && session.Some?)
            && r.error in {None, Some(NotFound), Some(Conflict), Some(Invalid), Some(Gateway)}
  {
    hide FindOpen, OpenChange, IsFirstOpen;
    OpenIsFound(b, c);
  }

  /** The customer a checkout ends with. */
  function Known(b: Books, c: nat, customer: Option<string>): Option<string>
    requires c < |b.companies|
  {
    if b.companies[c].customer.Some? then b.companies[c].customer else customer
  }

  /** A failed checkout changes nothing, except that a customer Stripe has created stays, with the invoice. */
  lemma CheckoutsAreExact(b: Books, c: nat, p: nat, customer: Option<string>, session: Option<string>) returns (i: nat)
    ensures var r := CreateCheckout(b, c, p, customer, session);
            && (!MayCheckOut(b, c, p) ==> r.books == b)
            && (MayCheckOut(b, c, p) ==>
                  && (r.error == None ==> IsPrepared(b, r.books, c, p, i, Known(b, c, customer), session))
                  && (r.error != None && b.companies[c].customer == None && customer.Some? ==>
                        IsPrepared(b, r.books, c, p, i, customer, None))
                  && (r.error != None && !(b.companies[c].customer == None && customer.Some?) ==> r.books == b))
  {
    hide FindOpen, IsFirstOpen, MayCheckOut, IsPrepared;
    OpenIsFound(b, c);
    CheckoutsAreAnsweredExactly(b, c, p, customer, session);
    var r, found := CreateCheckout(b, c, p, customer, session), FindOpen(b.invoices, c, 0);
    i := if HasSub(b, c) && Sub(b, c).pending.Some? && found.Some? then found.value else |b.invoices|;
    if MayCheckOut(b, c, p) && (r.error == None || r.books != b) {
      PreparingIsExact(b, c, p, i, Known(b, c, customer), if r.error == None then session else None);
      assert r.books == Prepared(b, c, p, i, Known(b, c, customer), if r.error == None then session else None);
    }
  }

  /** The rows of a checkout for invoice `i`. */
  function Prepared(b: Books, c: nat, p: nat, i: nat, customer: Option<string>, session: Option<string>): Books
    requires HasSub(b, c) && p < |b.plans|
  {
    var t := if Sub(b, c).pending.Some? then b else OpenChange(b, c, p);
    t.(companies := t.companies[c := t.companies[c].(customer := customer)],
       invoices := if i < |t.invoices| && session.Some? then t.invoices[i := t.invoices[i].(session := session)] else t.invoices)
  }

  lemma PreparingIsExact(b: Books, c: nat, p: nat, i: nat, customer: Option<string>, session: Option<string>)
    requires MayCheckOut(b, c, p)
    requires if Sub(b, c).pending.Some? then IsFirstOpen(b, c, i) else i == |b.invoices|
    ensures IsPrepared(b, Prepared(b, c, p, i, customer, session), c, p, i, customer, session)
  {
  }

  // ----- administration

  /** An administrator's invoice is open for its whole total, and is of the company's subscription if it has one. */
  lemma BillsAreExact(b: Books, c: nat, amount: int, tax: int, currency: string, planChange: bool, planRef: PlanRef)
    ensures var r := CreateInvoice(b, c, amount, tax, currency, planChange, planRef);
            && (r.error == Some(Invalid) <==> amount <= 0 || tax < 0)
            && (r.error == Some(NotFound) <==> amount > 0 && tax >= 0 && c >= |b.companies|)
            && (r.error == None <==> amount > 0 && tax >= 0 && c < |b.companies|)
            && (r.error != None ==> r.books == b)
            && (r.error == None ==>
                  && r.books == b.(invoices := r.books.invoices)
                  && |r.books.invoices| == |b.invoices| + 1 && r.books.invoices[..|b.invoices|] == b.invoices
                  && var v := r.books.invoices[|b.invoices|];
                     && v.company == c && v.linked == HasSub(b, c) && v.status == Open
                     && v.subtotal == amount && v.tax == tax && v.total == v.due == amount + tax && v.paid == 0
                     && |v.currency| == |currency| && (forall k :: 0 <= k < |currency| ==>
                          v.currency[k] == if 'a' <= currency[k] <= 'z' then (currency[k] as int - 32) as char else currency[k])
                     && v.planChange == planChange && v.planRef == planRef
                     && v.paidAt == None && v.stripeInvoice == None && v.session == None)
  {
  }

  /** Where the CHECK constraint is not enforced, exactly an open invoice without payments is voided, and a pending plan goes with it. */
  lemma VoidsAreExact(b: Books, i: nat)
    ensures var r := VoidInvoice(b, i, false);
            && (r.error == Some(NotFound) <==> i >= |b.invoices|)
            && (r.error == None <==> i < |b.invoices| && b.invoices[i].status == Open && b.invoices[i].paid == 0)
            && (r.error in {None, Some(NotFound), Some(Conflict)})
            && (r.error != None ==> r.books == b)
            && (r.error == None ==>
                  var v := b.invoices[i];
                  && r.books.invoices == b.invoices[i := v.(status := Void, due := 0)]
                  && (if v.linked && v.planChange && HasSub(b, v.company)
                      then NowHas(b, r.books, v.company, Sub(b, v.company).(pending := None))
                      else r.books == b.(invoices := r.books.invoices)))
  {
  }

  /** Where it is enforced, it refuses the void of an invoice with a total; one without is voided as before. */
  lemma TheConstraintRefusesVoids(b: Books, i: nat)
    ensures var r := VoidInvoice(b, i, true);
            if i < |b.invoices| && b.invoices[i].status == Open && b.invoices[i].paid == 0 && b.invoices[i].total != 0
            then r == Reply(b, Some(Integrity)) else r == VoidInvoice(b, i, false)
  {
  }

  /** A live subscription is set to end with its period, or to go on. */
  lemma CancellationsAreExact(b: Books, c: nat, cancel: bool, at: int)
    ensures var r := SetCancellation(b, c, cancel, at);
            && (r.error == Some(NotFound) <==> !HasSub(b, c))
            && (r.error == None <==> HasSub(b, c) && Sub(b, c).status !in {SubscriptionStatus.Cancelled, Expired})
            && r.error in {None, Some(NotFound), Some(Conflict)}
            && (r.error != None ==> r.books == b)
            && (r.error == None ==>
                  && r.books.invoices == b.invoices
                  && NowHas(b, r.books, c, Sub(b, c).(cancelAtEnd := cancel, cancelledAt := if cancel then Some(at) else None)))
  {
  }

  // ----- subscription events

  /** The first company whose subscription carries the Stripe identifier. */
  predicate IsItsCompany(b: Books, id: string, c: nat) {
    && HasSub(b, c) && Sub(b, c).stripeId == Some(id)
    && forall d :: 0 <= d < c && HasSub(b, d) ==> Sub(b, d).stripeId != Some(id)
  }

  lemma {:induction false} FindsItsCompany(b: Books, id: string, c: nat, from: nat)
    requires from <= |b.companies|
    ensures FindSub(b.companies, id, from) == Some(c)
            <==> from <= c && HasSub(b, c) && Sub(b, c).stripeId == Some(id)
                 && forall d :: from <= d < c && HasSub(b, d) ==> Sub(b, d).stripeId != Some(id)
    decreases |b.companies| - from
  {
    if from < |b.companies| {
      assert HasSub(b, from) <==> b.companies[from].sub.Some?;
      FindsItsCompany(b, id, c, from + 1);
    }
  }

  /** A failed payment makes the subscription past due, and a deletion cancels it. */
  lemma FailuresAndDeletionsAreExact(b: Books, id: string, at: int, c: nat)
    requires IsItsCompany(b, id, c)
    ensures var t := OnFailure(b, Some(id));
            t.invoices == b.invoices && NowHas(b, t, c, Sub(b, c).(status := PastDue))
    ensures var t := OnDeleted(b, id, at);
            t.invoices == b.invoices
            && NowHas(b, t, c, Sub(b, c).(status := SubscriptionStatus.Cancelled, cancelAtEnd := false, cancelledAt := Some(at)))
  {
    FindsItsCompany(b, id, c, 0);
  }

  /** An update writes status and period where Stripe gives them, the cancellation always, and a known price makes its plan current. */
  lemma UpdatesAreExact(b: Books, n: Notice, c: nat)
    requires IsItsCompany(b, n.subscription, c)
    ensures var t, s := OnNotice(b, n), Sub(b, c);
            && t.invoices == b.invoices && HasSub(t, c)
            && var u := Sub(t, c);
               && NowHas(b, t, c, u) && u.stripeId == s.stripeId
               && u.status == (if n.status.Some? then n.status.value else s.status)
               && u.periodStart == (if n.start.Some? then n.start.value else s.periodStart)
               && u.periodEnd == (if n.end.Some? then n.end.value else s.periodEnd)
               && u.cancelAtEnd == n.cancelAtEnd && u.cancelledAt == n.cancelledAt
               && (if n.plan.Some? then u.plan == n.plan.value && u.pending == None else u.plan == s.plan && u.pending == s.pending)
  {
    FindsItsCompany(b, n.subscription, c, 0);
  }

  /** An event about a subscription no company has changes nothing. */
  lemma UnknownSubscriptionsChangeNothing(b: Books, id: string, n: Notice, at: int)
    requires n.subscription == id && forall c: nat :: !IsItsCompany(b, id, c)
    ensures OnFailure(b, Some(id)) == OnFailure(b, None) == OnDeleted(b, id, at) == OnNotice(b, n) == b
  {
    var found := FindSub(b.companies, id, 0);
    if found.Some? {
      FindsItsCompany(b, id, found.value, 0);
      assert IsItsCompany(b, id, found.value);
    }
  }
}
