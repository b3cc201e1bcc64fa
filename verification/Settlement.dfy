/** The two Stripe events of a first payment settle the local invoice in either order. */
module Settlement {
  import opened Wrappers
  import opened Ledger
  import opened LedgerLaws
  import opened Webhooks

  /** The local invoice both events are about: open, of a plan change, with an amount due. */
  predicate Awaits(b: Books, g: Target) {
    && HasSub(b, g.company) && g.plan < |b.plans| && g.invoice < |b.invoices|
    && var v := b.invoices[g.invoice];
       v.status.Open? && v.company == g.company && v.linked && v.planChange && v.planRef == ForPlan(g.plan) && v.due > 0
  }

  /** Nothing else in the books carries the Stripe identifiers or the references of the two events. */
  ghost predicate Unclaimed(b: Books, g: Target, d: Checkout, e: StripeInvoice) {
    && e.id.Some? && e.subscription.Some?
    && (forall j :: 0 <= j < |b.invoices| && j != g.invoice ==> b.invoices[j].stripeInvoice != e.id)
    && (forall k :: 0 <= k < |b.companies| && k != g.company && b.companies[k].sub.Some? ==>
          b.companies[k].sub.value.stripeId != e.subscription)
    && !Used(b, CheckoutReference(d)) && !Used(b, InvoiceReference(e.id.value))
  }

  /** The events agree on identifiers, amount, currency and metadata. */
  predicate Agree(b: Books, g: Target, d: Checkout, e: StripeInvoice)
    requires Awaits(b, g)
  {
    var v := b.invoices[g.invoice];
    && d.paid && d.target == Some(g) && e.company == Some(g.company) && e.localInvoice == Some(g.invoice)
    && d.subscription == e.subscription && d.invoice == e.id
    && d.amount == v.due && e.amount == v.due
    && Upper(d.currency) == Upper(v.currency) && Upper(e.currency) == Upper(v.currency)
  }

  ghost predicate Matching(b: Books, g: Target, d: Checkout, e: StripeInvoice) {
    Awaits(b, g) && Agree(b, g, d, e) && Unclaimed(b, g, d, e)
  }

  /** Two events, one after the other; an error of either is kept. */
  function Both(b: Books, first: Kind, now: int, second: Kind, later: int): Result<Books, BillingError> {
    var r := Handle(b, first, now);
    if r.Err? then r else Handle(r.value, second, later)
  }

  /** The settled books, up to the time of payment, the payment's reference and the bounds of the billing period. */
  function Settled(b: Books, g: Target, d: Checkout, paidAt: int, p: Payment, start: int, end: int): Books
    requires Awaits(b, g)
  {
    var owner, sub, v := b.companies[g.company], Sub(b, g.company), b.invoices[g.invoice];
    var after := sub.(plan := g.plan, pending := None, status := Active, periodStart := start, periodEnd := end,
                      cancelAtEnd := false, cancelledAt := None, stripeId := d.subscription);
    b.(companies := b.companies[g.company := Company(Or(d.customer, owner.customer), Some(after))],
       invoices := b.invoices[g.invoice := v.(paid := v.total, due := 0, status := Paid, paidAt := Some(paidAt),
                                              stripeInvoice := d.invoice, session := Some(d.id))],
       payments := b.payments + [p])
  }

  function Span(start: int, end: int): int {
    if end - start <= 0 then THIRTY_DAYS else end - start
  }

  lemma FindsItsCompany(b: Books, g: Target, id: string)
    requires HasSub(b, g.company) && Sub(b, g.company).stripeId == Some(id)
    requires forall k :: 0 <= k < |b.companies| && k != g.company && b.companies[k].sub.Some? ==>
      b.companies[k].sub.value.stripeId != Some(id)
    ensures FindSub(b.companies, id, 0) == Some(g.company)
  {
  }

  /** The Stripe invoice resolves to the company and the local invoice, whether or not they are linked yet. */
  lemma Resolves(b: Books, g: Target, e: StripeInvoice)
    requires HasSub(b, g.company) && g.invoice < |b.invoices|
    requires e.id.Some? && e.subscription.Some? && e.company == Some(g.company) && e.localInvoice == Some(g.invoice)
    requires forall j :: 0 <= j < |b.invoices| && j != g.invoice ==> b.invoices[j].stripeInvoice != e.id
    requires forall k :: 0 <= k < |b.companies| && k != g.company && b.companies[k].sub.Some? ==>
      b.companies[k].sub.value.stripeId != e.subscription
    ensures PayerOf(b, e) == Some(g.company) && LocalInvoice(b, e) == Some(g.invoice)
  {
  }

  /** Books are equal when their tables are, row by row. */
  lemma SameBooks(r: Books, q: Books)
    requires r.plans == q.plans && r.payments == q.payments
    requires |r.companies| == |q.companies| && forall c :: 0 <= c < |r.companies| ==> r.companies[c] == q.companies[c]
    requires |r.invoices| == |q.invoices| && forall i :: 0 <= i < |r.invoices| ==> r.invoices[i] == q.invoices[i]
    ensures r == q
  {
    assert r.companies == q.companies && r.invoices == q.invoices;
  }

  /** What the checkout event alone does. */
  lemma CheckoutSettles(b: Books, g: Target, d: Checkout, e: StripeInvoice, now: int)
    requires Matching(b, g, d, e)
    ensures var sub, v := Sub(b, g.company), b.invoices[g.invoice];
            OnCheckout(b, d, now) ==
            Ok(Settled(b, g, d, now, Payment(g.invoice, v.due, v.currency, Some(CheckoutReference(d))),
                       now, now + Span(sub.periodStart, sub.periodEnd)))
  {
    hide Used, CheckoutReference, InvoiceReference, Upper;
    var sub, v := Sub(b, g.company), b.invoices[g.invoice];
    SameBooks(OnCheckout(b, d, now).value,
              Settled(b, g, d, now, Payment(g.invoice, v.due, v.currency, Some(CheckoutReference(d))),
                      now, now + Span(sub.periodStart, sub.periodEnd)));
  }

  lemma CheckoutThenInvoice(b: Books, g: Target, d: Checkout, e: StripeInvoice, now: int, later: int)
    requires Matching(b, g, d, e)
    ensures var sub, v := Sub(b, g.company), b.invoices[g.invoice];
            Both(b, CheckoutCompleted(d), now, InvoicePaid(e), later) ==
            Ok(Settled(b, g, d, now, Payment(g.invoice, v.due, v.currency, Some(CheckoutReference(d))),
                       e.periodStart.GetOr(now), e.periodEnd.GetOr(now + Span(sub.periodStart, sub.periodEnd))))
  {
    hide Used, CheckoutReference, InvoiceReference, Upper, OnCheckout, SettleInFull, PayerOf, LocalInvoice;
    CheckoutSettles(b, g, d, e, now);
    var mid := OnCheckout(b, d, now).value;
    Resolves(mid, g, e);
    Resolves(Renewed(mid, g.company, e), g, e);
    var sub, v := Sub(b, g.company), b.invoices[g.invoice];
    SameBooks(Renewed(mid, g.company, e),
              Settled(b, g, d, now, Payment(g.invoice, v.due, v.currency, Some(CheckoutReference(d))),
                      e.periodStart.GetOr(now), e.periodEnd.GetOr(now + Span(sub.periodStart, sub.periodEnd))));
  }

  /** What the invoice event alone does. */
  lemma InvoiceSettles(b: Books, g: Target, d: Checkout, e: StripeInvoice, now: int)
    requires Matching(b, g, d, e)
    ensures var paidAt, v := e.paidAt.GetOr(now), b.invoices[g.invoice];
            var renewed := Renewed(b, g.company, e);
            var tagged := WithInvoice(renewed, g.invoice, v.(stripeInvoice := e.id));
            OnInvoicePaid(b, e, now) == SettleInFull(tagged, g.invoice, InvoiceReference(e.id.value), Upper(e.currency), paidAt)
  {
    hide Used, CheckoutReference, InvoiceReference, Upper, PayerOf, LocalInvoice, SettleInFull;
    Resolves(b, g, e);
    Resolves(Renewed(b, g.company, e), g, e);
  }

  lemma InvoiceThenCheckout(b: Books, g: Target, d: Checkout, e: StripeInvoice, now: int, later: int)
    requires Matching(b, g, d, e)
    ensures var sub, v, paidAt := Sub(b, g.company), b.invoices[g.invoice], e.paidAt.GetOr(now);
            Both(b, InvoicePaid(e), now, CheckoutCompleted(d), later) ==
            Ok(Settled(b, g, d, paidAt, Payment(g.invoice, v.due, Upper(v.currency), Some(InvoiceReference(e.id.value))),
                       paidAt, paidAt + Span(e.periodStart.GetOr(sub.periodStart), e.periodEnd.GetOr(sub.periodEnd))))
  {
    hide Used, CheckoutReference, InvoiceReference, Upper, OnInvoicePaid;
    InvoiceSettles(b, g, d, e, now);
    var renewed := Renewed(b, g.company, e);
    var tagged := WithInvoice(renewed, g.invoice, b.invoices[g.invoice].(stripeInvoice := e.id));
    UsedLooksAtPayments(b, tagged, InvoiceReference(e.id.value));
    var sub, v, paidAt := Sub(b, g.company), b.invoices[g.invoice], e.paidAt.GetOr(now);
    SameBooks(LinkCheckout(OnInvoicePaid(b, e, now).value, d),
              Settled(b, g, d, paidAt, Payment(g.invoice, v.due, Upper(v.currency), Some(InvoiceReference(e.id.value))),
                      paidAt, paidAt + Span(e.periodStart.GetOr(sub.periodStart), e.periodEnd.GetOr(sub.periodEnd))));
  }

  /** Equal up to the time of payment of invoice `i`. */
  predicate SameInvoices(r: Books, q: Books, i: nat) {
    && |r.invoices| == |q.invoices|
    && forall j :: 0 <= j < |r.invoices| ==>
         r.invoices[j] == if j == i then q.invoices[j].(paidAt := r.invoices[j].paidAt) else q.invoices[j]
  }

  /** Equal up to where the billing period of company `c` lies. */
  predicate SameCompanies(r: Books, q: Books, c: nat) {
    && HasSub(r, c) && HasSub(q, c)
    && r.companies == q.companies[c := q.companies[c].(sub := Some(
         Sub(q, c).(periodStart := Sub(r, c).periodStart, periodEnd := Sub(r, c).periodEnd)))]
  }

  predicate PaidOnce(b: Books, r: Books, i: nat) {
    && |r.payments| == |b.payments| + 1 && r.payments[..|b.payments|] == b.payments && i < |b.invoices| && i < |r.invoices|
    && r.payments[|b.payments|].invoice == i && r.payments[|b.payments|].amount == b.invoices[i].due
  }

  function PeriodLength(b: Books, c: nat): int
    requires HasSub(b, c)
  {
    Sub(b, c).periodEnd - Sub(b, c).periodStart
  }

  /** The period the invoice event leaves when it comes second, and the one it leaves when it comes first, are equally long. */
  predicate SameLengthEitherWay(sub: Subscription, e: StripeInvoice, t: int) {
    e.periodEnd.GetOr(t + Span(sub.periodStart, sub.periodEnd)) - e.periodStart.GetOr(t)
    == Span(e.periodStart.GetOr(sub.periodStart), e.periodEnd.GetOr(sub.periodEnd))
  }

  /**
    In either order both events succeed, pay the invoice once and in full, and make the plan current. The results
    differ at most in the time of payment, in the payment's reference and currency spelling, and in where the
    billing period lies. Its length is the same exactly under `SameLengthEitherWay`, for a checkout event handled at `t`.
   */
  lemma SettlementIsOrderIndependent(b: Books, g: Target, d: Checkout, e: StripeInvoice, t: int, u: int, v: int, w: int)
    requires Matching(b, g, d, e)
    ensures var first, second := Both(b, CheckoutCompleted(d), t, InvoicePaid(e), u), Both(b, InvoicePaid(e), v, CheckoutCompleted(d), w);
            && first.Ok? && second.Ok?
            && var r, q := first.value, second.value;
               && SameInvoices(r, q, g.invoice) && SameCompanies(r, q, g.company) && r.plans == q.plans
               && PaidOnce(b, r, g.invoice) && PaidOnce(b, q, g.invoice)
               && r.invoices[g.invoice].status.Paid? && r.invoices[g.invoice].due == 0
               && Sub(r, g.company).plan == g.plan && Sub(r, g.company).pending.None? && Sub(r, g.company).status.Active?
               && (PeriodLength(r, g.company) == PeriodLength(q, g.company) <==> SameLengthEitherWay(Sub(b, g.company), e, t))
  {
    hide Unclaimed, Agree, CheckoutReference, InvoiceReference, Upper, Both;
    CheckoutThenInvoice(b, g, d, e, t, u);
    InvoiceThenCheckout(b, g, d, e, v, w);
  }

  /** What the condition comes to for each of the four ways in which Stripe can report the period. */
  lemma LengthsByReportedEnds(sub: Subscription, e: StripeInvoice, t: int)
    ensures e.periodStart.Some? && e.periodEnd.Some? ==>
              (SameLengthEitherWay(sub, e, t) <==> e.periodStart.value < e.periodEnd.value)
    ensures e.periodStart.None? && e.periodEnd.None? ==> SameLengthEitherWay(sub, e, t)
    ensures e.periodStart.None? && e.periodEnd.Some? ==>
              (SameLengthEitherWay(sub, e, t)
               <==> if sub.periodStart < e.periodEnd.value then t == sub.periodStart else e.periodEnd.value == t + THIRTY_DAYS)
    ensures e.periodStart.Some? && e.periodEnd.None? ==>
              (SameLengthEitherWay(sub, e, t)
               <==> t + Span(sub.periodStart, sub.periodEnd)
                    == if e.periodStart.value < sub.periodEnd then sub.periodEnd else e.periodStart.value + THIRTY_DAYS)
  {
  }

  /** A Stripe period with one end missing: the order of the events decides the length. */
  lemma OneEndedPeriodsDiffer()
    ensures exists b: Books, g: Target, d: Checkout, e: StripeInvoice ::
      && Matching(b, g, d, e) && e.periodStart.Some? && e.periodEnd.None?
      && var first, second := Both(b, CheckoutCompleted(d), 10, InvoicePaid(e), 20), Both(b, InvoicePaid(e), 10, CheckoutCompleted(d), 20);
         && first.Ok? && second.Ok? && HasSub(first.value, g.company) && HasSub(second.value, g.company)
         && PeriodLength(first.value, g.company) != PeriodLength(second.value, g.company)
  {
    hide Upper, CheckoutReference, InvoiceReference, Both;
    var g := Target(0, 1, 0);
    var sub := Subscription(0, Some(1), Active, 0, 9, false, None, None);
    var v := Invoice(0, true, Open, "USD", 5, 0, 5, 0, 5, true, ForPlan(1), None, None, None);
    var b := Books([Plan(0, "USD", true, false), Plan(5, "USD", true, true)], [Company(None, Some(sub))], [v], []);
    var d := Checkout("cs", true, Some(g), 5, "USD", None, None, Some("sub"), Some("in"));
    var e := StripeInvoice(Some("in"), Some("sub"), Some(0), Some(0), 5, "USD", Some(4), None, None);
    assert Matching(b, g, d, e);
    CheckoutThenInvoice(b, g, d, e, 10, 20);
    InvoiceThenCheckout(b, g, d, e, 10, 20);
  }

  // ----- redeliveries and failures

  predicate Concerns(item: Item, x: string, d: Checkout, y: string, e: StripeInvoice) {
    && item.Arrives?
    && ((item.delivery.id == x && item.delivery.kind == CheckoutCompleted(d))
        || (item.delivery.id == y && item.delivery.kind == InvoicePaid(e)))
  }

  /** The deliveries of the two events, however often and in whatever order they come. */
  predicate OnlyThese(items: seq<Item>, x: string, d: Checkout, y: string, e: StripeInvoice) {
    forall k :: 0 <= k < |items| ==> Concerns(items[k], x, d, y, e)
  }

  /** Some delivery of the event does not fail for a reason outside the books. */
  predicate GetsThrough(items: seq<Item>, id: string) {
    exists k :: 0 <= k < |items| && items[k].Arrives? && items[k].delivery.id == id && !items[k].delivery.crashes
  }

  /** How far the settlement has come, by the events committed. */
  ghost predicate Progress(b: Books, s: Store, x: string, d: Checkout, y: string, e: StripeInvoice) {
    if x in s.seen then
      if y in s.seen then
        exists t, u :: Ok(s.books) == Both(b, CheckoutCompleted(d), t, InvoicePaid(e), u)
                    || Ok(s.books) == Both(b, InvoicePaid(e), t, CheckoutCompleted(d), u)
      else exists t :: Ok(s.books) == OnCheckout(b, d, t)
    else if y in s.seen then exists t :: Ok(s.books) == OnInvoicePaid(b, e, t)
    else s.books == b
  }

  lemma ProgressGoesOn(b: Books, s: Store, item: Item, checked: bool, g: Target, x: string, d: Checkout, y: string, e: StripeInvoice)
    requires Matching(b, g, d, e) && x != "" && y != "" && x != y
    requires Progress(b, s, x, d, y, e) && Concerns(item, x, d, y, e)
    ensures var t := Next(s, item, checked);
            Progress(b, t, x, d, y, e) && s.seen <= t.seen && (!item.delivery.crashes ==> item.delivery.id in t.seen)
  {
    hide Matching, OnCheckout, OnInvoicePaid, Settled;
    var at := item.delivery.at;
    if item.delivery.crashes || item.delivery.id in s.seen {
    } else if item.delivery.id == x {
      if y in s.seen {
        var t :| Ok(s.books) == OnInvoicePaid(b, e, t);
        InvoiceThenCheckout(b, g, d, e, t, at);
        assert Ok(Next(s, item, checked).books) == Both(b, InvoicePaid(e), t, CheckoutCompleted(d), at);
      } else {
        CheckoutThenInvoice(b, g, d, e, at, at);
      }
    } else if x in s.seen {
      var t :| Ok(s.books) == OnCheckout(b, d, t);
      CheckoutThenInvoice(b, g, d, e, t, at);
      assert Ok(Next(s, item, checked).books) == Both(b, CheckoutCompleted(d), t, InvoicePaid(e), at);
    } else {
      InvoiceThenCheckout(b, g, d, e, at, at);
    }
  }

  lemma {:induction false} ProgressOverRuns(b: Books, s: Store, items: seq<Item>, checked: bool,
                                            g: Target, x: string, d: Checkout, y: string, e: StripeInvoice)
    requires Matching(b, g, d, e) && x != "" && y != "" && x != y
    requires Progress(b, s, x, d, y, e) && OnlyThese(items, x, d, y, e)
    ensures var t := Play(s, items, checked);
            Progress(b, t, x, d, y, e) && s.seen <= t.seen
            && (GetsThrough(items, x) ==> x in t.seen) && (GetsThrough(items, y) ==> y in t.seen)
    decreases items
  {
    hide Matching, Progress, Concerns, Next;
    if items != [] {
      ProgressGoesOn(b, s, items[0], checked, g, x, d, y, e);
      var rest := items[1..];
      ProgressOverRuns(b, Next(s, items[0], checked), rest, checked, g, x, d, y, e);
      assert forall k :: 0 < k < |items| ==> items[k] == rest[k - 1];
    }
  }

  /**
    However the two events are repeated, ordered and failed, once each has got through the invoice is paid by exactly
    one payment of its amount and the plan is current.
   */
  lemma AnyDeliveryPatternSettlesOnce(s: Store, items: seq<Item>, checked: bool,
                                      g: Target, x: string, d: Checkout, y: string, e: StripeInvoice)
    requires Matching(s.books, g, d, e) && x != "" && y != "" && x != y && x !in s.seen && y !in s.seen
    requires OnlyThese(items, x, d, y, e) && GetsThrough(items, x) && GetsThrough(items, y)
    ensures var r := Play(s, items, checked).books;
            && PaidOnce(s.books, r, g.invoice) && HasSub(r, g.company)
            && r.invoices[g.invoice].status.Paid? && r.invoices[g.invoice].due == 0
            && Sub(r, g.company).plan == g.plan && Sub(r, g.company).pending.None?
  {
    hide Both, CheckoutReference, InvoiceReference, Upper, Unclaimed, Agree, Play, OnlyThese, GetsThrough;
    ProgressOverRuns(s.books, s, items, checked, g, x, d, y, e);
    var r := Play(s, items, checked).books;
    var t, u :| Ok(r) == Both(s.books, CheckoutCompleted(d), t, InvoicePaid(e), u)
             || Ok(r) == Both(s.books, InvoicePaid(e), t, CheckoutCompleted(d), u);
    SettlementIsOrderIndependent(s.books, g, d, e, t, u, t, u);
  }
}
