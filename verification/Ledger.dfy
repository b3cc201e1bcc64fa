/** Subscriptions, invoices and payments, and what each billing operation does to them. */
module Ledger {
  import opened Wrappers

  datatype SubscriptionStatus = Trial | Active | PastDue | Cancelled | Expired

  datatype Subscription = Subscription(
    plan: nat, pending: Option<nat>, status: SubscriptionStatus,
    periodStart: int, periodEnd: int, cancelAtEnd: bool, cancelledAt: Option<int>, stripeId: Option<string>)

  datatype Company = Company(customer: Option<string>, sub: Option<Subscription>)

  datatype InvoiceStatus = Open | Paid | Void

  /** The plan named in an invoice's metadata: none, an unreadable one, or a plan's number. */
  datatype PlanRef = NoPlan | BadPlan | ForPlan(plan: nat)

  /** `linked` says that the invoice belongs to its company's subscription, `planChange` that its metadata marks a plan change. */
  datatype Invoice = Invoice(
    company: nat, linked: bool, status: InvoiceStatus, currency: string,
    subtotal: int, tax: int, total: int, paid: int, due: int,
    planChange: bool, planRef: PlanRef,
    paidAt: Option<int>, stripeInvoice: Option<string>, session: Option<string>)

  /** A succeeded payment; the code creates no other. */
  datatype Payment = Payment(invoice: nat, amount: int, currency: string, reference: Option<string>)

  datatype Plan = Plan(price: nat, currency: string, isActive: bool, hasStripePrice: bool)

  /** The tables; a row's identifier is its position. */
  datatype Books = Books(
    plans: seq<Plan>, companies: seq<Company>, invoices: seq<Invoice>, payments: seq<Payment>)

  datatype BillingError = NotFound | Conflict | Invalid | Integrity | Gateway

  /** The state after the request, and the error it answered with. */
  datatype Reply = Reply(books: Books, error: Option<BillingError>)

  const THIRTY_DAYS := 30 * 86_400

  // ----- rows

  predicate HasSub(b: Books, c: nat) {
    c < |b.companies| && b.companies[c].sub.Some?
  }

  function Sub(b: Books, c: nat): Subscription
    requires HasSub(b, c)
  {
    b.companies[c].sub.value
  }

  function WithSub(b: Books, c: nat, s: Subscription): (r: Books)
    requires c < |b.companies|
    ensures HasSub(r, c) && Sub(r, c) == s
  {
    b.(companies := b.companies[c := b.companies[c].(sub := Some(s))])
  }

  function WithInvoice(b: Books, i: nat, v: Invoice): Books
    requires i < |b.invoices|
  {
    b.(invoices := b.invoices[i := v])
  }

  /** The first position from `from` on whose subscription carries this Stripe identifier. */
  function FindSub(cs: seq<Company>, id: string, from: nat): (r: Option<nat>)
    requires from <= |cs|
    ensures r.Some? ==> from <= r.value < |cs| && cs[r.value].sub.Some? && cs[r.value].sub.value.stripeId == Some(id)
    ensures r.None? ==> forall c :: from <= c < |cs| && cs[c].sub.Some? ==> cs[c].sub.value.stripeId != Some(id)
    decreases |cs| - from
  {
    if from == |cs| then None
    else if cs[from].sub.Some? && cs[from].sub.value.stripeId == Some(id) then Some(from)
    else FindSub(cs, id, from + 1)
  }

  function FindInvoice(vs: seq<Invoice>, id: string, from: nat): (r: Option<nat>)
    requires from <= |vs|
    ensures r.Some? ==> from <= r.value < |vs| && vs[r.value].stripeInvoice == Some(id)
    ensures r.None? ==> forall i :: from <= i < |vs| ==> vs[i].stripeInvoice != Some(id)
    decreases |vs| - from
  {
    if from == |vs| then None
    else if vs[from].stripeInvoice == Some(id) then Some(from)
    else FindInvoice(vs, id, from + 1)
  }

  predicate IsOpenFor(v: Invoice, c: nat) {
    v.status.Open? && v.linked && v.company == c
  }

  function FindOpen(vs: seq<Invoice>, c: nat, from: nat): (r: Option<nat>)
    requires from <= |vs|
    ensures r.Some? ==> from <= r.value < |vs| && IsOpenFor(vs[r.value], c)
    ensures r.None? ==> forall i :: from <= i < |vs| ==> !IsOpenFor(vs[i], c)
    decreases |vs| - from
  {
    if from == |vs| then None
    else if IsOpenFor(vs[from], c) then Some(from)
    else FindOpen(vs, c, from + 1)
  }

  /** The payment that carries a reference. */
  function FindPayment(ps: seq<Payment>, reference: string, from: nat): (r: Option<nat>)
    requires from <= |ps|
    ensures r.Some? ==> from <= r.value < |ps| && ps[r.value].reference == Some(reference)
    ensures r.None? ==> forall k :: from <= k < |ps| ==> ps[k].reference != Some(reference)
    decreases |ps| - from
  {
    if from == |ps| then None
    else if ps[from].reference == Some(reference) then Some(from)
    else FindPayment(ps, reference, from + 1)
  }

  predicate Used(b: Books, reference: string) {
    FindPayment(b.payments, reference, 0).Some?
  }

  function UpperChar(c: char): char {
    if 'a' <= c <= 'z' then (c as int - 'a' as int + 'A' as int) as char else c
  }

  function Upper(s: string): string {
    seq(|s|, i requires 0 <= i < |s| => UpperChar(s[i]))
  }

  // ----- plan changes

  /** An invoice for a change to plan `p`. */
  function ChangeInvoice(b: Books, c: nat, p: nat): Invoice
    requires p < |b.plans|
  {
    var price := b.plans[p].price;
    Invoice(c, true, Open, b.plans[p].currency, price, 0, price, 0, price, true, ForPlan(p), None, None, None)
  }

  function OpenChange(b: Books, c: nat, p: nat): Books
    requires HasSub(b, c) && p < |b.plans|
  {
    WithSub(b, c, Sub(b, c).(pending := Some(p))).(invoices := b.invoices + [ChangeInvoice(b, c, p)])
  }

  function ChangePlan(b: Books, c: nat, p: nat): Reply {
    if !HasSub(b, c) then Reply(b, Some(NotFound))
    else if p >= |b.plans| || !b.plans[p].isActive then Reply(b, Some(NotFound))
    else if p == Sub(b, c).plan || Sub(b, c).pending.Some? then Reply(b, Some(Conflict))
    else if b.plans[p].price == 0 then
      Reply(WithSub(b, c, Sub(b, c).(plan := p, pending := None, status := Active, cancelAtEnd := false, cancelledAt := None)), None)
    else Reply(OpenChange(b, c, p), None)
  }

  /**
    Stripe Checkout for a paid plan. `customer` and `session` are what the gateway returns when asked, None for a failure.
    A newly created customer is committed at once, together with the invoice.
   */
  function CreateCheckout(b: Books, c: nat, p: nat, customer: Option<string>, session: Option<string>): Reply {
    if !HasSub(b, c) then Reply(b, Some(NotFound))
    else if p >= |b.plans| || !b.plans[p].isActive then Reply(b, Some(NotFound))
    else
      var sub := Sub(b, c);
      if p == sub.plan then Reply(b, Some(Conflict))
      else if b.plans[p].price == 0 || !b.plans[p].hasStripePrice then Reply(b, Some(Invalid))
      else if sub.stripeId.Some? && !sub.status.Cancelled? && !sub.status.Expired? then Reply(b, Some(Conflict))
      else
        var found := FindOpen(b.invoices, c, 0);
        if sub.pending.Some? && (sub.pending.value != p || found.None?) then Reply(b, Some(Conflict))
        else
          var prepared := if sub.pending.Some? then b else OpenChange(b, c, p);
          var i := if sub.pending.Some? then found.value else |b.invoices|;
          var isNew := b.companies[c].customer.None?;
          if isNew && customer.None? then Reply(b, Some(Gateway))
          else
            var saved := if isNew then
                prepared.(companies := prepared.companies[c := prepared.companies[c].(customer := customer)])
              else prepared;
            if session.None? then Reply(if isNew then saved else b, Some(Gateway))
            else Reply(WithInvoice(saved, i, saved.invoices[i].(session := session)), None)
  }

  // ----- settlement

  /** `_activate_paid_plan_change`: the paid plan becomes current for a period as long as the present one. */
  function Activate(b: Books, i: nat, now: int): Result<Books, BillingError>
    requires i < |b.invoices|
  {
    var v := b.invoices[i];
    if !v.planChange || !v.linked then Ok(b)
    else if !v.planRef.ForPlan? then Err(Invalid)
    else if !HasSub(b, v.company) || v.planRef.plan >= |b.plans| then Err(Invalid)
    else
      var sub := Sub(b, v.company);
      var length := if sub.periodEnd - sub.periodStart <= 0 then THIRTY_DAYS else sub.periodEnd - sub.periodStart;
      Ok(WithSub(b, v.company, sub.(
        plan := v.planRef.plan, pending := None, status := Active,
        periodStart := now, periodEnd := now + length, cancelAtEnd := false, cancelledAt := None)))
  }

  /** A Stripe settlement of an open invoice in full; the payment row is skipped when its reference is already used. */
  function SettleInFull(b: Books, i: nat, reference: string, currency: string, paidAt: int): Result<Books, BillingError>
    requires i < |b.invoices|
  {
    var v := b.invoices[i];
    var done := WithInvoice(b, i, v.(paid := v.total, due := 0, status := Paid, paidAt := Some(paidAt)));
    var listed := if Used(b, reference) || v.due <= 0 then done
                  else done.(payments := done.payments + [Payment(i, v.due, currency, Some(reference))]);
    Activate(listed, i, paidAt)
  }

  /** An empty reference skips the look-up; a second one is refused by the unique constraint when the payment is committed. */
  predicate Collides(b: Books, reference: Option<string>) {
    reference == Some("") && Used(b, "")
  }

  function RecordPayment(b: Books, i: nat, amount: int, reference: Option<string>, now: int): Reply {
    if amount <= 0 then Reply(b, Some(Invalid))
    else if i >= |b.invoices| then Reply(b, Some(NotFound))
    else
      var v := b.invoices[i];
      if !v.status.Open? then Reply(b, Some(Conflict))
      else if amount > v.due then Reply(b, Some(Invalid))
      else if reference.Some? && reference.value != "" && Used(b, reference.value) then
        var known := b.payments[FindPayment(b.payments, reference.value, 0).value];
        Reply(b, if known.invoice == i && known.amount == amount then None else Some(Conflict))
      else
        var paid := v.(paid := v.paid + amount, due := v.due - amount);
        var listed := b.(payments := b.payments + [Payment(i, amount, v.currency, reference)]);
        var done := if paid.due != 0 then Ok(WithInvoice(listed, i, paid))
                    else Activate(WithInvoice(listed, i, paid.(status := Paid, paidAt := Some(now))), i, now);
        if done.Err? then Reply(b, Some(done.error))
        else if Collides(b, reference) then Reply(b, Some(Conflict))
        else Reply(done.value, None)
  }

  // ----- administration

  function CreateInvoice(b: Books, c: nat, amount: int, tax: int, currency: string, planChange: bool, planRef: PlanRef): Reply {
    if amount <= 0 || tax < 0 then Reply(b, Some(Invalid))
    else if c >= |b.companies| then Reply(b, Some(NotFound))
    else
      var total := amount + tax;
      Reply(b.(invoices := b.invoices + [
        Invoice(c, b.companies[c].sub.Some?, Open, Upper(currency), amount, tax, total, 0, total, planChange, planRef, None, None, None)]), None)
  }

  /** The CHECK constraint on the invoice table. */
  predicate SatisfiesCheck(v: Invoice) {
    v.due == v.total - v.paid
  }

  /** `checked` says that the database enforces the constraint, as the schema declares. */
  function VoidInvoice(b: Books, i: nat, checked: bool): Reply {
    if i >= |b.invoices| then Reply(b, Some(NotFound))
    else
      var v := b.invoices[i];
      if !v.status.Open? || v.paid != 0 then Reply(b, Some(Conflict))
      else
        var gone := v.(status := Void, due := 0);
        if checked && !SatisfiesCheck(gone) then Reply(b, Some(Integrity))
        else
          var voided := WithInvoice(b, i, gone);
          if v.linked && v.planChange && HasSub(b, v.company)
          then Reply(WithSub(voided, v.company, Sub(voided, v.company).(pending := None)), None)
          else Reply(voided, None)
  }

  // ----- Stripe events

  /** The identifiers a checkout session carries back: company, plan and local invoice. */
  datatype Target = Target(company: nat, plan: nat, invoice: nat)

  datatype Checkout = Checkout(
    id: string, paid: bool, target: Option<Target>, amount: int, currency: string,
    intent: Option<string>, customer: Option<string>, subscription: Option<string>, invoice: Option<string>)

  /** `period` is present when the invoice has lines; either end may be missing from it. */
  datatype StripeInvoice = StripeInvoice(
    id: Option<string>, subscription: Option<string>, company: Option<nat>, localInvoice: Option<nat>,
    amount: int, currency: string, periodStart: Option<int>, periodEnd: Option<int>, paidAt: Option<int>)

  datatype Notice = Notice(
    subscription: string, status: Option<SubscriptionStatus>, cancelAtEnd: bool, cancelledAt: Option<int>,
    start: Option<int>, end: Option<int>, plan: Option<nat>)

  datatype Kind =
    | CheckoutCompleted(checkout: Checkout)
    | InvoicePaid(invoice: StripeInvoice)
    | PaymentFailed(failed: Option<string>)
    | SubscriptionUpdated(notice: Notice)
    | SubscriptionDeleted(deleted: string, at: Option<int>)
    | Other

  function Or<T>(first: Option<T>, second: Option<T>): Option<T> {
    if first.Some? then first else second
  }

  function CheckoutReference(d: Checkout): string {
    if d.intent.Some? then d.intent.value else "checkout:" + d.id
  }

  function InvoiceReference(id: string): string {
    "stripe-invoice:" + id
  }

  function OnCheckout(b: Books, d: Checkout, now: int): Result<Books, BillingError> {
    if !d.paid then Ok(b)
    else if d.target.None? then Err(Invalid)
    else
      var c, p, i := d.target.value.company, d.target.value.plan, d.target.value.invoice;
      if i >= |b.invoices| || !HasSub(b, c) then Err(NotFound)
      else
        var v := b.invoices[i];
        if v.company != c || !v.linked || v.planRef != ForPlan(p) then Err(Invalid)
        else if v.status.Open? && (d.amount != v.due || Upper(d.currency) != Upper(v.currency)) then Err(Invalid)
        else
          var settled := if v.status.Open? then SettleInFull(b, i, CheckoutReference(d), v.currency, now) else Ok(b);
          if settled.Err? then settled
          else Ok(LinkCheckout(settled.value, d))
  }

  /** The Stripe identifiers a completed checkout leaves on the company, its subscription and the invoice. */
  function LinkCheckout(b: Books, d: Checkout): Books
    requires d.target.Some?
  {
    var c, i := d.target.value.company, d.target.value.invoice;
    if !HasSub(b, c) || i >= |b.invoices| then b
    else
      var sub := Sub(b, c);
      var owner := Company(Or(d.customer, b.companies[c].customer), Some(sub.(stripeId := Or(d.subscription, sub.stripeId))));
      b.(companies := b.companies[c := owner],
         invoices := b.invoices[i := b.invoices[i].(session := Some(d.id), stripeInvoice := d.invoice)])
  }

  /** The company a paid Stripe invoice is for. */
  function PayerOf(b: Books, d: StripeInvoice): Option<nat> {
    if d.subscription.None? then None
    else
      var known := FindSub(b.companies, d.subscription.value, 0);
      if known.Some? then known
      else if d.company.Some? && HasSub(b, d.company.value) then d.company
      else None
  }

  function Renewed(b: Books, c: nat, d: StripeInvoice): Books
    requires HasSub(b, c)
  {
    var sub := Sub(b, c);
    WithSub(b, c, sub.(
      stripeId := d.subscription, status := Active,
      periodStart := d.periodStart.GetOr(sub.periodStart), periodEnd := d.periodEnd.GetOr(sub.periodEnd)))
  }

  /** The local invoice a paid Stripe invoice settles: the one linked to it, else the one its metadata names. */
  function LocalInvoice(b: Books, d: StripeInvoice): (r: Option<nat>)
    requires d.id.Some?
    ensures r.Some? ==> r.value < |b.invoices|
  {
    var linked := FindInvoice(b.invoices, d.id.value, 0);
    if linked.Some? then linked
    else if d.localInvoice.Some? && d.localInvoice.value < |b.invoices| then d.localInvoice
    else None
  }

  function OnInvoicePaid(b: Books, d: StripeInvoice, now: int): Result<Books, BillingError> {
    var payer := PayerOf(b, d);
    if payer.None? then Ok(b)
    else if !HasSub(b, payer.value) then Ok(b)
    else
      var renewed := Renewed(b, payer.value, d);
      if d.id.None? then Ok(renewed)
      else
        var local := LocalInvoice(renewed, d);
        var paidAt := d.paidAt.GetOr(now);
        var reference := InvoiceReference(d.id.value);
        if local.Some? then
          var v := renewed.invoices[local.value];
          if !v.status.Open? then Ok(renewed)
          else if d.amount != v.due || Upper(d.currency) != Upper(v.currency) then Err(Invalid)
          else
            var tagged := WithInvoice(renewed, local.value, v.(stripeInvoice := d.id));
            SettleInFull(tagged, local.value, reference, Upper(d.currency), paidAt)
        else if d.amount > 0 then Ok(Mirror(renewed, payer.value, d, paidAt))
        else Ok(renewed)
  }

  /** A renewal unknown locally is copied as a paid invoice. */
  function Mirror(b: Books, c: nat, d: StripeInvoice, paidAt: int): Books
    requires d.id.Some?
  {
    var i := |b.invoices|;
    var copy := Invoice(c, true, Paid, Upper(d.currency), d.amount, 0, d.amount, d.amount, 0, false, NoPlan, Some(paidAt), d.id, None);
    var reference := InvoiceReference(d.id.value);
    b.(invoices := b.invoices + [copy],
       payments := if Used(b, reference) then b.payments
                   else b.payments + [Payment(i, d.amount, Upper(d.currency), Some(reference))])
  }

  function OnNotice(b: Books, n: Notice): Books {
    var c := FindSub(b.companies, n.subscription, 0);
    if c.None? then b
    else
      var sub := Sub(b, c.value);
      var moved := if n.plan.Some? then sub.(plan := n.plan.value, pending := None) else sub;
      WithSub(b, c.value, moved.(
        status := n.status.GetOr(sub.status), cancelAtEnd := n.cancelAtEnd, cancelledAt := n.cancelledAt,
        periodStart := n.start.GetOr(sub.periodStart), periodEnd := n.end.GetOr(sub.periodEnd)))
  }

  function OnFailure(b: Books, id: Option<string>): Books {
    var c := if id.Some? then FindSub(b.companies, id.value, 0) else None;
    if c.None? then b else WithSub(b, c.value, Sub(b, c.value).(status := PastDue))
  }

  function OnDeleted(b: Books, id: string, at: int): Books {
    var c := FindSub(b.companies, id, 0);
    if c.None? then b
    else WithSub(b, c.value, Sub(b, c.value).(status := Cancelled, cancelAtEnd := false, cancelledAt := Some(at)))
  }

  function Handle(b: Books, k: Kind, now: int): Result<Books, BillingError> {
    match k
    case CheckoutCompleted(d) => OnCheckout(b, d, now)
    case InvoicePaid(d) => OnInvoicePaid(b, d, now)
    case PaymentFailed(id) => Ok(OnFailure(b, id))
    case SubscriptionUpdated(n) => Ok(OnNotice(b, n))
    case SubscriptionDeleted(id, at) => Ok(OnDeleted(b, id, at.GetOr(now)))
    case Other => Ok(b)
  }

  // ----- local requests

  datatype Request =
    | Change(company: nat, plan: nat)
    | Pay(company: nat, plan: nat, customer: Option<string>, session: Option<string>)
    | Record(invoice: nat, amount: int, reference: Option<string>, at: int)
    | Bill(company: nat, amount: int, tax: int, currency: string, planChange: bool, planRef: PlanRef)
    | Cancel(invoice: nat)
    | KeepUntilEnd(company: nat, cancel: bool, at: int)

  function SetCancellation(b: Books, c: nat, cancel: bool, at: int): Reply {
    if !HasSub(b, c) then Reply(b, Some(NotFound))
    else if Sub(b, c).status.Cancelled? || Sub(b, c).status.Expired? then Reply(b, Some(Conflict))
    else Reply(WithSub(b, c, Sub(b, c).(cancelAtEnd := cancel, cancelledAt := if cancel then Some(at) else None)), None)
  }

  function Serve(b: Books, r: Request, checked: bool): Reply {
    match r
    case Change(c, p) => ChangePlan(b, c, p)
    case Pay(c, p, customer, session) => CreateCheckout(b, c, p, customer, session)
    case Record(i, amount, reference, at) => RecordPayment(b, i, amount, reference, at)
    case Bill(c, amount, tax, currency, planChange, planRef) => CreateInvoice(b, c, amount, tax, currency, planChange, planRef)
    case Cancel(i) => VoidInvoice(b, i, checked)
    case KeepUntilEnd(c, cancel, at) => SetCancellation(b, c, cancel, at)
  }
}
