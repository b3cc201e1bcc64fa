/** Money is conserved: what every invoice owes, what was paid for it, and which references were used. */
module LedgerLaws {
  import opened Wrappers
  import opened Ledger

  /** The payments recorded for an invoice. */
  function PaidSum(ps: seq<Payment>, i: nat): int {
    if ps == [] then 0 else (if ps[0].invoice == i then ps[0].amount else 0) + PaidSum(ps[1..], i)
  }

  /** An invoice's amounts agree with each other, with its status and with the payments recorded for it. */
  predicate Balanced(v: Invoice, sum: int) {
    && v.total == v.subtotal + v.tax && v.total > 0 && v.paid == sum
    && match v.status
       case Open => v.due == v.total - v.paid && v.due > 0 && v.paid >= 0
       case Paid => v.due == 0 && v.paid == v.total
       case Void => v.due == 0 && v.paid == 0
  }

  ghost predicate AllBalanced(b: Books) {
    forall i :: 0 <= i < |b.invoices| ==> Balanced(b.invoices[i], PaidSum(b.payments, i))
  }

  /** Every payment is positive and for an existing invoice; no reference is used twice. */
  ghost predicate PaymentsAreSound(b: Books) {
    && (forall k :: 0 <= k < |b.payments| ==> b.payments[k].invoice < |b.invoices| && b.payments[k].amount > 0)
    && (forall j, k :: 0 <= j < k < |b.payments| && b.payments[j].reference.Some? ==>
          b.payments[j].reference != b.payments[k].reference)
  }

  ghost predicate Conserved(b: Books) {
    AllBalanced(b) && PaymentsAreSound(b)
  }

  lemma {:induction false} PaidSumAppend(ps: seq<Payment>, p: Payment, i: nat)
    ensures PaidSum(ps + [p], i) == PaidSum(ps, i) + (if p.invoice == i then p.amount else 0)
  {
    if ps == [] {
      assert [] + [p] == [p] && [p][1..] == [];
    } else {
      PaidSumAppend(ps[1..], p, i);
      assert (ps + [p])[1..] == ps[1..] + [p];
    }
  }

  lemma {:induction false} NothingPaidYet(ps: seq<Payment>, n: nat)
    requires forall k :: 0 <= k < |ps| ==> ps[k].invoice < n
    ensures PaidSum(ps, n) == 0
  {
    if ps != [] {
      NothingPaidYet(ps[1..], n);
    }
  }

  predicate SameMoney(v: Invoice, w: Invoice) {
    v.(session := None, stripeInvoice := None) == w.(session := None, stripeInvoice := None)
  }

  /** Conservation does not look at Stripe identifiers or subscriptions. */
  lemma RelabelKeepsLedger(b: Books, r: Books)
    requires r.payments == b.payments && |r.invoices| == |b.invoices|
    requires forall j :: 0 <= j < |b.invoices| ==> SameMoney(b.invoices[j], r.invoices[j])
    ensures Conserved(b) <==> Conserved(r)
  {
    assert forall j :: 0 <= j < |b.invoices| ==>
      (Balanced(b.invoices[j], PaidSum(b.payments, j)) <==> Balanced(r.invoices[j], PaidSum(r.payments, j)));
  }

  lemma AppendKeepsLedger(b: Books, v: Invoice)
    requires Conserved(b) && Balanced(v, 0)
    ensures Conserved(b.(invoices := b.invoices + [v]))
  {
    hide Balanced;
    NothingPaidYet(b.payments, |b.invoices|);
  }

  lemma PaymentKeepsSound(b: Books, p: Payment)
    requires PaymentsAreSound(b) && p.invoice < |b.invoices| && p.amount > 0
    requires p.reference.Some? ==> !Used(b, p.reference.value)
    ensures PaymentsAreSound(b.(payments := b.payments + [p]))
  {
  }

  /** A payment of invoice `i` that leaves its row balanced leaves the ledger balanced. */
  lemma PayingKeepsLedger(b: Books, i: nat, v: Invoice, p: Payment)
    requires Conserved(b) && i < |b.invoices| && p.invoice == i && p.amount > 0
    requires p.reference.Some? ==> !Used(b, p.reference.value)
    requires Balanced(v, PaidSum(b.payments, i) + p.amount)
    ensures Conserved(WithInvoice(b, i, v).(payments := b.payments + [p]))
  {
    hide Balanced, PaymentsAreSound, Used;
    var r := WithInvoice(b, i, v).(payments := b.payments + [p]);
    forall j | 0 <= j < |r.invoices|
      ensures Balanced(r.invoices[j], PaidSum(r.payments, j))
    {
      PaidSumAppend(b.payments, p, j);
    }
    PaymentKeepsSound(b, p);
    SoundIgnoresRows(b.(payments := b.payments + [p]), r);
  }

  lemma SoundIgnoresRows(b: Books, r: Books)
    requires b.payments == r.payments && |b.invoices| == |r.invoices|
    ensures PaymentsAreSound(b) <==> PaymentsAreSound(r)
  {
  }

  lemma ActivateKeepsRows(b: Books, i: nat, now: int)
    requires i < |b.invoices|
    ensures Activate(b, i, now).Ok? ==>
              Activate(b, i, now).value.invoices == b.invoices && Activate(b, i, now).value.payments == b.payments
  {
  }

  lemma CompaniesDoNotMatter(b: Books, r: Books)
    requires r.invoices == b.invoices && r.payments == b.payments
    ensures Conserved(b) <==> Conserved(r)
  {
  }

  /** A Stripe settlement keeps the ledger exactly when its reference has not been used before. */
  lemma SettlingConservesExactly(b: Books, i: nat, reference: string, currency: string, paidAt: int)
    requires Conserved(b) && i < |b.invoices| && b.invoices[i].status.Open?
    ensures var r := SettleInFull(b, i, reference, currency, paidAt);
            r.Ok? ==> (Conserved(r.value) <==> !Used(b, reference))
  {
    hide Used, PaymentsAreSound, Activate;
    var v := b.invoices[i];
    assert Balanced(v, PaidSum(b.payments, i));
    var paid := v.(paid := v.total, due := 0, status := Paid, paidAt := Some(paidAt));
    var p := Payment(i, v.due, currency, Some(reference));
    var done := WithInvoice(b, i, paid);
    var r := SettleInFull(b, i, reference, currency, paidAt);
    if Used(b, reference) {
      ActivateKeepsRows(done, i, paidAt);
      if r.Ok? {
        assert !Balanced(r.value.invoices[i], PaidSum(r.value.payments, i));
      }
    } else {
      PayingKeepsLedger(b, i, paid, p);
      var listed := done.(payments := done.payments + [p]);
      ActivateKeepsRows(listed, i, paidAt);
      if r.Ok? {
        CompaniesDoNotMatter(listed, r.value);
      }
    }
  }

  /** An invoice of five, open or paid. */
  function Five(status: InvoiceStatus, paid: int): Invoice {
    Invoice(0, false, status, "USD", 5, 0, 5, paid, 5 - paid, false, NoPlan, None, None, None)
  }

  /** One paid invoice with its payment, and one open invoice. */
  function OnePaid(reference: string): Books {
    Books([], [], [Five(Paid, 5), Five(Open, 0)], [Payment(0, 5, "USD", Some(reference))])
  }

  lemma OnePaidIsConserved(reference: string)
    ensures Conserved(OnePaid(reference)) && Used(OnePaid(reference), reference)
  {
    var p := Payment(0, 5, "USD", Some(reference));
    assert [p][1..] == [];
    assert PaidSum([p], 0) == 5 + PaidSum([], 0) && PaidSum([p], 1) == PaidSum([], 1);
    assert FindPayment([p], reference, 0) == Some(0);
  }

  /** One such input: the reference of the first invoice's payment comes back with a settlement of the second. */
  lemma UsedReferenceBreaksTheLedger(reference: string)
    ensures Conserved(OnePaid(reference))
    ensures var r := SettleInFull(OnePaid(reference), 1, reference, "USD", 0);
            r.Ok? && !Conserved(r.value)
  {
    hide Conserved, Used;
    OnePaidIsConserved(reference);
    SettlingConservesExactly(OnePaid(reference), 1, reference, "USD", 0);
  }

  lemma RecordingConserves(b: Books, i: nat, amount: int, reference: Option<string>, now: int)
    requires Conserved(b)
    ensures Conserved(RecordPayment(b, i, amount, reference, now).books)
  {
    hide Used, PaymentsAreSound, Activate;
    var r := RecordPayment(b, i, amount, reference, now);
    if r.books != b {
      var v := b.invoices[i];
      assert Balanced(v, PaidSum(b.payments, i));
      var p := Payment(i, amount, v.currency, reference);
      var part := v.(paid := v.paid + amount, due := v.due - amount);
      var full := part.(status := Paid, paidAt := Some(now));
      if part.due != 0 {
        PayingKeepsLedger(b, i, part, p);
      } else {
        PayingKeepsLedger(b, i, full, p);
        var listed := WithInvoice(b.(payments := b.payments + [p]), i, full);
        assert listed == WithInvoice(b, i, full).(payments := b.payments + [p]);
        ActivateKeepsRows(listed, i, now);
        CompaniesDoNotMatter(listed, r.books);
      }
    }
  }

  /**
    A used reference never changes the books. The repeat is answered as a success only while the invoice
    is still open for at least the amount, and only for the same invoice, the same amount and a non-empty reference.
   */
  lemma ReplayChangesNothing(b: Books, i: nat, amount: int, reference: string, now: int)
    requires Used(b, reference)
    ensures var r := RecordPayment(b, i, amount, Some(reference), now);
            && r.books == b
            && (r.error.None? <==>
                  && reference != "" && 0 < amount && i < |b.invoices| && b.invoices[i].status.Open? && amount <= b.invoices[i].due
                  && var known := b.payments[FindPayment(b.payments, reference, 0).value];
                     known.invoice == i && known.amount == amount)
  {
  }

  /** One such input: the payment that settles an invoice is sent again. */
  lemma FinalPaymentRepeatedIsAConflict(b: Books, i: nat, reference: string, now: int, later: int)
    requires i < |b.invoices| && b.invoices[i].status.Open? && b.invoices[i].due > 0 && !b.invoices[i].planChange
    requires reference != "" && !Used(b, reference)
    ensures var amount := b.invoices[i].due;
            var first := RecordPayment(b, i, amount, Some(reference), now);
            && first.error.None? && first.books.invoices[i].status.Paid?
            && RecordPayment(first.books, i, amount, Some(reference), later) == Reply(first.books, Some(Conflict))
  {
    hide Used;
  }

  lemma VoidingConserves(b: Books, i: nat, checked: bool)
    requires Conserved(b)
    ensures Conserved(VoidInvoice(b, i, checked).books)
  {
    hide PaymentsAreSound;
    if i < |b.invoices| {
      var v := b.invoices[i];
      assert Balanced(v, PaidSum(b.payments, i));
      var r := VoidInvoice(b, i, checked).books;
      if r != b {
        var gone := WithInvoice(b, i, v.(status := Void, due := 0));
        assert Conserved(gone) by {
          SoundIgnoresRows(b, gone);
        }
        CompaniesDoNotMatter(gone, r);
      }
    }
  }

  /** In a conserved ledger every invoice that is not void meets the constraint. */
  lemma ConservedInvoicesMeetTheCheck(b: Books, i: nat)
    requires Conserved(b) && i < |b.invoices| && b.invoices[i].status != Void
    ensures SatisfiesCheck(b.invoices[i]) && b.invoices[i].paid + b.invoices[i].due == b.invoices[i].total
  {
    assert Balanced(b.invoices[i], PaidSum(b.payments, i));
  }

  /** The CHECK constraint lets an unpaid open invoice be voided only if its total is zero. */
  lemma VoidNeedsAZeroTotal(b: Books, i: nat)
    requires i < |b.invoices| && b.invoices[i].status.Open? && b.invoices[i].paid == 0
    ensures VoidInvoice(b, i, true).error.None? <==> b.invoices[i].total == 0
  {
  }

  /** Totals are positive, so with the constraint in force no void is ever committed. */
  lemma VoidIsAlwaysRefused(b: Books, i: nat)
    requires Conserved(b)
    ensures VoidInvoice(b, i, true).error.Some? && VoidInvoice(b, i, true).books == b
  {
    if i < |b.invoices| {
      assert Balanced(b.invoices[i], PaidSum(b.payments, i));
    }
  }

  lemma OpeningConserves(b: Books, c: nat, p: nat)
    requires Conserved(b) && HasSub(b, c) && p < |b.plans| && b.plans[p].price > 0
    ensures Conserved(OpenChange(b, c, p))
  {
    hide PaymentsAreSound;
    var r := b.(invoices := b.invoices + [ChangeInvoice(b, c, p)]);
    AppendKeepsLedger(b, ChangeInvoice(b, c, p));
    CompaniesDoNotMatter(r, OpenChange(b, c, p));
  }

  lemma CheckoutConserves(b: Books, c: nat, p: nat, customer: Option<string>, session: Option<string>)
    requires Conserved(b)
    ensures Conserved(CreateCheckout(b, c, p, customer, session).books)
  {
    hide Conserved;
    var r := CreateCheckout(b, c, p, customer, session).books;
    if r != b {
      if Sub(b, c).pending.None? {
        OpeningConserves(b, c, p);
        RelabelKeepsLedger(OpenChange(b, c, p), r);
      } else {
        RelabelKeepsLedger(b, r);
      }
    }
  }

  /** Every local request conserves the ledger. */
  lemma ServingConserves(b: Books, r: Request, checked: bool)
    requires Conserved(b)
    ensures Conserved(Serve(b, r, checked).books)
  {
    hide Conserved, RecordPayment, VoidInvoice, CreateCheckout, OpenChange;
    match r
    case Change(c, p) =>
      if HasSub(b, c) && p < |b.plans| && b.plans[p].price > 0 {
        OpeningConserves(b, c, p);
      }
      CompaniesDoNotMatterIfSame(b, Serve(b, r, checked).books);
    case Pay(c, p, customer, session) => CheckoutConserves(b, c, p, customer, session);
    case Record(i, amount, reference, at) => RecordingConserves(b, i, amount, reference, at);
    case Bill(c, amount, tax, currency, planChange, planRef) => BillingConserves(b, c, amount, tax, currency, planChange, planRef);
    case Cancel(i) => VoidingConserves(b, i, checked);
    case KeepUntilEnd(_, _, _) => CompaniesDoNotMatterIfSame(b, Serve(b, r, checked).books);
  }

  lemma CompaniesDoNotMatterIfSame(b: Books, r: Books)
    ensures r.invoices == b.invoices && r.payments == b.payments ==> (Conserved(b) <==> Conserved(r))
  {
  }

  lemma BillingConserves(b: Books, c: nat, amount: int, tax: int, currency: string, planChange: bool, planRef: PlanRef)
    requires Conserved(b)
    ensures Conserved(CreateInvoice(b, c, amount, tax, currency, planChange, planRef).books)
  {
    hide PaymentsAreSound, Upper;
    if amount > 0 && tax >= 0 && c < |b.companies| {
      AppendKeepsLedger(b, Invoice(c, b.companies[c].sub.Some?, Open, Upper(currency), amount, tax, amount + tax, 0,
                                   amount + tax, planChange, planRef, None, None, None));
    }
  }

  // ----- Stripe events

  /** The reference and local invoice of the payment an event would record; the invoice may be the next new one. */
  function Settlement(b: Books, k: Kind): Option<(string, nat)> {
    match k
    case CheckoutCompleted(d) =>
      if d.paid && d.target.Some? && d.target.value.invoice < |b.invoices| && b.invoices[d.target.value.invoice].status.Open?
      then Some((CheckoutReference(d), d.target.value.invoice)) else None
    case InvoicePaid(d) =>
      if PayerOf(b, d).None? || d.id.None? then None
      else
        var local := LocalInvoice(b, d);
        if local.Some? then
          if b.invoices[local.value].status.Open? then Some((InvoiceReference(d.id.value), local.value)) else None
        else if d.amount > 0 then Some((InvoiceReference(d.id.value), |b.invoices|))
        else None
    case _ => None
  }

  lemma LinkingKeepsMoney(b: Books, d: Checkout)
    requires d.target.Some?
    ensures Conserved(b) <==> Conserved(LinkCheckout(b, d))
  {
    hide Conserved;
    RelabelKeepsLedger(b, LinkCheckout(b, d));
  }

  lemma MirrorConservesExactly(b: Books, c: nat, d: StripeInvoice, paidAt: int)
    requires Conserved(b) && d.id.Some? && d.amount > 0
    ensures Conserved(Mirror(b, c, d, paidAt)) <==> !Used(b, InvoiceReference(d.id.value))
  {
    hide PaymentsAreSound, InvoiceReference, Upper, Used;
    var i, reference := |b.invoices|, InvoiceReference(d.id.value);
    var r := Mirror(b, c, d, paidAt);
    NothingPaidYetSound(b);
    if Used(b, reference) {
      assert !Balanced(r.invoices[i], PaidSum(r.payments, i));
    } else {
      var p := Payment(i, d.amount, Upper(d.currency), Some(reference));
      forall j | 0 <= j < |r.invoices|
        ensures Balanced(r.invoices[j], PaidSum(r.payments, j))
      {
        PaidSumAppend(b.payments, p, j);
      }
      assert PaymentsAreSound(r) by {
        MirrorSound(b, r, p);
      }
    }
  }

  lemma NothingPaidYetSound(b: Books)
    requires PaymentsAreSound(b)
    ensures PaidSum(b.payments, |b.invoices|) == 0
  {
    NothingPaidYet(b.payments, |b.invoices|);
  }

  lemma MirrorSound(b: Books, r: Books, p: Payment)
    requires PaymentsAreSound(b) && p.amount > 0 && p.invoice == |b.invoices| && |r.invoices| == |b.invoices| + 1
    requires r.payments == b.payments + [p] && p.reference.Some? && !Used(b, p.reference.value)
    ensures PaymentsAreSound(r)
  {
  }

  lemma CheckoutEventConservesExactly(b: Books, d: Checkout, now: int)
    requires Conserved(b)
    ensures var r := OnCheckout(b, d, now);
            r.Ok? ==>
              (Conserved(r.value) <==>
                 Settlement(b, CheckoutCompleted(d)).None? || !Used(b, Settlement(b, CheckoutCompleted(d)).value.0))
  {
    hide Conserved, SettleInFull, LinkCheckout, Used, CheckoutReference, Upper;
    var r := OnCheckout(b, d, now);
    if d.paid && r.Ok? {
      var i := d.target.value.invoice;
      if b.invoices[i].status.Open? {
        SettlingConservesExactly(b, i, CheckoutReference(d), b.invoices[i].currency, now);
        LinkingKeepsMoney(SettleInFull(b, i, CheckoutReference(d), b.invoices[i].currency, now).value, d);
      } else {
        LinkingKeepsMoney(b, d);
      }
    }
  }

  lemma InvoiceEventConservesExactly(b: Books, d: StripeInvoice, now: int)
    requires Conserved(b)
    ensures var r := OnInvoicePaid(b, d, now);
            r.Ok? ==>
              (Conserved(r.value) <==>
                 Settlement(b, InvoicePaid(d)).None? || !Used(b, Settlement(b, InvoicePaid(d)).value.0))
  {
    hide Conserved, SettleInFull, Mirror, Used, InvoiceReference, Upper;
    var payer := PayerOf(b, d);
    var r := OnInvoicePaid(b, d, now);
    if payer.Some? && HasSub(b, payer.value) && r.Ok? {
      var renewed := Renewed(b, payer.value, d);
      CompaniesDoNotMatter(b, renewed);
      if d.id.Some? {
        var reference := InvoiceReference(d.id.value);
        UsedLooksAtPayments(b, renewed, reference);
        var local := LocalInvoice(renewed, d);
        assert local == LocalInvoice(b, d);
        if local.Some? && renewed.invoices[local.value].status.Open? {
          var tagged := WithInvoice(renewed, local.value, renewed.invoices[local.value].(stripeInvoice := d.id));
          RelabelKeepsLedger(renewed, tagged);
          UsedLooksAtPayments(renewed, tagged, reference);
          SettlingConservesExactly(tagged, local.value, reference, Upper(d.currency), d.paidAt.GetOr(now));
        } else if local.None? && d.amount > 0 {
          MirrorConservesExactly(renewed, payer.value, d, d.paidAt.GetOr(now));
        }
      }
    }
  }

  lemma UsedLooksAtPayments(b: Books, r: Books, reference: string)
    requires b.payments == r.payments
    ensures Used(b, reference) == Used(r, reference)
  {
  }

  /** A Stripe event keeps the ledger conserved exactly when it settles nothing or settles under an unused reference. */
  lemma HandlingConservesExactly(b: Books, k: Kind, now: int)
    requires Conserved(b) && Handle(b, k, now).Ok?
    ensures Conserved(Handle(b, k, now).value)
            <==> Settlement(b, k).None? || !Used(b, Settlement(b, k).value.0)
  {
    hide Conserved, OnCheckout, OnInvoicePaid, Used;
    match k
    case CheckoutCompleted(d) => CheckoutEventConservesExactly(b, d, now);
    case InvoicePaid(d) => InvoiceEventConservesExactly(b, d, now);
    case _ => CompaniesDoNotMatter(b, Handle(b, k, now).value);
  }
}
