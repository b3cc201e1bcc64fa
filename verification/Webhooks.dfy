/** Runs of local requests and Stripe deliveries: every event takes effect once, and the ledger stays conserved. */
module Webhooks {
  import opened Wrappers
  import opened Ledger
  import opened LedgerLaws

  /** One delivery of a Stripe event; `crashes` says that handling it fails for a reason outside the books. */
  datatype Delivery = Delivery(id: string, kind: Kind, at: int, crashes: bool)

  /** The books and the identifiers of the events already committed. */
  datatype Store = Store(books: Books, seen: set<string>)

  datatype Item = Arrives(delivery: Delivery) | Asks(request: Request)

  /** `process_webhook`: the identifier is reserved in the transaction of the event's own effects. */
  function Deliver(s: Store, d: Delivery): Store {
    if d.id == "" || d.id in s.seen || d.crashes then s
    else
      var r := Handle(s.books, d.kind, d.at);
      if r.Err? then s else Store(r.value, s.seen + {d.id})
  }

  function Next(s: Store, item: Item, checked: bool): Store {
    match item
    case Arrives(d) => Deliver(s, d)
    case Asks(r) => s.(books := Serve(s.books, r, checked).books)
  }

  function Play(s: Store, items: seq<Item>, checked: bool): Store
    decreases items
  {
    if items == [] then s else Play(Next(s, items[0], checked), items[1..], checked)
  }

  // ----- exactly once

  predicate Repeats(s: Store, item: Item) {
    item.Arrives? && item.delivery.id in s.seen
  }

  predicate Commits(s: Store, item: Item) {
    item.Arrives? && item.delivery.id != "" && item.delivery.id !in s.seen && !item.delivery.crashes
    && Handle(s.books, item.delivery.kind, item.delivery.at).Ok?
  }

  /** The run without the deliveries of events already committed. */
  function WithoutRepeats(s: Store, items: seq<Item>, checked: bool): seq<Item>
    decreases items
  {
    if items == [] then []
    else
      var rest := WithoutRepeats(Next(s, items[0], checked), items[1..], checked);
      if Repeats(s, items[0]) then rest else [items[0]] + rest
  }

  /** The run reduced to its local requests and the deliveries that commit. */
  function Effective(s: Store, items: seq<Item>, checked: bool): seq<Item>
    decreases items
  {
    if items == [] then []
    else
      var rest := Effective(Next(s, items[0], checked), items[1..], checked);
      if items[0].Asks? || Commits(s, items[0]) then [items[0]] + rest else rest
  }

  function Ids(items: seq<Item>): seq<string> {
    if items == [] then []
    else if items[0].Arrives? then [items[0].delivery.id] + Ids(items[1..])
    else Ids(items[1..])
  }

  lemma {:induction false} RepeatsDoNotMatter(s: Store, items: seq<Item>, checked: bool)
    ensures Play(s, WithoutRepeats(s, items, checked), checked) == Play(s, items, checked)
    decreases items
  {
    hide Handle, Serve;
    if items != [] {
      var next := Next(s, items[0], checked);
      RepeatsDoNotMatter(next, items[1..], checked);
      var rest := WithoutRepeats(next, items[1..], checked);
      assert ([items[0]] + rest)[1..] == rest;
    }
  }

  predicate NoneTwice(ids: seq<string>, seen: set<string>) {
    && (forall i, j :: 0 <= i < j < |ids| ==> ids[i] != ids[j])
    && (forall i :: 0 <= i < |ids| ==> ids[i] !in seen)
  }

  /** Whatever is redelivered or fails, the run equals one in which every committed event is handled once and nothing fails. */
  lemma {:induction false} EveryEventTakesEffectOnce(s: Store, items: seq<Item>, checked: bool)
    ensures var done := Effective(s, items, checked);
            && Play(s, done, checked) == Play(s, items, checked)
            && NoneTwice(Ids(done), s.seen)
            && Play(s, items, checked).seen == s.seen + (set i | 0 <= i < |Ids(done)| :: Ids(done)[i])
    decreases items
  {
    hide Handle, Serve;
    if items != [] {
      var next := Next(s, items[0], checked);
      EveryEventTakesEffectOnce(next, items[1..], checked);
      var rest := Effective(next, items[1..], checked);
      var done := Effective(s, items, checked);
      assert ([items[0]] + rest)[1..] == rest;
      if Commits(s, items[0]) {
        var id := items[0].delivery.id;
        assert Ids(done) == [id] + Ids(rest);
        assert forall i :: 0 <= i < |Ids(rest)| ==> Ids(done)[i + 1] == Ids(rest)[i];
        var older, newer := (set i | 0 <= i < |Ids(rest)| :: Ids(rest)[i]), (set i | 0 <= i < |Ids(done)| :: Ids(done)[i]);
        assert newer == older + {id} by {
          assert Ids(done)[0] == id;
        }
      }
    }
  }

  // ----- conservation over runs

  /** The step commits a settlement under a reference that some payment already carries. */
  predicate Resettles(s: Store, item: Item) {
    Commits(s, item)
    && var st := Settlement(s.books, item.delivery.kind); st.Some? && Used(s.books, st.value.0)
  }

  /** A step keeps a conserved ledger exactly when it does not. */
  lemma NextConservesExactly(s: Store, item: Item, checked: bool)
    requires Conserved(s.books)
    ensures Conserved(Next(s, item, checked).books) <==> !Resettles(s, item)
  {
    hide Handle, Serve, Settlement, Used, Conserved;
    match item
    case Arrives(d) =>
      if Commits(s, item) {
        HandlingConservesExactly(s.books, d.kind, d.at);
      }
    case Asks(r) => ServingConserves(s.books, r, checked);
  }

  ghost predicate NeverResettles(s: Store, items: seq<Item>, checked: bool)
    decreases items
  {
    items == [] || (!Resettles(s, items[0]) && NeverResettles(Next(s, items[0], checked), items[1..], checked))
  }

  /** The ledger is conserved in every state of a run exactly when no committed settlement meets its reference already used. */
  lemma {:induction false} LedgerIsConservedOverRuns(s: Store, items: seq<Item>, checked: bool)
    requires Conserved(s.books)
    ensures (forall n :: 0 <= n <= |items| ==> Conserved(Play(s, items[..n], checked).books))
            <==> NeverResettles(s, items, checked)
    decreases items
  {
    hide Conserved, Next, Resettles;
    if items == [] {
      assert forall n :: 0 <= n <= |items| ==> items[..n] == [];
    } else {
      var next, rest := Next(s, items[0], checked), items[1..];
      NextConservesExactly(s, items[0], checked);
      PlayFrom(s, items, checked);
      if !Resettles(s, items[0]) {
        LedgerIsConservedOverRuns(next, rest, checked);
        if forall n :: 0 <= n <= |items| ==> Conserved(Play(s, items[..n], checked).books) {
          forall n | 0 <= n <= |rest|
            ensures Conserved(Play(next, rest[..n], checked).books)
          {
            assert Play(s, items[..n + 1], checked) == Play(next, rest[..n], checked);
          }
        }
      } else {
        assert Play(s, items[..1], checked) == Play(next, rest[..0], checked) == next;
      }
    }
  }

  /** The states of a run are its first one and those of the rest. */
  lemma PlayFrom(s: Store, items: seq<Item>, checked: bool)
    requires items != []
    ensures Play(s, items[..0], checked) == s
    ensures forall n :: 0 < n <= |items| ==>
              Play(s, items[..n], checked) == Play(Next(s, items[0], checked), items[1..][..n - 1], checked)
  {
    hide Next;
    forall n | 0 < n <= |items|
      ensures Play(s, items[..n], checked) == Play(Next(s, items[0], checked), items[1..][..n - 1], checked)
    {
      assert items[..n][1..] == items[1..][..n - 1];
    }
  }

  // ----- references that belong to one invoice

  /**
    `owner` names the local invoice every Stripe reference pays. A committed settlement pays the invoice its reference
    belongs to, and a manual payment does not use a Stripe reference.
   */
  ghost predicate Attributed(s: Store, item: Item, owner: map<string, nat>) {
    match item
    case Arrives(d) =>
      Commits(s, item) ==>
        var st := Settlement(s.books, d.kind);
        st.Some? ==> st.value.0 in owner && owner[st.value.0] == st.value.1
    case Asks(r) => r.Record? && r.reference.Some? ==> r.reference.value !in owner
  }

  ghost predicate AllAttributed(s: Store, items: seq<Item>, owner: map<string, nat>, checked: bool)
    decreases items
  {
    items == [] || (Attributed(s, items[0], owner) && AllAttributed(Next(s, items[0], checked), items[1..], owner, checked))
  }

  predicate IsPaid(b: Books, i: nat) {
    i < |b.invoices| && b.invoices[i].status.Paid?
  }

  /** Stripe references are found only on payments of their own, paid invoice. */
  ghost predicate OwnedPayments(b: Books, owner: map<string, nat>) {
    forall k :: 0 <= k < |b.payments| ==>
      var r := b.payments[k].reference;
      r.Some? && r.value in owner ==> b.payments[k].invoice == owner[r.value] && IsPaid(b, owner[r.value])
  }

  ghost predicate PaidStays(b: Books, r: Books) {
    forall i :: IsPaid(b, i) ==> IsPaid(r, i)
  }

  lemma SettledShape(b: Books, i: nat, reference: string, currency: string, paidAt: int)
    requires i < |b.invoices|
    ensures var r := SettleInFull(b, i, reference, currency, paidAt);
            r.Ok? ==>
              && PaidStays(b, r.value) && IsPaid(r.value, i)
              && (r.value.payments == b.payments
                  || r.value.payments == b.payments + [Payment(i, b.invoices[i].due, currency, Some(reference))])
  {
    hide Used;
  }

  lemma HandledShape(b: Books, k: Kind, now: int)
    requires Handle(b, k, now).Ok?
    ensures var r, st := Handle(b, k, now).value, Settlement(b, k);
            && PaidStays(b, r)
            && (r.payments == b.payments
                || (st.Some? && IsPaid(r, st.value.1) && |r.payments| == |b.payments| + 1
                    && r.payments[..|b.payments|] == b.payments
                    && r.payments[|b.payments|].reference == Some(st.value.0)
                    && r.payments[|b.payments|].invoice == st.value.1))
  {
    hide SettleInFull, Used, CheckoutReference, InvoiceReference, Upper;
    match k
    case CheckoutCompleted(d) =>
      if d.paid && b.invoices[d.target.value.invoice].status.Open? {
        SettledShape(b, d.target.value.invoice, CheckoutReference(d), b.invoices[d.target.value.invoice].currency, now);
      }
    case InvoicePaid(d) => InvoiceShape(b, d, now);
    case _ =>
  }

  lemma InvoiceShape(b: Books, d: StripeInvoice, now: int)
    requires OnInvoicePaid(b, d, now).Ok?
    ensures var r, st := OnInvoicePaid(b, d, now).value, Settlement(b, InvoicePaid(d));
            && PaidStays(b, r)
            && (r.payments == b.payments
                || (st.Some? && IsPaid(r, st.value.1) && |r.payments| == |b.payments| + 1
                    && r.payments[..|b.payments|] == b.payments
                    && r.payments[|b.payments|].reference == Some(st.value.0)
                    && r.payments[|b.payments|].invoice == st.value.1))
  {
    hide SettleInFull, Used, InvoiceReference, Upper;
    var payer := PayerOf(b, d);
    if payer.Some? && HasSub(b, payer.value) && d.id.Some? {
      var renewed := Renewed(b, payer.value, d);
      var local := LocalInvoice(renewed, d);
      assert local == LocalInvoice(b, d);
      if local.Some? && renewed.invoices[local.value].status.Open? {
        var tagged := WithInvoice(renewed, local.value, renewed.invoices[local.value].(stripeInvoice := d.id));
        assert PaidStays(b, tagged);
        SettledShape(tagged, local.value, InvoiceReference(d.id.value), Upper(d.currency), d.paidAt.GetOr(now));
      }
    }
  }

  lemma ServedShape(b: Books, r: Request, checked: bool)
    ensures var t := Serve(b, r, checked).books;
            && PaidStays(b, t)
            && (t.payments == b.payments
                || (r.Record? && |t.payments| == |b.payments| + 1 && t.payments[..|b.payments|] == b.payments
                    && t.payments[|b.payments|].reference == r.reference))
  {
    hide Used, Upper;
  }

  lemma UsedIsPaid(b: Books, owner: map<string, nat>, reference: string)
    requires OwnedPayments(b, owner) && Used(b, reference) && reference in owner
    ensures IsPaid(b, owner[reference])
  {
    var k := FindPayment(b.payments, reference, 0).value;
    assert b.payments[k].reference == Some(reference);
  }

  /** An attributed settlement uses a fresh reference. */
  lemma AttributedIsFresh(s: Store, item: Item, owner: map<string, nat>)
    requires OwnedPayments(s.books, owner) && Attributed(s, item, owner)
    ensures !Resettles(s, item)
  {
    hide OwnedPayments, Used, CheckoutReference, InvoiceReference, Handle;
    if Resettles(s, item) {
      UsedIsPaid(s.books, owner, Settlement(s.books, item.delivery.kind).value.0);
    }
  }

  lemma NextKeepsOwners(s: Store, item: Item, owner: map<string, nat>, checked: bool)
    requires OwnedPayments(s.books, owner) && Attributed(s, item, owner)
    ensures OwnedPayments(Next(s, item, checked).books, owner)
  {
    hide Handle, Serve, Settlement;
    var t := Next(s, item, checked);
    if item.Asks? {
      ServedShape(s.books, item.request, checked);
    } else if t != s {
      HandledShape(s.books, item.delivery.kind, item.delivery.at);
    }
    var n := |s.books.payments|;
    forall k | 0 <= k < |t.books.payments|
      ensures var r := t.books.payments[k].reference;
              r.Some? && r.value in owner ==> t.books.payments[k].invoice == owner[r.value] && IsPaid(t.books, owner[r.value])
    {
      if k < n {
        assert t.books.payments[k] == s.books.payments[k] by {
          assert t.books.payments == s.books.payments || t.books.payments[..n][k] == s.books.payments[k];
        }
      }
    }
  }

  /** When every Stripe reference belongs to one invoice, no settlement is repeated, so the ledger is conserved. */
  lemma {:induction false} AttributedRunsNeverResettle(s: Store, items: seq<Item>, owner: map<string, nat>, checked: bool)
    requires OwnedPayments(s.books, owner) && AllAttributed(s, items, owner, checked)
    ensures NeverResettles(s, items, checked)
    decreases items
  {
    hide OwnedPayments, Attributed, Next, Resettles;
    if items != [] {
      AttributedIsFresh(s, items[0], owner);
      NextKeepsOwners(s, items[0], owner, checked);
      AttributedRunsNeverResettle(Next(s, items[0], checked), items[1..], owner, checked);
    }
  }
}
