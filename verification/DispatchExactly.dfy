/** What one dispatch does to every recipient, exactly, in terms of the state it starts from. */
module DispatchExactly {
  import opened Wrappers
  import opened Campaigns
  import opened DispatchLaws

  // ----- the candidates the loop looks at before it breaks off

  /** The candidates up to the one that fills the last slot. */
  function Reached(terms: Terms, rs: seq<Recipient>, candidates: seq<nat>, slots: nat, now: int): seq<nat>
    requires forall k :: 0 <= k < |candidates| ==> candidates[k] < |rs|
    decreases candidates
  {
    if candidates == [] || slots == 0 then []
    else
      var i := candidates[0];
      [i] + Reached(terms, rs, candidates[1..], if Callable(terms, rs[i], now) then slots - 1 else slots, now)
  }

  lemma {:induction false} ReachedLooksAtCandidates(
      terms: Terms, rs: seq<Recipient>, other: seq<Recipient>, candidates: seq<nat>, slots: nat, now: int)
    requires |rs| == |other| && forall k :: 0 <= k < |candidates| ==> candidates[k] < |rs| && rs[candidates[k]] == other[candidates[k]]
    ensures Reached(terms, rs, candidates, slots, now) == Reached(terms, other, candidates, slots, now)
    decreases candidates
  {
    hide Callable;
    if candidates != [] && slots != 0 {
      ReachedLooksAtCandidates(terms, rs, other, candidates[1..],
        if Callable(terms, rs[candidates[0]], now) then slots - 1 else slots, now);
    }
  }

  /** The loop selects the callable ones among them, puts the others off, and leaves everybody else alone. */
  lemma {:induction false} ScanExactly(terms: Terms, rs: seq<Recipient>, candidates: seq<nat>, slots: nat, now: int, j: nat)
    requires DueAt(rs, candidates, now) && j < |rs|
    ensures var s, reached := Scan(terms, rs, candidates, slots, now), Reached(terms, rs, candidates, slots, now);
            && |s.recipients| == |rs|
            && s.recipients[j] == (if j in reached && !Callable(terms, rs[j], now) then PutOff(terms, rs[j], now) else rs[j])
            && (j in s.selected <==> j in reached && Callable(terms, rs[j], now))
            && (j in reached ==> j in candidates)
    decreases candidates
  {
    hide PutOff, Callable, Due;
    if candidates != [] && slots != 0 {
      var i, rest := candidates[0], candidates[1..];
      var put := rs[i := PutOff(terms, rs[i], now)];
      LaterAreDue(rs, candidates, now, PutOff(terms, rs[i], now));
      if Callable(terms, rs[i], now) {
        ScanExactly(terms, rs, rest, slots - 1, now, j);
      } else {
        ReachedLooksAtCandidates(terms, rs, put, rest, slots, now);
        ScanExactly(terms, put, rest, slots, now, j);
      }
    }
  }

  /** The loop stops before the end of the candidates only when the slots are used up. */
  lemma {:induction false} ReachedIsMaximal(terms: Terms, rs: seq<Recipient>, candidates: seq<nat>, slots: nat, now: int)
    requires DueAt(rs, candidates, now)
    ensures var s, reached := Scan(terms, rs, candidates, slots, now), Reached(terms, rs, candidates, slots, now);
            reached <= candidates && (reached == candidates || |s.selected| == slots)
    decreases candidates
  {
    hide PutOff, Callable, Due;
    if candidates != [] && slots != 0 {
      var i, rest := candidates[0], candidates[1..];
      var put := rs[i := PutOff(terms, rs[i], now)];
      LaterAreDue(rs, candidates, now, PutOff(terms, rs[i], now));
      if Callable(terms, rs[i], now) {
        ReachedIsMaximal(terms, rs, rest, slots - 1, now);
      } else {
        ReachedLooksAtCandidates(terms, rs, put, rest, slots, now);
        ReachedIsMaximal(terms, put, rest, slots, now);
      }
    }
  }

  /** The k-th selected recipient gets the k-th answer, if the worker got that far. */
  lemma {:induction false} SettleExactly(terms: Terms, rs: seq<Recipient>, selected: seq<nat>, outcomes: seq<Outcome>, k: nat)
    requires Increasing(selected) && k < |selected| && forall i :: 0 <= i < |selected| ==> selected[i] < |rs|
    ensures SettleAll(terms, rs, selected, outcomes)[selected[k]]
            == if k < |outcomes| then Settle(terms, rs[selected[k]], outcomes[k]) else rs[selected[k]]
    decreases selected
  {
    hide Settle;
    if outcomes != [] {
      var i, rest := selected[0], selected[1..];
      var settled := rs[i := Settle(terms, rs[i], outcomes[0])];
      assert forall m :: 0 <= m < |rest| ==> rest[m] == selected[m + 1] && rest[m] > i;
      if k == 0 {
        SettleAt(terms, settled, rest, outcomes[1..], i);
      } else {
        SettleExactly(terms, settled, rest, outcomes[1..], k - 1);
      }
    }
  }

  // ----- one dispatch

  /** The positions a dispatch looks at. */
  function LookedAt(c: Campaign, slots: nat, now: int): seq<nat> {
    Reached(c.terms, c.recipients, Candidates(c.recipients, now, 5 * slots, 0), slots, now)
  }

  /** The positions it selects, in the order of the calls. */
  function Chosen(c: Campaign, slots: nat, now: int): seq<nat> {
    Scan(c.terms, c.recipients, Candidates(c.recipients, now, 5 * slots, 0), slots, now).selected
  }

  lemma ChosenAreDue(c: Campaign, slots: nat, now: int)
    ensures DueAt(c.recipients, Chosen(c, slots, now), now)
    ensures |Chosen(c, slots, now)| <= slots
  {
    hide Due, Scan, Candidates, Callable;
    CandidatesAreDue(c.recipients, now, 5 * slots);
    ScanSelects(c.terms, c.recipients, Candidates(c.recipients, now, 5 * slots, 0), slots, now);
  }

  /** A selected recipient gets an attempt row and the gateway's answer to its own call. */
  lemma ChosenIsCalled(c: Campaign, slots: nat, now: int, outcomes: seq<Outcome>, k: nat)
    requires c.status.Running? && slots > 0 && k < |Chosen(c, slots, now)|
    ensures var d, j := DispatchWith(c, slots, now, true, true, outcomes), Chosen(c, slots, now)[k];
            && j < |c.recipients| && j < |d.recipients|
            && d.recipients[j] == (if k < |outcomes| then Settle(c.terms, Enqueue(c.recipients[j]), outcomes[k])
                                   else Enqueue(c.recipients[j]))
  {
    hide Due, Scan, EnqueueAll, SettleAll, Candidates, PutOff, Callable, Enqueue, Settle;
    var candidates, j := Candidates(c.recipients, now, 5 * slots, 0), Chosen(c, slots, now)[k];
    CandidatesAreDue(c.recipients, now, 5 * slots);
    ChosenAreDue(c, slots, now);
    assert j in Chosen(c, slots, now);
    ScanExactly(c.terms, c.recipients, candidates, slots, now, j);
    var s := Scan(c.terms, c.recipients, candidates, slots, now);
    QueueIsQueued(c.terms, c.recipients, candidates, slots, now);
    EnqueueAt(s.recipients, s.selected, now, j);
    SettleExactly(c.terms, EnqueueAll(s.recipients, s.selected), s.selected, outcomes, k);
  }

  /** Everybody else is put off if looked at, and left alone if not. */
  lemma OthersAreNotCalled(c: Campaign, slots: nat, now: int, outcomes: seq<Outcome>, j: nat)
    requires c.status.Running? && slots > 0 && j < |c.recipients| && j !in Chosen(c, slots, now)
    ensures var d := DispatchWith(c, slots, now, true, true, outcomes);
            && j < |d.recipients|
            && d.recipients[j] == (if j in LookedAt(c, slots, now) then PutOff(c.terms, c.recipients[j], now) else c.recipients[j])
            && (j in LookedAt(c, slots, now) ==> Due(c.recipients[j], now) && !Callable(c.terms, c.recipients[j], now))
  {
    hide Due, Scan, EnqueueAll, SettleAll, Candidates, PutOff, Callable, Enqueue, Settle;
    var candidates := Candidates(c.recipients, now, 5 * slots, 0);
    CandidatesAreDue(c.recipients, now, 5 * slots);
    ChosenAreDue(c, slots, now);
    ScanExactly(c.terms, c.recipients, candidates, slots, now, j);
    var s := Scan(c.terms, c.recipients, candidates, slots, now);
    QueueIsQueued(c.terms, c.recipients, candidates, slots, now);
    EnqueueAt(s.recipients, s.selected, now, j);
    SettleAt(c.terms, EnqueueAll(s.recipients, s.selected), s.selected, outcomes, j);
  }

  /** A dispatch adds an attempt row exactly for the recipients it selects, one each. */
  lemma RowsAreAddedExactlyForTheChosen(
      c: Campaign, slots: nat, now: int, entitled: bool, connected: bool, outcomes: seq<Outcome>, j: nat)
    requires j < |c.recipients|
    ensures var d := DispatchWith(c, slots, now, entitled, connected, outcomes);
            && |d.recipients| == |c.recipients|
            && |d.recipients[j].attempts| == |c.recipients[j].attempts|
               + One(c.status.Running? && slots > 0 && entitled && connected && j in Chosen(c, slots, now))
  {
    hide Due, Scan, EnqueueAll, SettleAll, Candidates, Callable;
    var candidates := Candidates(c.recipients, now, 5 * slots, 0);
    CandidatesAreDue(c.recipients, now, 5 * slots);
    ScanExactly(c.terms, c.recipients, candidates, slots, now, j);
    if c.status.Running? && slots > 0 && entitled && connected {
      hide DispatchWith;
      LengthStays(c, slots, now, outcomes);
      if j in Chosen(c, slots, now) {
        var k :| 0 <= k < |Chosen(c, slots, now)| && Chosen(c, slots, now)[k] == j;
        ChosenIsCalled(c, slots, now, outcomes, k);
      } else {
        OthersAreNotCalled(c, slots, now, outcomes, j);
      }
    }
  }

  lemma LengthStays(c: Campaign, slots: nat, now: int, outcomes: seq<Outcome>)
    ensures |DispatchWith(c, slots, now, true, true, outcomes).recipients| == |c.recipients|
  {
    hide Scan, Candidates, EnqueueAll, SettleAll;
    ScanShape(c.terms, c.recipients, Candidates(c.recipients, now, 5 * slots, 0), slots, now);
  }

  // ----- how many calls it starts

  lemma {:induction false} AllAreChosen(terms: Terms, rs: seq<Recipient>, candidates: seq<nat>, slots: nat, now: int)
    requires DueAt(rs, candidates, now) && forall k :: 0 <= k < |candidates| ==> Callable(terms, rs[candidates[k]], now)
    ensures |Scan(terms, rs, candidates, slots, now).selected| == Min(slots, |candidates|)
    decreases candidates
  {
    hide Callable, Due;
    if candidates != [] && slots != 0 {
      LaterAreDue(rs, candidates, now, rs[candidates[0]]);
      AllAreChosen(terms, rs, candidates[1..], slots - 1, now);
    }
  }

  /** If everybody due may be called, a dispatch fills its slots or calls everybody due. */
  lemma SlotsAreFilled(c: Campaign, slots: nat, now: int)
    requires c.status.Running? && slots > 0
    requires forall j :: 0 <= j < |c.recipients| && Due(c.recipients[j], now) ==> Callable(c.terms, c.recipients[j], now)
    ensures Active(DispatchWith(c, slots, now, true, true, []).recipients)
            == Active(c.recipients) + Min(slots, DueCount(c.recipients, now))
  {
    hide Due, Active, Scan, EnqueueAll, Candidates, Callable;
    var candidates := Candidates(c.recipients, now, 5 * slots, 0);
    CandidatesAreDue(c.recipients, now, 5 * slots);
    CandidatesAreFirst(c.recipients, now, 5 * slots, 0);
    assert c.recipients[0..] == c.recipients;
    AllAreChosen(c.terms, c.recipients, candidates, slots, now);
    ScanKeepsActive(c.terms, c.recipients, candidates, slots, now);
    QueueIsQueued(c.terms, c.recipients, candidates, slots, now);
    var s := Scan(c.terms, c.recipients, candidates, slots, now);
    EnqueueCounts(s.recipients, s.selected, now);
    assert SettleAll(c.terms, EnqueueAll(s.recipients, s.selected), s.selected, []) == EnqueueAll(s.recipients, s.selected);
  }
}
