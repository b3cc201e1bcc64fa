/** Dispatches that counted before they got the lock: how far the caps can be passed, and exactly when they hold. */
module DispatchRaces {
  import opened Wrappers
  import opened Campaigns
  import opened DispatchLaws
  import opened DispatchExactly

  /** A dispatch that counted `campaignCount` calls of the campaign and `companyCount` of the company some time before. */
  function LateDispatch(
      c: Campaign, campaignCount: nat, companyCount: nat, cap: int, now: int,
      entitled: bool, connected: bool, outcomes: seq<Outcome>): Campaign
  {
    DispatchWith(c, SlotsFrom(c.terms.maxConcurrency, campaignCount, companyCount, cap), now, entitled, connected, outcomes)
  }

  /** Each cap can be passed by as many calls as have started since they were counted, and by no more. */
  lemma StaleCountsOvershootByTheDifference(
      c: Campaign, campaignCount: nat, companyCount: nat, actual: nat, cap: int, now: int,
      entitled: bool, connected: bool, outcomes: seq<Outcome>)
    requires Active(c.recipients) <= actual
    ensures var before := Active(c.recipients);
            var after := Active(LateDispatch(c, campaignCount, companyCount, cap, now, entitled, connected, outcomes).recipients);
            && after <= Max(before, c.terms.maxConcurrency + (before - campaignCount))
            && actual - before + after <= Max(actual, cap + (actual - companyCount))
  {
    hide Active, DispatchWith;
    var slots := SlotsFrom(c.terms.maxConcurrency, campaignCount, companyCount, cap);
    DispatchAddsAtMostSlots(c, slots, now, entitled, connected, outcomes);
  }

  // ----- campaigns that use every slot

  function Busy(n: nat): Recipient {
    Recipient(seq(n + 1, i => '1'), None, Dialing, 1, None, [Attempt(1, Dialing, Initiated)])
  }

  function Waiting(n: nat): Recipient {
    Recipient(seq(n + 1, i => '2'), None, Pending, 0, None, [])
  }

  function Crowd(busy: nat, waiting: nat): seq<Recipient> {
    if busy > 0 then [Busy(busy)] + Crowd(busy - 1, waiting)
    else if waiting > 0 then [Waiting(waiting)] + Crowd(0, waiting - 1)
    else []
  }

  /** A running campaign, open all day, with `busy` calls in progress and `waiting` recipients due. */
  function Crowded(busy: nat, waiting: nat, limit: int): Campaign {
    Campaign(Running, Terms(Fixed(0), 0, DAY - 1, limit, 1, MINUTE), None, Crowd(busy, waiting))
  }

  lemma {:induction false} CrowdCounts(busy: nat, waiting: nat, terms: Terms)
    requires terms == Crowded(busy, waiting, terms.maxConcurrency).terms
    ensures Active(Crowd(busy, waiting)) == busy && DueCount(Crowd(busy, waiting), 0) == waiting
    ensures forall j :: 0 <= j < |Crowd(busy, waiting)| ==> Callable(terms, Crowd(busy, waiting)[j], 0)
    decreases busy, waiting
  {
    if busy > 0 {
      CrowdCounts(busy - 1, waiting, terms);
      assert Crowd(busy, waiting)[1..] == Crowd(busy - 1, waiting);
    } else if waiting > 0 {
      CrowdCounts(0, waiting - 1, terms);
      assert Crowd(0, waiting)[1..] == Crowd(0, waiting - 1);
    }
  }

  lemma CrowdFillsItsSlots(busy: nat, waiting: nat, limit: int, slots: nat)
    requires 0 < slots <= waiting
    ensures var c := Crowded(busy, waiting, limit);
            Active(c.recipients) == busy && Active(DispatchWith(c, slots, 0, true, true, []).recipients) == busy + slots
  {
    hide Active, Due, DueCount, Callable, DispatchWith, Crowd;
    var c := Crowded(busy, waiting, limit);
    CrowdCounts(busy, waiting, c.terms);
    SlotsAreFilled(c, slots, 0);
  }

  // ----- exactly when the caps hold

  /** Whatever campaign a request can set up and whatever the gateway answers, the company stays within its cap or what it had. */
  ghost predicate CompanyCapHolds(companyCount: nat, actual: nat, cap: int) {
    forall c: Campaign, campaignCount: nat, now: int, entitled: bool, connected: bool, outcomes: seq<Outcome> ::
      InSchema(c.terms, MAX_ATTEMPTS) && Active(c.recipients) <= actual ==>
        actual - Active(c.recipients)
        + Active(LateDispatch(c, campaignCount, companyCount, cap, now, entitled, connected, outcomes).recipients)
        <= Max(actual, cap)
  }

  /**
    With `actual` calls when the lock is taken, the company cap is safe exactly when the count left no slot, or the most that one
    campaign can start on it still fits. For caps up to the largest limit of a campaign that is: when no started call was missed.
   */
  lemma CompanyCapHoldsExactlyWhen(companyCount: nat, actual: nat, cap: int)
    ensures CompanyCapHolds(companyCount, actual, cap)
            <==> cap <= companyCount || actual + Min(MAX_CONCURRENCY, cap - companyCount) <= cap
    ensures cap - companyCount <= MAX_CONCURRENCY ==>
              (CompanyCapHolds(companyCount, actual, cap) <==> cap <= companyCount || actual <= companyCount)
  {
    hide Active, DispatchWith;
    if cap <= companyCount || actual + Min(MAX_CONCURRENCY, cap - companyCount) <= cap {
      forall c: Campaign, campaignCount: nat, now: int, entitled: bool, connected: bool, outcomes: seq<Outcome>
        | InSchema(c.terms, MAX_ATTEMPTS) && Active(c.recipients) <= actual
        ensures actual - Active(c.recipients)
                + Active(LateDispatch(c, campaignCount, companyCount, cap, now, entitled, connected, outcomes).recipients)
                <= Max(actual, cap)
      {
        DispatchAddsAtMostSlots(c, SlotsFrom(c.terms.maxConcurrency, campaignCount, companyCount, cap),
                                now, entitled, connected, outcomes);
      }
    } else {
      var n := Min(MAX_CONCURRENCY, cap - companyCount);
      var c := Crowded(0, n, n);
      CrowdFillsItsSlots(0, n, n, n);
      assert InSchema(c.terms, MAX_ATTEMPTS);
      assert LateDispatch(c, 0, companyCount, cap, 0, true, true, []) == DispatchWith(c, n, 0, true, true, []);
      assert Active(LateDispatch(c, 0, companyCount, cap, 0, true, true, []).recipients) == n;
    }
  }

  /** The same for a campaign with a given limit and `active` calls when the lock is taken. */
  ghost predicate CampaignCapHolds(campaignCount: nat, active: nat, limit: int) {
    forall c: Campaign, companyCount: nat, cap: int, now: int, entitled: bool, connected: bool, outcomes: seq<Outcome> ::
      c.terms.maxConcurrency == limit && Active(c.recipients) == active ==>
        Active(LateDispatch(c, campaignCount, companyCount, cap, now, entitled, connected, outcomes).recipients)
        <= Max(active, limit)
  }

  lemma CampaignCapHoldsExactlyWhen(campaignCount: nat, active: nat, limit: int)
    ensures CampaignCapHolds(campaignCount, active, limit) <==> active <= campaignCount || limit <= campaignCount
  {
    hide Active, DispatchWith;
    if active <= campaignCount || limit <= campaignCount {
      forall c: Campaign, companyCount: nat, cap: int, now: int, entitled: bool, connected: bool, outcomes: seq<Outcome>
        | c.terms.maxConcurrency == limit && Active(c.recipients) == active
        ensures Active(LateDispatch(c, campaignCount, companyCount, cap, now, entitled, connected, outcomes).recipients)
                <= Max(active, limit)
      {
        DispatchAddsAtMostSlots(c, SlotsFrom(limit, campaignCount, companyCount, cap), now, entitled, connected, outcomes);
      }
    } else {
      var n := limit - campaignCount;
      var c := Crowded(active, n, limit);
      CrowdFillsItsSlots(active, n, limit, n);
      assert LateDispatch(c, campaignCount, 0, n, 0, true, true, []) == DispatchWith(c, n, 0, true, true, []);
      assert Active(LateDispatch(c, campaignCount, 0, n, 0, true, true, []).recipients) == active + n;
    }
  }

  // ----- two workers

  /** Two campaigns of one company, dispatched by workers that both counted nothing: with a company cap of one, two calls start. */
  lemma RacingCampaignsPassTheCompanyCap()
    ensures exists c: Campaign, d: Campaign ::
              && d == LateDispatch(c, 0, 0, 1, 0, true, true, [])
              && CompanyActive([c, c]) == 0 && CompanyActive([d, d]) == 2
  {
    hide DispatchWith, Active, Crowd;
    var c := Crowded(0, 1, 1);
    var d := LateDispatch(c, 0, 0, 1, 0, true, true, []);
    CrowdFillsItsSlots(0, 1, 1, 1);
    TwoCount(c);
    TwoCount(d);
  }

  lemma TwoCount(c: Campaign)
    ensures CompanyActive([c, c]) == 2 * Active(c.recipients)
  {
    hide Active;
    assert [c, c][1..] == [c] && [c][1..] == [];
    assert CompanyActive([c]) == Active(c.recipients) + CompanyActive([]);
  }

  /** One campaign dispatched by two workers that both counted nothing: with a limit of one, two calls start. */
  lemma RacingWorkersPassTheCampaignLimit(cap: int)
    requires cap >= 2
    ensures exists c: Campaign ::
              var first := LateDispatch(c, 0, 0, cap, 0, true, true, []);
              var second := LateDispatch(first, 0, 0, cap, 0, true, true, []);
              && c.terms.maxConcurrency == 1 && Active(c.recipients) == 0
              && Active(first.recipients) == 1 && Active(second.recipients) == 2
  {
    var a, b := Waiting(2), Waiting(1);
    var c := Campaign(Running, Terms(Fixed(0), 0, DAY - 1, 1, 1, MINUTE), None, [a, b]);
    var first, second := c.(recipients := [Enqueue(a), b]), c.(recipients := [Enqueue(a), Enqueue(b)]);
    FirstOfTwo(c, a, b);
    SecondOfTwo(first, a, b);
    TwoRecipients(a, b);
    TwoRecipients(Enqueue(a), b);
    TwoRecipients(Enqueue(a), Enqueue(b));
    assert LateDispatch(c, 0, 0, cap, 0, true, true, []) == first;
    assert LateDispatch(first, 0, 0, cap, 0, true, true, []) == second;
  }

  lemma TwoRecipients(a: Recipient, b: Recipient)
    ensures Active([a, b]) == One(IsActive(a.status)) + One(IsActive(b.status))
  {
    assert [a, b][1..] == [b] && [b][1..] == [];
    assert Active([b]) == One(IsActive(b.status)) + Active([]);
  }

  lemma FirstOfTwo(c: Campaign, a: Recipient, b: Recipient)
    requires c.status.Running? && c.recipients == [a, b] && Due(a, 0) && Due(b, 0) && Callable(c.terms, a, 0)
    ensures DispatchWith(c, 1, 0, true, true, []) == c.(recipients := [Enqueue(a), b])
  {
    hide Due, Callable;
    assert Candidates([a, b], 0, 3, 2) == [];
    assert Candidates([a, b], 0, 4, 1) == [1];
    assert Candidates([a, b], 0, 5, 0) == [0, 1];
    assert [0, 1][1..] == [1] && Scan(c.terms, [a, b], [1], 0, 0) == Scanned([a, b], []);
    assert Scan(c.terms, [a, b], [0, 1], 1, 0) == Scanned([a, b], [0]);
    assert [a, b][0 := Enqueue(a)] == [Enqueue(a), b];
    assert EnqueueAll([a, b], [0]) == EnqueueAll([Enqueue(a), b], []);
  }

  lemma SecondOfTwo(c: Campaign, a: Recipient, b: Recipient)
    requires c.status.Running? && c.recipients == [Enqueue(a), b] && Due(b, 0) && Callable(c.terms, b, 0)
    ensures DispatchWith(c, 1, 0, true, true, []) == c.(recipients := [Enqueue(a), Enqueue(b)])
  {
    hide Callable;
    var rs := [Enqueue(a), b];
    assert Candidates(rs, 0, 4, 2) == [];
    assert Candidates(rs, 0, 5, 1) == [1];
    assert Candidates(rs, 0, 5, 0) == [1];
    assert [1][1..] == [] && Scan(c.terms, rs, [], 0, 0) == Scanned(rs, []);
    assert Scan(c.terms, rs, [1], 1, 0) == Scanned(rs, [1]);
    assert rs[1 := Enqueue(b)] == [Enqueue(a), Enqueue(b)];
    assert EnqueueAll(rs, [1]) == EnqueueAll([Enqueue(a), Enqueue(b)], []);
  }
}
