/** How a campaign comes to its end: which event completes it, and which dispatch leaves it running with nobody to call. */
module Completion {
  import opened Wrappers
  import opened Campaigns
  import opened DispatchLaws
  import opened DispatchExactly
  import CampaignRuns

  /** The campaign at `ci` becomes completed in the step. */
  predicate Completes(s: Company, step: Step, cap: int, ci: nat) {
    var t := Apply(s, step, cap);
    && ci < |s.campaigns| && ci < |t.campaigns|
    && !s.campaigns[ci].status.Completed? && t.campaigns[ci].status.Completed?
  }

  /**
    Nobody but recipient `ri` is waiting or in a call, and the reported status leaves no work for it: it ends the attempt
    without a retry, or it neither ends nor answers a call of a recipient whose work is already over.
   */
  predicate EndsTheWork(c: Campaign, ri: nat, status: RecipientStatus)
    requires ri < |c.recipients|
  {
    var r := c.recipients[ri];
    && (forall j :: 0 <= j < |c.recipients| && j != ri ==> !IsOpen(c.recipients[j].status))
    && if EndsAttempt(status) then !Retryable(status) || r.attemptsCount >= c.terms.maxAttempts
       else !status.Answered? && !IsOpen(r.status)
  }

  /** A campaign becomes completed exactly when an event about it, while it is running, ends the work of its last recipient. */
  lemma CompletesExactlyWhenTheLastCallEnds(s: Company, step: Step, cap: int, ci: nat)
    requires ci < |s.campaigns|
    ensures Completes(s, step, cap, ci)
            <==> Targets(s, step) && step.Event? && step.ci == ci && s.campaigns[ci].status.Running?
                 && EndsTheWork(s.campaigns[ci], step.ri, step.status)
  {
    hide AnyOpen, EventCampaign, EndsTheWork, CallAfter, IsReady, DispatchCampaign, CancelWaiting;
    if Targets(s, step) && step.ci == ci {
      var c := s.campaigns[ci];
      if step.Dispatch? {
        CampaignRuns.DispatchMovesOn(c, CompanyActive(s.campaigns), cap, step.now, step.entitled, step.connected, step.outcomes);
      } else if step.Event? {
        EventCompletesExactly(c, step.ri, step.ai, step.status, step.at);
      }
    }
  }

  lemma EventCompletesExactly(c: Campaign, ri: nat, ai: nat, status: RecipientStatus, at: int)
    requires ri < |c.recipients| && ai < |c.recipients[ri].attempts|
    ensures EventCampaign(c, ri, ai, status, at).status
            == if c.status.Running? && EndsTheWork(c, ri, status) then CampaignStatus.Completed else c.status
  {
    hide CallAfter;
    var rs := EventCampaign(c, ri, ai, status, at).recipients;
    assert forall j :: 0 <= j < |rs| && j != ri ==> rs[j] == c.recipients[j];
    if c.status.Running? {
      assert IsOpen(rs[ri].status)
             <==> !(if EndsAttempt(status) then !Retryable(status) || c.recipients[ri].attemptsCount >= c.terms.maxAttempts
                    else !status.Answered? && !IsOpen(c.recipients[ri].status));
      if AnyOpen(rs) {
        var j :| 0 <= j < |rs| && IsOpen(rs[j].status);
        assert j != ri ==> IsOpen(c.recipients[j].status);
      }
    }
  }

  // ----- dispatches

  /** The dispatch ends the work of recipient `j`: its zone turns out unknown, or its last attempt is refused. */
  ghost predicate GivesUp(c: Campaign, slots: nat, now: int, outcomes: seq<Outcome>, j: nat)
    requires j < |c.recipients|
  {
    var r, chosen := c.recipients[j], Chosen(c, slots, now);
    || (j in LookedAt(c, slots, now) && r.zone.GetOr(c.terms.zone).Unknown?)
    || (exists k :: 0 <= k < |chosen| && chosen[k] == j && k < |outcomes| && outcomes[k].Refused?
                    && r.attemptsCount + 1 >= c.terms.maxAttempts)
  }

  lemma ClosedExactly(c: Campaign, slots: nat, now: int, outcomes: seq<Outcome>, j: nat)
    requires c.status.Running? && slots > 0 && j < |c.recipients|
    ensures var d := DispatchWith(c, slots, now, true, true, outcomes);
            && |d.recipients| == |c.recipients|
            && (IsOpen(d.recipients[j].status)
                <==> IsOpen(c.recipients[j].status) && !GivesUp(c, slots, now, outcomes, j))
  {
    hide DispatchWith, Chosen, LookedAt, InWindow, NextOpening;
    var r := c.recipients[j];
    LengthStays(c, slots, now, outcomes);
    ChosenAreDue(c, slots, now);
    if j in Chosen(c, slots, now) {
      var k :| 0 <= k < |Chosen(c, slots, now)| && Chosen(c, slots, now)[k] == j;
      ChosenIsCalled(c, slots, now, outcomes, k);
      ChosenIsCallable(c, slots, now, j);
    } else {
      OthersAreNotCalled(c, slots, now, outcomes, j);
    }
  }

  lemma ChosenIsCallable(c: Campaign, slots: nat, now: int, j: nat)
    requires j in Chosen(c, slots, now)
    ensures j < |c.recipients| && Callable(c.terms, c.recipients[j], now)
  {
    hide Due, Scan, Candidates, Callable;
    CandidatesAreDue(c.recipients, now, 5 * slots);
    ScanSelects(c.terms, c.recipients, Candidates(c.recipients, now, 5 * slots, 0), slots, now);
  }

  /** A dispatch leaves its campaign running with nobody to call exactly when it gives up everybody who was waiting or in a call. */
  lemma DispatchExhaustsExactlyWhen(
      c: Campaign, companyActive: nat, cap: int, now: int, entitled: bool, connected: bool, outcomes: seq<Outcome>)
    requires c.status.Running? && AnyOpen(c.recipients)
    ensures var d, slots := DispatchCampaign(c, companyActive, cap, now, entitled, connected, outcomes), Slots(c, companyActive, cap);
            d.status.Running? && !AnyOpen(d.recipients)
            <==> && slots > 0 && entitled && connected
                 && forall j :: 0 <= j < |c.recipients| && IsOpen(c.recipients[j].status) ==> GivesUp(c, slots, now, outcomes, j)
  {
    hide GivesUp, Chosen, LookedAt, Slots, IsOpen, Scan, Candidates, EnqueueAll, SettleAll;
    var slots := Slots(c, companyActive, cap);
    if slots > 0 && entitled && connected {
      var d := DispatchWith(c, slots, now, true, true, outcomes);
      hide DispatchWith;
      LengthStays(c, slots, now, outcomes);
      forall j | 0 <= j < |c.recipients|
        ensures IsOpen(d.recipients[j].status)
                <==> IsOpen(c.recipients[j].status) && !GivesUp(c, slots, now, outcomes, j)
      {
        ClosedExactly(c, slots, now, outcomes, j);
      }
    }
  }

  /** Everybody waiting or in a call is due and has an unknown zone. */
  predicate OnlyUnknownZones(c: Campaign, now: int) {
    forall j :: 0 <= j < |c.recipients| && IsOpen(c.recipients[j].status) ==>
      Due(c.recipients[j], now) && c.recipients[j].zone.GetOr(c.terms.zone).Unknown?
  }

  /** Unknown zones alone do it: if they are all that is left, nobody is called and nobody is left. */
  lemma UnknownZonesExhaustACampaign(c: Campaign, companyActive: nat, cap: int, now: int, outcomes: seq<Outcome>)
    requires c.status.Running? && DueCount(c.recipients, now) <= 5 * Slots(c, companyActive, cap) && Slots(c, companyActive, cap) > 0
    requires OnlyUnknownZones(c, now)
    ensures var d := DispatchCampaign(c, companyActive, cap, now, true, true, outcomes);
            && d.status.Running? && !AnyOpen(d.recipients) && |d.recipients| == |c.recipients|
            && forall j :: 0 <= j < |c.recipients| ==> d.recipients[j].attempts == c.recipients[j].attempts
  {
    hide DispatchWith, Slots, DueCount, OnlyUnknownZones, IsOpen;
    var slots := Slots(c, companyActive, cap);
    var d := DispatchWith(c, slots, now, true, true, outcomes);
    LengthStays(c, slots, now, outcomes);
    StatusStays(c, slots, now, outcomes);
    forall j | 0 <= j < |c.recipients|
      ensures !IsOpen(d.recipients[j].status) && d.recipients[j].attempts == c.recipients[j].attempts
    {
      UnknownZoneIsClosed(c, slots, now, outcomes, j);
    }
  }

  lemma UnknownZoneIsClosed(c: Campaign, slots: nat, now: int, outcomes: seq<Outcome>, j: nat)
    requires c.status.Running? && slots > 0 && j < |c.recipients|
    requires DueCount(c.recipients, now) <= 5 * slots && OnlyUnknownZones(c, now)
    ensures var d := DispatchWith(c, slots, now, true, true, outcomes);
            |d.recipients| == |c.recipients|
            && !IsOpen(d.recipients[j].status) && d.recipients[j].attempts == c.recipients[j].attempts
  {
    hide DispatchWith, Scan, Candidates, InWindow, NextOpening, DueCount, Due;
    var candidates := Candidates(c.recipients, now, 5 * slots, 0);
    LengthStays(c, slots, now, outcomes);
    NoneIsChosen(c, slots, now);
    CandidatesAreDue(c.recipients, now, 5 * slots);
    ReachedIsMaximal(c.terms, c.recipients, candidates, slots, now);
    AllDueAreCandidates(c.recipients, now, 5 * slots);
    OthersAreNotCalled(c, slots, now, outcomes, j);
  }

  lemma StatusStays(c: Campaign, slots: nat, now: int, outcomes: seq<Outcome>)
    ensures DispatchWith(c, slots, now, true, true, outcomes).status == c.status
  {
  }

  lemma NoneIsChosen(c: Campaign, slots: nat, now: int)
    requires OnlyUnknownZones(c, now)
    ensures Chosen(c, slots, now) == []
  {
    hide Chosen, InWindow;
    ChosenAreDue(c, slots, now);
    if Chosen(c, slots, now) != [] {
      ChosenIsCallable(c, slots, now, Chosen(c, slots, now)[0]);
    }
  }

  lemma AllDueAreCandidates(rs: seq<Recipient>, now: int, limit: nat)
    requires DueCount(rs, now) <= limit
    ensures forall j :: 0 <= j < |rs| && Due(rs[j], now) ==> j in Candidates(rs, now, limit, 0)
  {
    hide Due;
    assert rs[0..] == rs;
    EveryDueIsListed(rs, now, limit, 0);
  }

  lemma {:induction false} EveryDueIsListed(rs: seq<Recipient>, now: int, limit: nat, from: nat)
    requires from <= |rs| && DueCount(rs[from..], now) <= limit
    ensures forall j :: from <= j < |rs| && Due(rs[j], now) ==> j in Candidates(rs, now, limit, from)
    decreases |rs| - from
  {
    hide Due;
    if from < |rs| {
      assert rs[from..][1..] == rs[from + 1..];
      if Due(rs[from], now) {
        EveryDueIsListed(rs, now, limit - 1, from + 1);
      } else if limit > 0 {
        EveryDueIsListed(rs, now, limit, from + 1);
      } else {
        NoneIsDue(rs, now, from);
      }
    }
  }

  lemma {:induction false} NoneIsDue(rs: seq<Recipient>, now: int, from: nat)
    requires from <= |rs| && DueCount(rs[from..], now) == 0
    ensures forall j :: from <= j < |rs| ==> !Due(rs[j], now)
    decreases |rs| - from
  {
    hide Due;
    if from < |rs| {
      assert rs[from..][1..] == rs[from + 1..];
      NoneIsDue(rs, now, from + 1);
    }
  }

  predicate HasNoRows(c: Campaign) {
    forall j :: 0 <= j < |c.recipients| ==> c.recipients[j].attempts == []
  }

  /** Running out of work, a campaign goes nowhere by itself: every dispatch keeps its rows, and at most pauses or fails it. */
  lemma DispatchOfAnExhaustedCampaign(
      c: Campaign, companyActive: nat, cap: int, now: int, entitled: bool, connected: bool, outcomes: seq<Outcome>)
    requires !AnyOpen(c.recipients)
    ensures DispatchCampaign(c, companyActive, cap, now, entitled, connected, outcomes)
            == c.(status := if !c.status.Running? || Slots(c, companyActive, cap) == 0 then c.status
                            else if !entitled then Paused
                            else if !connected then CampaignStatus.Failed
                            else c.status)
  {
    hide Slots;
    var slots := Slots(c, companyActive, cap);
    NobodyIsDue(c.recipients, now, 5 * slots, 0);
    assert Scan(c.terms, c.recipients, [], slots, now) == Scanned(c.recipients, []);
    assert EnqueueAll(c.recipients, []) == c.recipients;
  }

  /** Over, and without a row that an event could concern; past the states in which contacts are imported. */
  predicate IsStuck(c: Campaign) {
    !AnyOpen(c.recipients) && HasNoRows(c) && !c.status.Completed? && !c.status.Draft? && !c.status.Ready?
  }

  lemma StepKeepsStuck(s: Company, step: Step, cap: int, ci: nat)
    requires ci < |s.campaigns| && IsStuck(s.campaigns[ci])
    ensures var t := Apply(s, step, cap); ci < |t.campaigns| && IsStuck(t.campaigns[ci])
  {
    hide DispatchCampaign, EventCampaign, IsReady;
    if Targets(s, step) && step.ci == ci {
      var c := s.campaigns[ci];
      if step.Dispatch? {
        DispatchOfAnExhaustedCampaign(c, CompanyActive(s.campaigns), cap, step.now, step.entitled, step.connected, step.outcomes);
      } else if step.SetStatus? {
        NobodyWaits(c.recipients);
      }
    }
  }

  lemma NobodyWaits(rs: seq<Recipient>)
    requires !AnyOpen(rs)
    ensures CancelWaiting(rs) == rs
  {
    assert forall j :: 0 <= j < |rs| ==> !IsOpen(rs[j].status);
  }

  /** No run of any steps whatever, an operator's and the worker's included, completes such a campaign. */
  lemma {:induction false} ExhaustedCampaignIsNeverCompleted(s: Company, steps: seq<Step>, cap: int, ci: nat)
    requires ci < |s.campaigns| && IsStuck(s.campaigns[ci])
    ensures var t := Run(s, steps, cap); ci < |t.campaigns| && !t.campaigns[ci].status.Completed? && IsStuck(t.campaigns[ci])
    decreases steps
  {
    hide Apply, IsStuck;
    if steps != [] {
      StepKeepsStuck(s, steps[0], cap, ci);
      ExhaustedCampaignIsNeverCompleted(Apply(s, steps[0], cap), steps[1..], cap, ci);
    } else {
      StuckIsNotCompleted(s.campaigns[ci]);
    }
  }

  lemma StuckIsNotCompleted(c: Campaign)
    requires IsStuck(c)
    ensures !c.status.Completed?
  {
  }

  /** The n-th step of the run is an event on one of the campaign's own attempts that ends the work of its last recipient. */
  predicate CompletedAt(s: Company, steps: seq<Step>, cap: int, ci: nat, n: nat) {
    n < |steps|
    && var t := Run(s, steps[..n], cap);
       ci < |t.campaigns| && Targets(t, steps[n]) && steps[n].Event? && steps[n].ci == ci && t.campaigns[ci].status.Running?
       && EndsTheWork(t.campaigns[ci], steps[n].ri, steps[n].status)
  }

  /** With attempt rows: over any run a campaign comes to be completed only through such an event. */
  lemma {:induction false} CompletedOnlyByItsOwnEvents(s: Company, steps: seq<Step>, cap: int, ci: nat)
    requires ci < |s.campaigns| && !s.campaigns[ci].status.Completed?
    requires var t := Run(s, steps, cap); ci < |t.campaigns| && t.campaigns[ci].status.Completed?
    ensures exists n: nat :: CompletedAt(s, steps, cap, ci, n)
    decreases steps
  {
    hide Apply, EndsTheWork;
    var next := Apply(s, steps[0], cap);
    CampaignRuns.RunFrom(s, steps, cap);
    CampaignsStay(s, steps[0], cap);
    if next.campaigns[ci].status.Completed? {
      CompletesExactlyWhenTheLastCallEnds(s, steps[0], cap, ci);
      assert CompletedAt(s, steps, cap, ci, 0);
    } else {
      CompletedOnlyByItsOwnEvents(next, steps[1..], cap, ci);
      var n: nat :| CompletedAt(next, steps[1..], cap, ci, n);
      assert Run(s, steps[..n + 1], cap) == Run(next, steps[1..][..n], cap) && steps[n + 1] == steps[1..][n];
      assert CompletedAt(s, steps, cap, ci, n + 1);
    }
  }

  lemma CampaignsStay(s: Company, step: Step, cap: int)
    ensures |s.campaigns| <= |Apply(s, step, cap).campaigns|
  {
  }

  lemma {:induction false} NobodyIsDue(rs: seq<Recipient>, now: int, limit: nat, from: nat)
    requires !AnyOpen(rs) && from <= |rs|
    ensures Candidates(rs, now, limit, from) == []
    decreases |rs| - from
  {
    if from < |rs| {
      assert !IsOpen(rs[from].status);
      NobodyIsDue(rs, now, limit, from + 1);
    }
  }

  /** A refused last call: the only recipient has used its one attempt, and the campaign is left running with nobody to call. */
  lemma RefusedLastCallExhausts(r: Recipient)
    requires r.zone.None? && r.status.Pending? && r.attemptsCount == 0 && r.nextAttemptAt.None?
    ensures var c := Campaign(Running, Terms(Fixed(0), 0, DAY - 1, 1, 1, MINUTE), None, [r]);
            var d := DispatchCampaign(c, 0, 1, 0, true, true, [Refused(0)]);
            AnyOpen(c.recipients) && d.status.Running? && !AnyOpen(d.recipients)
  {
    hide Candidates, Scan;
    var c := Campaign(Running, Terms(Fixed(0), 0, DAY - 1, 1, 1, MINUTE), None, [r]);
    assert IsOpen(c.recipients[0].status) && Due(r, 0) && Callable(c.terms, r, 0);
    CampaignRuns.LoneRecipientIsCalled(c, r, 0);
    RowsAreAddedExactlyForTheChosen(c, 1, 0, true, true, [], 0);
    assert Slots(c, 0, 1) == 1;
    assert |DispatchCampaign(c, 0, 1, 0, true, true, []).recipients[0].attempts| == |r.attempts| + 1;
    ChosenAreDue(c, 1, 0);
    assert Chosen(c, 1, 0)[0] == 0;
    assert GivesUp(c, 1, 0, [Refused(0)], 0);
    DispatchExhaustsExactlyWhen(c, 0, 1, 0, true, true, [Refused(0)]);
  }
}
