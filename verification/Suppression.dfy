/** Who can still be called: the do-not-call list is not read after the import, so the recipient's own row decides. */
module Suppression {
  import opened Wrappers
  import opened Campaigns
  import opened DispatchLaws
  import opened DispatchExactly
  import CampaignRuns

  predicate InTable(s: Company, ci: nat, ri: nat) {
    ci < |s.campaigns| && ri < |s.campaigns[ci].recipients|
  }

  function RecipientAt(s: Company, ci: nat, ri: nat): Recipient
    requires InTable(s, ci, ri)
  {
    s.campaigns[ci].recipients[ri]
  }

  /** An import that replaces the list deletes the recipients of its campaign. */
  predicate Replaces(step: Step, ci: nat) {
    step.ImportContacts? && step.replace && step.ci == ci
  }

  predicate KeepsList(steps: seq<Step>, ci: nat) {
    forall k :: 0 <= k < |steps| ==> !Replaces(steps[k], ci)
  }

  // ----- one step

  /** The step calls the recipient: it dispatches the running campaign and selects this position. */
  predicate Calls(s: Company, step: Step, cap: int, ci: nat, ri: nat) {
    && step.Dispatch? && step.ci == ci && ci < |s.campaigns| && s.campaigns[ci].status.Running? && step.entitled && step.connected
    && var slots := Slots(s.campaigns[ci], CompanyActive(s.campaigns), cap);
       slots > 0 && ri in Chosen(s.campaigns[ci], slots, step.now)
  }

  /** A recipient gets an attempt row exactly in the steps that select it, whatever the do-not-call list holds. */
  lemma StepCallsExactly(s: Company, step: Step, cap: int, ci: nat, ri: nat)
    requires InTable(s, ci, ri) && !Replaces(step, ci)
    ensures var t := Apply(s, step, cap);
            InTable(t, ci, ri)
            && |RecipientAt(t, ci, ri).attempts| == |RecipientAt(s, ci, ri).attempts| + One(Calls(s, step, cap, ci, ri))
            && RecipientAt(t, ci, ri).zone == RecipientAt(s, ci, ri).zone
  {
    hide DispatchWith, Chosen, CallAfter, IsReady, AnyOpen, NextOpening, Callable;
    if Targets(s, step) && step.ci == ci && step.Dispatch? {
      var c := s.campaigns[ci];
      var slots := Slots(c, CompanyActive(s.campaigns), cap);
      RowsAreAddedExactlyForTheChosen(c, slots, step.now, step.entitled, step.connected, step.outcomes, ri);
      DispatchAt(c, CompanyActive(s.campaigns), cap, step.now, step.entitled, step.connected, step.outcomes, ri);
    }
  }

  /** Over a run without a replacing import: the attempt rows added are the steps that select the recipient. */
  function CallsIn(s: Company, steps: seq<Step>, cap: int, ci: nat, ri: nat): nat
    decreases steps
  {
    if steps == [] then 0
    else One(Calls(s, steps[0], cap, ci, ri)) + CallsIn(Apply(s, steps[0], cap), steps[1..], cap, ci, ri)
  }

  lemma {:induction false} RunCallsExactly(s: Company, steps: seq<Step>, cap: int, ci: nat, ri: nat)
    requires InTable(s, ci, ri) && KeepsList(steps, ci)
    ensures var t := Run(s, steps, cap);
            InTable(t, ci, ri)
            && |RecipientAt(t, ci, ri).attempts| == |RecipientAt(s, ci, ri).attempts| + CallsIn(s, steps, cap, ci, ri)
    decreases steps
  {
    hide Apply, Calls;
    if steps != [] {
      StepCallsExactly(s, steps[0], cap, ci, ri);
      RunCallsExactly(Apply(s, steps[0], cap), steps[1..], cap, ci, ri);
    }
  }

  // ----- who is never called

  /** Steps whose terms a request can carry, with at most `most` attempts. */
  predicate FitsSchema(step: Step, most: int) {
    && (step.Create? ==> InSchema(step.terms, most))
    && (step.Update? ==> InSchema(step.newTerms, most))
  }

  /**
    Nothing can bring a call about: the zone is unknown, or the recipient does not wait, and either has no attempt an event could
    concern or has used all that are ever allowed.
   */
  predicate Silent(r: Recipient, most: int) {
    || r.zone == Some(Unknown)
    || (!r.status.Pending? && (r.attempts == [] || r.attemptsCount >= most))
  }

  lemma StepKeepsSilent(s: Company, step: Step, cap: int, ci: nat, ri: nat, most: int)
    requires InTable(s, ci, ri) && Silent(RecipientAt(s, ci, ri), most) && s.campaigns[ci].terms.maxAttempts <= most
    requires !Replaces(step, ci) && CampaignRuns.LimitsAttempts(step, most)
    ensures var t := Apply(s, step, cap);
            InTable(t, ci, ri) && Silent(RecipientAt(t, ci, ri), most) && t.campaigns[ci].terms.maxAttempts <= most
            && !Calls(s, step, cap, ci, ri)
  {
    hide DispatchWith, Chosen, CallAfter, IsReady, AnyOpen, NextOpening, InWindow;
    StepCallsExactly(s, step, cap, ci, ri);
    if Targets(s, step) && step.ci == ci && step.Dispatch? {
      var c := s.campaigns[ci];
      var slots := Slots(c, CompanyActive(s.campaigns), cap);
      if ri in Chosen(c, slots, step.now) {
        ChosenMayBeCalled(c, slots, step.now, ri);
      }
      DispatchAt(c, CompanyActive(s.campaigns), cap, step.now, step.entitled, step.connected, step.outcomes, ri);
    }
  }

  lemma ChosenMayBeCalled(c: Campaign, slots: nat, now: int, j: nat)
    requires j in Chosen(c, slots, now)
    ensures j < |c.recipients| && Due(c.recipients[j], now) && Callable(c.terms, c.recipients[j], now)
  {
    hide Due, Scan, Candidates, Callable;
    CandidatesAreDue(c.recipients, now, 5 * slots);
    ScanSelects(c.terms, c.recipients, Candidates(c.recipients, now, 5 * slots, 0), slots, now);
  }

  lemma {:induction false} SilentIsNeverCalled(s: Company, steps: seq<Step>, cap: int, ci: nat, ri: nat, most: int)
    requires InTable(s, ci, ri) && Silent(RecipientAt(s, ci, ri), most) && s.campaigns[ci].terms.maxAttempts <= most
    requires KeepsList(steps, ci) && forall k :: 0 <= k < |steps| ==> CampaignRuns.LimitsAttempts(steps[k], most)
    ensures CallsIn(s, steps, cap, ci, ri) == 0
    decreases steps
  {
    hide Apply, Calls, Silent;
    if steps != [] {
      StepKeepsSilent(s, steps[0], cap, ci, ri, most);
      SilentIsNeverCalled(Apply(s, steps[0], cap), steps[1..], cap, ci, ri, most);
    }
  }

  // ----- everybody else can still be called

  predicate AllFitSchema(steps: seq<Step>, most: int) {
    forall k :: 0 <= k < |steps| ==> FitsSchema(steps[k], most)
  }

  /** A run of requests the schema accepts, in which the recipient is called. */
  ghost predicate Reaches(s: Company, steps: seq<Step>, cap: int, ci: nat, ri: nat, most: int) {
    KeepsList(steps, ci) && AllFitSchema(steps, most) && CallsIn(s, steps, cap, ci, ri) > 0
  }

  lemma Prepend(s: Company, step: Step, steps: seq<Step>, cap: int, ci: nat, ri: nat, most: int)
    requires !Replaces(step, ci) && FitsSchema(step, most) && Reaches(Apply(s, step, cap), steps, cap, ci, ri, most)
    ensures Reaches(s, [step] + steps, cap, ci, ri, most)
  {
    hide Apply, Calls, FitsSchema;
    var all := [step] + steps;
    assert all[1..] == steps;
    assert forall k :: 0 <= k < |all| ==> all[k] == if k == 0 then step else steps[k - 1];
  }

  lemma CallNow(s: Company, step: Step, cap: int, ci: nat, ri: nat, most: int)
    requires step.Dispatch? && Calls(s, step, cap, ci, ri)
    ensures Reaches(s, [step], cap, ci, ri, most)
  {
    hide Apply, Calls;
    assert [step][1..] == [];
  }

  /** Terms under which a call can be made at any time of the day before the last microsecond. */
  function OpenTerms(limit: int, attempts: int): Terms {
    Terms(Fixed(0), 0, DAY - 1, limit, attempts, MINUTE)
  }

  /** The recipient may be called at this moment, and there is room for a call. */
  predicate CallableNow(s: Company, cap: int, ci: nat, ri: nat, now: int) {
    && InTable(s, ci, ri)
    && var c := s.campaigns[ci];
       && c.status.Running? && c.terms == OpenTerms(c.terms.maxConcurrency, 1)
       && Active(c.recipients) < c.terms.maxConcurrency && CompanyActive(s.campaigns) < cap
       && Due(c.recipients[ri], now) && Callable(c.terms, c.recipients[ri], now)
  }

  function Refusals(n: nat, now: int): seq<Outcome> {
    seq(n, i => Refused(now))
  }

  /** With every call refused on its last attempt, a dispatch leaves no call in progress that was not there before. */
  lemma RefusedDispatchAddsNoCall(c: Campaign, slots: nat, now: int, j: nat)
    requires c.status.Running? && slots > 0 && j < |c.recipients|
    ensures var d := DispatchWith(c, slots, now, true, true, Refusals(slots, now));
            |d.recipients| == |c.recipients| && (IsActive(d.recipients[j].status) ==> IsActive(c.recipients[j].status))
  {
    hide DispatchWith, Chosen, LookedAt, NextOpening, InWindow;
    LengthStays(c, slots, now, Refusals(slots, now));
    ChosenAreDue(c, slots, now);
    if j in Chosen(c, slots, now) {
      var k :| 0 <= k < |Chosen(c, slots, now)| && Chosen(c, slots, now)[k] == j;
      ChosenIsCalled(c, slots, now, Refusals(slots, now), k);
    } else {
      OthersAreNotCalled(c, slots, now, Refusals(slots, now), j);
    }
  }

  lemma {:induction false} ActiveAtMost(rs: seq<Recipient>, ds: seq<Recipient>)
    requires |rs| == |ds| && forall j :: 0 <= j < |rs| ==> (IsActive(ds[j].status) ==> IsActive(rs[j].status))
    ensures Active(ds) <= Active(rs)
  {
    hide IsActive;
    if rs != [] {
      ActiveAtMost(rs[1..], ds[1..]);
    }
  }

  /** Dispatched again and again with every call refused, the due recipients before this one give way to it. */
  lemma {:induction false} CallableIsReached(s: Company, cap: int, ci: nat, ri: nat, now: int, most: int) returns (steps: seq<Step>)
    requires CallableNow(s, cap, ci, ri, now)
    ensures Reaches(s, steps, cap, ci, ri, most)
    decreases DueCount(s.campaigns[ci].recipients, now)
  {
    hide Active, CompanyActive, Due, DueCount, Callable, DispatchWith, Chosen, LookedAt, Reaches;
    var c := s.campaigns[ci];
    var slots := Slots(c, CompanyActive(s.campaigns), cap);
    var outcomes := Refusals(slots, now);
    var step := Step.Dispatch(ci, now, true, true, outcomes);
    if ri in Chosen(c, slots, now) {
      CallNow(s, step, cap, ci, ri, most);
      return [step];
    }
    var t := Apply(s, step, cap);
    var d := t.campaigns[ci];
    OthersAreNotCalled(c, slots, now, outcomes, ri);
    DispatchKeepsLength(c, CompanyActive(s.campaigns), cap, now, true, true, outcomes);
    DispatchKeepsStatus(c, slots, now, outcomes);
    SomebodyIsDue(c.recipients, now, ri);
    DispatchProgresses(c, CompanyActive(s.campaigns), cap, now, outcomes);
    forall j | 0 <= j < |c.recipients|
      ensures IsActive(d.recipients[j].status) ==> IsActive(c.recipients[j].status)
    {
      RefusedDispatchAddsNoCall(c, slots, now, j);
    }
    ActiveAtMost(c.recipients, d.recipients);
    CompanyUpdate(s.campaigns, ci, d);
    var rest := CallableIsReached(t, cap, ci, ri, now, most);
    Prepend(s, step, rest, cap, ci, ri, most);
    return [step] + rest;
  }

  lemma DispatchKeepsStatus(c: Campaign, slots: nat, now: int, outcomes: seq<Outcome>)
    ensures var d := DispatchWith(c, slots, now, true, true, outcomes); d.status == c.status && d.terms == c.terms
  {
  }

  lemma {:induction false} SomebodyIsDue(rs: seq<Recipient>, now: int, j: nat)
    requires j < |rs| && Due(rs[j], now)
    ensures DueCount(rs, now) > 0
  {
    hide Due;
    if j > 0 {
      SomebodyIsDue(rs[1..], now, j - 1);
    }
  }

  // ----- getting there

  /** The recipient waits in a company without calls. */
  predicate Waits(s: Company, ci: nat, ri: nat) {
    && InTable(s, ci, ri) && CompanyActive(s.campaigns) == 0
    && RecipientAt(s, ci, ri).status.Pending? && RecipientAt(s, ci, ri).zone != Some(Unknown)
  }

  /** A campaign as an operator can set it up: started, paused, edited and resumed. */
  function SetUp(c: Campaign, terms: Terms): Campaign {
    c.(status := Running, scheduledAt := Some(0), terms := terms)
  }

  function SetUpSteps(ci: nat, terms: Terms): seq<Step> {
    [Start(ci, 0, true, true), SetStatus(ci, Paused, true), Update(ci, terms), SetStatus(ci, Running, true)]
  }

  /** The operator's steps change the campaign's status and terms and nothing else. */
  lemma SettingUp(s: Company, cap: int, ci: nat, ri: nat, terms: Terms)
    requires InTable(s, ci, ri) && !RecipientAt(s, ci, ri).status.DoNotCall?
    ensures var c := s.campaigns[ci];
            Apply(Apply(Apply(Apply(s, Start(ci, 0, true, true), cap), SetStatus(ci, Paused, true), cap),
                        Update(ci, terms), cap), SetStatus(ci, Running, true), cap)
            == s.(campaigns := s.campaigns[ci := SetUp(c, terms)])
  {
    var c := s.campaigns[ci];
    assert IsReady(c, true);
    var s1 := Apply(s, Start(ci, 0, true, true), cap);
    assert s1 == s.(campaigns := s.campaigns[ci := c.(status := Running, scheduledAt := Some(0))]);
    var s2 := Apply(s1, SetStatus(ci, Paused, true), cap);
    assert s2 == s.(campaigns := s.campaigns[ci := c.(status := Paused, scheduledAt := Some(0))]);
    var s3 := Apply(s2, Update(ci, terms), cap);
    assert s3 == s.(campaigns := s.campaigns[ci := c.(status := Paused, scheduledAt := Some(0), terms := terms)]);
  }

  lemma PrependSetUp(s: Company, cap: int, ci: nat, ri: nat, terms: Terms, rest: seq<Step>, most: int) returns (steps: seq<Step>)
    requires InTable(s, ci, ri) && !RecipientAt(s, ci, ri).status.DoNotCall? && InSchema(terms, most)
    requires Reaches(s.(campaigns := s.campaigns[ci := SetUp(s.campaigns[ci], terms)]), rest, cap, ci, ri, most)
    ensures Reaches(s, steps, cap, ci, ri, most)
  {
    hide Apply, Reaches, InSchema;
    SettingUp(s, cap, ci, ri, terms);
    var s1 := Apply(s, Start(ci, 0, true, true), cap);
    var s2 := Apply(s1, SetStatus(ci, Paused, true), cap);
    var s3 := Apply(s2, Update(ci, terms), cap);
    Prepend(s3, SetStatus(ci, Running, true), rest, cap, ci, ri, most);
    Prepend(s2, Update(ci, terms), [SetStatus(ci, Running, true)] + rest, cap, ci, ri, most);
    Prepend(s1, SetStatus(ci, Paused, true), [Update(ci, terms)] + ([SetStatus(ci, Running, true)] + rest), cap, ci, ri, most);
    steps := [SetStatus(ci, Paused, true)] + ([Update(ci, terms)] + ([SetStatus(ci, Running, true)] + rest));
    Prepend(s, Start(ci, 0, true, true), steps, cap, ci, ri, most);
    steps := [Start(ci, 0, true, true)] + steps;
  }

  /** A moment at the start of a local day, after any given time. */
  function Midnight(offset: int, after: int): int {
    DAY * (Max(after, 0) + Max(offset, 0)) - offset
  }

  lemma MidnightIsOpen(offset: int, after: int)
    ensures Midnight(offset, after) >= after && TimeOfDay(offset, Midnight(offset, after)) == 0
  {
    var m := Max(after, 0) + Max(offset, 0);
    assert (DAY * m) % DAY == 0;
  }

  lemma WaitingIsReached(s: Company, cap: int, ci: nat, ri: nat, most: int) returns (steps: seq<Step>)
    requires Waits(s, ci, ri) && cap > 0 && most >= 1
    ensures Reaches(s, steps, cap, ci, ri, most)
  {
    hide Active, CompanyActive, Reaches;
    var c, r := s.campaigns[ci], RecipientAt(s, ci, ri);
    var terms := OpenTerms(1, 1);
    var t := s.(campaigns := s.campaigns[ci := SetUp(c, terms)]);
    var offset := r.zone.GetOr(Fixed(0)).offset;
    var now := Midnight(offset, r.nextAttemptAt.GetOr(0));
    MidnightIsOpen(offset, r.nextAttemptAt.GetOr(0));
    CompanyUpdate(s.campaigns, ci, SetUp(c, terms));
    CampaignRuns.CampaignCount(s.campaigns, ci);
    var rest := CallableIsReached(t, cap, ci, ri, now, most);
    steps := PrependSetUp(s, cap, ci, ri, terms, rest, most);
  }

  /** A report for an attempt of the recipient. */
  function Report(ci: nat, ri: nat, status: RecipientStatus): Step {
    Event(ci, ri, 0, status, 0)
  }

  /** What a report leaves of the company: one recipient, and possibly its campaign's status, changes. */
  lemma Reporting(s: Company, cap: int, ci: nat, ri: nat, status: RecipientStatus)
    requires InTable(s, ci, ri) && RecipientAt(s, ci, ri).attempts != []
    ensures var t, c := Apply(s, Report(ci, ri, status), cap), s.campaigns[ci];
            && InTable(t, ci, ri) && |t.campaigns| == |s.campaigns|
            && (forall i :: 0 <= i < |s.campaigns| && i != ci ==> t.campaigns[i] == s.campaigns[i])
            && t.campaigns[ci].terms == c.terms && |t.campaigns[ci].recipients| == |c.recipients|
            && (forall j :: 0 <= j < |c.recipients| && j != ri ==> t.campaigns[ci].recipients[j] == c.recipients[j])
            && var after := RecipientAt(t, ci, ri);
               && after.zone == RecipientAt(s, ci, ri).zone && after.attemptsCount == RecipientAt(s, ci, ri).attemptsCount
               && |after.attempts| == |RecipientAt(s, ci, ri).attempts|
               && (status.Answered? ==> after.status.Answered?)
               && (status.Completed? ==> after.status.Completed?)
               && (status.Busy? && RecipientAt(s, ci, ri).attemptsCount < c.terms.maxAttempts && c.status.Running? ==>
                     after.status.Pending?)
               && CompanyActive(t.campaigns) == CompanyActive(s.campaigns)
                    - One(IsActive(RecipientAt(s, ci, ri).status)) + One(IsActive(after.status))
  {
    hide AnyOpen, CallAfter, Active, CompanyActive;
    var t := Apply(s, Report(ci, ri, status), cap);
    ActiveUpdate(s.campaigns[ci].recipients, ri, RecipientAt(t, ci, ri));
    CompanyUpdate(s.campaigns, ci, t.campaigns[ci]);
  }

  /** A recipient with an attempt and a retry to come is brought back by late reports: an answer, and then a busy line. */
  lemma TriedIsReached(s: Company, cap: int, ci: nat, ri: nat, most: int) returns (steps: seq<Step>)
    requires InTable(s, ci, ri) && CompanyActive(s.campaigns) == 0 && cap > 0
    requires RecipientAt(s, ci, ri).attempts != [] && RecipientAt(s, ci, ri).zone != Some(Unknown)
    requires 0 <= RecipientAt(s, ci, ri).attemptsCount < most
    ensures Reaches(s, steps, cap, ci, ri, most)
  {
    hide Apply, CompanyActive, Active, Reaches;
    CampaignRuns.CampaignCount(s.campaigns, ci);
    var answered := Apply(s, Report(ci, ri, Answered), cap);
    Reporting(s, cap, ci, ri, Answered);
    var terms := OpenTerms(1, RecipientAt(s, ci, ri).attemptsCount + 1);
    var c := answered.campaigns[ci];
    var ready := answered.(campaigns := answered.campaigns[ci := SetUp(c, terms)]);
    CompanyUpdate(answered.campaigns, ci, SetUp(c, terms));
    var busy := Apply(ready, Report(ci, ri, Busy), cap);
    Reporting(ready, cap, ci, ri, Busy);
    NobodyIsActive(s.campaigns, ci, ri);
    var rest := WaitingIsReached(busy, cap, ci, ri, most);
    Prepend(ready, Report(ci, ri, Busy), rest, cap, ci, ri, most);
    var more := PrependSetUp(answered, cap, ci, ri, terms, [Report(ci, ri, Busy)] + rest, most);
    Prepend(s, Report(ci, ri, Answered), more, cap, ci, ri, most);
    return [Report(ci, ri, Answered)] + more;
  }

  lemma {:induction false} NobodyIsActive(cs: seq<Campaign>, i: nat, j: nat)
    requires CompanyActive(cs) == 0 && i < |cs| && j < |cs[i].recipients|
    ensures !IsActive(cs[i].recipients[j].status)
  {
    hide IsActive;
    CampaignRuns.CampaignCount(cs, i);
    NoRecipientIsActive(cs[i].recipients, j);
  }

  lemma {:induction false} NoRecipientIsActive(rs: seq<Recipient>, j: nat)
    requires Active(rs) == 0 && j < |rs|
    ensures !IsActive(rs[j].status)
  {
    hide IsActive;
    if j > 0 {
      NoRecipientIsActive(rs[1..], j - 1);
    }
  }

  // ----- room for a call

  /** Every call in progress has its attempt row. */
  ghost predicate HasRows(c: Campaign) {
    forall j :: 0 <= j < |c.recipients| && IsActive(c.recipients[j].status) ==> c.recipients[j].attempts != []
  }

  ghost predicate CallsHaveRows(s: Company) {
    forall i :: 0 <= i < |s.campaigns| ==> HasRows(s.campaigns[i])
  }

  lemma {:induction false} SomebodyIsActive(rs: seq<Recipient>) returns (j: nat)
    requires Active(rs) > 0
    ensures j < |rs| && IsActive(rs[j].status)
  {
    if IsActive(rs[0].status) {
      return 0;
    }
    var k := SomebodyIsActive(rs[1..]);
    return k + 1;
  }

  lemma {:induction false} SomeCampaignIsActive(cs: seq<Campaign>) returns (i: nat, j: nat)
    requires CompanyActive(cs) > 0
    ensures i < |cs| && j < |cs[i].recipients| && IsActive(cs[i].recipients[j].status)
  {
    if Active(cs[0].recipients) > 0 {
      j := SomebodyIsActive(cs[0].recipients);
      return 0, j;
    }
    i, j := SomeCampaignIsActive(cs[1..]);
    return i + 1, j;
  }

  /** Reports of completed calls end every call in progress; then this recipient can be called. */
  lemma {:induction false} NotSilentIsReached(s: Company, cap: int, ci: nat, ri: nat, most: int) returns (steps: seq<Step>)
    requires InTable(s, ci, ri) && cap > 0 && most >= 1 && CallsHaveRows(s)
    requires RecipientAt(s, ci, ri).attemptsCount >= 0 && !Silent(RecipientAt(s, ci, ri), most)
    ensures Reaches(s, steps, cap, ci, ri, most)
    decreases CompanyActive(s.campaigns)
  {
    hide CompanyActive, Active, Reaches, Apply;
    if CompanyActive(s.campaigns) == 0 {
      if RecipientAt(s, ci, ri).status.Pending? {
        steps := WaitingIsReached(s, cap, ci, ri, most);
      } else {
        steps := TriedIsReached(s, cap, ci, ri, most);
      }
      return;
    }
    var i, j := SomeCampaignIsActive(s.campaigns);
    var t := Apply(s, Report(i, j, RecipientStatus.Completed), cap);
    assert HasRows(s.campaigns[i]) && RecipientAt(s, i, j).attempts != [];
    Reporting(s, cap, i, j, RecipientStatus.Completed);
    assert i != ci || j != ri ==> RecipientAt(t, ci, ri) == RecipientAt(s, ci, ri);
    var rest := NotSilentIsReached(t, cap, ci, ri, most);
    Prepend(s, Report(i, j, RecipientStatus.Completed), rest, cap, ci, ri, most);
    return [Report(i, j, RecipientStatus.Completed)] + rest;
  }

  /** No future run that keeps the recipient's list, of requests the schema accepts, calls it. */
  ghost predicate IsNeverCalled(s: Company, cap: int, ci: nat, ri: nat, most: int) {
    forall steps: seq<Step> :: KeepsList(steps, ci) && AllFitSchema(steps, most) ==> CallsIn(s, steps, cap, ci, ri) == 0
  }

  /**
    A recipient, listed or not, is never called again exactly when its zone is unknown, or it does not wait and has either
    never been called or used as many attempts as any request can allow.
   */
  lemma NeverCalledExactlyWhenSilent(s: Company, cap: int, ci: nat, ri: nat, most: int)
    requires InTable(s, ci, ri) && cap > 0 && most >= 1 && CallsHaveRows(s)
    requires s.campaigns[ci].terms.maxAttempts <= most && RecipientAt(s, ci, ri).attemptsCount >= 0
    ensures IsNeverCalled(s, cap, ci, ri, most) <==> Silent(RecipientAt(s, ci, ri), most)
  {
    hide CallsIn, KeepsList, Silent;
    if Silent(RecipientAt(s, ci, ri), most) {
      forall steps: seq<Step> | KeepsList(steps, ci) && AllFitSchema(steps, most)
        ensures CallsIn(s, steps, cap, ci, ri) == 0
      {
        SilentIsNeverCalled(s, steps, cap, ci, ri, most);
      }
    } else {
      var steps := NotSilentIsReached(s, cap, ci, ri, most);
      assert KeepsList(steps, ci) && AllFitSchema(steps, most) && CallsIn(s, steps, cap, ci, ri) > 0;
    }
  }

  lemma CampaignKeepsRows(s: Company, step: Step, cap: int)
    requires Targets(s, step) && HasRows(s.campaigns[step.ci])
    ensures HasRows(CampaignAfter(s, step, cap))
  {
    hide DispatchWith, CallAfter, IsReady, AnyOpen, NextOpening, Callable, Due;
    var c, d := s.campaigns[step.ci], CampaignAfter(s, step, cap);
    match step
    case Dispatch(_, now, entitled, connected, outcomes) =>
      DispatchKeepsLength(c, CompanyActive(s.campaigns), cap, now, entitled, connected, outcomes);
      forall j: nat | j < |d.recipients| && IsActive(d.recipients[j].status)
        ensures d.recipients[j].attempts != []
      {
        DispatchAt(c, CompanyActive(s.campaigns), cap, now, entitled, connected, outcomes, j);
      }
    case ImportContacts(_, added, replace) =>
      assert forall j :: 0 <= j < |added| ==> added[j] in added;
    case _ =>
  }

  lemma StepKeepsRows(s: Company, step: Step, cap: int)
    requires CallsHaveRows(s)
    ensures CallsHaveRows(Apply(s, step, cap))
  {
    hide HasRows, CampaignAfter;
    if step.Create? {
      NewHasRows(step.terms, step.first, cap);
    } else if step.ActivateDue? {
      forall i | 0 <= i < |s.campaigns|
        ensures HasRows(Activate(s.campaigns, step.now)[i])
      {
        StatusKeepsRows(s.campaigns[i], Activate(s.campaigns, step.now)[i]);
      }
    } else if Targets(s, step) {
      CampaignKeepsRows(s, step, cap);
    }
  }

  lemma NewHasRows(terms: Terms, first: Option<Recipient>, cap: int)
    ensures HasRows(NewCampaign(terms, first, cap))
  {
  }

  lemma StatusKeepsRows(c: Campaign, d: Campaign)
    requires HasRows(c) && d.recipients == c.recipients
    ensures HasRows(d)
  {
  }

  /** In every state a company reaches, every call in progress has its attempt row. */
  lemma {:induction false} CallsHaveRowsOverRuns(s: Company, steps: seq<Step>, cap: int)
    requires CallsHaveRows(s)
    ensures CallsHaveRows(Run(s, steps, cap))
    decreases steps
  {
    hide Apply, CallsHaveRows;
    if steps != [] {
      StepKeepsRows(s, steps[0], cap);
      CallsHaveRowsOverRuns(Apply(s, steps[0], cap), steps[1..], cap);
    }
  }
}
