/** What holds in every reachable state of a company's campaigns. */
module CampaignRuns {
  import opened Wrappers
  import opened Campaigns
  import opened DispatchLaws

  // ----- attempts are numbered without gaps, and bounded

  /** A recipient's attempt rows carry the numbers 1, 2, ..., attemptsCount; while it waits it has a call left. */
  ghost predicate Numbered(r: Recipient, most: int) {
    && |r.attempts| == r.attemptsCount <= most
    && (forall k :: 0 <= k < |r.attempts| ==> r.attempts[k].number == k + 1)
    && (r.status.Pending? ==> r.attemptsCount < most)
  }

  ghost predicate NumberedCampaign(c: Campaign, most: int) {
    && c.terms.maxAttempts <= most
    && forall j :: 0 <= j < |c.recipients| ==> Numbered(c.recipients[j], most)
  }

  ghost predicate NumberedCompany(s: Company, most: int) {
    forall i :: 0 <= i < |s.campaigns| ==> NumberedCampaign(s.campaigns[i], most)
  }

  /** The step sets no attempt limit above `most`. */
  predicate LimitsAttempts(step: Step, most: int) {
    && (step.Create? ==> step.terms.maxAttempts <= most)
    && (step.Update? ==> step.newTerms.maxAttempts <= most)
  }

  lemma DispatchKeepsNumbers(
      c: Campaign, companyActive: nat, cap: int, now: int, entitled: bool, connected: bool, outcomes: seq<Outcome>, most: int)
    requires NumberedCampaign(c, most)
    ensures NumberedCampaign(DispatchCampaign(c, companyActive, cap, now, entitled, connected, outcomes), most)
  {
    hide DispatchCampaign, Callable, Due;
    var d := DispatchCampaign(c, companyActive, cap, now, entitled, connected, outcomes);
    DispatchKeepsLength(c, companyActive, cap, now, entitled, connected, outcomes);
    forall j | 0 <= j < |d.recipients|
      ensures Numbered(d.recipients[j], most)
    {
      DispatchAt(c, companyActive, cap, now, entitled, connected, outcomes, j);
      DispatchedIsNumbered(c.terms, c.recipients[j], d.recipients[j], now, outcomes, most);
    }
  }

  lemma DispatchedIsNumbered(terms: Terms, r: Recipient, d: Recipient, now: int, outcomes: seq<Outcome>, most: int)
    requires Numbered(r, most) && terms.maxAttempts <= most && DispatchedFrom(terms, r, d, now, outcomes)
    ensures Numbered(d, most)
  {
    hide Callable, NextOpening;
    if d != r && d != PutOff(terms, r, now) {
      assert Numbered(Enqueue(r), most);
    }
  }

  lemma EventKeepsNumbers(c: Campaign, ri: nat, ai: nat, s: RecipientStatus, at: int, most: int)
    requires NumberedCampaign(c, most) && ri < |c.recipients| && ai < |c.recipients[ri].attempts|
    ensures NumberedCampaign(EventCampaign(c, ri, ai, s, at), most)
  {
    hide AnyOpen, CallAfter;
  }

  lemma ApplyKeepsNumbers(s: Company, step: Step, cap: int, most: int)
    requires NumberedCompany(s, most) && most >= 1 && LimitsAttempts(step, most)
    ensures NumberedCompany(Apply(s, step, cap), most)
  {
    hide DispatchCampaign, EventCampaign, NumberedCampaign;
    if step.Create? {
      NewIsNumbered(step.terms, step.first, cap, most);
    } else if step.ActivateDue? {
      forall i | 0 <= i < |s.campaigns|
        ensures NumberedCampaign(Activate(s.campaigns, step.now)[i], most)
      {
        StatusKeepsNumbers(s.campaigns[i], Activate(s.campaigns, step.now)[i], most);
      }
    } else if Targets(s, step) {
      CampaignKeepsNumbers(s, step, cap, most);
    }
  }

  lemma NewIsNumbered(terms: Terms, first: Option<Recipient>, cap: int, most: int)
    requires most >= 1 && terms.maxAttempts <= most
    ensures NumberedCampaign(NewCampaign(terms, first, cap), most)
  {
  }

  lemma StatusKeepsNumbers(c: Campaign, d: Campaign, most: int)
    requires NumberedCampaign(c, most) && d.terms == c.terms && d.recipients == c.recipients
    ensures NumberedCampaign(d, most)
  {
  }

  lemma CampaignKeepsNumbers(s: Company, step: Step, cap: int, most: int)
    requires Targets(s, step) && NumberedCampaign(s.campaigns[step.ci], most) && most >= 1 && LimitsAttempts(step, most)
    ensures NumberedCampaign(CampaignAfter(s, step, cap), most)
  {
    hide DispatchCampaign, EventCampaign, Numbered, IsReady, CancelWaiting;
    var c := s.campaigns[step.ci];
    match step
    case Dispatch(_, now, entitled, connected, outcomes) =>
      DispatchKeepsNumbers(c, CompanyActive(s.campaigns), cap, now, entitled, connected, outcomes, most);
    case Event(_, ri, ai, status, at) => EventKeepsNumbers(c, ri, ai, status, at, most);
    case ImportContacts(_, added, replace) => ImportKeepsNumbers(c, added, replace, most);
    case SetStatus(_, to, _) =>
      if to.Cancelled? {
        CancelKeepsNumbers(c, most);
      }
    case _ =>
  }

  lemma ImportKeepsNumbers(c: Campaign, added: seq<Recipient>, replace: bool, most: int)
    requires NumberedCampaign(c, most) && most >= 1
    ensures (forall r :: r in added ==> IsNewcomer(r)) ==> NumberedCampaign(Import(c, added, replace), most)
  {
    if (forall r :: r in added ==> IsNewcomer(r)) && (c.status.Draft? || c.status.Ready?) {
      var kept := if replace then [] else c.recipients;
      forall j | 0 <= j < |kept + added|
        ensures Numbered((kept + added)[j], most)
      {
        if j >= |kept| {
          assert added[j - |kept|] in added;
        }
      }
    }
  }

  lemma CancelKeepsNumbers(c: Campaign, most: int)
    requires NumberedCampaign(c, most)
    ensures forall d: Campaign :: d.terms == c.terms && d.recipients == CancelWaiting(c.recipients) ==> NumberedCampaign(d, most)
  {
    forall j | 0 <= j < |c.recipients|
      ensures Numbered(CancelWaiting(c.recipients)[j], most)
    {
      assert Numbered(c.recipients[j], most);
    }
  }

  /** The attempt rows of a campaign. */
  function Rows(rs: seq<Recipient>): nat {
    if rs == [] then 0 else |rs[0].attempts| + Rows(rs[1..])
  }

  lemma {:induction false} RowsAreBounded(rs: seq<Recipient>, most: nat)
    requires forall j :: 0 <= j < |rs| ==> Numbered(rs[j], most)
    ensures Rows(rs) <= |rs| * most
  {
    if rs != [] {
      RowsAreBounded(rs[1..], most);
    }
  }

  /** Under any order of events: attempt numbers have no gaps, and rows never exceed recipients times the limit. */
  lemma {:induction false} AttemptsAreNumberedAndBounded(s: Company, steps: seq<Step>, cap: int, most: nat)
    requires NumberedCompany(s, most) && most >= 1
    requires forall k :: 0 <= k < |steps| ==> LimitsAttempts(steps[k], most)
    ensures NumberedCompany(Run(s, steps, cap), most)
    ensures forall c :: c in Run(s, steps, cap).campaigns ==> Rows(c.recipients) <= |c.recipients| * most
    decreases steps
  {
    if steps == [] {
      forall c | c in s.campaigns
        ensures Rows(c.recipients) <= |c.recipients| * most
      {
        RowsAreBounded(c.recipients, most);
      }
    } else {
      ApplyKeepsNumbers(s, steps[0], cap, most);
      AttemptsAreNumberedAndBounded(Apply(s, steps[0], cap), steps[1..], cap, most);
    }
  }

  // ----- concurrency caps over whole runs

  ghost predicate WithinCaps(s: Company, cap: int) {
    && (forall i :: 0 <= i < |s.campaigns| ==> Active(s.campaigns[i].recipients) <= s.campaigns[i].terms.maxConcurrency)
    && CompanyActive(s.campaigns) <= cap
  }

  /** An answer for a recipient without a call in progress, while the campaign or the company has all the calls it may have. */
  predicate Overfills(s: Company, step: Step, cap: int) {
    step.Event? && Targets(s, step) && step.status.Answered?
    && var c := s.campaigns[step.ci];
       && !IsActive(c.recipients[step.ri].status)
       && (Active(c.recipients) >= c.terms.maxConcurrency || CompanyActive(s.campaigns) >= cap)
  }

  /** An edit that is accepted below the number of calls in progress, or a new campaign with a negative limit. */
  predicate Squeezes(s: Company, step: Step) {
    || (step.Update? && Targets(s, step)
        && var c := s.campaigns[step.ci];
           && (c.status.Draft? || c.status.Ready? || c.status.Paused?)
           && step.newTerms.maxConcurrency < Active(c.recipients))
    || (step.Create? && step.terms.maxConcurrency < 0)
  }

  lemma {:induction false} CampaignCount(cs: seq<Campaign>, i: nat)
    requires i < |cs|
    ensures Active(cs[i].recipients) <= CompanyActive(cs)
  {
    if i > 0 {
      CampaignCount(cs[1..], i - 1);
    }
  }

  lemma {:induction false} CompanyAppend(cs: seq<Campaign>, c: Campaign)
    ensures CompanyActive(cs + [c]) == CompanyActive(cs) + Active(c.recipients)
  {
    if cs == [] {
      assert [c][1..] == [];
    } else {
      CompanyAppend(cs[1..], c);
      assert (cs + [c])[1..] == cs[1..] + [c];
    }
  }

  lemma {:induction false} ActivateKeepsCounts(cs: seq<Campaign>, now: int)
    ensures CompanyActive(Activate(cs, now)) == CompanyActive(cs)
  {
    if cs != [] {
      ActivateKeepsCounts(cs[1..], now);
    }
  }

  lemma {:induction false} CancellingStopsCalls(rs: seq<Recipient>)
    ensures Active(CancelWaiting(rs)) <= Active(rs)
  {
    if rs != [] {
      CancellingStopsCalls(rs[1..]);
    }
  }

  lemma {:induction false} NewcomersAreIdle(rs: seq<Recipient>, added: seq<Recipient>)
    requires forall r :: r in added ==> IsNewcomer(r)
    ensures Active(rs + added) == Active(rs)
  {
    if rs != [] {
      NewcomersAreIdle(rs[1..], added);
      assert (rs + added)[1..] == rs[1..] + added;
    } else if added != [] {
      NewcomersAreIdle([], added[1..]);
      assert rs + added == added && [] + added[1..] == added[1..];
      assert IsNewcomer(added[0]);
    }
  }

  /** An event raises the number of calls in progress exactly when it revives a recipient, and then by one. */
  lemma EventRaisesActiveExactly(c: Campaign, ri: nat, ai: nat, s: RecipientStatus, at: int)
    requires ri < |c.recipients| && ai < |c.recipients[ri].attempts|
    ensures var n := Active(EventCampaign(c, ri, ai, s, at).recipients);
            && n <= Active(c.recipients) + 1
            && (n > Active(c.recipients) <==> s.Answered? && !IsActive(c.recipients[ri].status))
  {
    hide AnyOpen, CallAfter;
    ActiveUpdate(c.recipients, ri, EventCampaign(c, ri, ai, s, at).recipients[ri]);
  }

  /** A step on one campaign, seen from the caps. */
  lemma CampaignKeepsCaps(s: Company, step: Step, cap: int)
    requires Targets(s, step) && WithinCaps(s, cap)
    ensures var c, d := s.campaigns[step.ci], CampaignAfter(s, step, cap);
            && Active(d.recipients) <= d.terms.maxConcurrency
            && CompanyActive(s.campaigns) - Active(c.recipients) + Active(d.recipients) <= cap
            <==> !Overfills(s, step, cap) && !Squeezes(s, step)
  {
    hide DispatchCampaign, EventCampaign, Active, CompanyActive, IsReady, CancelWaiting;
    var c := s.campaigns[step.ci];
    CampaignCount(s.campaigns, step.ci);
    match step
    case Dispatch(_, now, entitled, connected, outcomes) =>
      DispatchKeepsCaps(c, CompanyActive(s.campaigns), cap, now, entitled, connected, outcomes);
      DispatchKeepsLength(c, CompanyActive(s.campaigns), cap, now, entitled, connected, outcomes);
    case Event(_, ri, ai, status, at) =>
      EventRaisesActiveExactly(c, ri, ai, status, at);
      EventKeepsTerms(c, ri, ai, status, at);
    case ImportContacts(_, added, replace) =>
      if forall r :: r in added ==> IsNewcomer(r) {
        NewcomersAreIdle(c.recipients, added);
        NewcomersAreIdle([], added);
        NoneIsIdle();
      }
    case SetStatus(_, _, _) => CancellingStopsCalls(c.recipients);
    case _ =>
  }

  lemma NoneIsIdle()
    ensures Active([]) == 0
  {
  }

  lemma EventKeepsTerms(c: Campaign, ri: nat, ai: nat, s: RecipientStatus, at: int)
    requires ri < |c.recipients| && ai < |c.recipients[ri].attempts|
    ensures EventCampaign(c, ri, ai, s, at).terms == c.terms
    ensures |EventCampaign(c, ri, ai, s, at).recipients| == |c.recipients|
  {
  }

  /** From a state within both caps, a step keeps them exactly when it neither overfills nor squeezes. */
  lemma ApplyKeepsCaps(s: Company, step: Step, cap: int)
    requires WithinCaps(s, cap)
    ensures WithinCaps(Apply(s, step, cap), cap) <==> !Overfills(s, step, cap) && !Squeezes(s, step)
  {
    hide CampaignAfter, Active, CompanyActive;
    var t := Apply(s, step, cap);
    if step.Create? {
      CompanyAppend(s.campaigns, NewCampaign(step.terms, step.first, cap));
      NewIsIdle(step.terms, step.first, cap);
      var n := |s.campaigns|;
      assert t.campaigns[n] == NewCampaign(step.terms, step.first, cap);
      assert forall i :: 0 <= i < n ==> t.campaigns[i] == s.campaigns[i];
    } else if step.ActivateDue? {
      ActivateKeepsCounts(s.campaigns, step.now);
    } else if Targets(s, step) {
      CampaignKeepsCaps(s, step, cap);
      CompanyUpdate(s.campaigns, step.ci, CampaignAfter(s, step, cap));
      assert t.campaigns[step.ci] == CampaignAfter(s, step, cap);
    }
  }

  lemma NewIsIdle(terms: Terms, first: Option<Recipient>, cap: int)
    ensures var c := NewCampaign(terms, first, cap);
            Active(c.recipients) == 0 && c.terms.maxConcurrency == Min(terms.maxConcurrency, cap)
  {
    if first.Some? {
      assert Active([first.value][1..]) == 0;
    }
  }

  /** No step of the run overfills or squeezes. */
  ghost predicate Orderly(s: Company, steps: seq<Step>, cap: int)
    decreases steps
  {
    steps == [] || (!Overfills(s, steps[0], cap) && !Squeezes(s, steps[0]) && Orderly(Apply(s, steps[0], cap), steps[1..], cap))
  }

  /** Both caps hold in every state a run passes through exactly when the run is orderly. */
  lemma {:induction false} CapsHoldOverRuns(s: Company, steps: seq<Step>, cap: int)
    requires WithinCaps(s, cap)
    ensures (forall n :: 0 <= n <= |steps| ==> WithinCaps(Run(s, steps[..n], cap), cap)) <==> Orderly(s, steps, cap)
    decreases steps
  {
    hide Apply, WithinCaps, Overfills, Squeezes;
    if steps == [] {
      assert forall n :: 0 <= n <= |steps| ==> steps[..n] == [];
    } else {
      var next, rest := Apply(s, steps[0], cap), steps[1..];
      ApplyKeepsCaps(s, steps[0], cap);
      RunFrom(s, steps, cap);
      if WithinCaps(next, cap) {
        CapsHoldOverRuns(next, rest, cap);
        if forall n :: 0 <= n <= |steps| ==> WithinCaps(Run(s, steps[..n], cap), cap) {
          forall n | 0 <= n <= |rest|
            ensures WithinCaps(Run(next, rest[..n], cap), cap)
          {
            assert Run(s, steps[..n + 1], cap) == Run(next, rest[..n], cap);
          }
        }
      } else {
        assert Run(s, steps[..1], cap) == Run(next, rest[..0], cap) == next;
      }
    }
  }

  /** The states of a run are its first one and those of the rest. */
  lemma RunFrom(s: Company, steps: seq<Step>, cap: int)
    requires steps != []
    ensures Run(s, steps[..0], cap) == s
    ensures forall n :: 0 < n <= |steps| ==>
              Run(s, steps[..n], cap) == Run(Apply(s, steps[0], cap), steps[1..][..n - 1], cap)
  {
    hide Apply;
    forall n | 0 < n <= |steps|
      ensures Run(s, steps[..n], cap) == Run(Apply(s, steps[0], cap), steps[1..][..n - 1], cap)
    {
      assert steps[..n][1..] == steps[1..][..n - 1];
    }
  }

  // ----- cancelling

  /** Cancelled, with nobody waiting for a call. */
  predicate Stopped(c: Campaign) {
    && c.status.Cancelled?
    && forall j :: 0 <= j < |c.recipients| ==> !c.recipients[j].status.Pending? && !c.recipients[j].status.Queued?
  }

  /** `d` has the recipients and the attempt rows of `c`, whatever their statuses. */
  predicate SameRows(c: Campaign, d: Campaign) {
    && |d.recipients| == |c.recipients|
    && forall j :: 0 <= j < |c.recipients| ==> |d.recipients[j].attempts| == |c.recipients[j].attempts|
  }

  predicate Launches(step: Step, ci: nat) {
    (step.Start? || step.Schedule?) && step.ci == ci
  }

  lemma CancellingStops(c: Campaign, entitled: bool)
    ensures CanMove(c.status, CampaignStatus.Cancelled) ==>
              var d := MoveCampaign(c, CampaignStatus.Cancelled, entitled);
              Stopped(d) && SameRows(c, d)
    ensures !CanMove(c.status, CampaignStatus.Cancelled) ==> MoveCampaign(c, CampaignStatus.Cancelled, entitled) == c
  {
  }

  lemma StepKeepsStopped(s: Company, step: Step, cap: int, ci: nat)
    requires ci < |s.campaigns| && Stopped(s.campaigns[ci]) && !Launches(step, ci)
    ensures var t := Apply(s, step, cap);
            ci < |t.campaigns| && Stopped(t.campaigns[ci]) && SameRows(s.campaigns[ci], t.campaigns[ci])
  {
    hide CallAfter, AnyOpen, IsReady;
    if Targets(s, step) && step.ci == ci {
      var c := s.campaigns[ci];
      assert CampaignAfter(s, step, cap) == c || step.Event?;
    }
  }

  /** After a cancellation nobody is called or queued again until the campaign is started or scheduled anew. */
  lemma {:induction false} CancelIsSafe(s: Company, steps: seq<Step>, cap: int, ci: nat)
    requires ci < |s.campaigns| && Stopped(s.campaigns[ci])
    requires forall k :: 0 <= k < |steps| ==> !Launches(steps[k], ci)
    ensures var t := Run(s, steps, cap);
            ci < |t.campaigns| && Stopped(t.campaigns[ci]) && SameRows(s.campaigns[ci], t.campaigns[ci])
    decreases steps
  {
    hide Apply, Stopped;
    if steps != [] {
      StepKeepsStopped(s, steps[0], cap, ci);
      CancelIsSafe(Apply(s, steps[0], cap), steps[1..], cap, ci);
    }
  }

  /** A cancelled campaign is brought back exactly by a start or schedule that finds it entitled and ready. */
  lemma LeavesCancelledExactlyWhenLaunched(s: Company, step: Step, cap: int, ci: nat)
    requires ci < |s.campaigns| && s.campaigns[ci].status.Cancelled?
    ensures var t := Apply(s, step, cap);
            ci < |t.campaigns|
            && (!t.campaigns[ci].status.Cancelled?
                <==> Launches(step, ci) && step.entitled && IsReady(s.campaigns[ci], step.audioReady))
  {
    hide CallAfter, AnyOpen, IsReady;
    if Targets(s, step) && step.ci == ci {
      assert CampaignAfter(s, step, cap).status == s.campaigns[ci].status || Launches(step, ci);
    }
  }

  /** A company with one campaign of one recipient, open all day, with two attempts allowed. */
  function Single(status: CampaignStatus, scheduledAt: Option<int>, r: Recipient): Company {
    Company([Campaign(status, Terms(Fixed(0), 0, DAY - 1, 1, 2, MINUTE), scheduledAt, [r])], {})
  }

  /**
    A recipient waiting for its second attempt is cancelled with its campaign; the campaign is started again, the first attempt
    is reported busy late, and the recipient is called again.
   */
  lemma CancelledRecipientIsCalledAgain(r: Recipient)
    requires r.zone.None? && r.status.Pending? && r.attemptsCount == 1 && |r.attempts| == 1
    ensures var cancelled := Apply(Single(Running, None, r), SetStatus(0, CampaignStatus.Cancelled, true), 1);
            var started := Apply(cancelled, Start(0, 0, true, true), 1);
            var reported := Apply(started, Event(0, 0, 0, Busy, 0), 1);
            var dispatched := Apply(reported, Step.Dispatch(0, MINUTE, true, true, []), 1);
            && cancelled == Single(CampaignStatus.Cancelled, None, r.(status := RecipientStatus.Cancelled))
            && |dispatched.campaigns| == 1 && |dispatched.campaigns[0].recipients| == 1
            && dispatched.campaigns[0].recipients[0].status.Queued?
            && |dispatched.campaigns[0].recipients[0].attempts| == 2
  {
    var gone := r.(status := RecipientStatus.Cancelled);
    var first := r.attempts[0].(status := Busy, call := CallAfter(r.attempts[0].call, Busy));
    var back := gone.(status := Pending, nextAttemptAt := Some(MINUTE), attempts := [first]);
    assert r.attempts[0 := first] == [first];
    var cancelled := Apply(Single(Running, None, r), SetStatus(0, CampaignStatus.Cancelled, true), 1);
    assert CancelWaiting([r]) == [gone];
    assert cancelled == Single(CampaignStatus.Cancelled, None, gone);
    var started := Apply(cancelled, Start(0, 0, true, true), 1);
    assert IsReady(cancelled.campaigns[0], true) by {
      assert !cancelled.campaigns[0].recipients[0].status.DoNotCall?;
    }
    assert started == Single(Running, Some(0), gone);
    var reported := Apply(started, Event(0, 0, 0, Busy, 0), 1);
    assert AnyOpen([back]) by {
      assert IsOpen([back][0].status);
    }
    assert started.campaigns[0].recipients[0 := back] == [back];
    assert reported == Single(Running, Some(0), back);
    LoneRecipientIsCalled(reported.campaigns[0], back, MINUTE);
  }

  lemma LoneRecipientIsCalled(c: Campaign, r: Recipient, now: int)
    requires c.status.Running? && c.recipients == [r] && Due(r, now) && Callable(c.terms, r, now) && c.terms.maxConcurrency == 1
    ensures Active(c.recipients) == 0 && CompanyActive([c]) == 0
    ensures DispatchCampaign(c, 0, 1, now, true, true, []) == c.(recipients := [Enqueue(r)])
  {
    hide Callable;
    assert [r][1..] == [] && Active([r]) == Active([]) && [c][1..] == [] && CompanyActive([c]) == Active([r]) + CompanyActive([]);
    assert Candidates([r], now, 4, 1) == [];
    assert Candidates([r], now, 5, 0) == [0];
    assert [0][1..] == [] && Scan(c.terms, [r], [], 0, now) == Scanned([r], []);
    assert Scan(c.terms, [r], [0], 1, now) == Scanned([r], [0]);
    assert [r][0 := Enqueue(r)] == [Enqueue(r)];
    assert EnqueueAll([r], [0]) == EnqueueAll([Enqueue(r)], []);
  }

  // ----- imports and suppressed numbers

  predicate Untouched(c: Campaign) {
    c.status.Draft? || c.status.Ready? ==> forall j :: 0 <= j < |c.recipients| ==> IsNewcomer(c.recipients[j])
  }

  ghost predicate AllUntouched(s: Company) {
    forall i :: 0 <= i < |s.campaigns| ==> Untouched(s.campaigns[i])
  }

  lemma CampaignKeepsUntouched(s: Company, step: Step, cap: int)
    requires Targets(s, step) && Untouched(s.campaigns[step.ci])
    ensures Untouched(CampaignAfter(s, step, cap))
  {
    hide DispatchCampaign, CallAfter, IsReady, AnyOpen;
    var c := s.campaigns[step.ci];
    match step
    case Dispatch(_, now, entitled, connected, outcomes) =>
      DispatchMovesOn(c, CompanyActive(s.campaigns), cap, now, entitled, connected, outcomes);
    case _ =>
  }

  lemma DispatchMovesOn(
      c: Campaign, companyActive: nat, cap: int, now: int, entitled: bool, connected: bool, outcomes: seq<Outcome>)
    ensures var d := DispatchCampaign(c, companyActive, cap, now, entitled, connected, outcomes);
            d == c || d.status.Running? || d.status.Paused? || d.status.Failed?
  {
    hide Scan, SettleAll, EnqueueAll, Candidates, Active;
  }

  /** Draft and ready campaigns have no attempt rows, so an import that replaces recipients deletes none. */
  lemma {:induction false} ImportsDeleteNoAttempts(s: Company, steps: seq<Step>, cap: int)
    requires AllUntouched(s)
    ensures AllUntouched(Run(s, steps, cap))
    ensures forall c :: c in Run(s, steps, cap).campaigns && (c.status.Draft? || c.status.Ready?) ==> Rows(c.recipients) == 0
    decreases steps
  {
    hide Untouched, CampaignAfter;
    if steps == [] {
      forall c | c in s.campaigns && (c.status.Draft? || c.status.Ready?)
        ensures Rows(c.recipients) == 0
      {
        UntouchedHasNoRows(c);
      }
    } else {
      forall i | 0 <= i < |Apply(s, steps[0], cap).campaigns|
        ensures Untouched(Apply(s, steps[0], cap).campaigns[i])
      {
        StepKeepsUntouched(s, steps[0], cap, i);
      }
      ImportsDeleteNoAttempts(Apply(s, steps[0], cap), steps[1..], cap);
    }
  }

  lemma StepKeepsUntouched(s: Company, step: Step, cap: int, i: nat)
    requires AllUntouched(s) && i < |Apply(s, step, cap).campaigns|
    ensures Untouched(Apply(s, step, cap).campaigns[i])
  {
    hide CampaignAfter;
    if i < |s.campaigns| {
      assert Untouched(s.campaigns[i]);
      if Targets(s, step) && step.ci == i {
        CampaignKeepsUntouched(s, step, cap);
      }
    }
  }

  lemma UntouchedHasNoRows(c: Campaign)
    requires Untouched(c) && (c.status.Draft? || c.status.Ready?)
    ensures Rows(c.recipients) == 0
  {
    NewcomersHaveNoRows(c.recipients);
  }

  lemma {:induction false} NewcomersHaveNoRows(rs: seq<Recipient>)
    requires forall j :: 0 <= j < |rs| ==> IsNewcomer(rs[j])
    ensures Rows(rs) == 0
  {
    if rs != [] {
      NewcomersHaveNoRows(rs[1..]);
    }
  }

  /** A recipient blocked at import, before any call. */
  predicate Suppressed(s: Company, ci: nat, ri: nat) {
    && ci < |s.campaigns| && ri < |s.campaigns[ci].recipients|
    && s.campaigns[ci].recipients[ri].status.DoNotCall? && s.campaigns[ci].recipients[ri].attempts == []
  }

  lemma StepKeepsSuppressed(s: Company, step: Step, cap: int, ci: nat, ri: nat)
    requires Suppressed(s, ci, ri)
    requires !(step.ImportContacts? && step.replace && step.ci == ci)
    ensures Suppressed(Apply(s, step, cap), ci, ri)
  {
    hide DispatchCampaign, CallAfter, IsReady, AnyOpen, Callable, PutOff, Settle;
    if Targets(s, step) && step.ci == ci && step.Dispatch? {
      var c := s.campaigns[ci];
      DispatchAt(c, CompanyActive(s.campaigns), cap, step.now, step.entitled, step.connected, step.outcomes, ri);
    }
  }

  /** A recipient blocked at import is never called, unless a later import replaces the list. */
  lemma {:induction false} SuppressedIsNeverCalled(s: Company, steps: seq<Step>, cap: int, ci: nat, ri: nat)
    requires Suppressed(s, ci, ri)
    requires forall k :: 0 <= k < |steps| ==> !(steps[k].ImportContacts? && steps[k].replace && steps[k].ci == ci)
    ensures Suppressed(Run(s, steps, cap), ci, ri)
    decreases steps
  {
    hide Apply, Suppressed;
    if steps != [] {
      StepKeepsSuppressed(s, steps[0], cap, ci, ri);
      SuppressedIsNeverCalled(Apply(s, steps[0], cap), steps[1..], cap, ci, ri);
    }
  }
}
