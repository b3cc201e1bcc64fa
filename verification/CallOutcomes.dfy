/** What a gateway's answer and a provider's event leave in the rows, and what that means for later calls and imports. */
module CallOutcomes {
  import opened Wrappers
  import opened Campaigns
  import opened DispatchLaws
  import opened DispatchExactly
  import opened Suppression
  import CampaignRuns
  import Contacts

  // ----- a dispatch

  /** The local time of day is inside the calling window, for the recipient's own zone if it has one and the campaign's if not. */
  predicate IsCallingTime(terms: Terms, r: Recipient, now: int) {
    var zone := if r.zone.Some? then r.zone.value else terms.zone;
    zone.Fixed? && terms.windowStart <= (now + zone.offset) % 86_400_000_000 < terms.windowEnd
  }

  /** Of the recipients it looks at, a dispatch selects exactly those at whose local time calls are allowed; all are waiting and due. */
  lemma SelectedExactlyAtCallingTime(c: Campaign, slots: nat, now: int, j: nat)
    requires j in LookedAt(c, slots, now)
    ensures j < |c.recipients| && c.recipients[j].status == RecipientStatus.Pending
    ensures c.recipients[j].nextAttemptAt.None? || c.recipients[j].nextAttemptAt.value <= now
    ensures j in Chosen(c, slots, now) <==> IsCallingTime(c.terms, c.recipients[j], now)
  {
    hide Scan, Candidates, Reached;
    CandidatesAreDue(c.recipients, now, 5 * slots);
    var candidates := Candidates(c.recipients, now, 5 * slots, 0);
    ReachedIsMaximal(c.terms, c.recipients, candidates, slots, now);
    assert j in candidates;
    ScanExactly(c.terms, c.recipients, candidates, slots, now, j);
  }

  /** The row a dispatch adds to a selected recipient, whatever the gateway answers. */
  ghost predicate HasNewAttempt(r: Recipient, d: Recipient, status: RecipientStatus, call: CallStatus) {
    && d.attemptsCount == r.attemptsCount + 1 && d.phone == r.phone && d.zone == r.zone
    && d.attempts == r.attempts + [Attempt(r.attemptsCount + 1, status, call)]
  }

  /**
    The gateway's answer decides the selected recipient's rows: without one it is queued, an accepted job is dialing, and a refused
    one has failed and waits for the retry delay from the refusal if attempts are left.
   */
  lemma AnswerDecidesTheRows(c: Campaign, slots: nat, now: int, outcomes: seq<Outcome>, k: nat)
    requires c.status.Running? && slots > 0 && k < |Chosen(c, slots, now)|
    ensures var d, j := DispatchWith(c, slots, now, true, true, outcomes), Chosen(c, slots, now)[k];
            && j < |c.recipients| && j < |d.recipients|
            && var r, e := c.recipients[j], d.recipients[j];
               && (k >= |outcomes| || outcomes[k] == Unreported ==>
                     HasNewAttempt(r, e, Queued, Initiated) && e.status == Queued && e.nextAttemptAt == r.nextAttemptAt)
               && (k < |outcomes| && outcomes[k] == Accepted ==>
                     HasNewAttempt(r, e, Dialing, Initiated) && e.status == Dialing && e.nextAttemptAt == r.nextAttemptAt)
               && (k < |outcomes| && outcomes[k].Refused? ==>
                     && HasNewAttempt(r, e, RecipientStatus.Failed, CallStatus.Failed)
                     && (r.attemptsCount + 1 < c.terms.maxAttempts ==>
                           e.status == Pending && e.nextAttemptAt == Some(outcomes[k].at + c.terms.retryDelay))
                     && (r.attemptsCount + 1 >= c.terms.maxAttempts ==>
                           e.status == RecipientStatus.Failed && e.nextAttemptAt == r.nextAttemptAt))
  {
    hide DispatchWith, Chosen;
    ChosenIsCalled(c, slots, now, outcomes, k);
    var r := c.recipients[Chosen(c, slots, now)[k]];
    forall status, call
      ensures WithLast(Enqueue(r).attempts, status, call) == r.attempts + [Attempt(r.attemptsCount + 1, status, call)]
    {
    }
  }

  /** The next attempt is at the minute the window opens, on the local day of `now` or, once the window has closed, the day after. */
  predicate IsNextOpening(terms: Terms, offset: int, now: int, next: int) {
    var day := 86_400_000_000;
    && (next + offset) % day == terms.windowStart / 60_000_000 * 60_000_000
    && (next + offset) / day == (now + offset) / day + if (now + offset) % day >= terms.windowEnd then 1 else 0
  }

  lemma PutOffToTheNextOpening(terms: Terms, r: Recipient, now: int)
    requires 0 <= terms.windowStart < DAY
    ensures var e, zone := PutOff(terms, r, now), if r.zone.Some? then r.zone.value else terms.zone;
            if zone.Unknown? then e == r.(status := RecipientStatus.Failed)
            else e.nextAttemptAt.Some? && e == r.(nextAttemptAt := e.nextAttemptAt)
                 && IsNextOpening(terms, zone.offset, now, e.nextAttemptAt.value)
  {
    var zone := r.zone.GetOr(terms.zone);
    if zone.Fixed? {
      var x, next := now + zone.offset, NextOpening(terms, zone.offset, now);
      var floor := terms.windowStart - terms.windowStart % MINUTE;
      var days := x / DAY + if x % DAY >= terms.windowEnd then 1 else 0;
      assert next + zone.offset == DAY * days + floor;
      DaysAndRest(days, floor);
    }
  }

  /** Whoever is looked at and not selected fails for an unknown zone, and is else put off to the next opening and left as it is. */
  lemma OthersArePutOff(c: Campaign, slots: nat, now: int, outcomes: seq<Outcome>, j: nat)
    requires c.status.Running? && slots > 0 && j in LookedAt(c, slots, now)
    requires j < |c.recipients| && !IsCallingTime(c.terms, c.recipients[j], now)
    requires 0 <= c.terms.windowStart < DAY
    ensures var d := DispatchWith(c, slots, now, true, true, outcomes);
            && j < |c.recipients| && j < |d.recipients|
            && var r, e := c.recipients[j], d.recipients[j];
               var zone := if r.zone.Some? then r.zone.value else c.terms.zone;
               if zone.Unknown? then e == r.(status := RecipientStatus.Failed)
               else e.nextAttemptAt.Some? && e == r.(nextAttemptAt := e.nextAttemptAt)
                    && IsNextOpening(c.terms, zone.offset, now, e.nextAttemptAt.value)
  {
    hide DispatchWith, Chosen, LookedAt, PutOff, IsNextOpening, IsCallingTime;
    SelectedExactlyAtCallingTime(c, slots, now, j);
    OthersAreNotCalled(c, slots, now, outcomes, j);
    PutOffToTheNextOpening(c.terms, c.recipients[j], now);
  }

  /** Without a connection nobody is called, and those looked at are put off all the same; without entitlement nothing but the status changes. */
  lemma UncalledDispatchesAreExact(c: Campaign, slots: nat, now: int, connected: bool, outcomes: seq<Outcome>, j: nat)
    requires c.status.Running? && slots > 0 && j < |c.recipients|
    ensures DispatchWith(c, slots, now, false, connected, outcomes) == c.(status := Paused)
    ensures var d := DispatchWith(c, slots, now, true, false, outcomes);
            && d == c.(status := CampaignStatus.Failed, recipients := d.recipients) && |d.recipients| == |c.recipients|
            && d.recipients[j] == (if j in LookedAt(c, slots, now) && !IsCallingTime(c.terms, c.recipients[j], now)
                                   then DispatchWith(c, slots, now, true, true, outcomes).recipients[j] else c.recipients[j])
  {
    hide Scan, Candidates, PutOff, Callable, Reached, IsCallingTime, EnqueueAll, SettleAll;
    var candidates := Candidates(c.recipients, now, 5 * slots, 0);
    CandidatesAreDue(c.recipients, now, 5 * slots);
    ScanExactly(c.terms, c.recipients, candidates, slots, now, j);
    LengthStays(c, slots, now, outcomes);
    if j in LookedAt(c, slots, now) {
      SelectedExactlyAtCallingTime(c, slots, now, j);
      if j !in Chosen(c, slots, now) {
        OthersAreNotCalled(c, slots, now, outcomes, j);
      }
    }
  }

  // ----- a retry waits

  /** Waiting for a time not before `until`, or cancelled meanwhile. */
  predicate RestsUntil(r: Recipient, until: int) {
    || (r.status.Pending? && r.nextAttemptAt.Some? && r.nextAttemptAt.value >= until)
    || r.status == RecipientStatus.Cancelled
  }

  /** No event on the recipient, no import that replaces its list, and no dispatch of its campaign from `until` on. */
  predicate Undisturbed(step: Step, ci: nat, ri: nat, until: int) {
    && !Replaces(step, ci)
    && !(step.Event? && step.ci == ci && step.ri == ri)
    && !(step.Dispatch? && step.ci == ci && step.now >= until)
  }

  lemma StepLetsItRest(s: Company, step: Step, cap: int, ci: nat, ri: nat, until: int)
    requires InTable(s, ci, ri) && RestsUntil(RecipientAt(s, ci, ri), until) && Undisturbed(step, ci, ri, until)
    ensures var t := Apply(s, step, cap);
            InTable(t, ci, ri) && RestsUntil(RecipientAt(t, ci, ri), until) && !Calls(s, step, cap, ci, ri)
  {
    hide DispatchWith, Chosen, CallAfter, IsReady, AnyOpen, NextOpening, Callable;
    StepCallsExactly(s, step, cap, ci, ri);
    if Targets(s, step) && step.ci == ci && step.Dispatch? {
      var c := s.campaigns[ci];
      var slots := Slots(c, CompanyActive(s.campaigns), cap);
      if ri in Chosen(c, slots, step.now) {
        Suppression.ChosenMayBeCalled(c, slots, step.now, ri);
      }
      DispatchAt(c, CompanyActive(s.campaigns), cap, step.now, step.entitled, step.connected, step.outcomes, ri);
    }
  }

  lemma {:induction false} RestingIsNotCalled(s: Company, steps: seq<Step>, cap: int, ci: nat, ri: nat, until: int)
    requires InTable(s, ci, ri) && RestsUntil(RecipientAt(s, ci, ri), until)
    requires forall k :: 0 <= k < |steps| ==> Undisturbed(steps[k], ci, ri, until)
    ensures CallsIn(s, steps, cap, ci, ri) == 0
    decreases steps
  {
    hide Apply, Calls, RestsUntil, Undisturbed;
    if steps != [] {
      StepLetsItRest(s, steps[0], cap, ci, ri, until);
      RestingIsNotCalled(Apply(s, steps[0], cap), steps[1..], cap, ci, ri, until);
    }
  }

  /** The dispatch gives the gateway the call of recipient `ri`, which refuses it at `at`, with attempts left. */
  ghost predicate IsRefusedWithAttemptsLeft(s: Company, step: Step, cap: int, ci: nat, ri: nat, at: int) {
    && Calls(s, step, cap, ci, ri) && InTable(s, ci, ri)
    && var chosen := Chosen(s.campaigns[ci], Slots(s.campaigns[ci], CompanyActive(s.campaigns), cap), step.now);
       && (exists k :: 0 <= k < |chosen| && k < |step.outcomes| && chosen[k] == ri && step.outcomes[k] == Refused(at))
       && RecipientAt(s, ci, ri).attemptsCount + 1 < s.campaigns[ci].terms.maxAttempts
  }

  /** A refused call is not made again before the retry delay has passed, in whatever run; at that time it is due. */
  lemma RefusedCallWaitsForTheDelay(s: Company, step: Step, cap: int, ci: nat, ri: nat, at: int, later: seq<Step>)
    requires IsRefusedWithAttemptsLeft(s, step, cap, ci, ri, at)
    requires forall k :: 0 <= k < |later| ==> Undisturbed(later[k], ci, ri, at + s.campaigns[ci].terms.retryDelay)
    ensures var t, until := Apply(s, step, cap), at + s.campaigns[ci].terms.retryDelay;
            && CallsIn(t, later, cap, ci, ri) == 0
            && InTable(t, ci, ri) && forall now :: Due(RecipientAt(t, ci, ri), now) <==> now >= until
  {
    hide Chosen, DispatchWith;
    var c := s.campaigns[ci];
    var slots := Slots(c, CompanyActive(s.campaigns), cap);
    var k :| 0 <= k < |Chosen(c, slots, step.now)| && k < |step.outcomes| && Chosen(c, slots, step.now)[k] == ri
             && step.outcomes[k] == Refused(at);
    AnswerDecidesTheRows(c, slots, step.now, step.outcomes, k);
    RestingIsNotCalled(Apply(s, step, cap), later, cap, ci, ri, at + c.terms.retryDelay);
  }

  // ----- an event

  /** The status of the call after a report. */
  predicate CallFollows(reported: RecipientStatus, before: CallStatus, after: CallStatus) {
    && (reported == Answered ==> after == InProgress)
    && (reported == RecipientStatus.Completed || reported == DoNotCall || reported == RecipientStatus.Cancelled ==>
          after == CallStatus.Completed)
    && (reported == RecipientStatus.Failed ==> after == CallStatus.Failed)
    && (reported == Busy || reported == NoAnswer ==> after == Missed)
    && (reported == Pending || reported == Queued || reported == Dialing || reported == Ringing ==> after == before)
  }

  /** The report sends the recipient back to wait: it was not reached, has attempts left, and the campaign is running. */
  predicate IsRetried(c: Campaign, r: Recipient, reported: RecipientStatus) {
    && (reported == Busy || reported == NoAnswer || reported == RecipientStatus.Failed)
    && r.attemptsCount < c.terms.maxAttempts && c.status == Running
  }

  /** The recipient's row after an event on its attempt `ai`. */
  ghost predicate IsReportedOn(c: Campaign, r: Recipient, e: Recipient, ai: nat, reported: RecipientStatus, at: int) {
    && e.phone == r.phone && e.zone == r.zone && e.attemptsCount == r.attemptsCount && ai < |r.attempts| == |e.attempts|
    && (forall a :: 0 <= a < |r.attempts| && a != ai ==> e.attempts[a] == r.attempts[a])
    && e.attempts[ai].number == r.attempts[ai].number && e.attempts[ai].status == reported
    && CallFollows(reported, r.attempts[ai].call, e.attempts[ai].call)
    && e.nextAttemptAt == (if IsRetried(c, r, reported) then Some(at + c.terms.retryDelay) else r.nextAttemptAt)
    && e.status == (if IsRetried(c, r, reported) then Pending
                    else if reported in {Pending, Queued, Dialing, Ringing} then r.status else reported)
  }

  lemma CallAfterFollows(reported: RecipientStatus, call: CallStatus)
    ensures CallFollows(reported, call, CallAfter(call, reported))
  {
  }

  lemma RecipientAfterIsExact(c: Campaign, r: Recipient, ai: nat, reported: RecipientStatus, at: int)
    requires ai < |r.attempts|
    ensures var a := r.attempts[ai];
            var told := r.(attempts := r.attempts[ai := a.(status := reported, call := CallAfter(a.call, reported))]);
            IsReportedOn(c, r, RecipientAfter(c, told, reported, at), ai, reported, at)
  {
    hide CallAfter, CallFollows;
    CallAfterFollows(reported, r.attempts[ai].call);
  }

  /** An event writes the status on its attempt and call, decides its recipient's status and next attempt, and touches no other row. */
  lemma EventWritesItsRows(s: Company, cap: int, ci: nat, ri: nat, ai: nat, reported: RecipientStatus, at: int)
    requires InTable(s, ci, ri) && ai < |RecipientAt(s, ci, ri).attempts|
    ensures var t := Apply(s, Event(ci, ri, ai, reported, at), cap);
            && InTable(t, ci, ri) && |t.campaigns| == |s.campaigns|
            && (forall i :: 0 <= i < |s.campaigns| && i != ci ==> t.campaigns[i] == s.campaigns[i])
            && var c, d := s.campaigns[ci], t.campaigns[ci];
               && d.terms == c.terms && |d.recipients| == |c.recipients|
               && (forall j :: 0 <= j < |c.recipients| && j != ri ==> d.recipients[j] == c.recipients[j])
               && IsReportedOn(c, c.recipients[ri], d.recipients[ri], ai, reported, at)
  {
    hide CallAfter, RecipientAfter, IsReportedOn, AnyOpen;
    RecipientAfterIsExact(s.campaigns[ci], RecipientAt(s, ci, ri), ai, reported, at);
  }

  /** A call that was not answered is not repeated before the retry delay has passed since the report; at that time it is due. */
  lemma UnansweredCallWaitsForTheDelay(
      s: Company, cap: int, ci: nat, ri: nat, ai: nat, reported: RecipientStatus, at: int, later: seq<Step>)
    requires InTable(s, ci, ri) && ai < |RecipientAt(s, ci, ri).attempts|
    requires IsRetried(s.campaigns[ci], RecipientAt(s, ci, ri), reported)
    requires forall k :: 0 <= k < |later| ==> Undisturbed(later[k], ci, ri, at + s.campaigns[ci].terms.retryDelay)
    ensures var t, until := Apply(s, Event(ci, ri, ai, reported, at), cap), at + s.campaigns[ci].terms.retryDelay;
            && CallsIn(t, later, cap, ci, ri) == 0
            && InTable(t, ci, ri) && forall now :: Due(RecipientAt(t, ci, ri), now) <==> now >= until
  {
    hide Apply;
    EventWritesItsRows(s, cap, ci, ri, ai, reported, at);
    RestingIsNotCalled(Apply(s, Event(ci, ri, ai, reported, at), cap), later, cap, ci, ri, at + s.campaigns[ci].terms.retryDelay);
  }

  // ----- the do-not-call list

  /** An event on an existing attempt that reports an opt-out for this number. */
  predicate OptsOut(s: Company, step: Step, phone: string) {
    && step.Event? && step.status == DoNotCall
    && InTable(s, step.ci, step.ri) && step.ai < |RecipientAt(s, step.ci, step.ri).attempts|
    && RecipientAt(s, step.ci, step.ri).phone == phone
  }

  /** A number comes onto the list exactly by such an event, and none ever leaves it. */
  lemma ListedExactlyAfterStep(s: Company, step: Step, cap: int, phone: string)
    ensures phone in Apply(s, step, cap).doNotCall <==> phone in s.doNotCall || OptsOut(s, step, phone)
  {
    hide CampaignAfter, NewCampaign, Activate;
  }

  /** The n-th step of the run is an opt-out of this number. */
  predicate OptsOutAt(s: Company, steps: seq<Step>, cap: int, phone: string, n: int) {
    0 <= n < |steps| && OptsOut(Run(s, steps[..n], cap), steps[n], phone)
  }

  /** After a run the list holds the numbers it held before and those that opted out during the run, and no others. */
  lemma {:induction false} ListHoldsExactlyTheOptOuts(s: Company, steps: seq<Step>, cap: int, phone: string)
    ensures phone in Run(s, steps, cap).doNotCall
            <==> phone in s.doNotCall || exists n :: OptsOutAt(s, steps, cap, phone, n)
    decreases steps
  {
    hide Apply, OptsOut;
    if steps != [] {
      var next, rest := Apply(s, steps[0], cap), steps[1..];
      ListedExactlyAfterStep(s, steps[0], cap, phone);
      ListHoldsExactlyTheOptOuts(next, rest, cap, phone);
      CampaignRuns.RunFrom(s, steps, cap);
      assert OptsOutAt(s, steps, cap, phone, 0) <==> OptsOut(s, steps[0], phone);
      forall n | 0 < n < |steps|
        ensures OptsOutAt(s, steps, cap, phone, n) <==> OptsOutAt(next, rest, cap, phone, n - 1)
      {
        assert Run(s, steps[..n], cap) == Run(next, rest[..n - 1], cap);
      }
      if n :| OptsOutAt(next, rest, cap, phone, n) {
        assert OptsOutAt(s, steps, cap, phone, n + 1);
      }
    }
  }

  /**
    A number that opted out in a run, or was listed before it, is blocked in every later import, and no list-keeping run after
    that calls the imported row.
   */
  lemma OptOutHoldsForLaterImports(
      s: Company, steps: seq<Step>, cap: int, phone: string, ci: nat, rows: seq<Contacts.Row>, replace: bool, j: nat,
      later: seq<Step>, most: int)
    requires phone in s.doNotCall || exists n :: OptsOutAt(s, steps, cap, phone, n)
    requires var t := Run(s, steps, cap);
             && ci < |t.campaigns| && (t.campaigns[ci].status.Draft? || t.campaigns[ci].status.Ready?)
             && t.campaigns[ci].terms.maxAttempts <= most
    requires KeepsList(later, ci) && forall k :: 0 <= k < |later| ==> CampaignRuns.LimitsAttempts(later[k], most)
    requires var t := Run(s, steps, cap);
             var kept := if replace then [] else t.campaigns[ci].recipients;
             var added := Contacts.ImportRows(Contacts.Opening(Contacts.Phones(kept)), rows, 2, t.doNotCall).added;
             j < |added| && added[j].phone == phone
    ensures var t := Run(s, steps, cap);
            var kept := if replace then [] else t.campaigns[ci].recipients;
            var added := Contacts.ImportRows(Contacts.Opening(Contacts.Phones(kept)), rows, 2, t.doNotCall).added;
            var u := Apply(t, ImportContacts(ci, added, replace), cap);
            && InTable(u, ci, |kept| + j) && RecipientAt(u, ci, |kept| + j) == added[j] && added[j].status == DoNotCall
            && CallsIn(u, later, cap, ci, |kept| + j) == 0
  {
    hide Contacts.ImportRows, Contacts.IsE164, Run;
    ListHoldsExactlyTheOptOuts(s, steps, cap, phone);
    var t := Run(s, steps, cap);
    var kept := if replace then [] else t.campaigns[ci].recipients;
    Contacts.ImportIsSound(Contacts.Opening(Contacts.Phones(kept)), rows, 2, Contacts.Phones(kept), t.doNotCall);
    var added := Contacts.ImportRows(Contacts.Opening(Contacts.Phones(kept)), rows, 2, t.doNotCall).added;
    var u := Apply(t, ImportContacts(ci, added, replace), cap);
    SilentIsNeverCalled(u, later, cap, ci, |kept| + j, most);
  }
}
