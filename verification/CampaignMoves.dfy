/** How a campaign's status, terms and list of recipients move, step by step, and how its calls are counted. */
module CampaignMoves {
  import opened Wrappers
  import opened Campaigns
  import opened DispatchLaws
  import opened DispatchExactly
  import Completion

  // ----- counting

  /** The positions of the recipients with a call in progress. */
  function BusyAt(rs: seq<Recipient>): set<nat> {
    set i: nat | i < |rs| && rs[i].status in {Queued, Dialing, Ringing, Answered}
  }

  /** The calls in progress are the recipients that are queued, dialing, ringing or answered. */
  lemma {:induction false} ActiveCountsTheBusy(rs: seq<Recipient>)
    ensures Active(rs) == |BusyAt(rs)|
    decreases |rs|
  {
    if rs == [] {
      assert BusyAt(rs) == {};
    } else {
      var n := |rs| - 1;
      var front := rs[..n];
      ActiveCountsTheBusy(front);
      ActiveAppend(front, rs[n]);
      assert rs == front + [rs[n]];
      if rs[n].status in {Queued, Dialing, Ringing, Answered} {
        assert BusyAt(rs) == BusyAt(front) + {n};
      } else {
        assert BusyAt(rs) == BusyAt(front);
      }
    }
  }

  lemma {:induction false} ActiveAppend(rs: seq<Recipient>, r: Recipient)
    ensures Active(rs + [r]) == Active(rs) + One(IsActive(r.status))
  {
    if rs == [] {
      assert [] + [r] == [r] && [r][1..] == [];
    } else {
      ActiveAppend(rs[1..], r);
      assert (rs + [r])[1..] == rs[1..] + [r];
    }
  }

  function CompanyBusy(cs: seq<Campaign>): set<(nat, nat)> {
    set i: nat, j: nat | i < |cs| && j in BusyAt(cs[i].recipients) :: (i, j)
  }

  /** The company's calls in progress are those of all its campaigns. */
  lemma {:induction false} CompanyCountsItsCampaigns(cs: seq<Campaign>)
    ensures CompanyActive(cs) == |CompanyBusy(cs)|
    decreases |cs|
  {
    hide BusyAt;
    if cs == [] {
      assert CompanyBusy(cs) == {};
    } else {
      var n := |cs| - 1;
      var front := cs[..n];
      CompanyCountsItsCampaigns(front);
      CompanyAppend(front, cs[n]);
      ActiveCountsTheBusy(cs[n].recipients);
      assert cs == front + [cs[n]];
      var last := set j: nat | j in BusyAt(cs[n].recipients) :: (n, j);
      assert CompanyBusy(cs) == CompanyBusy(front) + last;
      PairsCount(n, BusyAt(cs[n].recipients), last);
    }
  }

  lemma {:induction false} PairsCount(n: nat, js: set<nat>, pairs: set<(nat, nat)>)
    requires pairs == set j: nat | j in js :: (n, j)
    ensures |pairs| == |js|
    decreases js
  {
    if js != {} {
      var j :| j in js;
      var fewer := set i: nat | i in js - {j} :: (n, i);
      PairsCount(n, js - {j}, fewer);
      assert (n, j) in pairs && pairs == fewer + {(n, j)};
    }
  }

  lemma {:induction false} CompanyAppend(cs: seq<Campaign>, c: Campaign)
    ensures CompanyActive(cs + [c]) == CompanyActive(cs) + Active(c.recipients)
  {
    if cs == [] {
      assert [] + [c] == [c] && [c][1..] == [];
    } else {
      CompanyAppend(cs[1..], c);
      assert (cs + [c])[1..] == cs[1..] + [c];
    }
  }

  /** With everybody due at a calling time, a dispatch starts as many calls as are due and as campaign and company have room for. */
  lemma FreeSlotsAreUsed(c: Campaign, companyActive: nat, cap: int, now: int)
    requires c.status == Running
    requires forall j :: 0 <= j < |c.recipients| && Due(c.recipients[j], now) ==> Callable(c.terms, c.recipients[j], now)
    ensures var started := Active(DispatchCampaign(c, companyActive, cap, now, true, true, []).recipients) - Active(c.recipients);
            && 0 <= started <= DueCount(c.recipients, now)
            && (started > 0 ==> Active(c.recipients) + started <= c.terms.maxConcurrency && companyActive + started <= cap)
            && (started < DueCount(c.recipients, now) ==>
                  Active(c.recipients) + started >= c.terms.maxConcurrency || companyActive + started >= cap)
  {
    hide Active, Due, DueCount, Callable, DispatchWith;
    var slots := Slots(c, companyActive, cap);
    if slots > 0 {
      SlotsAreFilled(c, slots, now);
    } else {
      NoSlotsNoCalls(c, now);
    }
  }

  lemma NoSlotsNoCalls(c: Campaign, now: int)
    ensures DispatchWith(c, 0, now, true, true, []) == c
  {
  }

  // ----- status

  /** Somebody may be called, the audio a broadcast needs is there, and the company is entitled. */
  predicate MayLaunch(c: Campaign, audioReady: bool, entitled: bool) {
    entitled && audioReady && exists i :: 0 <= i < |c.recipients| && c.recipients[i].status != DoNotCall
  }

  predicate MayMove(from: CampaignStatus, to: CampaignStatus, entitled: bool) {
    || (to == Paused && from in {Running, Scheduled})
    || (to == Running && from == Paused && entitled)
    || (to == CampaignStatus.Cancelled && from in {Draft, Ready, Scheduled, Running, Paused})
  }

  /** Campaign and company have room for a call. */
  predicate HasRoom(s: Company, ci: nat, cap: int)
    requires ci < |s.campaigns|
  {
    Active(s.campaigns[ci].recipients) < s.campaigns[ci].terms.maxConcurrency && CompanyActive(s.campaigns) < cap
  }

  /** The status a step leaves at campaign `ci`. */
  lemma StatusMovesExactly(s: Company, step: Step, cap: int, ci: nat)
    requires ci < |s.campaigns|
    ensures var t := Apply(s, step, cap);
            && ci < |t.campaigns|
            && var c, to := s.campaigns[ci], t.campaigns[ci].status;
               match step
               case Create(_, _) => to == c.status
               case ImportContacts(i, added, replace) =>
                 if i == ci && c.status in {Draft, Ready} && (forall r :: r in added ==> IsNewcomer(r)) then
                   to == if added != [] || (!replace && c.recipients != []) then Ready else Draft
                 else to == c.status
               case Update(_, _) => to == c.status
               case Start(i, _, audioReady, entitled) =>
                 to == if i == ci && MayLaunch(c, audioReady, entitled) then Running else c.status
               case Schedule(i, _, audioReady, entitled) =>
                 to == if i == ci && MayLaunch(c, audioReady, entitled) then Scheduled else c.status
               case SetStatus(i, asked, entitled) => to == if i == ci && MayMove(c.status, asked, entitled) then asked else c.status
               case ActivateDue(now) =>
                 to == if c.status == Scheduled && c.scheduledAt.Some? && c.scheduledAt.value <= now then Running else c.status
               case Dispatch(i, _, entitled, connected, _) =>
                 to == if i == ci && c.status == Running && HasRoom(s, ci, cap) && !(entitled && connected)
                       then if entitled then CampaignStatus.Failed else Paused
                       else c.status
               case Event(i, ri, ai, reported, _) =>
                 to == if i == ci && Targets(s, step) && c.status == Running && Completion.EndsTheWork(c, ri, reported)
                       then CampaignStatus.Completed else c.status
  {
    hide Active, CompanyActive, CallAfter, EventCampaign, Candidates, Scan, EnqueueAll, SettleAll, Completion.EndsTheWork, CancelWaiting;
    if step.Event? && Targets(s, step) && step.ci == ci {
      Completion.EventCompletesExactly(s.campaigns[ci], step.ri, step.ai, step.status, step.at);
    }
  }

  // ----- terms, lists and new campaigns

  /** Terms change only by an edit while the campaign is a draft, ready or paused; a launch writes the time. */
  lemma TermsChangeExactly(s: Company, step: Step, cap: int, ci: nat)
    requires ci < |s.campaigns|
    ensures var t := Apply(s, step, cap);
            && ci < |t.campaigns|
            && var c, d := s.campaigns[ci], t.campaigns[ci];
               && d.terms == (if step.Update? && step.ci == ci && c.status in {Draft, Ready, Paused} then step.newTerms else c.terms)
               && d.scheduledAt ==
                    (if step.Start? && step.ci == ci && MayLaunch(c, step.audioReady, step.entitled) then Some(step.now)
                     else if step.Schedule? && step.ci == ci && MayLaunch(c, step.audioReady, step.entitled) then Some(step.at)
                     else c.scheduledAt)
  {
    hide Active, CompanyActive, CallAfter, AnyOpen, RecipientAfter, Candidates, Scan, EnqueueAll, SettleAll, CancelWaiting;
  }

  /** The recipients change only by imports, cancellations, dispatches and events; the first two do exactly this. */
  lemma ListsChangeExactly(s: Company, step: Step, cap: int, ci: nat)
    requires ci < |s.campaigns| && !step.Dispatch? && !step.Event?
    ensures var t := Apply(s, step, cap);
            && ci < |t.campaigns|
            && var c, d := s.campaigns[ci], t.campaigns[ci];
               if step.ImportContacts? && step.ci == ci && c.status in {Draft, Ready} && (forall r :: r in step.added ==> IsNewcomer(r)) then
                 d.recipients == (if step.replace then [] else c.recipients) + step.added
               else if step.SetStatus? && step.ci == ci && step.to == CampaignStatus.Cancelled && MayMove(c.status, step.to, step.entitled) then
                 && |d.recipients| == |c.recipients|
                 && forall j :: 0 <= j < |c.recipients| ==>
                      d.recipients[j] == if c.recipients[j].status in {Pending, Queued}
                                         then c.recipients[j].(status := RecipientStatus.Cancelled) else c.recipients[j]
               else d.recipients == c.recipients
  {
  }

  /** A new campaign has the terms asked for, its concurrency cut to the platform's limit, and is ready if it comes with a recipient. */
  lemma NewCampaignsAreExact(s: Company, terms: Terms, first: Option<Recipient>, cap: int)
    requires first.Some? ==> IsNewcomer(first.value)
    ensures var t := Apply(s, Create(terms, first), cap);
            && t.doNotCall == s.doNotCall && |t.campaigns| == |s.campaigns| + 1 && t.campaigns[..|s.campaigns|] == s.campaigns
            && var c := t.campaigns[|s.campaigns|];
               && c.terms == terms.(maxConcurrency := c.terms.maxConcurrency)
               && c.terms.maxConcurrency <= terms.maxConcurrency && c.terms.maxConcurrency <= cap
               && c.terms.maxConcurrency in {terms.maxConcurrency, cap}
               && c.scheduledAt == None
               && (if first.Some? then c.status == Ready && c.recipients == [first.value] else c.status == Draft && c.recipients == [])
  {
  }

  /** A newcomer is waiting, or blocked, and has not been called. */
  lemma NewcomersAreExact(phone: string, zone: Option<Zone>, blocked: bool, r: Recipient)
    ensures r == Newcomer(phone, zone, blocked)
            <==> && r.phone == phone && r.zone == zone && r.status == (if blocked then DoNotCall else Pending)
                 && r.attemptsCount == 0 && r.nextAttemptAt == None && r.attempts == []
    ensures IsNewcomer(r) <==> r.attemptsCount == 0 && r.attempts == [] && r.status in {Pending, DoNotCall}
  {
  }

  /** The terms a request can carry: 1 to 20 calls at a time, 1 to 5 attempts, 1 to 1440 minutes between them, times within a day. */
  lemma RequestsCarryTheseTerms(terms: Terms)
    ensures InSchema(terms, MAX_ATTEMPTS)
            <==> && 1 <= terms.maxConcurrency <= 20 && 1 <= terms.maxAttempts <= 5
                 && 60_000_000 <= terms.retryDelay <= 1440 * 60_000_000
                 && 0 <= terms.windowStart < 86_400_000_000 && 0 <= terms.windowEnd < 86_400_000_000
  {
  }
}
