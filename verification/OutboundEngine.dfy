/** The campaign worker and service as they update their tables, each operation proved against its specification. */
module OutboundEngine {
  import opened Wrappers
  import opened Campaigns
  import opened DispatchLaws
  import Contacts
  import CampaignRuns
  import Suppression

  /** What the engine is asked to do; a contact list arrives as the rows of its file. */
  datatype Request = Operate(step: Step) | ImportFile(ci: nat, rows: seq<Contacts.Row>, replace: bool)

  /** The step a request amounts to; the rows an import adds are known once they have been read. */
  predicate IsStepOf(step: Step, r: Request) {
    match r
    case Operate(asked) => step == asked
    case ImportFile(ci, _, replace) => step.ImportContacts? && step.ci == ci && step.replace == replace
  }

  lemma {:induction false} RunAppend(s: Company, steps: seq<Step>, step: Step, cap: int)
    ensures Run(s, steps + [step], cap) == Apply(Run(s, steps, cap), step, cap)
    decreases steps
  {
    hide Apply;
    if steps == [] {
      assert [] + [step] == [step] && [step][1..] == [];
      assert Run(s, [step], cap) == Run(Apply(s, step, cap), [], cap);
    } else {
      RunAppend(Apply(s, steps[0], cap), steps[1..], step, cap);
      assert (steps + [step])[1..] == steps[1..] + [step];
    }
  }

  /** One round of the candidate loop. */
  lemma ScanFrom(terms: Terms, rs: seq<Recipient>, candidates: seq<nat>, k: nat, slots: nat, now: int)
    requires k < |candidates| && slots > 0 && forall j :: 0 <= j < |candidates| ==> candidates[j] < |rs|
    ensures var i, rest := candidates[k], candidates[k + 1..];
            Scan(terms, rs, candidates[k..], slots, now)
            == if Callable(terms, rs[i], now) then
                 var after := Scan(terms, rs, rest, slots - 1, now);
                 after.(selected := [i] + after.selected)
               else Scan(terms, rs[i := PutOff(terms, rs[i], now)], rest, slots, now)
  {
    hide Callable, PutOff;
    assert candidates[k..][1..] == candidates[k + 1..];
  }

  lemma NothingToScan(terms: Terms, rs: seq<Recipient>, candidates: seq<nat>, slots: nat, now: int)
    requires candidates == [] || slots == 0
    requires forall j :: 0 <= j < |candidates| ==> candidates[j] < |rs|
    ensures Scan(terms, rs, candidates, slots, now) == Scanned(rs, [])
  {
  }

  class Engine {
    var campaigns: seq<Campaign>
    var doNotCall: set<string>
    /** The platform's limit on one company's simultaneous calls. */
    const cap: int

    ghost function State(): Company
      reads this
    {
      Company(campaigns, doNotCall)
    }

    constructor (cap: int)
      ensures this.cap == cap && State() == Company([], {})
    {
      this.cap := cap;
      campaigns, doNotCall := [], {};
    }

    /** The candidate loop. */
    method SelectRecipients(c: Campaign, slots: nat, now: int) returns (s: Scanned)
      requires slots > 0
      ensures s == Scan(c.terms, c.recipients, Candidates(c.recipients, now, 5 * slots, 0), slots, now)
    {
      hide Callable, PutOff, Candidates, Scan;
      var candidates := Candidates(c.recipients, now, 5 * slots, 0);
      var rs, selected := c.recipients, [];
      assert candidates[0..] == candidates;
      var k := 0;
      while k < |candidates| && |selected| < slots
        invariant 0 <= k <= |candidates| && |selected| <= slots && |rs| == |c.recipients|
        invariant var rest := Scan(c.terms, rs, candidates[k..], slots - |selected|, now);
                  Scan(c.terms, c.recipients, candidates, slots, now) == Scanned(rest.recipients, selected + rest.selected)
      {
        var i := candidates[k];
        ScanFrom(c.terms, rs, candidates, k, slots - |selected|, now);
        if Callable(c.terms, rs[i], now) {
          ghost var rest := Scan(c.terms, rs, candidates[k + 1..], slots - |selected| - 1, now);
          Associates(selected, [i], rest.selected);
          selected := selected + [i];
        } else {
          rs := rs[i := PutOff(c.terms, rs[i], now)];
        }
        k := k + 1;
      }
      NothingToScan(c.terms, rs, candidates[k..], slots - |selected|, now);
      s := Scanned(rs, selected);
    }

    /** Creating the attempt and call rows of the selected recipients. */
    method QueueSelected(rs: seq<Recipient>, selected: seq<nat>) returns (queued: seq<Recipient>)
      requires forall k :: 0 <= k < |selected| ==> selected[k] < |rs|
      ensures queued == EnqueueAll(rs, selected)
    {
      queued := rs;
      for k := 0 to |selected|
        invariant |queued| == |rs|
        invariant EnqueueAll(queued, selected[k..]) == EnqueueAll(rs, selected)
      {
        assert selected[k..][1..] == selected[k + 1..];
        queued := queued[selected[k] := Enqueue(queued[selected[k]])];
      }
    }

    /** Handing the jobs to the gateway, one by one. */
    method Originate(terms: Terms, rs: seq<Recipient>, selected: seq<nat>, outcomes: seq<Outcome>) returns (settled: seq<Recipient>)
      requires forall k :: 0 <= k < |selected| ==> selected[k] < |rs|
      ensures settled == SettleAll(terms, rs, selected, outcomes)
    {
      settled := rs;
      for k := 0 to Min(|selected|, |outcomes|)
        invariant |settled| == |rs|
        invariant SettleAll(terms, settled, selected[k..], outcomes[k..]) == SettleAll(terms, rs, selected, outcomes)
      {
        assert selected[k..][1..] == selected[k + 1..] && outcomes[k..][1..] == outcomes[k + 1..];
        settled := settled[selected[k] := Settle(terms, settled[selected[k]], outcomes[k])];
      }
    }

    method DispatchCampaign(ci: nat, now: int, entitled: bool, connected: bool, outcomes: seq<Outcome>)
      modifies this
      ensures State() == Apply(old(State()), Dispatch(ci, now, entitled, connected, outcomes), cap)
    {
      hide Scan, EnqueueAll, SettleAll, Candidates, Active, CompanyActive;
      if ci >= |campaigns| || !campaigns[ci].status.Running? {
        assert ci < |campaigns| ==> campaigns == campaigns[ci := campaigns[ci]];
        return;
      }
      var c := campaigns[ci];
      var slots := Min(
        Max(c.terms.maxConcurrency - Active(c.recipients), 0),
        Max(cap - CompanyActive(campaigns), 0));
      if slots == 0 {
        assert campaigns == campaigns[ci := c];
        return;
      }
      if !entitled {
        campaigns := campaigns[ci := c.(status := Paused)];
        return;
      }
      var s := SelectRecipients(c, slots, now);
      if !connected {
        campaigns := campaigns[ci := c.(status := CampaignStatus.Failed, recipients := s.recipients)];
        return;
      }
      ScanShape(c.terms, c.recipients, Candidates(c.recipients, now, 5 * slots, 0), slots, now);
      var queued := QueueSelected(s.recipients, s.selected);
      var settled := Originate(c.terms, queued, s.selected, outcomes);
      campaigns := campaigns[ci := c.(recipients := settled)];
    }

    method ApplyEvent(ci: nat, ri: nat, ai: nat, status: RecipientStatus, at: int)
      modifies this
      ensures State() == Apply(old(State()), Event(ci, ri, ai, status, at), cap)
    {
      hide CallAfter;
      if ci >= |campaigns| || ri >= |campaigns[ci].recipients| || ai >= |campaigns[ci].recipients[ri].attempts| {
        return;
      }
      var c := campaigns[ci];
      var r := c.recipients[ri];
      var attempt := r.attempts[ai].(status := status, call := CallAfter(r.attempts[ai].call, status));
      r := r.(attempts := r.attempts[ai := attempt]);
      if status.Answered? {
        r := r.(status := Answered);
      } else if EndsAttempt(status) {
        if Retryable(status) && r.attemptsCount < c.terms.maxAttempts && c.status.Running? {
          r := r.(status := Pending, nextAttemptAt := Some(at + c.terms.retryDelay));
        } else {
          r := r.(status := status);
          if status.DoNotCall? {
            doNotCall := doNotCall + {r.phone};
          }
        }
      }
      c := c.(recipients := c.recipients[ri := r]);
      var open := CountOpen(c.recipients);
      if open == 0 && c.status.Running? {
        c := c.(status := CampaignStatus.Completed);
      }
      campaigns := campaigns[ci := c];
    }

    method CountOpen(rs: seq<Recipient>) returns (n: nat)
      ensures n == 0 <==> !AnyOpen(rs)
    {
      n := 0;
      for i := 0 to |rs|
        invariant n == 0 <==> forall j :: 0 <= j < i ==> !IsOpen(rs[j].status)
      {
        if IsOpen(rs[i].status) {
          n := n + 1;
        }
      }
    }

    /** The bulk update of a cancellation touches the waiting recipients only. */
    method SetCampaignStatus(ci: nat, to: CampaignStatus, entitled: bool) returns (moved: bool)
      modifies this
      ensures State() == Apply(old(State()), SetStatus(ci, to, entitled), cap)
      ensures moved <==> ci < |old(campaigns)| && CanMove(old(campaigns)[ci].status, to) && (to.Running? ==> entitled)
      ensures moved ==> ci < |campaigns| && campaigns[ci].status == to
    {
      hide CancelWaiting;
      if ci >= |campaigns| {
        return false;
      }
      var c := campaigns[ci];
      if !CanMove(c.status, to) || (to.Running? && !entitled) {
        assert campaigns == campaigns[ci := c];
        return false;
      }
      var rs := c.recipients;
      if to.Cancelled? {
        for i := 0 to |rs|
          invariant campaigns == old(campaigns) && doNotCall == old(doNotCall)
          invariant |rs| == |c.recipients|
          invariant forall j :: 0 <= j < |rs| ==>
            rs[j] == if j < i && (c.recipients[j].status.Pending? || c.recipients[j].status.Queued?)
                     then c.recipients[j].(status := RecipientStatus.Cancelled) else c.recipients[j]
        {
          if rs[i].status.Pending? || rs[i].status.Queued? {
            rs := rs[i := rs[i].(status := RecipientStatus.Cancelled)];
          }
        }
        assert rs == CancelWaiting(c.recipients);
      }
      campaigns := campaigns[ci := c.(status := to, recipients := rs)];
      return true;
    }

    /** `validate`: total and blocked recipients are counted, and a broadcast needs its audio. */
    method Validate(c: Campaign, audioReady: bool) returns (valid: bool)
      ensures valid <==> IsReady(c, audioReady)
    {
      var total, blocked := |c.recipients|, 0;
      for i := 0 to total
        invariant 0 <= blocked <= i
        invariant blocked < i <==> exists j :: 0 <= j < i && !c.recipients[j].status.DoNotCall?
      {
        if c.recipients[i].status.DoNotCall? {
          blocked := blocked + 1;
        }
      }
      valid := total != 0 && audioReady && total - blocked > 0;
    }

    method StartCampaign(ci: nat, now: int, audioReady: bool, entitled: bool) returns (started: bool)
      modifies this
      ensures State() == Apply(old(State()), Start(ci, now, audioReady, entitled), cap)
      ensures started <==> ci < |old(campaigns)| && entitled && IsReady(old(campaigns)[ci], audioReady)
      ensures started ==> ci < |campaigns| && campaigns[ci].status.Running?
    {
      hide IsReady;
      started := Launched(ci, Running, now, audioReady, entitled);
    }

    method ScheduleCampaign(ci: nat, at: int, audioReady: bool, entitled: bool) returns (scheduled: bool)
      modifies this
      ensures State() == Apply(old(State()), Schedule(ci, at, audioReady, entitled), cap)
      ensures scheduled <==> ci < |old(campaigns)| && entitled && IsReady(old(campaigns)[ci], audioReady)
      ensures scheduled ==> ci < |campaigns| && campaigns[ci].status.Scheduled?
    {
      hide IsReady;
      scheduled := Launched(ci, Scheduled, at, audioReady, entitled);
    }

    method Launched(ci: nat, to: CampaignStatus, at: int, audioReady: bool, entitled: bool) returns (moved: bool)
      requires to.Running? || to.Scheduled?
      modifies this
      ensures doNotCall == old(doNotCall)
      ensures campaigns == if ci < |old(campaigns)| then old(campaigns)[ci := Launch(old(campaigns)[ci], to, at, audioReady, entitled)]
                           else old(campaigns)
      ensures moved <==> ci < |old(campaigns)| && entitled && IsReady(old(campaigns)[ci], audioReady)
      ensures moved ==> ci < |campaigns| && campaigns[ci].status == to
    {
      hide IsReady;
      if ci >= |campaigns| {
        return false;
      }
      var c := campaigns[ci];
      var valid := Validate(c, audioReady);
      if !entitled || !valid {
        assert campaigns == campaigns[ci := c];
        return false;
      }
      campaigns := campaigns[ci := c.(status := to, scheduledAt := Some(at))];
      return true;
    }

    method UpdateCampaign(ci: nat, terms: Terms) returns (edited: bool)
      modifies this
      ensures State() == Apply(old(State()), Update(ci, terms), cap)
      ensures edited <==> ci < |old(campaigns)| && old(campaigns)[ci].status in {Draft, Ready, Paused}
    {
      if ci >= |campaigns| {
        return false;
      }
      var c := campaigns[ci];
      if !c.status.Draft? && !c.status.Ready? && !c.status.Paused? {
        assert campaigns == campaigns[ci := c];
        return false;
      }
      campaigns := campaigns[ci := c.(terms := terms)];
      return true;
    }

    /** Scheduled campaigns whose time has come start running. */
    method DispatchDue(now: int)
      modifies this
      ensures State() == Apply(old(State()), ActivateDue(now), cap)
    {
      hide Activate;
      ghost var activated := Activate(campaigns, now);
      var cs := campaigns;
      for i := 0 to |cs|
        invariant campaigns == old(campaigns) && doNotCall == old(doNotCall) && |cs| == |campaigns|
        invariant forall j :: 0 <= j < |cs| ==> cs[j] == if j < i then activated[j] else campaigns[j]
      {
        if cs[i].status.Scheduled? && cs[i].scheduledAt.Some? && cs[i].scheduledAt.value <= now {
          cs := cs[i := cs[i].(status := Running)];
        }
      }
      assert cs == activated;
      campaigns := cs;
    }

    method ImportList(ci: nat, rows: seq<Contacts.Row>, replace: bool) returns (t: Contacts.Tally)
      modifies this
      ensures State() == Apply(old(State()), ImportContacts(ci, t.added, replace), cap)
      ensures !(ci < |campaigns| && (old(campaigns)[ci].status.Draft? || old(campaigns)[ci].status.Ready?)) ==> t == Contacts.Opening({})
      ensures ci < |campaigns| && (old(campaigns)[ci].status.Draft? || old(campaigns)[ci].status.Ready?) ==>
                var kept := if replace then [] else old(campaigns)[ci].recipients;
                && t == Contacts.ImportRows(Contacts.Opening(Contacts.Phones(kept)), rows, 2, doNotCall)
                && campaigns[ci].recipients == kept + t.added
                && (Contacts.Distinct(kept) ==> Contacts.Distinct(campaigns[ci].recipients))
    {
      hide Contacts.ImportRows, Contacts.IsE164;
      t := Contacts.Opening({});
      if ci >= |campaigns| || !(campaigns[ci].status.Draft? || campaigns[ci].status.Ready?) {
        assert ci < |campaigns| ==> campaigns == campaigns[ci := campaigns[ci]];
        return;
      }
      var c := campaigns[ci];
      var kept := if replace then [] else c.recipients;
      t := Contacts.ReadContacts(rows, Contacts.Phones(kept), doNotCall);
      Contacts.ImportIsSound(Contacts.Opening(Contacts.Phones(kept)), rows, 2, Contacts.Phones(kept), doNotCall);
      if Contacts.Distinct(kept) {
        Contacts.ImportKeepsNumbersUnique(kept, rows, doNotCall);
      }
      c := c.(recipients := kept + t.added, status := if kept + t.added != [] then Ready else Draft);
      campaigns := campaigns[ci := c];
    }

    /** `first`: the recipient of a single call, already in the new campaign. */
    method CreateCampaign(terms: Terms, first: Option<Recipient>)
      modifies this
      ensures State() == Apply(old(State()), Create(terms, first), cap)
    {
      var clamped := terms;
      if clamped.maxConcurrency > cap {
        clamped := clamped.(maxConcurrency := cap);
      }
      var c := Campaign(Draft, clamped, None, []);
      if first.Some? && IsNewcomer(first.value) {
        c := c.(recipients := [first.value], status := Ready);
      }
      campaigns := campaigns + [c];
    }

    method Handle(r: Request) returns (ghost step: Step)
      requires r.Operate? ==> !r.step.ImportContacts?
      modifies this
      ensures State() == Apply(old(State()), step, cap) && IsStepOf(step, r)
    {
      hide Apply;
      match r
      case ImportFile(ci, rows, replace) =>
        var t := ImportList(ci, rows, replace);
        step := ImportContacts(ci, t.added, replace);
      case Operate(asked) =>
        step := asked;
        match asked {
          case Create(terms, first) => CreateCampaign(terms, first);
          case Update(ci, terms) => var edited := UpdateCampaign(ci, terms);
          case Start(ci, now, audioReady, entitled) => var started := StartCampaign(ci, now, audioReady, entitled);
          case Schedule(ci, at, audioReady, entitled) => var scheduled := ScheduleCampaign(ci, at, audioReady, entitled);
          case SetStatus(ci, to, entitled) => var moved := SetCampaignStatus(ci, to, entitled);
          case ActivateDue(now) => DispatchDue(now);
          case Dispatch(ci, now, entitled, connected, outcomes) => DispatchCampaign(ci, now, entitled, connected, outcomes);
          case Event(ci, ri, ai, status, at) => ApplyEvent(ci, ri, ai, status, at);
        }
    }

    /**
      Requests handled one after the other. Attempts stay numbered and bounded by the highest limit set, both caps hold at the end of
      an orderly run, and every call in progress has its attempt row.
     */
    method HandleAll(requests: seq<Request>) returns (ghost steps: seq<Step>)
      requires forall k :: 0 <= k < |requests| && requests[k].Operate? ==> !requests[k].step.ImportContacts?
      modifies this
      ensures |steps| == |requests| && forall k :: 0 <= k < |steps| ==> IsStepOf(steps[k], requests[k])
      ensures State() == Run(old(State()), steps, cap)
      ensures forall most: nat :: most >= 1 && CampaignRuns.NumberedCompany(old(State()), most)
                && (forall k :: 0 <= k < |steps| ==> CampaignRuns.LimitsAttempts(steps[k], most))
                ==> CampaignRuns.NumberedCompany(State(), most)
      ensures CampaignRuns.WithinCaps(old(State()), cap) && CampaignRuns.Orderly(old(State()), steps, cap)
              ==> CampaignRuns.WithinCaps(State(), cap)
      ensures Suppression.CallsHaveRows(old(State())) ==> Suppression.CallsHaveRows(State())
    {
      hide Apply, IsStepOf, CampaignRuns.NumberedCompany, CampaignRuns.WithinCaps, CampaignRuns.Orderly, Suppression.CallsHaveRows;
      ghost var before := State();
      steps := [];
      for i := 0 to |requests|
        invariant |steps| == i && forall k :: 0 <= k < i ==> IsStepOf(steps[k], requests[k])
        invariant State() == Run(before, steps, cap)
      {
        ghost var step := Handle(requests[i]);
        RunAppend(before, steps, step, cap);
        steps := steps + [step];
      }
      forall most: nat | most >= 1 && CampaignRuns.NumberedCompany(before, most)
                         && (forall k :: 0 <= k < |steps| ==> CampaignRuns.LimitsAttempts(steps[k], most))
        ensures CampaignRuns.NumberedCompany(State(), most)
      {
        CampaignRuns.AttemptsAreNumberedAndBounded(before, steps, cap, most);
      }
      if CampaignRuns.WithinCaps(before, cap) && CampaignRuns.Orderly(before, steps, cap) {
        CampaignRuns.CapsHoldOverRuns(before, steps, cap);
        assert steps[..|steps|] == steps;
      }
      if Suppression.CallsHaveRows(before) {
        Suppression.CallsHaveRowsOverRuns(before, steps, cap);
      }
    }
  }
}
