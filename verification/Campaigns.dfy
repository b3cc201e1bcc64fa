/** The tables of the outbound campaign engine and the update each operation makes to them. */
module Campaigns {
  import opened Wrappers

  datatype RecipientStatus =
    | Pending | Queued | Dialing | Ringing | Answered
    | Completed | Busy | NoAnswer | Failed | Cancelled | DoNotCall

  datatype CampaignStatus = Draft | Ready | Scheduled | Running | Paused | Completed | Cancelled | Failed

  datatype CallStatus = Initiated | InProgress | Completed | Missed | Failed

  /** A time zone name resolves to a fixed offset from UTC, or is unknown. */
  datatype Zone = Unknown | Fixed(offset: int)

  /** An attempt row together with the call row it owns. */
  datatype Attempt = Attempt(number: int, status: RecipientStatus, call: CallStatus)

  datatype Recipient = Recipient(
    phone: string, zone: Option<Zone>, status: RecipientStatus,
    attemptsCount: int, nextAttemptAt: Option<int>, attempts: seq<Attempt>)

  /** The editable settings of a campaign; times of day and delays are in microseconds. */
  datatype Terms = Terms(
    zone: Zone, windowStart: int, windowEnd: int,
    maxConcurrency: int, maxAttempts: int, retryDelay: int)

  const MAX_CONCURRENCY := 20
  const MAX_ATTEMPTS := 5

  /** The terms that a request to create or edit a campaign can carry; `most` is the largest number of attempts it accepts. */
  predicate InSchema(terms: Terms, most: int) {
    && 1 <= terms.maxConcurrency <= MAX_CONCURRENCY && 1 <= terms.maxAttempts <= most
    && MINUTE <= terms.retryDelay <= 1440 * MINUTE
    && 0 <= terms.windowStart < DAY && 0 <= terms.windowEnd < DAY
  }

  datatype Campaign = Campaign(
    status: CampaignStatus, terms: Terms, scheduledAt: Option<int>, recipients: seq<Recipient>)

  /** Everything one company owns. */
  datatype Company = Company(campaigns: seq<Campaign>, doNotCall: set<string>)

  const MINUTE := 60_000_000
  const DAY := 1440 * MINUTE

  // ----- counting

  predicate IsActive(s: RecipientStatus) {
    s.Queued? || s.Dialing? || s.Ringing? || s.Answered?
  }

  function One(b: bool): nat {
    if b then 1 else 0
  }

  /** The recipients with a call in progress. */
  function Active(rs: seq<Recipient>): nat {
    if rs == [] then 0 else One(IsActive(rs[0].status)) + Active(rs[1..])
  }

  function CompanyActive(cs: seq<Campaign>): nat {
    if cs == [] then 0 else Active(cs[0].recipients) + CompanyActive(cs[1..])
  }

  predicate Due(r: Recipient, now: int) {
    r.status.Pending? && (r.nextAttemptAt.None? || r.nextAttemptAt.value <= now)
  }

  /** The positions of the first `limit` due recipients, in creation order. */
  function Candidates(rs: seq<Recipient>, now: int, limit: nat, from: nat): (r: seq<nat>)
    requires from <= |rs|
    ensures |r| <= limit
    ensures forall k :: 0 <= k < |r| ==> from <= r[k] < |rs| && Due(rs[r[k]], now)
    ensures Increasing(r)
    decreases |rs| - from
  {
    if limit == 0 || from == |rs| then []
    else if Due(rs[from], now) then [from] + Candidates(rs, now, limit - 1, from + 1)
    else Candidates(rs, now, limit, from + 1)
  }

  predicate Increasing(s: seq<nat>) {
    forall i, j :: 0 <= i < j < |s| ==> s[i] < s[j]
  }

  // ----- the calling window

  function TimeOfDay(offset: int, now: int): int {
    (now + offset) % DAY
  }

  predicate InWindow(terms: Terms, offset: int, now: int) {
    terms.windowStart <= TimeOfDay(offset, now) < terms.windowEnd
  }

  /** `local_now.replace(hour, minute, second=0, microsecond=0)`, a day later once today's window has closed. */
  function NextOpening(terms: Terms, offset: int, now: int): int {
    var today := now - TimeOfDay(offset, now) + (terms.windowStart - terms.windowStart % MINUTE);
    if TimeOfDay(offset, now) >= terms.windowEnd then today + DAY else today
  }

  // ----- dispatch

  /** How the telephony gateway answered a job; `Unreported` while the worker has not got to it. */
  datatype Outcome = Accepted | Refused(at: int) | Unreported

  function Min(a: int, b: int): int {
    if a < b then a else b
  }

  function Max(a: int, b: int): int {
    if a < b then b else a
  }

  /** The free slots, from a count of the campaign's calls and a count of the company's. */
  function SlotsFrom(maxConcurrency: int, campaignCount: nat, companyCount: nat, cap: int): nat {
    Min(Max(maxConcurrency - campaignCount, 0), Max(cap - companyCount, 0))
  }

  function Slots(c: Campaign, companyActive: nat, cap: int): nat {
    SlotsFrom(c.terms.maxConcurrency, Active(c.recipients), companyActive, cap)
  }

  datatype Scanned = Scanned(recipients: seq<Recipient>, selected: seq<nat>)

  /** The recipient's own zone, else the campaign's, puts this moment inside the calling window. */
  predicate Callable(terms: Terms, r: Recipient, now: int) {
    var zone := r.zone.GetOr(terms.zone);
    zone.Fixed? && InWindow(terms, zone.offset, now)
  }

  /** A candidate that may not be called now: failed when its zone is unknown, else deferred. */
  function PutOff(terms: Terms, r: Recipient, now: int): Recipient {
    var zone := r.zone.GetOr(terms.zone);
    if zone.Unknown? then r.(status := RecipientStatus.Failed)
    else r.(nextAttemptAt := Some(NextOpening(terms, zone.offset, now)))
  }

  /** The candidate loop: take those inside their window until the slots are used, put the others off. */
  function Scan(terms: Terms, rs: seq<Recipient>, candidates: seq<nat>, slots: nat, now: int): Scanned
    requires forall k :: 0 <= k < |candidates| ==> candidates[k] < |rs|
    decreases candidates
  {
    if candidates == [] || slots == 0 then Scanned(rs, [])
    else
      var i := candidates[0];
      if Callable(terms, rs[i], now) then
        var rest := Scan(terms, rs, candidates[1..], slots - 1, now);
        rest.(selected := [i] + rest.selected)
      else Scan(terms, rs[i := PutOff(terms, rs[i], now)], candidates[1..], slots, now)
  }

  /** A selected recipient gets its next attempt row. */
  function Enqueue(r: Recipient): Recipient {
    r.(attemptsCount := r.attemptsCount + 1,
       status := Queued,
       attempts := r.attempts + [Attempt(r.attemptsCount + 1, Queued, Initiated)])
  }

  function EnqueueAll(rs: seq<Recipient>, selected: seq<nat>): (r: seq<Recipient>)
    requires forall k :: 0 <= k < |selected| ==> selected[k] < |rs|
    ensures |r| == |rs|
    decreases selected
  {
    if selected == [] then rs
    else EnqueueAll(rs[selected[0] := Enqueue(rs[selected[0]])], selected[1..])
  }

  function WithLast(attempts: seq<Attempt>, status: RecipientStatus, call: CallStatus): seq<Attempt> {
    if attempts == [] then []
    else
      var n := |attempts| - 1;
      attempts[n := attempts[n].(status := status, call := call)]
  }

  /** What the gateway's answer does to the recipient and its newest attempt. */
  function Settle(terms: Terms, r: Recipient, o: Outcome): Recipient {
    match o
    case Unreported => r
    case Accepted => r.(status := Dialing, attempts := WithLast(r.attempts, Dialing, Initiated))
    case Refused(at) =>
      var retry := r.attemptsCount < terms.maxAttempts;
      r.(status := if retry then Pending else RecipientStatus.Failed,
         nextAttemptAt := if retry then Some(at + terms.retryDelay) else r.nextAttemptAt,
         attempts := WithLast(r.attempts, RecipientStatus.Failed, CallStatus.Failed))
  }

  function SettleAll(terms: Terms, rs: seq<Recipient>, selected: seq<nat>, outcomes: seq<Outcome>): (r: seq<Recipient>)
    requires forall k :: 0 <= k < |selected| ==> selected[k] < |rs|
    ensures |r| == |rs|
    decreases selected
  {
    if selected == [] || outcomes == [] then rs
    else SettleAll(terms, rs[selected[0] := Settle(terms, rs[selected[0]], outcomes[0])], selected[1..], outcomes[1..])
  }

  /** What a dispatch does once it has computed its slots. */
  function DispatchWith(c: Campaign, slots: nat, now: int, entitled: bool, connected: bool, outcomes: seq<Outcome>): Campaign {
    if !c.status.Running? || slots == 0 then c
    else if !entitled then c.(status := Paused)
    else
      var s := Scan(c.terms, c.recipients, Candidates(c.recipients, now, 5 * slots, 0), slots, now);
      ScanShape(c.terms, c.recipients, Candidates(c.recipients, now, 5 * slots, 0), slots, now);
      if !connected then c.(status := CampaignStatus.Failed, recipients := s.recipients)
      else c.(recipients := SettleAll(c.terms, EnqueueAll(s.recipients, s.selected), s.selected, outcomes))
  }

  /** One dispatch of a campaign while nothing else touches the company's rows. */
  function DispatchCampaign(
      c: Campaign, companyActive: nat, cap: int, now: int,
      entitled: bool, connected: bool, outcomes: seq<Outcome>): Campaign
  {
    DispatchWith(c, Slots(c, companyActive, cap), now, entitled, connected, outcomes)
  }

  lemma {:induction false} ScanShape(terms: Terms, rs: seq<Recipient>, candidates: seq<nat>, slots: nat, now: int)
    requires forall k :: 0 <= k < |candidates| ==> candidates[k] < |rs|
    ensures var s := Scan(terms, rs, candidates, slots, now);
            && |s.recipients| == |rs| && |s.selected| <= slots && |s.selected| <= |candidates|
            && (forall k :: 0 <= k < |s.selected| ==> s.selected[k] < |rs|)
    decreases candidates
  {
    if candidates != [] && slots != 0 {
      var i := candidates[0];
      if Callable(terms, rs[i], now) {
        ScanShape(terms, rs, candidates[1..], slots - 1, now);
      } else {
        ScanShape(terms, rs[i := PutOff(terms, rs[i], now)], candidates[1..], slots, now);
      }
    }
  }

  // ----- provider events

  predicate EndsAttempt(s: RecipientStatus) {
    s.Completed? || s.Busy? || s.NoAnswer? || s.Failed? || s.Cancelled? || s.DoNotCall?
  }

  predicate Retryable(s: RecipientStatus) {
    s.Busy? || s.NoAnswer? || s.Failed?
  }

  function CallAfter(call: CallStatus, s: RecipientStatus): CallStatus {
    match s
    case Answered => InProgress
    case Completed | DoNotCall | Cancelled => CallStatus.Completed
    case Failed => CallStatus.Failed
    case Busy | NoAnswer => Missed
    case _ => call
  }

  function RecipientAfter(c: Campaign, r: Recipient, s: RecipientStatus, at: int): Recipient {
    if s.Answered? then r.(status := Answered)
    else if !EndsAttempt(s) then r
    else if Retryable(s) && r.attemptsCount < c.terms.maxAttempts && c.status.Running? then
      r.(status := Pending, nextAttemptAt := Some(at + c.terms.retryDelay))
    else r.(status := s)
  }

  /** Recipients that still need work; the campaign completes when there is none. */
  predicate IsOpen(s: RecipientStatus) {
    s.Pending? || IsActive(s)
  }

  predicate AnyOpen(rs: seq<Recipient>) {
    exists i :: 0 <= i < |rs| && IsOpen(rs[i].status)
  }

  function EventCampaign(c: Campaign, ri: nat, ai: nat, s: RecipientStatus, at: int): Campaign
    requires ri < |c.recipients| && ai < |c.recipients[ri].attempts|
  {
    var r := c.recipients[ri];
    var a := r.attempts[ai];
    var told := r.(attempts := r.attempts[ai := a.(status := s, call := CallAfter(a.call, s))]);
    var rs := c.recipients[ri := RecipientAfter(c, told, s, at)];
    c.(recipients := rs,
       status := if c.status.Running? && !AnyOpen(rs) then CampaignStatus.Completed else c.status)
  }

  // ----- operator actions

  predicate CanMove(from: CampaignStatus, to: CampaignStatus) {
    match to
    case Paused => from.Running? || from.Scheduled?
    case Running => from.Paused?
    case Cancelled => from.Draft? || from.Ready? || from.Scheduled? || from.Running? || from.Paused?
    case _ => false
  }

  function CancelWaiting(rs: seq<Recipient>): (r: seq<Recipient>)
    ensures |r| == |rs|
    ensures forall i :: 0 <= i < |rs| ==>
      r[i] == if rs[i].status.Pending? || rs[i].status.Queued? then rs[i].(status := RecipientStatus.Cancelled) else rs[i]
  {
    if rs == [] then []
    else
      var waiting := rs[0].status.Pending? || rs[0].status.Queued?;
      [if waiting then rs[0].(status := RecipientStatus.Cancelled) else rs[0]] + CancelWaiting(rs[1..])
  }

  function MoveCampaign(c: Campaign, to: CampaignStatus, entitled: bool): Campaign {
    if !CanMove(c.status, to) || (to.Running? && !entitled) then c
    else c.(status := to, recipients := if to.Cancelled? then CancelWaiting(c.recipients) else c.recipients)
  }

  /** `validate`: at least one recipient that may be called, and the audio a broadcast needs. */
  predicate IsReady(c: Campaign, audioReady: bool) {
    audioReady && exists i :: 0 <= i < |c.recipients| && !c.recipients[i].status.DoNotCall?
  }

  /** `start` (`to` Running) and `schedule` (`to` Scheduled): the campaign's own status is not consulted. */
  function Launch(c: Campaign, to: CampaignStatus, at: int, audioReady: bool, entitled: bool): Campaign
    requires to.Running? || to.Scheduled?
  {
    if !entitled || !IsReady(c, audioReady) then c else c.(status := to, scheduledAt := Some(at))
  }

  function Edit(c: Campaign, terms: Terms): Campaign {
    if c.status.Draft? || c.status.Ready? || c.status.Paused? then c.(terms := terms) else c
  }

  function Activate(cs: seq<Campaign>, now: int): (r: seq<Campaign>)
    ensures |r| == |cs|
    ensures forall i :: 0 <= i < |cs| ==>
      r[i] == if cs[i].status.Scheduled? && cs[i].scheduledAt.Some? && cs[i].scheduledAt.value <= now
              then cs[i].(status := Running) else cs[i]
  {
    if cs == [] then []
    else
      var ripe := cs[0].status.Scheduled? && cs[0].scheduledAt.Some? && cs[0].scheduledAt.value <= now;
      [if ripe then cs[0].(status := Running) else cs[0]] + Activate(cs[1..], now)
  }

  function Newcomer(phone: string, zone: Option<Zone>, blocked: bool): Recipient {
    Recipient(phone, zone, if blocked then DoNotCall else Pending, 0, None, [])
  }

  predicate IsNewcomer(r: Recipient) {
    r.attemptsCount == 0 && r.attempts == [] && (r.status.Pending? || r.status.DoNotCall?)
  }

  /** Importing contacts: `added` are the newly created rows. */
  function Import(c: Campaign, added: seq<Recipient>, replace: bool): Campaign {
    if !c.status.Draft? && !c.status.Ready? then c
    else
      var kept := if replace then [] else c.recipients;
      c.(recipients := kept + added, status := if kept + added != [] then Ready else Draft)
  }

  // ----- the machine

  datatype Step =
    | Create(terms: Terms, first: Option<Recipient>)
    | ImportContacts(ci: nat, added: seq<Recipient>, replace: bool)
    | Update(ci: nat, newTerms: Terms)
    | Start(ci: nat, now: int, audioReady: bool, entitled: bool)
    | Schedule(ci: nat, at: int, audioReady: bool, entitled: bool)
    | SetStatus(ci: nat, to: CampaignStatus, entitled: bool)
    | ActivateDue(now: int)
    | Dispatch(ci: nat, now: int, entitled: bool, connected: bool, outcomes: seq<Outcome>)
    | Event(ci: nat, ri: nat, ai: nat, status: RecipientStatus, at: int)

  /** The campaign a step works on; steps aimed at a missing row fail and change nothing. */
  predicate Targets(s: Company, step: Step) {
    match step
    case Create(_, _) => false
    case ActivateDue(_) => false
    case Event(ci, ri, ai, _, _) =>
      ci < |s.campaigns| && ri < |s.campaigns[ci].recipients| && ai < |s.campaigns[ci].recipients[ri].attempts|
    case _ => step.ci < |s.campaigns|
  }

  function CampaignAfter(s: Company, step: Step, cap: int): Campaign
    requires Targets(s, step)
  {
    var c := s.campaigns[step.ci];
    match step
    case ImportContacts(_, added, replace) => if forall r :: r in added ==> IsNewcomer(r) then Import(c, added, replace) else c
    case Update(_, terms) => Edit(c, terms)
    case Start(_, now, audioReady, entitled) => Launch(c, Running, now, audioReady, entitled)
    case Schedule(_, at, audioReady, entitled) => Launch(c, Scheduled, at, audioReady, entitled)
    case SetStatus(_, to, entitled) => MoveCampaign(c, to, entitled)
    case Dispatch(_, now, entitled, connected, outcomes) =>
      DispatchCampaign(c, CompanyActive(s.campaigns), cap, now, entitled, connected, outcomes)
    case Event(_, ri, ai, status, at) => EventCampaign(c, ri, ai, status, at)
  }

  function NewCampaign(terms: Terms, first: Option<Recipient>, cap: int): Campaign {
    var clamped := terms.(maxConcurrency := Min(terms.maxConcurrency, cap));
    if first.Some? && IsNewcomer(first.value) then Campaign(Ready, clamped, None, [first.value])
    else Campaign(Draft, clamped, None, [])
  }

  /** A provider event that reports an opt-out puts the number on the company's do-not-call list. */
  function ListAfter(s: Company, step: Step): set<string> {
    if step.Event? && Targets(s, step) && step.status.DoNotCall?
    then s.doNotCall + {s.campaigns[step.ci].recipients[step.ri].phone}
    else s.doNotCall
  }

  function Apply(s: Company, step: Step, cap: int): Company {
    if step.Create? then s.(campaigns := s.campaigns + [NewCampaign(step.terms, step.first, cap)])
    else if step.ActivateDue? then s.(campaigns := Activate(s.campaigns, step.now))
    else if Targets(s, step) then
      Company(s.campaigns[step.ci := CampaignAfter(s, step, cap)], ListAfter(s, step))
    else s
  }

  function Run(s: Company, steps: seq<Step>, cap: int): Company
    decreases steps
  {
    if steps == [] then s else Run(Apply(s, steps[0], cap), steps[1..], cap)
  }
}
