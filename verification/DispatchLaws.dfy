/** What one dispatch does: concurrency caps, the calling window, and progress. */
module DispatchLaws {
  import opened Wrappers
  import opened Campaigns

  lemma {:induction false} ActiveUpdate(rs: seq<Recipient>, i: nat, r: Recipient)
    requires i < |rs|
    ensures Active(rs[i := r]) == Active(rs) - One(IsActive(rs[i].status)) + One(IsActive(r.status))
  {
    if i == 0 {
      assert rs[0 := r][1..] == rs[1..];
    } else {
      ActiveUpdate(rs[1..], i - 1, r);
      assert rs[i := r][1..] == rs[1..][i - 1 := r];
    }
  }

  lemma {:induction false} CompanyUpdate(cs: seq<Campaign>, i: nat, c: Campaign)
    requires i < |cs|
    ensures CompanyActive(cs[i := c]) == CompanyActive(cs) - Active(cs[i].recipients) + Active(c.recipients)
  {
    if i == 0 {
      assert cs[0 := c][1..] == cs[1..];
    } else {
      CompanyUpdate(cs[1..], i - 1, c);
      assert cs[i := c][1..] == cs[1..][i - 1 := c];
    }
  }

  /** Positions, in order, of due recipients. */
  ghost predicate DueAt(rs: seq<Recipient>, positions: seq<nat>, now: int) {
    && Increasing(positions)
    && forall k :: 0 <= k < |positions| ==> positions[k] < |rs| && Due(rs[positions[k]], now)
  }

  lemma PuttingOffStartsNoCall(terms: Terms, r: Recipient, now: int)
    requires Due(r, now)
    ensures !IsActive(r.status) && !IsActive(PutOff(terms, r, now).status)
  {
  }

  /** The later positions are unaffected by what happens at the first. */
  lemma LaterAreDue(rs: seq<Recipient>, positions: seq<nat>, now: int, r: Recipient)
    requires DueAt(rs, positions, now) && positions != []
    ensures DueAt(rs, positions[1..], now) && DueAt(rs[positions[0] := r], positions[1..], now)
    ensures forall k :: k in positions[1..] ==> k > positions[0] && k in positions
    ensures forall k :: k in positions ==> k == positions[0] || k in positions[1..]
  {
    hide Due;
    var rest := positions[1..];
    assert forall k :: 0 <= k < |rest| ==> rest[k] == positions[k + 1];
  }

  /** The loop at a callable candidate. */
  lemma ScanTakes(terms: Terms, rs: seq<Recipient>, candidates: seq<nat>, slots: nat, now: int)
    requires (forall k :: 0 <= k < |candidates| ==> candidates[k] < |rs|) && candidates != [] && slots > 0
    requires Callable(terms, rs[candidates[0]], now)
    ensures var rest := Scan(terms, rs, candidates[1..], slots - 1, now);
            Scan(terms, rs, candidates, slots, now) == rest.(selected := [candidates[0]] + rest.selected)
  {
    hide Callable;
  }

  /** The loop at a candidate that may not be called now. */
  lemma ScanSkips(terms: Terms, rs: seq<Recipient>, candidates: seq<nat>, slots: nat, now: int)
    requires (forall k :: 0 <= k < |candidates| ==> candidates[k] < |rs|) && candidates != [] && slots > 0
    requires !Callable(terms, rs[candidates[0]], now)
    ensures var i := candidates[0];
            Scan(terms, rs, candidates, slots, now)
            == Scan(terms, rs[i := PutOff(terms, rs[i], now)], candidates[1..], slots, now)
  {
    hide Callable, PutOff;
  }

  lemma ScanStops(terms: Terms, rs: seq<Recipient>, candidates: seq<nat>, slots: nat, now: int)
    requires forall k :: 0 <= k < |candidates| ==> candidates[k] < |rs|
    requires candidates == [] || slots == 0
    ensures Scan(terms, rs, candidates, slots, now) == Scanned(rs, [])
  {
  }

  /** The candidate loop selects callable candidates only, in order, and no more than there are slots. */
  lemma {:induction false} ScanSelects(terms: Terms, rs: seq<Recipient>, candidates: seq<nat>, slots: nat, now: int)
    requires DueAt(rs, candidates, now)
    ensures var s := Scan(terms, rs, candidates, slots, now);
            && |s.selected| <= slots && DueAt(rs, s.selected, now)
            && (forall i :: i in s.selected ==> i in candidates && Callable(terms, rs[i], now))
    decreases candidates
  {
    hide Scan, PutOff, Callable, Due, DueAt;
    DueAreInRange(rs, candidates, now);
    if candidates == [] || slots == 0 {
      ScanStops(terms, rs, candidates, slots, now);
      NoneAreDue(rs, now);
    } else {
      var i, rest := candidates[0], candidates[1..];
      LaterAreDue(rs, candidates, now, PutOff(terms, rs[i], now));
      if Callable(terms, rs[i], now) {
        ScanTakes(terms, rs, candidates, slots, now);
        ScanSelects(terms, rs, rest, slots - 1, now);
        OneMoreIsDue(rs, candidates, Scan(terms, rs, rest, slots - 1, now).selected, now);
      } else {
        var put := rs[i := PutOff(terms, rs[i], now)];
        ScanSkips(terms, rs, candidates, slots, now);
        ScanSelects(terms, put, rest, slots, now);
        StillDue(rs, put, i, Scan(terms, put, rest, slots, now).selected, now);
      }
    }
  }

  lemma DueAreInRange(rs: seq<Recipient>, positions: seq<nat>, now: int)
    requires DueAt(rs, positions, now)
    ensures forall k :: 0 <= k < |positions| ==> positions[k] < |rs|
    ensures forall i :: i in positions ==> i < |rs| && Due(rs[i], now)
  {
    hide Due;
  }

  lemma NoneAreDue(rs: seq<Recipient>, now: int)
    ensures DueAt(rs, [], now)
  {
  }

  /** The first candidate goes before any selection from the later ones. */
  lemma OneMoreIsDue(rs: seq<Recipient>, candidates: seq<nat>, selected: seq<nat>, now: int)
    requires DueAt(rs, candidates, now) && candidates != [] && DueAt(rs, selected, now)
    requires forall i :: i in selected ==> i in candidates[1..]
    ensures DueAt(rs, [candidates[0]] + selected, now)
    ensures forall i :: i in [candidates[0]] + selected <==> i == candidates[0] || i in selected
  {
    hide Due;
    var all := [candidates[0]] + selected;
    forall k | 0 < k < |all|
      ensures all[k] == selected[k - 1] && all[0] < all[k]
    {
      assert selected[k - 1] in selected;
    }
  }

  /** Putting off one recipient does not matter for positions after it. */
  lemma StillDue(rs: seq<Recipient>, put: seq<Recipient>, i: nat, selected: seq<nat>, now: int)
    requires i < |rs| && |put| == |rs| && (forall j :: 0 <= j < |rs| && j != i ==> put[j] == rs[j])
    requires DueAt(put, selected, now) && i !in selected
    ensures DueAt(rs, selected, now)
    ensures forall j :: j in selected ==> j < |rs| && rs[j] == put[j]
  {
    hide Due;
    forall k | 0 <= k < |selected|
      ensures selected[k] < |rs| && rs[selected[k]] == put[selected[k]]
    {
      assert selected[k] in selected;
    }
  }

  /** It starts no call itself. */
  lemma {:induction false} ScanKeepsActive(terms: Terms, rs: seq<Recipient>, candidates: seq<nat>, slots: nat, now: int)
    requires DueAt(rs, candidates, now)
    ensures var s := Scan(terms, rs, candidates, slots, now);
            |s.recipients| == |rs| && Active(s.recipients) == Active(rs)
    decreases candidates
  {
    hide PutOff, Callable, Due, Active;
    if candidates != [] && slots != 0 {
      var i, rest := candidates[0], candidates[1..];
      LaterAreDue(rs, candidates, now, PutOff(terms, rs[i], now));
      if Callable(terms, rs[i], now) {
        ScanKeepsActive(terms, rs, rest, slots - 1, now);
      } else {
        ActiveUpdate(rs, i, PutOff(terms, rs[i], now));
        PuttingOffStartsNoCall(terms, rs[i], now);
        ScanKeepsActive(terms, rs[i := PutOff(terms, rs[i], now)], rest, slots, now);
      }
    }
  }

  /** It changes a recipient only by putting off an uncallable candidate. */
  lemma {:induction false} ScanPutsOff(terms: Terms, rs: seq<Recipient>, candidates: seq<nat>, slots: nat, now: int, j: nat)
    requires DueAt(rs, candidates, now) && j < |rs|
    ensures var s := Scan(terms, rs, candidates, slots, now);
            && |s.recipients| == |rs|
            && (s.recipients[j] == rs[j]
                || (j in candidates && !Callable(terms, rs[j], now) && s.recipients[j] == PutOff(terms, rs[j], now)))
            && (j !in candidates ==> s.recipients[j] == rs[j])
    decreases candidates
  {
    hide PutOff, Callable, Due;
    if candidates != [] && slots != 0 {
      var i, rest := candidates[0], candidates[1..];
      LaterAreDue(rs, candidates, now, PutOff(terms, rs[i], now));
      if Callable(terms, rs[i], now) {
        ScanPutsOff(terms, rs, rest, slots - 1, now, j);
      } else {
        ScanPutsOff(terms, rs[i := PutOff(terms, rs[i], now)], rest, slots, now, j);
      }
    }
  }

  /** It stops early only when the slots are used up: otherwise every candidate is selected or put off. */
  lemma {:induction false} ScanIsComplete(terms: Terms, rs: seq<Recipient>, candidates: seq<nat>, slots: nat, now: int, j: nat)
    requires DueAt(rs, candidates, now) && j in candidates
    ensures var s := Scan(terms, rs, candidates, slots, now);
            || |s.selected| == slots
            || (Callable(terms, rs[j], now) && j in s.selected)
            || (!Callable(terms, rs[j], now) && j < |s.recipients| && s.recipients[j] == PutOff(terms, rs[j], now))
    decreases candidates
  {
    hide PutOff, Callable, Due;
    if slots != 0 {
      var i, rest := candidates[0], candidates[1..];
      var put := rs[i := PutOff(terms, rs[i], now)];
      LaterAreDue(rs, candidates, now, PutOff(terms, rs[i], now));
      if j == i {
        if !Callable(terms, rs[i], now) {
          ScanPutsOff(terms, put, rest, slots, now, j);
        }
      } else if Callable(terms, rs[i], now) {
        ScanIsComplete(terms, rs, rest, slots - 1, now, j);
      } else {
        ScanIsComplete(terms, put, rest, slots, now, j);
      }
    }
  }

  lemma {:induction false} EnqueueCounts(rs: seq<Recipient>, selected: seq<nat>, now: int)
    requires DueAt(rs, selected, now)
    ensures Active(EnqueueAll(rs, selected)) == Active(rs) + |selected|
    decreases selected
  {
    hide Active;
    if selected != [] {
      LaterAreDue(rs, selected, now, Enqueue(rs[selected[0]]));
      ActiveUpdate(rs, selected[0], Enqueue(rs[selected[0]]));
      EnqueueCounts(rs[selected[0] := Enqueue(rs[selected[0]])], selected[1..], now);
    }
  }

  lemma {:induction false} EnqueueAt(rs: seq<Recipient>, selected: seq<nat>, now: int, j: nat)
    requires DueAt(rs, selected, now) && j < |rs|
    ensures EnqueueAll(rs, selected)[j] == if j in selected then Enqueue(rs[j]) else rs[j]
    decreases selected
  {
    hide Enqueue, Due;
    if selected != [] {
      LaterAreDue(rs, selected, now, Enqueue(rs[selected[0]]));
      EnqueueAt(rs[selected[0] := Enqueue(rs[selected[0]])], selected[1..], now, j);
    }
  }

  lemma {:induction false} SettleNeverAdds(terms: Terms, rs: seq<Recipient>, selected: seq<nat>, outcomes: seq<Outcome>)
    requires Increasing(selected)
    requires forall k :: 0 <= k < |selected| ==> selected[k] < |rs| && rs[selected[k]].status.Queued?
    ensures Active(SettleAll(terms, rs, selected, outcomes)) <= Active(rs)
    decreases selected
  {
    hide Active;
    if selected != [] && outcomes != [] {
      var i, rest := selected[0], selected[1..];
      assert forall k :: 0 <= k < |rest| ==> rest[k] == selected[k + 1] && rest[k] > i;
      ActiveUpdate(rs, i, Settle(terms, rs[i], outcomes[0]));
      SettleNeverAdds(terms, rs[i := Settle(terms, rs[i], outcomes[0])], rest, outcomes[1..]);
    }
  }

  lemma {:induction false} SettleAt(terms: Terms, rs: seq<Recipient>, selected: seq<nat>, outcomes: seq<Outcome>, j: nat)
    requires Increasing(selected) && j < |rs|
    requires forall k :: 0 <= k < |selected| ==> selected[k] < |rs|
    ensures var r := SettleAll(terms, rs, selected, outcomes);
            || r[j] == rs[j]
            || (j in selected && exists o :: o in outcomes && r[j] == Settle(terms, rs[j], o))
    ensures j !in selected ==> SettleAll(terms, rs, selected, outcomes)[j] == rs[j]
    decreases selected
  {
    hide Settle;
    if selected != [] && outcomes != [] {
      var i, rest := selected[0], selected[1..];
      assert forall k :: 0 <= k < |rest| ==> rest[k] == selected[k + 1] && rest[k] > i;
      assert outcomes[0] in outcomes;
      SettleAt(terms, rs[i := Settle(terms, rs[i], outcomes[0])], rest, outcomes[1..], j);
    }
  }

  /** How one dispatch may change one recipient. */
  ghost predicate DispatchedFrom(terms: Terms, r: Recipient, after: Recipient, now: int, outcomes: seq<Outcome>) {
    || after == r
    || (Due(r, now) && !Callable(terms, r, now) && after == PutOff(terms, r, now))
    || (Due(r, now) && Callable(terms, r, now)
        && (after == Enqueue(r) || exists o :: o in outcomes && after == Settle(terms, Enqueue(r), o)))
  }

  /** The candidates of a dispatch. */
  function Called(c: Campaign, companyActive: nat, cap: int, now: int): seq<nat> {
    Candidates(c.recipients, now, 5 * Slots(c, companyActive, cap), 0)
  }

  /** A dispatch adds no more calls than the slots it computed. */
  lemma DispatchAddsAtMostSlots(c: Campaign, slots: nat, now: int, entitled: bool, connected: bool, outcomes: seq<Outcome>)
    ensures Active(DispatchWith(c, slots, now, entitled, connected, outcomes).recipients) <= Active(c.recipients) + slots
  {
    hide Active, Candidates, Scan, EnqueueAll, SettleAll, Increasing;
    if c.status.Running? && slots > 0 && entitled {
      var candidates := Candidates(c.recipients, now, 5 * slots, 0);
      CandidatesAreDue(c.recipients, now, 5 * slots);
      ScanSelects(c.terms, c.recipients, candidates, slots, now);
      ScanKeepsActive(c.terms, c.recipients, candidates, slots, now);
      if connected {
        var s := Scan(c.terms, c.recipients, candidates, slots, now);
        QueueIsQueued(c.terms, c.recipients, candidates, slots, now);
        EnqueueCounts(s.recipients, s.selected, now);
        SettleNeverAdds(c.terms, EnqueueAll(s.recipients, s.selected), s.selected, outcomes);
      }
    }
  }

  /** Neither cap is passed by a dispatch, however the gateway answers and wherever the worker stops. */
  lemma DispatchKeepsCaps(
      c: Campaign, companyActive: nat, cap: int, now: int, entitled: bool, connected: bool, outcomes: seq<Outcome>)
    requires Active(c.recipients) <= companyActive
    ensures var d := DispatchCampaign(c, companyActive, cap, now, entitled, connected, outcomes);
            && Active(d.recipients) <= Max(Active(c.recipients), c.terms.maxConcurrency)
            && companyActive - Active(c.recipients) + Active(d.recipients) <= Max(companyActive, cap)
  {
    hide Active, DispatchWith;
    DispatchAddsAtMostSlots(c, Slots(c, companyActive, cap), now, entitled, connected, outcomes);
  }

  lemma CandidatesAreDue(rs: seq<Recipient>, now: int, limit: nat)
    ensures DueAt(rs, Candidates(rs, now, limit, 0), now)
  {
  }

  lemma QueueIsQueued(terms: Terms, rs: seq<Recipient>, candidates: seq<nat>, slots: nat, now: int)
    requires DueAt(rs, candidates, now)
    ensures var s := Scan(terms, rs, candidates, slots, now);
            && |s.recipients| == |rs|
            && DueAt(s.recipients, s.selected, now)
            && forall k :: 0 <= k < |s.selected| ==> EnqueueAll(s.recipients, s.selected)[s.selected[k]].status.Queued?
  {
    hide Due, Scan, PutOff, Callable;
    var s := Scan(terms, rs, candidates, slots, now);
    ScanSelects(terms, rs, candidates, slots, now);
    ScanKeepsActive(terms, rs, candidates, slots, now);
    forall k | 0 <= k < |s.selected|
      ensures s.recipients[s.selected[k]] == rs[s.selected[k]]
    {
      assert s.selected[k] in s.selected;
      ScanPutsOff(terms, rs, candidates, slots, now, s.selected[k]);
    }
    forall k | 0 <= k < |s.selected|
      ensures EnqueueAll(s.recipients, s.selected)[s.selected[k]].status.Queued?
    {
      EnqueueAt(s.recipients, s.selected, now, s.selected[k]);
    }
  }

  /** Every recipient is left alone, put off, or called once. */
  lemma DispatchAt(
      c: Campaign, companyActive: nat, cap: int, now: int, entitled: bool, connected: bool, outcomes: seq<Outcome>, j: nat)
    requires j < |c.recipients|
    ensures var d := DispatchCampaign(c, companyActive, cap, now, entitled, connected, outcomes);
            && d.terms == c.terms && |d.recipients| == |c.recipients|
            && DispatchedFrom(c.terms, c.recipients[j], d.recipients[j], now, outcomes)
  {
    hide Due, Scan, EnqueueAll, SettleAll, Active, Candidates, PutOff, Callable, Enqueue, Settle;
    var slots := Slots(c, companyActive, cap);
    if c.status.Running? && slots > 0 && entitled {
      var candidates := Called(c, companyActive, cap, now);
      CandidatesAreDue(c.recipients, now, 5 * slots);
      ScanSelects(c.terms, c.recipients, candidates, slots, now);
      ScanPutsOff(c.terms, c.recipients, candidates, slots, now, j);
      if connected {
        var s := Scan(c.terms, c.recipients, candidates, slots, now);
        QueueIsQueued(c.terms, c.recipients, candidates, slots, now);
        EnqueueAt(s.recipients, s.selected, now, j);
        SettleAt(c.terms, EnqueueAll(s.recipients, s.selected), s.selected, outcomes, j);
      }
    }
  }

  // ----- the calling window

  /** Times of day as the database stores them; an update can store a window that starts after it ends. */
  predicate StoredWindow(terms: Terms) {
    0 <= terms.windowStart < DAY && 0 <= terms.windowEnd < DAY
  }

  lemma DayShift(offset: int, now: int, t: int)
    ensures 0 <= TimeOfDay(offset, now) < DAY
    ensures TimeOfDay(offset, now) + (t - now) < DAY && now <= t ==> TimeOfDay(offset, t) == TimeOfDay(offset, now) + (t - now)
    ensures DAY <= TimeOfDay(offset, now) + (t - now) < 2 * DAY ==> TimeOfDay(offset, t) == TimeOfDay(offset, now) + (t - now) - DAY
  {
  }

  /**
    Outside the window the stored time is the first instant after `now` inside it,
    exactly when the window starts on a full minute and before it ends.
   */
  lemma DeferralIsExact(terms: Terms, offset: int, now: int)
    requires StoredWindow(terms) && !InWindow(terms, offset, now)
    ensures var next := NextOpening(terms, offset, now);
            (next > now && InWindow(terms, offset, next) && forall t :: now < t < next ==> !InWindow(terms, offset, t))
            <==> terms.windowStart % MINUTE == 0 && terms.windowStart < terms.windowEnd
  {
    var next := NextOpening(terms, offset, now);
    var floor := terms.windowStart - terms.windowStart % MINUTE;
    assert TimeOfDay(offset, next) == floor by {
      assert next + offset == (now + offset) - (now + offset) % DAY + floor + (next - now + TimeOfDay(offset, now) - floor);
      DayMultiple(now + offset, floor);
    }
    if terms.windowStart % MINUTE == 0 && terms.windowStart < terms.windowEnd {
      forall t | now < t < next
        ensures !InWindow(terms, offset, t)
      {
        DayShift(offset, now, t);
      }
    }
  }

  /** A window admits some instant of the day exactly when it starts before it ends; an update can store one that does not. */
  lemma WindowOpensExactlyWhenItStartsFirst(terms: Terms, offset: int)
    requires 0 <= terms.windowStart < DAY && 0 <= terms.windowEnd < DAY
    ensures (exists now: int :: InWindow(terms, offset, now)) <==> terms.windowStart < terms.windowEnd
  {
    if terms.windowStart < terms.windowEnd {
      assert InWindow(terms, offset, terms.windowStart - offset);
    }
  }

  lemma DayMultiple(x: int, y: int)
    requires 0 <= y < DAY
    ensures (x - x % DAY + y) % DAY == y
    ensures (x - x % DAY + y + DAY) % DAY == y
  {
    var days := x / DAY;
    assert x - x % DAY == DAY * days;
    DaysAndRest(days, y);
    DaysAndRest(days + 1, y);
  }

  lemma DaysAndRest(days: int, y: int)
    requires 0 <= y < DAY
    ensures (DAY * days + y) % DAY == y
  {
  }

  /** A put-off recipient stays due only in the part of the opening minute before the window opens, or would close. */
  lemma DeferralLeavesTheDueSet(terms: Terms, offset: int, now: int)
    requires 0 <= terms.windowStart && !InWindow(terms, offset, now)
    ensures NextOpening(terms, offset, now) > now
            <==> !(terms.windowStart - terms.windowStart % MINUTE
                   <= TimeOfDay(offset, now) < Min(terms.windowStart, terms.windowEnd))
  {
  }

  // ----- progress

  function DueCount(rs: seq<Recipient>, now: int): nat {
    if rs == [] then 0 else One(Due(rs[0], now)) + DueCount(rs[1..], now)
  }

  lemma {:induction false} CandidatesAreFirst(rs: seq<Recipient>, now: int, limit: nat, from: nat)
    requires from <= |rs|
    ensures |Candidates(rs, now, limit, from)| == Min(limit, DueCount(rs[from..], now))
    ensures |Candidates(rs, now, limit, from)| < limit ==>
              forall i :: from <= i < |rs| && Due(rs[i], now) ==> i in Candidates(rs, now, limit, from)
    ensures forall i, j :: from <= i < j < |rs| && Due(rs[i], now) && j in Candidates(rs, now, limit, from)
              ==> i in Candidates(rs, now, limit, from)
    decreases |rs| - from
  {
    if limit > 0 && from < |rs| {
      assert rs[from..][1..] == rs[from + 1..];
      if Due(rs[from], now) {
        CandidatesAreFirst(rs, now, limit - 1, from + 1);
        var rest := Candidates(rs, now, limit - 1, from + 1);
        assert forall i :: i in [from] + rest <==> i == from || i in rest;
      } else {
        CandidatesAreFirst(rs, now, limit, from + 1);
      }
    }
  }

  /** The positions a dispatch selects for calling. */
  function Selected(c: Campaign, companyActive: nat, cap: int, now: int): seq<nat> {
    CandidatesAreDue(c.recipients, now, 5 * Slots(c, companyActive, cap));
    Scan(c.terms, c.recipients, Called(c, companyActive, cap, now), Slots(c, companyActive, cap), now).selected
  }

  /** A window that starts on a full minute, and a gateway whose refusals are not reported before `now`. */
  ghost predicate Punctual(terms: Terms, now: int, outcomes: seq<Outcome>) {
    && 0 <= terms.windowStart < DAY && terms.windowStart % MINUTE == 0 && terms.retryDelay > 0
    && forall o :: o in outcomes && o.Refused? ==> o.at >= now
  }

  lemma PutOffIsNotDue(terms: Terms, r: Recipient, now: int, outcomes: seq<Outcome>)
    requires Punctual(terms, now, outcomes) && !Callable(terms, r, now)
    ensures !Due(PutOff(terms, r, now), now)
  {
    var zone := r.zone.GetOr(terms.zone);
    if zone.Fixed? {
      DeferralLeavesTheDueSet(terms, zone.offset, now);
    }
  }

  lemma CalledIsNotDue(terms: Terms, r: Recipient, now: int, outcomes: seq<Outcome>)
    requires Punctual(terms, now, outcomes)
    ensures !Due(Enqueue(r), now)
    ensures forall o :: o in outcomes ==> !Due(Settle(terms, Enqueue(r), o), now)
  {
  }

  /** Nobody becomes due by being dispatched. */
  lemma NobodyBecomesDue(
      c: Campaign, companyActive: nat, cap: int, now: int, entitled: bool, connected: bool, outcomes: seq<Outcome>, j: nat)
    requires j < |c.recipients| && Punctual(c.terms, now, outcomes)
    ensures var d := DispatchCampaign(c, companyActive, cap, now, entitled, connected, outcomes);
            && |d.recipients| == |c.recipients|
            && (Due(d.recipients[j], now) ==> d.recipients[j] == c.recipients[j])
  {
    hide Due, Callable, PutOff, Enqueue, Settle, DispatchCampaign, Punctual;
    DispatchAt(c, companyActive, cap, now, entitled, connected, outcomes, j);
    var r := c.recipients[j];
    CalledIsNotDue(c.terms, r, now, outcomes);
    if !Callable(c.terms, r, now) {
      PutOffIsNotDue(c.terms, r, now, outcomes);
    }
  }

  /** With a free slot, the first due recipient leaves the due set. */
  lemma FirstCandidateMoves(terms: Terms, rs: seq<Recipient>, candidates: seq<nat>, slots: nat, now: int)
    requires DueAt(rs, candidates, now) && candidates != [] && slots > 0
    ensures var s := Scan(terms, rs, candidates, slots, now);
            || (Callable(terms, rs[candidates[0]], now) && candidates[0] in s.selected)
            || (!Callable(terms, rs[candidates[0]], now) && |s.recipients| == |rs|
                && s.recipients[candidates[0]] == PutOff(terms, rs[candidates[0]], now))
  {
    hide PutOff, Callable, Due;
    var i, rest := candidates[0], candidates[1..];
    LaterAreDue(rs, candidates, now, PutOff(terms, rs[i], now));
    if !Callable(terms, rs[i], now) {
      ScanPutsOff(terms, rs[i := PutOff(terms, rs[i], now)], rest, slots, now, i);
    }
  }

  /** What became of one candidate once its selection or deferral is known. */
  lemma ProcessedIsNotDue(
      c: Campaign, companyActive: nat, cap: int, now: int, outcomes: seq<Outcome>, j: nat)
    requires c.status.Running? && Slots(c, companyActive, cap) > 0
    requires Punctual(c.terms, now, outcomes)
    requires var s := Scan(c.terms, c.recipients, Called(c, companyActive, cap, now), Slots(c, companyActive, cap), now);
             && j < |c.recipients| && |s.recipients| == |c.recipients|
             && (j in s.selected
                 || (!Callable(c.terms, c.recipients[j], now) && s.recipients[j] == PutOff(c.terms, c.recipients[j], now)))
    ensures var d := DispatchCampaign(c, companyActive, cap, now, true, true, outcomes);
            |d.recipients| == |c.recipients| && !Due(d.recipients[j], now)
  {
    hide Due, Scan, EnqueueAll, SettleAll, Active, Candidates, PutOff, Callable, Enqueue, Settle, Punctual;
    var slots := Slots(c, companyActive, cap);
    var candidates := Called(c, companyActive, cap, now);
    CandidatesAreDue(c.recipients, now, 5 * slots);
    ScanSelects(c.terms, c.recipients, candidates, slots, now);
    var s := Scan(c.terms, c.recipients, candidates, slots, now);
    QueueIsQueued(c.terms, c.recipients, candidates, slots, now);
    EnqueueAt(s.recipients, s.selected, now, j);
    SettleAt(c.terms, EnqueueAll(s.recipients, s.selected), s.selected, outcomes, j);
    if j in s.selected {
      CalledIsNotDue(c.terms, s.recipients[j], now, outcomes);
    } else {
      PutOffIsNotDue(c.terms, c.recipients[j], now, outcomes);
    }
  }

  /**
    One dispatch with free slots fills them all, or every recipient it looked at leaves the due set;
    it looks at the first five times as many due recipients as there are slots.
   */
  lemma DispatchDoesNotStarve(c: Campaign, companyActive: nat, cap: int, now: int, outcomes: seq<Outcome>)
    requires c.status.Running? && Slots(c, companyActive, cap) > 0 && Punctual(c.terms, now, outcomes)
    ensures var d := DispatchCampaign(c, companyActive, cap, now, true, true, outcomes);
            var called := Called(c, companyActive, cap, now);
            && |d.recipients| == |c.recipients|
            && |called| == Min(5 * Slots(c, companyActive, cap), DueCount(c.recipients, now))
            && (forall i, j :: 0 <= i < j < |c.recipients| && Due(c.recipients[i], now) && j in called ==> i in called)
            && (|Selected(c, companyActive, cap, now)| == Slots(c, companyActive, cap)
                || forall j :: j in called ==> j < |d.recipients| && !Due(d.recipients[j], now))
  {
    hide Due, Scan, Active, Candidates, PutOff, Callable, DispatchCampaign, Punctual;
    var slots := Slots(c, companyActive, cap);
    var called := Called(c, companyActive, cap, now);
    CandidatesAreFirst(c.recipients, now, 5 * slots, 0);
    assert c.recipients[0..] == c.recipients;
    CandidatesAreDue(c.recipients, now, 5 * slots);
    DispatchKeepsLength(c, companyActive, cap, now, true, true, outcomes);
    if |Selected(c, companyActive, cap, now)| != slots {
      forall j | j in called
        ensures j < |c.recipients| && !Due(DispatchCampaign(c, companyActive, cap, now, true, true, outcomes).recipients[j], now)
      {
        ScanKeepsActive(c.terms, c.recipients, called, slots, now);
        ScanIsComplete(c.terms, c.recipients, called, slots, now, j);
        ProcessedIsNotDue(c, companyActive, cap, now, outcomes, j);
      }
    }
  }

  lemma DispatchKeepsLength(
      c: Campaign, companyActive: nat, cap: int, now: int, entitled: bool, connected: bool, outcomes: seq<Outcome>)
    ensures var d := DispatchCampaign(c, companyActive, cap, now, entitled, connected, outcomes);
            |d.recipients| == |c.recipients| && d.terms == c.terms
  {
    if c.recipients != [] {
      DispatchAt(c, companyActive, cap, now, entitled, connected, outcomes, 0);
    } else {
      var slots := Slots(c, companyActive, cap);
      ScanShape(c.terms, [], Candidates([], now, 5 * slots, 0), slots, now);
    }
  }

  lemma {:induction false} DueCountDrops(before: seq<Recipient>, after: seq<Recipient>, now: int, first: nat)
    requires |before| == |after|
    requires forall i :: 0 <= i < |before| && Due(after[i], now) ==> Due(before[i], now)
    ensures DueCount(after, now) <= DueCount(before, now)
    ensures first < |before| && Due(before[first], now) && !Due(after[first], now)
            ==> DueCount(after, now) < DueCount(before, now)
  {
    hide Due;
    if before != [] {
      DueCountDrops(before[1..], after[1..], now, if first == 0 then |before| else first - 1);
    }
  }

  /** A dispatch at a fixed time with a free slot and somebody due makes progress. */
  lemma DispatchProgresses(c: Campaign, companyActive: nat, cap: int, now: int, outcomes: seq<Outcome>)
    requires c.status.Running? && Slots(c, companyActive, cap) > 0 && Punctual(c.terms, now, outcomes)
    requires DueCount(c.recipients, now) > 0
    ensures DueCount(DispatchCampaign(c, companyActive, cap, now, true, true, outcomes).recipients, now)
            < DueCount(c.recipients, now)
  {
    hide Due, Scan, Active, Candidates, PutOff, Callable, DispatchCampaign, Punctual;
    var slots := Slots(c, companyActive, cap);
    var called := Called(c, companyActive, cap, now);
    CandidatesAreFirst(c.recipients, now, 5 * slots, 0);
    assert c.recipients[0..] == c.recipients;
    CandidatesAreDue(c.recipients, now, 5 * slots);
    FirstCandidateMoves(c.terms, c.recipients, called, slots, now);
    ScanKeepsActive(c.terms, c.recipients, called, slots, now);
    ProcessedIsNotDue(c, companyActive, cap, now, outcomes, called[0]);
    var d := DispatchCampaign(c, companyActive, cap, now, true, true, outcomes);
    DispatchKeepsLength(c, companyActive, cap, now, true, true, outcomes);
    forall i | 0 <= i < |c.recipients| && Due(d.recipients[i], now)
      ensures Due(c.recipients[i], now)
    {
      NobodyBecomesDue(c, companyActive, cap, now, true, true, outcomes, i);
    }
    DueCountDrops(c.recipients, d.recipients, now, called[0]);
  }

  /** Dispatching the campaign again and again at one moment; `others` are the company's other active calls. */
  function Repeat(c: Campaign, others: nat, cap: int, now: int, rounds: seq<seq<Outcome>>): Campaign
    decreases rounds
  {
    if rounds == [] then c
    else Repeat(DispatchCampaign(c, others + Active(c.recipients), cap, now, true, true, rounds[0]), others, cap, now, rounds[1..])
  }

  /** Enough rounds use up the slots or leave nobody due. */
  lemma {:induction false} RepeatingEmptiesTheDueSet(c: Campaign, others: nat, cap: int, now: int, rounds: seq<seq<Outcome>>)
    requires c.status.Running? && (forall k :: 0 <= k < |rounds| ==> Punctual(c.terms, now, rounds[k]))
    requires |rounds| >= DueCount(c.recipients, now)
    ensures var d := Repeat(c, others, cap, now, rounds);
            Slots(d, others + Active(d.recipients), cap) == 0 || DueCount(d.recipients, now) == 0
    decreases rounds
  {
    hide Due, Active, DueCount, Punctual, Slots;
    if rounds != [] {
      var all := others + Active(c.recipients);
      var d := DispatchCampaign(c, all, cap, now, true, true, rounds[0]);
      DispatchKeepsLength(c, all, cap, now, true, true, rounds[0]);
      if Slots(c, all, cap) > 0 && DueCount(c.recipients, now) > 0 {
        DispatchProgresses(c, all, cap, now, rounds[0]);
        RepeatingEmptiesTheDueSet(d, others, cap, now, rounds[1..]);
      } else {
        RestingStaysPut(c, others, cap, now, rounds);
      }
    }
  }

  /** Once the slots are used or nobody is due, further rounds change nothing. */
  lemma {:induction false} RestingStaysPut(c: Campaign, others: nat, cap: int, now: int, rounds: seq<seq<Outcome>>)
    requires Slots(c, others + Active(c.recipients), cap) == 0 || DueCount(c.recipients, now) == 0
    ensures Repeat(c, others, cap, now, rounds) == c
    decreases rounds
  {
    if rounds != [] {
      var slots := Slots(c, others + Active(c.recipients), cap);
      CandidatesAreFirst(c.recipients, now, 5 * slots, 0);
      assert c.recipients[0..] == c.recipients;
      assert DueCount(c.recipients, now) == 0 ==> Candidates(c.recipients, now, 5 * slots, 0) == [];
      RestingStaysPut(c, others, cap, now, rounds[1..]);
    }
  }

  /** Inside the opening minute of a window that does not open on a full minute, a due recipient stays due. */
  lemma UnalignedWindowStarves()
    ensures exists c: Campaign, now: int, companyActive: nat ::
              && c.status.Running? && StoredWindow(c.terms) && Slots(c, companyActive, 5) > 0
              && DueCount(c.recipients, now) == 1
              && DueCount(DispatchCampaign(c, companyActive, 5, now, true, true, []).recipients, now) == 1
              && Selected(c, companyActive, 5, now) == []
  {
    var terms := Terms(Fixed(0), 30_000_000, DAY - 1, 1, 2, MINUTE);
    var r := Recipient("+14155550101", None, Pending, 0, None, []);
    var c := Campaign(Running, terms, None, [r]);
    var put := PutOff(terms, r, 0);
    assert NextOpening(terms, 0, 0) == 0;
    assert !Callable(terms, r, 0);
    assert Active([r][1..]) == 0;
    assert Slots(c, 0, 5) == 1;
    assert Candidates([r], 0, 4, 1) == [];
    assert Candidates([r], 0, 5, 0) == [0];
    assert [r][0 := put] == [put];
    assert Scan(terms, [r], [0], 1, 0) == Scan(terms, [put], [], 1, 0);
    assert DispatchCampaign(c, 0, 5, 0, true, true, []).recipients == [put];
    assert Due(put, 0);
    assert DueCount([put][1..], 0) == 0;
  }
}
