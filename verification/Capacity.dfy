/** Concurrent creates under a plan limit: every create holds the subscription row from its check to its commit. */
module Capacity {
  import opened Wrappers

  datatype Resource = Agents | Integrations

  datatype Pair<T> = Pair(agents: T, integrations: T) {
    function Get(r: Resource): T {
      if r.Agents? then agents else integrations
    }

    function Set(r: Resource, value: T): Pair<T> {
      if r.Agents? then this.(agents := value) else this.(integrations := value)
    }
  }

  datatype Phase = Waiting | Holding | Checked | Inserted

  datatype Transaction = Transaction(resource: Resource, phase: Phase)

  /** One company: its plan's limits (None for unlimited), its committed rows, the holder of its row lock, its open transactions. */
  datatype State = State(
    limits: Pair<Option<nat>>, rows: Pair<nat>, holder: Option<nat>, transactions: map<nat, Transaction>)

  datatype Step =
    | Begin(t: nat, resource: Resource)
    | Lock(locker: nat, entitled: bool)     // `require_active_subscription`, which may refuse
    | Check(checker: nat)                   // count the committed rows
    | Insert(inserter: nat)
    | Commit(committer: nat)
    | Rollback(quitter: nat)                // any failure of the request
    | Delete(deleted: Resource)             // takes no lock
    | SetLimits(to: Pair<Option<nat>>)      // another plan; it updates the locked row

  predicate HasRoom(s: State, r: Resource) {
    s.limits.Get(r).None? || s.rows.Get(r) < s.limits.Get(r).value
  }

  predicate InPhase(s: State, t: nat, phase: Phase) {
    t in s.transactions && s.transactions[t].phase == phase
  }

  function MoveTo(s: State, t: nat, phase: Phase): State
    requires t in s.transactions
  {
    s.(transactions := s.transactions[t := s.transactions[t].(phase := phase)])
  }

  /** The end of a transaction, which gives up its lock. */
  function Ended(s: State, t: nat): State {
    s.(transactions := s.transactions - {t}, holder := if s.holder == Some(t) then None else s.holder)
  }

  /** `locking` is true of the code; without it the row would be read and not locked. */
  function Next(s: State, step: Step, locking: bool): State {
    match step
    case Begin(t, r) => if t in s.transactions then s else s.(transactions := s.transactions[t := Transaction(r, Waiting)])
    case Lock(t, entitled) =>
      if !InPhase(s, t, Waiting) || (locking && s.holder.Some?) then s
      else if !entitled then Ended(s, t)
      else MoveTo(s, t, Holding).(holder := Some(t))
    case Check(t) =>
      if !InPhase(s, t, Holding) then s
      else if HasRoom(s, s.transactions[t].resource) then MoveTo(s, t, Checked)
      else Ended(s, t)
    case Insert(t) => if InPhase(s, t, Checked) then MoveTo(s, t, Inserted) else s
    case Commit(t) =>
      if !InPhase(s, t, Inserted) then s
      else
        var r := s.transactions[t].resource;
        Ended(s, t).(rows := s.rows.Set(r, s.rows.Get(r) + 1))
    case Rollback(t) => Ended(s, t)
    case Delete(r) => if s.rows.Get(r) == 0 then s else s.(rows := s.rows.Set(r, s.rows.Get(r) - 1))
    case SetLimits(to) => if locking && s.holder.Some? then s else s.(limits := to)
  }

  function Play(s: State, steps: seq<Step>, locking: bool): State
    decreases steps
  {
    if steps == [] then s else Play(Next(s, steps[0], locking), steps[1..], locking)
  }

  /** Only the holder of the lock is past waiting, and whoever has checked still has room. */
  ghost predicate Inv(s: State) {
    && (forall t :: t in s.transactions && !s.transactions[t].phase.Waiting? ==> s.holder == Some(t))
    && (forall t :: t in s.transactions && (s.transactions[t].phase.Checked? || s.transactions[t].phase.Inserted?) ==>
          HasRoom(s, s.transactions[t].resource))
  }

  lemma NextKeepsInv(s: State, step: Step)
    requires Inv(s)
    ensures Inv(Next(s, step, true))
  {
  }

  lemma {:induction false} RunsKeepInv(s: State, steps: seq<Step>)
    requires Inv(s)
    ensures Inv(Play(s, steps, true))
    decreases steps
  {
    hide Inv, Next;
    if steps != [] {
      NextKeepsInv(s, steps[0]);
      RunsKeepInv(Next(s, steps[0], true), steps[1..]);
    }
  }

  /** In every run, also one in which plans change, a step that adds a row ends within the limit then in force. */
  lemma CreatesEndWithinTheLimit(s: State, steps: seq<Step>, step: Step, r: Resource)
    requires s.transactions == map[]
    ensures var t := Play(s, steps, true);
            var u := Next(t, step, true);
            u.rows.Get(r) > t.rows.Get(r) && u.limits.Get(r).Some? ==> u.rows.Get(r) <= u.limits.Get(r).value
  {
    hide Play;
    RunsKeepInv(s, steps);
  }

  ghost predicate WithinLimits(s: State) {
    forall r: Resource :: s.limits.Get(r).Some? ==> s.rows.Get(r) <= s.limits.Get(r).value
  }

  lemma NextKeepsLimits(s: State, step: Step)
    requires Inv(s) && WithinLimits(s) && !step.SetLimits?
    ensures WithinLimits(Next(s, step, true))
  {
  }

  lemma {:induction false} LimitsHoldFrom(s: State, steps: seq<Step>)
    requires Inv(s) && WithinLimits(s)
    requires forall k :: 0 <= k < |steps| ==> !steps[k].SetLimits?
    ensures WithinLimits(Play(s, steps, true))
    decreases steps
  {
    hide Inv, WithinLimits, Next;
    if steps != [] {
      NextKeepsInv(s, steps[0]);
      NextKeepsLimits(s, steps[0]);
      LimitsHoldFrom(Next(s, steps[0], true), steps[1..]);
    }
  }

  /**
    Rows come by the commit of a transaction that has inserted one and go by deletions; limits change when the subscription row is free;
    and a transaction whose company is not entitled ends at its lock.
   */
  lemma RowsAndLimitsMoveExactly(s: State, step: Step, r: Resource)
    ensures var t := Next(s, step, true);
            && t.rows.Get(r) == s.rows.Get(r)
                 + (if step.Commit? && InPhase(s, step.committer, Inserted) && s.transactions[step.committer].resource == r then 1 else 0)
                 - (if step.Delete? && step.deleted == r && s.rows.Get(r) > 0 then 1 else 0)
            && t.limits == (if step.SetLimits? && s.holder == None then step.to else s.limits)
            && (step.Lock? && InPhase(s, step.locker, Waiting) && s.holder == None ==>
                  (step.locker in t.transactions <==> step.entitled) && (t.holder == Some(step.locker) <==> step.entitled))
            && (step.Begin? && step.t in s.transactions ==> t == s)
  {
  }

  /** Under a fixed plan the committed rows never exceed its limits, however the creates interleave. */
  lemma PlanLimitsHoldUnderConcurrency(s: State, steps: seq<Step>)
    requires s.transactions == map[] && WithinLimits(s)
    requires forall k :: 0 <= k < |steps| ==> !steps[k].SetLimits?
    ensures WithinLimits(Play(s, steps, true))
  {
    LimitsHoldFrom(s, steps);
  }

  function Create(t: nat, r: Resource): seq<Step> {
    [Begin(t, r), Lock(t, true), Check(t), Insert(t), Commit(t)]
  }

  lemma PlayFive(s: State, a: Step, b: Step, c: Step, d: Step, e: Step, locking: bool)
    ensures Play(s, [a, b, c, d, e], locking)
            == Next(Next(Next(Next(Next(s, a, locking), b, locking), c, locking), d, locking), e, locking)
  {
    hide Next;
    var s1 := Next(s, a, locking);
    var s2 := Next(s1, b, locking);
    var s3 := Next(s2, c, locking);
    var s4 := Next(s3, d, locking);
    assert [a, b, c, d, e][1..] == [b, c, d, e] && [b, c, d, e][1..] == [c, d, e];
    assert [c, d, e][1..] == [d, e] && [d, e][1..] == [e] && [e][1..] == [];
    assert Play(s, [a, b, c, d, e], locking) == Play(s1, [b, c, d, e], locking);
    assert Play(s1, [b, c, d, e], locking) == Play(s2, [c, d, e], locking);
    assert Play(s2, [c, d, e], locking) == Play(s3, [d, e], locking);
    assert Play(s3, [d, e], locking) == Play(s4, [e], locking);
    assert Play(s4, [e], locking) == Play(Next(s4, e, locking), [], locking);
  }

  /** Undisturbed, a create adds its one row exactly when there is room for it. */
  lemma CreateSucceedsExactlyWithRoom(s: State, t: nat, r: Resource)
    requires s.holder.None? && t !in s.transactions
    ensures var u := Play(s, Create(t, r), true);
            u == s.(rows := if HasRoom(s, r) then s.rows.Set(r, s.rows.Get(r) + 1) else s.rows)
  {
    PlayFive(s, Begin(t, r), Lock(t, true), Check(t), Insert(t), Commit(t), true);
    assert s.transactions[t := Transaction(r, Inserted)] - {t} == s.transactions;
    assert s.transactions[t := Transaction(r, Holding)] - {t} == s.transactions;
  }

  lemma {:induction false} PlayConcat(s: State, first: seq<Step>, second: seq<Step>, locking: bool)
    ensures Play(s, first + second, locking) == Play(Play(s, first, locking), second, locking)
    decreases first
  {
    hide Next;
    if first == [] {
      assert first + second == second;
    } else {
      PlayConcat(Next(s, first[0], locking), first[1..], second, locking);
      assert (first + second)[1..] == first[1..] + second;
    }
  }

  /** Two creates that both check before either commits. */
  const RACE := [Begin(0, Agents), Begin(1, Agents), Lock(0, true), Lock(1, true), Check(0)]
    + [Check(1), Insert(0), Insert(1), Commit(0), Commit(1)]

  function Racing(s: State, zero: Phase, one: Phase): State {
    s.(holder := Some(1), transactions := map[0 := Transaction(Agents, zero), 1 := Transaction(Agents, one)])
  }

  lemma BothBegin(s: State)
    requires s.transactions == map[]
    ensures Next(Next(s, Begin(0, Agents), false), Begin(1, Agents), false).(holder := Some(1)) == Racing(s, Waiting, Waiting)
  {
  }

  lemma BothLock(s: State, started: State)
    requires started.(holder := Some(1)) == Racing(s, Waiting, Waiting)
    ensures Next(Next(started, Lock(0, true), false), Lock(1, true), false) == Racing(s, Holding, Holding)
  {
    var middle := Next(started, Lock(0, true), false);
    assert middle == Racing(s, Holding, Waiting).(holder := Some(0));
  }

  lemma BothStart(s: State)
    requires s.transactions == map[] && HasRoom(s, Agents)
    ensures Play(s, [Begin(0, Agents), Begin(1, Agents), Lock(0, true), Lock(1, true), Check(0)], false)
            == Racing(s, Checked, Holding)
  {
    PlayFive(s, Begin(0, Agents), Begin(1, Agents), Lock(0, true), Lock(1, true), Check(0), false);
    BothBegin(s);
    BothLock(s, Next(Next(s, Begin(0, Agents), false), Begin(1, Agents), false));
    hide Play;
    assert Next(Racing(s, Holding, Holding), Check(0), false) == Racing(s, Checked, Holding);
  }

  lemma BothCommit(s: State)
    requires HasRoom(s, Agents)
    ensures Play(Racing(s, Checked, Holding), [Check(1), Insert(0), Insert(1), Commit(0), Commit(1)], false).rows.agents
            == s.rows.agents + 2
  {
    var r := Racing(s, Checked, Holding);
    PlayFive(r, Check(1), Insert(0), Insert(1), Commit(0), Commit(1), false);
    assert Next(r, Check(1), false) == Racing(s, Checked, Checked);
    assert Next(Racing(s, Checked, Checked), Insert(0), false) == Racing(s, Inserted, Checked);
    assert Next(Racing(s, Inserted, Checked), Insert(1), false) == Racing(s, Inserted, Inserted);
    var half := Next(Racing(s, Inserted, Inserted), Commit(0), false);
    assert half.rows.agents == s.rows.agents + 1 && InPhase(half, 1, Inserted);
  }

  /** The lock is what keeps the limit: with one place left and no lock, two creates both get in. */
  lemma WithoutTheLockTheLimitBreaks(s: State)
    requires s.transactions == map[] && s.limits.agents == Some(s.rows.agents + 1)
    ensures Play(s, RACE, false).rows.agents == s.rows.agents + 2
  {
    hide Next;
    PlayConcat(s, [Begin(0, Agents), Begin(1, Agents), Lock(0, true), Lock(1, true), Check(0)],
               [Check(1), Insert(0), Insert(1), Commit(0), Commit(1)], false);
    BothStart(s);
    BothCommit(s);
  }
}
