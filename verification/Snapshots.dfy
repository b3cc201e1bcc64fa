/** Writers, readers and caches of one company's knowledge, interleaved commit by commit. */
module Snapshots {
  import opened Wrappers
  import opened Knowledge

  datatype Snapshot = Snapshot(version: nat, entries: seq<Entry>)

  /** A snapshot being read: the version first, then the items, then the chunks. */
  datatype Reading = Reading(agent: nat, version: nat, items: Option<seq<Entry>>)

  /**
    `log` and `bumps` are the history the statements below speak of: every committed change in order, and for every
    increment of the version the position in `log` of the change it was made for. `owed` holds that position for each
    writer that has committed its change and not yet incremented the version.
   */
  datatype State = State(
    content: Content, version: nat, log: seq<Mutation>, bumps: seq<nat>, owed: map<nat, nat>,
    readings: map<nat, Reading>, cache: map<(nat, nat), Snapshot>)

  function Initial(c: Content, version: nat): State {
    State(c, version, [], [], map[], map[], map[])
  }

  datatype Step =
    | Write(writer: nat, mutation: Mutation)    // a Q&A change or a deletion: content first
    | Bump(writer: nat)                         // ... and the version in a second transaction
    | Publish(both: Mutation)                   // a template or a processed document: one transaction
    | Conceal(silent: Mutation)                 // an upload, a retry, a failure: no increment
    | ReadVersion(reader: nat, agent: nat)
    | ReadItems(itemReader: nat)
    | ReadChunks(chunkReader: nat)

  function Committed(s: State, m: Mutation): State {
    s.(content := Apply(s.content, m), log := s.log + [m])
  }

  function Bumped(s: State, position: nat): State {
    s.(version := s.version + 1, bumps := s.bumps + [position])
  }

  function Next(s: State, step: Step, budget: nat): State {
    match step
    case Write(w, m) => if w in s.owed then s else Committed(s, m).(owed := s.owed[w := |s.log|])
    case Bump(w) => if w in s.owed then Bumped(s, s.owed[w]).(owed := s.owed - {w}) else s
    case Publish(m) => Bumped(Committed(s, m), |s.log|)
    case Conceal(m) => Committed(s, m)
    case ReadVersion(r, agent) => s.(readings := s.readings[r := Reading(agent, s.version, None)])
    case ReadItems(r) =>
      if r in s.readings
      then s.(readings := s.readings[r := s.readings[r].(items := Some(VisibleItems(s.content.items, s.readings[r].agent)))])
      else s
    case ReadChunks(r) =>
      if r in s.readings && s.readings[r].items.Some? then
        var reading := s.readings[r];
        var chunks := VisibleChunks(s.content.documents, reading.agent);
        var snapshot := Snapshot(reading.version, Entries(reading.items.value, chunks, budget));
        s.(readings := s.readings - {r}, cache := s.cache[(reading.agent, reading.version) := snapshot])
      else s
  }

  function Play(s: State, steps: seq<Step>, budget: nat): State
    decreases steps
  {
    if steps == [] then s else Play(Next(s, steps[0], budget), steps[1..], budget)
  }

  /** A writer that nobody disturbs changes the tables and moves the version by one; it does not write again before it has. */
  lemma UndisturbedWriteIsTheChange(s: State, w: nat, m: Mutation, budget: nat)
    requires w !in s.owed
    ensures var t := Next(Next(s, Write(w, m), budget), Bump(w), budget);
            t.content == Apply(s.content, m) && t.version == s.version + 1 && t.owed == s.owed
            && t.readings == s.readings && t.cache == s.cache
    ensures forall other: Mutation ::
              var t := Next(s, Write(w, m), budget); t.content == Apply(s.content, m) && Next(t, Write(w, other), budget) == t
  {
    hide Apply;
    var t := Next(s, Write(w, m), budget);
    assert t.owed - {w} == s.owed;
  }

  /** A reader that nobody disturbs caches what the agent sees of the tables under their version, and is done. */
  lemma UndisturbedReadIsTheView(s: State, r: nat, agent: nat, budget: nat)
    requires r !in s.readings
    ensures var t := Next(Next(Next(s, ReadVersion(r, agent), budget), ReadItems(r), budget), ReadChunks(r), budget);
            && t == s.(cache := t.cache)
            && t.cache == s.cache[(agent, s.version) := Snapshot(s.version,
                 Entries(VisibleItems(s.content.items, agent), VisibleChunks(s.content.documents, agent), budget))]
  {
    hide VisibleItems, VisibleChunks, Entries;
    var t := Next(Next(s, ReadVersion(r, agent), budget), ReadItems(r), budget);
    assert t.readings - {r} == s.readings;
  }

  // ----- coherence

  /** The first `n` changes contain every change whose increment produced a version up to `v`. */
  predicate Covers(s: State, v: nat, n: nat) {
    n <= |s.log| && forall k :: 0 <= k < |s.bumps| && s.version - |s.bumps| + k + 1 <= v ==> s.bumps[k] < n
  }

  /** The items an agent sees after the first `n` changes. */
  function ItemsAfter(c: Content, log: seq<Mutation>, n: nat, agent: nat): seq<Entry>
    requires n <= |log|
  {
    VisibleItems(Replay(c, log[..n]).items, agent)
  }

  function ChunksAfter(c: Content, log: seq<Mutation>, n: nat, agent: nat): seq<Entry>
    requires n <= |log|
  {
    VisibleChunks(Replay(c, log[..n]).documents, agent)
  }

  /**
    The snapshot is what the agent sees after two initial parts of the history, the first for the items and a longer one
    for the chunks, and both contain every change whose increment produced a version up to the label.
   */
  ghost predicate Coherent(c: Content, s: State, agent: nat, x: Snapshot, budget: nat) {
    exists n, m :: CoherentAt(c, s, agent, x, budget, n, m)
  }

  predicate CoherentAt(c: Content, s: State, agent: nat, x: Snapshot, budget: nat, n: nat, m: nat) {
    n <= m && Covers(s, x.version, n) && Covers(s, x.version, m)
    && x.entries == Entries(ItemsAfter(c, s.log, n, agent), ChunksAfter(c, s.log, m, agent), budget)
  }

  ghost predicate SoundReading(c: Content, s: State, r: Reading) {
    && r.version <= s.version
    && Covers(s, r.version, |s.log|)
    && (r.items.Some? ==> exists n :: Covers(s, r.version, n) && r.items.value == ItemsAfter(c, s.log, n, r.agent))
  }

  /** The invariant of every run. */
  ghost predicate Inv(c: Content, first: nat, s: State, budget: nat) {
    && s.content == Replay(c, s.log) && s.version == first + |s.bumps|
    && (forall k :: 0 <= k < |s.bumps| ==> s.bumps[k] < |s.log|)
    && (forall w :: w in s.owed ==> s.owed[w] < |s.log|)
    && (forall r :: r in s.readings ==> SoundReading(c, s, s.readings[r]))
    && (forall agent: nat, v: nat :: (agent, v) in s.cache ==>
          s.cache[(agent, v)].version == v <= s.version && Coherent(c, s, agent, s.cache[(agent, v)], budget))
  }

  // ----- a longer history keeps what was said of a shorter one

  /** `t` continues `s` by changes and increments. */
  predicate Extends(s: State, t: State) {
    && s.log <= t.log && s.bumps <= t.bumps && s.version - |s.bumps| == t.version - |t.bumps|
  }

  lemma CoversExtends(s: State, t: State, v: nat, n: nat)
    requires Extends(s, t) && Covers(s, v, n) && v <= s.version && |s.bumps| <= s.version
    ensures Covers(t, v, n)
  {
  }

  lemma AfterExtends(c: Content, s: State, t: State, n: nat, agent: nat)
    requires s.log <= t.log && n <= |s.log|
    ensures ItemsAfter(c, s.log, n, agent) == ItemsAfter(c, t.log, n, agent)
    ensures ChunksAfter(c, s.log, n, agent) == ChunksAfter(c, t.log, n, agent)
  {
    assert s.log[..n] == t.log[..n];
  }

  lemma CoherentExtends(c: Content, s: State, t: State, agent: nat, x: Snapshot, budget: nat)
    requires Extends(s, t) && x.version <= s.version && |s.bumps| <= s.version && Coherent(c, s, agent, x, budget)
    ensures Coherent(c, t, agent, x, budget)
  {
    hide ItemsAfter, ChunksAfter;
    var n, m :| CoherentAt(c, s, agent, x, budget, n, m);
    CoversExtends(s, t, x.version, n);
    CoversExtends(s, t, x.version, m);
    AfterExtends(c, s, t, n, agent);
    AfterExtends(c, s, t, m, agent);
    assert CoherentAt(c, t, agent, x, budget, n, m);
  }

  lemma ReadingExtends(c: Content, s: State, t: State, r: Reading)
    requires Extends(s, t) && SoundReading(c, s, r) && |s.bumps| <= s.version && s.version <= t.version
    ensures SoundReading(c, t, r)
  {
    hide ItemsAfter, ChunksAfter;
    CoversExtends(s, t, r.version, |s.log|);
    if r.items.Some? {
      var n :| Covers(s, r.version, n) && r.items.value == ItemsAfter(c, s.log, n, r.agent);
      CoversExtends(s, t, r.version, n);
      AfterExtends(c, s, t, n, r.agent);
    }
  }

  // ----- every step keeps the invariant

  /** The parts of the invariant that look at the past survive a longer history. */
  lemma PastSurvives(c: Content, first: nat, s: State, t: State, budget: nat)
    requires Inv(c, first, s, budget) && Extends(s, t) && s.version <= t.version
    requires t.readings == s.readings && t.cache == s.cache
    ensures forall r :: r in t.readings ==> SoundReading(c, t, t.readings[r])
    ensures forall agent: nat, v: nat :: (agent, v) in t.cache ==>
              t.cache[(agent, v)].version == v <= t.version && Coherent(c, t, agent, t.cache[(agent, v)], budget)
  {
    hide SoundReading, Coherent;
    forall r | r in t.readings
      ensures SoundReading(c, t, t.readings[r])
    {
      ReadingExtends(c, s, t, s.readings[r]);
    }
    forall agent: nat, v: nat | (agent, v) in t.cache
      ensures t.cache[(agent, v)].version == v <= t.version && Coherent(c, t, agent, t.cache[(agent, v)], budget)
    {
      CoherentExtends(c, s, t, agent, s.cache[(agent, v)], budget);
    }
  }

  lemma ReplayAppend(c: Content, log: seq<Mutation>, m: Mutation)
    ensures Replay(c, log + [m]) == Apply(Replay(c, log), m)
  {
    assert (log + [m])[..|log|] == log;
  }

  lemma WritingKeepsInv(c: Content, first: nat, s: State, step: Step, budget: nat)
    requires Inv(c, first, s, budget) && (step.Write? || step.Bump? || step.Publish? || step.Conceal?)
    ensures Inv(c, first, Next(s, step, budget), budget)
  {
    hide SoundReading, Coherent, Apply, Replay;
    var t := Next(s, step, budget);
    match step {
      case Write(_, m) => ReplayAppend(c, s.log, m);
      case Publish(m) => ReplayAppend(c, s.log, m);
      case Conceal(m) => ReplayAppend(c, s.log, m);
      case _ =>
    }
    PastSurvives(c, first, s, t, budget);
  }

  lemma WholeLog(c: Content, s: State, agent: nat)
    requires s.content == Replay(c, s.log)
    ensures ItemsAfter(c, s.log, |s.log|, agent) == VisibleItems(s.content.items, agent)
    ensures ChunksAfter(c, s.log, |s.log|, agent) == VisibleChunks(s.content.documents, agent)
  {
    assert s.log[..|s.log|] == s.log;
  }

  lemma ReadingKeepsInv(c: Content, first: nat, s: State, step: Step, budget: nat)
    requires Inv(c, first, s, budget) && (step.ReadVersion? || step.ReadItems? || step.ReadChunks?)
    ensures Inv(c, first, Next(s, step, budget), budget)
  {
    hide Replay, VisibleItems, VisibleChunks, Coherent, SoundReading;
    var t := Next(s, step, budget);
    PastSurvives(c, first, s, t.(readings := s.readings, cache := s.cache), budget);
    assert Extends(s, t);
    forall r | r in t.readings
      ensures SoundReading(c, t, t.readings[r])
    {
      if r in s.readings && t.readings[r] == s.readings[r] {
        ReadingExtends(c, s, t, s.readings[r]);
      } else {
        NewReadingIsSound(c, first, s, step, budget, r);
      }
    }
    forall agent: nat, v: nat | (agent, v) in t.cache
      ensures t.cache[(agent, v)].version == v <= t.version && Coherent(c, t, agent, t.cache[(agent, v)], budget)
    {
      if (agent, v) in s.cache && t.cache[(agent, v)] == s.cache[(agent, v)] {
        CoherentExtends(c, s, t, agent, s.cache[(agent, v)], budget);
      } else {
        NewSnapshotIsCoherent(c, first, s, step.chunkReader, budget);
      }
    }
  }

  lemma NewReadingIsSound(c: Content, first: nat, s: State, step: Step, budget: nat, r: nat)
    requires Inv(c, first, s, budget) && (step.ReadVersion? || step.ReadItems? || step.ReadChunks?)
    requires var t := Next(s, step, budget); r in t.readings && (r in s.readings ==> t.readings[r] != s.readings[r])
    ensures var t := Next(s, step, budget); SoundReading(c, t, t.readings[r])
  {
    hide Replay, VisibleItems, VisibleChunks, Coherent, ItemsAfter;
    var t := Next(s, step, budget);
    if step.ReadItems? {
      assert SoundReading(c, s, s.readings[r]);
      WholeLog(c, s, s.readings[r].agent);
      assert Covers(t, t.readings[r].version, |s.log|);
    }
  }

  lemma NewSnapshotIsCoherent(c: Content, first: nat, s: State, r: nat, budget: nat)
    requires Inv(c, first, s, budget) && r in s.readings && s.readings[r].items.Some?
    ensures var t, reading := Next(s, ReadChunks(r), budget), s.readings[r];
            && (reading.agent, reading.version) in t.cache
            && t.cache[(reading.agent, reading.version)].version == reading.version <= t.version
            && Coherent(c, t, reading.agent, t.cache[(reading.agent, reading.version)], budget)
  {
    hide Replay, VisibleItems, VisibleChunks, ItemsAfter, ChunksAfter;
    var t, reading := Next(s, ReadChunks(r), budget), s.readings[r];
    assert SoundReading(c, s, reading);
    var n :| Covers(s, reading.version, n) && reading.items.value == ItemsAfter(c, s.log, n, reading.agent);
    WholeLog(c, s, reading.agent);
    assert CoherentAt(c, t, reading.agent, t.cache[(reading.agent, reading.version)], budget, n, |s.log|);
  }

  lemma {:induction false} RunsKeepInv(c: Content, first: nat, s: State, steps: seq<Step>, budget: nat)
    requires Inv(c, first, s, budget)
    ensures Inv(c, first, Play(s, steps, budget), budget)
    decreases steps
  {
    hide Inv, Next;
    if steps != [] {
      if steps[0].Write? || steps[0].Bump? || steps[0].Publish? || steps[0].Conceal? {
        WritingKeepsInv(c, first, s, steps[0], budget);
      } else {
        ReadingKeepsInv(c, first, s, steps[0], budget);
      }
      RunsKeepInv(c, first, Next(s, steps[0], budget), steps[1..], budget);
    }
  }

  /** Whatever the interleaving, every cached snapshot is coherent with its label. */
  lemma SnapshotsAreCoherent(c: Content, first: nat, steps: seq<Step>, budget: nat, agent: nat, v: nat)
    requires (agent, v) in Play(Initial(c, first), steps, budget).cache
    ensures var s := Play(Initial(c, first), steps, budget);
            s.cache[(agent, v)].version == v && Coherent(c, s, agent, s.cache[(agent, v)], budget)
  {
    hide Play, Coherent;
    RunsKeepInv(c, first, Initial(c, first), steps, budget);
  }

  /** A call that resolves the current version and finds it cached misses no change whose version increment is done. */
  lemma CachedKnowledgeIsCurrent(c: Content, first: nat, steps: seq<Step>, budget: nat, agent: nat)
    requires var s := Play(Initial(c, first), steps, budget); (agent, s.version) in s.cache
    ensures var s := Play(Initial(c, first), steps, budget);
            exists n: nat, m: nat ::
              && n <= m <= |s.log| && (forall k :: 0 <= k < |s.bumps| ==> s.bumps[k] < n)
              && s.cache[(agent, s.version)].entries
                 == Entries(ItemsAfter(c, s.log, n, agent), ChunksAfter(c, s.log, m, agent), budget)
  {
    hide Play, ItemsAfter, ChunksAfter;
    var s := Play(Initial(c, first), steps, budget);
    SnapshotsAreCoherent(c, first, steps, budget, agent, s.version);
    var n, m :| CoherentAt(c, s, agent, s.cache[(agent, s.version)], budget, n, m);
  }

  /** The order of the reads matters: items read before the version can carry a label whose change they miss. */
  lemma LabelReadLastIsIncoherent(item: Item, agent: nat, budget: nat)
    requires item.active && InScope(item.agent, agent) && |item.question| + |item.answer| + 19 <= budget
    ensures var empty := Content([], []);
            var before := Initial(empty, 0);
            var after := Play(before, [Write(0, AddItems([item])), Bump(0)], budget);
            var entries := Entries(VisibleItems(before.content.items, agent), VisibleChunks(after.content.documents, agent), budget);
            !Coherent(empty, after, agent, Snapshot(after.version, entries), budget)
  {
    var empty := Content([], []);
    var before := Initial(empty, 0);
    var write, bump := Write(0, AddItems([item])), Bump(0);
    var middle := Next(before, write, budget);
    var after := Next(middle, bump, budget);
    assert Play(before, [write, bump], budget) == after by {
      assert [write, bump][1..] == [bump] && [bump][1..] == [];
      assert Play(middle, [bump], budget) == Play(after, [], budget);
    }
    var stale := Entries([], [], budget);
    assert stale == [];
    forall n: nat, m: nat
      ensures !CoherentAt(empty, after, agent, Snapshot(1, stale), budget, n, m)
    {
      if Covers(after, 1, n) && Covers(after, 1, m) {
        assert after.bumps[0] == 0 && |after.log| == 1;
        assert n == 1 && m == 1;
        WholeLog(empty, after, agent);
        OneItemFits(item, agent, budget);
      }
    }
  }

  lemma OneItemFits(item: Item, agent: nat, budget: nat)
    requires item.active && InScope(item.agent, agent) && |item.question| + |item.answer| + 19 <= budget
    ensures VisibleItems([Some(item)], agent) != [] && Fitting(VisibleItems([Some(item)], agent), budget) != []
  {
    var content := "Question: " + item.question + "\nAnswer: " + item.answer;
    var entry := Entry(false, item.question, content);
    assert [Some(item)][1..] == [];
    assert VisibleItems([Some(item)], agent) == [entry];
    assert [entry][..0] == [] && Size([entry]) == |content|;
  }
}
