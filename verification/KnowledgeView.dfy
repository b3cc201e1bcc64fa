/** What the tables hold after a change, what an agent sees of them, and how much of that a snapshot takes. */
module KnowledgeView {
  import opened Wrappers
  import opened Knowledge

  /** Row `j` of a table after a change that rewrites row `i`. */
  predicate OnlyRow<T(==)>(before: seq<T>, after: seq<T>, i: nat) {
    |after| == |before| && forall j :: 0 <= j < |before| && j != i ==> after[j] == before[j]
  }

  /** A change adds rows at the end, or rewrites or clears the one row it names, if that exists; nothing else changes. */
  lemma ChangesAreExact(c: Content, m: Mutation)
    ensures var d := Apply(c, m);
            match m
            case AddItems(added) =>
              && d.documents == c.documents && |d.items| == |c.items| + |added| && d.items[..|c.items|] == c.items
              && forall k :: 0 <= k < |added| ==> d.items[|c.items| + k] == Some(added[k])
            case EditItem(i, to) =>
              && d.documents == c.documents && OnlyRow(c.items, d.items, i)
              && (i < |c.items| ==> d.items[i] == if c.items[i].Some? then Some(to) else None)
            case RemoveItem(i) =>
              d.documents == c.documents && OnlyRow(c.items, d.items, i) && (i < |c.items| ==> d.items[i] == None)
            case AddDocument(added) => d.items == c.items && d.documents == c.documents + [Some(added)]
            case SetStatus(i, status) =>
              && d.items == c.items && OnlyRow(c.documents, d.documents, i)
              && (i < |c.documents| ==> (d.documents[i].Some? <==> c.documents[i].Some?))
              && (i < |c.documents| && d.documents[i].Some? ==>
                    d.documents[i].value == c.documents[i].value.(status := status))
            case Complete(i, chunks) =>
              && d.items == c.items && OnlyRow(c.documents, d.documents, i)
              && (i < |c.documents| ==> (d.documents[i].Some? <==> c.documents[i].Some?))
              && (i < |c.documents| && d.documents[i].Some? ==>
                    d.documents[i].value == c.documents[i].value.(status := DocumentStatus.Completed, chunks := chunks))
            case RemoveDocument(i) =>
              d.items == c.items && OnlyRow(c.documents, d.documents, i) && (i < |c.documents| ==> d.documents[i] == None)
  {
  }

  /** Company-wide knowledge, or the agent's own. */
  predicate IsShared(owner: Option<nat>, agent: nat) {
    match owner
    case None => true
    case Some(other) => other == agent
  }

  predicate IsSeen(items: seq<Option<Item>>, i: nat, agent: nat) {
    i < |items| && items[i].Some? && items[i].value.active && IsShared(items[i].value.agent, agent)
  }

  predicate IsEntryOf(entry: Entry, item: Item) {
    && !entry.isDocument && entry.title == item.question
    && entry.content == "Question: " + item.question + "\nAnswer: " + item.answer
  }

  /** What the last row adds to an agent's view. */
  lemma {:induction false} ItemsAppend(items: seq<Option<Item>>, row: Option<Item>, agent: nat)
    ensures VisibleItems(items + [row], agent) == VisibleItems(items, agent) + VisibleItems([row], agent)
  {
    if items == [] {
      assert [] + [row] == [row] && [] + VisibleItems([row], agent) == VisibleItems([row], agent);
    } else {
      ItemsAppend(items[1..], row, agent);
      assert (items + [row])[1..] == items[1..] + [row];
      Associates(VisibleItems(items, agent)[..|VisibleItems(items, agent)| - |VisibleItems(items[1..], agent)|],
                 VisibleItems(items[1..], agent), VisibleItems([row], agent));
    }
  }

  lemma OneRowIsSeen(row: Option<Item>, agent: nat)
    ensures if IsSeen([row], 0, agent) then |VisibleItems([row], agent)| == 1 && IsEntryOf(VisibleItems([row], agent)[0], row.value)
            else VisibleItems([row], agent) == []
  {
    assert [row][1..] == [];
  }

  /**
    An agent sees exactly the active items that are its own or company-wide, in order of creation; `at` are their positions.
    Nothing inactive, deleted or of another agent is among them.
   */
  lemma {:induction false} ItemsAreSeenExactly(items: seq<Option<Item>>, agent: nat) returns (at: seq<nat>)
    ensures |at| == |VisibleItems(items, agent)| && forall j, k :: 0 <= j < k < |at| ==> at[j] < at[k]
    ensures forall i: nat :: i in at <==> IsSeen(items, i, agent)
    ensures forall k :: 0 <= k < |at| ==> at[k] < |items| && items[at[k]].Some? && IsEntryOf(VisibleItems(items, agent)[k], items[at[k]].value)
    decreases |items|
  {
    hide IsEntryOf;
    at := [];
    if items != [] {
      var n := |items| - 1;
      var front := items[..n];
      assert items == front + [items[n]];
      at := ItemsAreSeenExactly(front, agent);
      hide VisibleItems;
      ItemsAppend(front, items[n], agent);
      OneRowIsSeen(items[n], agent);
      assert forall i: nat :: i < n ==> (IsSeen(items, i, agent) <==> IsSeen(front, i, agent));
      if IsSeen(items, n, agent) {
        at := at + [n];
      }
    }
  }

  // ----- documents

  predicate IsSeenChunk(documents: seq<Option<Document>>, d: nat, k: nat, agent: nat) {
    && d < |documents| && documents[d].Some? && documents[d].value.status == DocumentStatus.Completed
    && IsShared(documents[d].value.agent, agent) && k < |documents[d].value.chunks|
  }

  predicate IsChunkOf(entry: Entry, document: Document, k: nat)
    requires k < |document.chunks|
  {
    entry.isDocument && entry.title == document.name && entry.content == document.chunks[k]
  }

  predicate Precedes(a: (nat, nat), b: (nat, nat)) {
    a.0 < b.0 || (a.0 == b.0 && a.1 < b.1)
  }

  lemma {:induction false} ChunksAppend(documents: seq<Option<Document>>, row: Option<Document>, agent: nat)
    ensures VisibleChunks(documents + [row], agent) == VisibleChunks(documents, agent) + VisibleChunks([row], agent)
  {
    hide ChunkEntries;
    if documents == [] {
      assert [] + [row] == [row] && [] + VisibleChunks([row], agent) == VisibleChunks([row], agent);
    } else {
      ChunksAppend(documents[1..], row, agent);
      assert (documents + [row])[1..] == documents[1..] + [row];
      Associates(VisibleChunks(documents, agent)[..|VisibleChunks(documents, agent)| - |VisibleChunks(documents[1..], agent)|],
                 VisibleChunks(documents[1..], agent), VisibleChunks([row], agent));
    }
  }

  /** The positions of the chunks of document `d`. */
  function ChunkPositions(d: nat, n: nat): seq<(nat, nat)> {
    seq(n, k requires 0 <= k < n => (d, k))
  }

  lemma OneDocumentIsSeen(row: Option<Document>, agent: nat)
    ensures var shown := VisibleChunks([row], agent);
            if row.Some? && row.value.status == DocumentStatus.Completed && IsShared(row.value.agent, agent)
            then |shown| == |row.value.chunks| && forall k :: 0 <= k < |shown| ==> IsChunkOf(shown[k], row.value, k)
            else shown == []
  {
    assert [row][1..] == [];
  }

  predicate IsShown(row: Option<Document>, agent: nat) {
    row.Some? && row.value.status == DocumentStatus.Completed && IsShared(row.value.agent, agent)
  }

  /** The positions of the chunks of the last document, if it is shown. */
  function LastPositions(documents: seq<Option<Document>>, agent: nat): seq<(nat, nat)>
    requires documents != []
  {
    var n := |documents| - 1;
    if IsShown(documents[n], agent) then ChunkPositions(n, |documents[n].value.chunks|) else []
  }

  ghost predicate InOrder(at: seq<(nat, nat)>) {
    forall j, k :: 0 <= j < k < |at| ==> Precedes(at[j], at[k])
  }

  ghost predicate AreAllSeen(documents: seq<Option<Document>>, agent: nat, at: seq<(nat, nat)>) {
    forall d: nat, k: nat :: (d, k) in at <==> IsSeenChunk(documents, d, k, agent)
  }

  lemma LastPositionsFollow(documents: seq<Option<Document>>, agent: nat, at: seq<(nat, nat)>)
    requires documents != [] && InOrder(at) && AreAllSeen(documents[..|documents| - 1], agent, at)
    ensures InOrder(at + LastPositions(documents, agent)) && AreAllSeen(documents, agent, at + LastPositions(documents, agent))
  {
    var n := |documents| - 1;
    var front, added := documents[..n], LastPositions(documents, agent);
    forall i | 0 <= i < |at|
      ensures at[i].0 < n
    {
      assert (at[i].0, at[i].1) in at;
    }
    forall d: nat, k: nat
      ensures (d, k) in added <==> d == n && IsSeenChunk(documents, d, k, agent)
    {
      if d == n && IsSeenChunk(documents, d, k, agent) {
        assert added[k] == (d, k);
      }
    }
    forall d: nat, k: nat
      ensures (d, k) in at + added <==> IsSeenChunk(documents, d, k, agent)
    {
      assert d < n ==> (IsSeenChunk(documents, d, k, agent) <==> IsSeenChunk(front, d, k, agent));
      assert (d, k) in at <==> IsSeenChunk(front, d, k, agent);
    }
  }

  /**
    An agent sees exactly the chunks of completed documents that are its own or company-wide, document by document in order of
    creation and chunk by chunk.
   */
  lemma {:induction false} ChunksAreSeenExactly(documents: seq<Option<Document>>, agent: nat) returns (at: seq<(nat, nat)>)
    ensures |at| == |VisibleChunks(documents, agent)| && InOrder(at) && AreAllSeen(documents, agent, at)
    ensures forall i :: 0 <= i < |at| ==>
              && at[i].0 < |documents| && documents[at[i].0].Some? && at[i].1 < |documents[at[i].0].value.chunks|
              && IsChunkOf(VisibleChunks(documents, agent)[i], documents[at[i].0].value, at[i].1)
    decreases |documents|
  {
    hide IsChunkOf, InOrder, AreAllSeen, IsSeenChunk;
    at := [];
    if documents == [] {
      NoChunks(agent);
    } else {
      var n := |documents| - 1;
      var front, last := documents[..n], documents[n];
      assert documents == front + [last];
      at := ChunksAreSeenExactly(front, agent);
      hide VisibleChunks;
      ChunksAppend(front, last, agent);
      OneDocumentIsSeen(last, agent);
      LastPositionsFollow(documents, agent, at);
      at := at + LastPositions(documents, agent);
    }
  }

  lemma NoChunks(agent: nat)
    ensures InOrder([]) && AreAllSeen([], agent, [])
  {
  }

  // ----- a snapshot

  /** A snapshot holds a first part of the questions and a first part of the chunks; neither can be longer within the budget. */
  lemma SnapshotsAreAsLongAsTheyCanBe(items: seq<Entry>, chunks: seq<Entry>, budget: nat) returns (n: nat, m: nat)
    ensures n <= |items| && m <= |chunks| && Entries(items, chunks, budget) == items[..n] + chunks[..m]
    ensures Size(items[..n] + chunks[..m]) <= budget
    ensures n < |items| ==> Size(items[..n + 1]) > budget
    ensures m < |chunks| ==> Size(items[..n] + chunks[..m + 1]) > budget
  {
    hide Size, Fitting;
    var first := Fitting(items, budget);
    n := |first|;
    assert first == items[..n];
    FittingIsLongest(items, budget, n);
    var second := Fitting(chunks, budget - Size(first));
    m := |second|;
    assert second == chunks[..m];
    FittingIsLongest(chunks, budget - Size(first), m);
    SizeOfConcat(first, second);
    if n < |items| {
      FittingIsLongest(items, budget, n + 1);
    }
    if m < |chunks| {
      FittingIsLongest(chunks, budget - Size(first), m + 1);
      SizeOfConcat(first, chunks[..m + 1]);
    }
  }

  // ----- templates

  /** The scope itself, company-wide or one agent, holds the question already. */
  predicate IsAsked(items: seq<Option<Item>>, agent: Option<nat>, question: string) {
    exists i :: 0 <= i < |items| && items[i].Some? && items[i].value.agent == agent && items[i].value.question == question
  }

  lemma {:induction false} MissingAppend(items: seq<Option<Item>>, agent: Option<nat>, template: seq<Template>, t: Template)
    ensures Missing(items, agent, template + [t]) == Missing(items, agent, template) + Added(items, agent, t)
  {
    hide Added;
    if template == [] {
      assert [] + [t] == [t] && [t][1..] == [];
      assert [] + Added(items, agent, t) == Added(items, agent, t) == Added(items, agent, t) + [];
    } else {
      MissingAppend(items, agent, template[1..], t);
      assert (template + [t])[1..] == template[1..] + [t];
      Associates(Added(items, agent, template[0]), Missing(items, agent, template[1..]), Added(items, agent, t));
    }
  }

  /** A template adds exactly those of its questions that the scope does not hold, in its order, with their answers and active. */
  lemma {:induction false} TemplateAddsExactly(items: seq<Option<Item>>, agent: Option<nat>, template: seq<Template>) returns (at: seq<nat>)
    ensures |at| == |Missing(items, agent, template)| && forall j, k :: 0 <= j < k < |at| ==> at[j] < at[k]
    ensures forall i: nat :: i in at <==> i < |template| && !IsAsked(items, agent, template[i].question)
    ensures forall k :: 0 <= k < |at| ==>
              at[k] < |template|
              && Missing(items, agent, template)[k] == Item(agent, template[at[k]].question, template[at[k]].answer, true)
    decreases |template|
  {
    hide IsAsked, Existing, Added, FromTemplate;
    at := [];
    if template != [] {
      var n := |template| - 1;
      var front := template[..n];
      assert template == front + [template[n]];
      at := TemplateAddsExactly(items, agent, front);
      hide Missing;
      MissingAppend(items, agent, front, template[n]);
      OneIsAdded(items, agent, template[n]);
      assert forall i: nat :: i < n ==> template[i] == front[i];
      if !IsAsked(items, agent, template[n].question) {
        at := at + [n];
      }
    }
  }

  lemma OneIsAdded(items: seq<Option<Item>>, agent: Option<nat>, t: Template)
    ensures Added(items, agent, t) == if IsAsked(items, agent, t.question) then [] else [Item(agent, t.question, t.answer, true)]
  {
  }
}
