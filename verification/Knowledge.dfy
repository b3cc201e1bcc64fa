/** A company's knowledge, its version number and the snapshots that voice workers cache by it. */
module Knowledge {
  import opened Wrappers

  /** `agent`: None for company-wide knowledge. */
  datatype Item = Item(agent: Option<nat>, question: string, answer: string, active: bool)

  datatype DocumentStatus = Pending | Processing | Completed | Failed

  datatype Document = Document(agent: Option<nat>, name: string, status: DocumentStatus, chunks: seq<string>)

  /** The tables in order of creation; a deleted row leaves None. */
  datatype Content = Content(items: seq<Option<Item>>, documents: seq<Option<Document>>)

  /** One committed change of the tables. */
  datatype Mutation =
    | AddItems(items: seq<Item>)
    | EditItem(item: nat, to: Item)
    | RemoveItem(item: nat)
    | AddDocument(added: Document)
    | SetStatus(document: nat, status: DocumentStatus)
    | Complete(document: nat, chunks: seq<string>)
    | RemoveDocument(document: nat)

  function Rows<T>(added: seq<T>): seq<Option<T>> {
    seq(|added|, i requires 0 <= i < |added| => Some(added[i]))
  }

  function Apply(c: Content, m: Mutation): Content {
    match m
    case AddItems(items) => c.(items := c.items + Rows(items))
    case EditItem(i, to) => if i < |c.items| && c.items[i].Some? then c.(items := c.items[i := Some(to)]) else c
    case RemoveItem(i) => if i < |c.items| then c.(items := c.items[i := None]) else c
    case AddDocument(d) => c.(documents := c.documents + [Some(d)])
    case SetStatus(i, status) =>
      if i < |c.documents| && c.documents[i].Some?
      then c.(documents := c.documents[i := Some(c.documents[i].value.(status := status))]) else c
    case Complete(i, chunks) =>
      if i < |c.documents| && c.documents[i].Some?
      then c.(documents := c.documents[i := Some(c.documents[i].value.(status := Completed, chunks := chunks))]) else c
    case RemoveDocument(i) => if i < |c.documents| then c.(documents := c.documents[i := None]) else c
  }

  function Replay(c: Content, log: seq<Mutation>): Content {
    if log == [] then c else Apply(Replay(c, log[..|log| - 1]), log[|log| - 1])
  }

  // ----- what one agent may see

  datatype Entry = Entry(isDocument: bool, title: string, content: string)

  predicate InScope(owner: Option<nat>, agent: nat) {
    owner.None? || owner == Some(agent)
  }

  function VisibleItems(items: seq<Option<Item>>, agent: nat): seq<Entry> {
    if items == [] then []
    else
      var row := items[0];
      (if row.Some? && row.value.active && InScope(row.value.agent, agent)
       then [Entry(false, row.value.question, "Question: " + row.value.question + "\nAnswer: " + row.value.answer)] else [])
      + VisibleItems(items[1..], agent)
  }

  function ChunkEntries(name: string, chunks: seq<string>): seq<Entry> {
    seq(|chunks|, i requires 0 <= i < |chunks| => Entry(true, name, chunks[i]))
  }

  function VisibleChunks(documents: seq<Option<Document>>, agent: nat): seq<Entry> {
    if documents == [] then []
    else
      var row := documents[0];
      (if row.Some? && row.value.status.Completed? && InScope(row.value.agent, agent)
       then ChunkEntries(row.value.name, row.value.chunks) else [])
      + VisibleChunks(documents[1..], agent)
  }

  // ----- the size budget

  function Size(entries: seq<Entry>): nat {
    if entries == [] then 0 else Size(entries[..|entries| - 1]) + |entries[|entries| - 1].content|
  }

  /** The longest prefix within the budget. */
  function Fitting(entries: seq<Entry>, budget: int): (r: seq<Entry>)
    ensures r <= entries
  {
    if Size(entries) <= budget || entries == [] then entries else Fitting(entries[..|entries| - 1], budget)
  }

  lemma {:induction false} SizeGrows(entries: seq<Entry>, k: nat)
    requires k <= |entries|
    ensures Size(entries[..k]) <= Size(entries)
    decreases |entries|
  {
    if k < |entries| {
      var shorter := entries[..|entries| - 1];
      SizeGrows(shorter, k);
      assert shorter[..k] == entries[..k];
    } else {
      assert entries[..k] == entries;
    }
  }

  /** A prefix fits exactly when it is no longer than the one chosen. */
  lemma {:induction false} FittingIsLongest(entries: seq<Entry>, budget: int, k: nat)
    requires k <= |entries| && budget >= 0
    ensures Size(entries[..k]) <= budget <==> k <= |Fitting(entries, budget)|
    decreases |entries|
  {
    if Size(entries) <= budget || entries == [] {
      SizeGrows(entries, k);
    } else {
      var shorter := entries[..|entries| - 1];
      if k == |entries| {
        assert entries[..k] == entries;
      } else {
        assert shorter[..k] == entries[..k];
        FittingIsLongest(shorter, budget, k);
      }
    }
  }

  /** Questions first, then document chunks in what is left of the budget. */
  function Entries(items: seq<Entry>, chunks: seq<Entry>, budget: nat): seq<Entry> {
    var first := Fitting(items, budget);
    first + Fitting(chunks, budget - Size(first))
  }

  lemma {:induction false} SizeOfConcat(first: seq<Entry>, second: seq<Entry>)
    ensures Size(first + second) == Size(first) + Size(second)
    decreases |second|
  {
    if second == [] {
      assert first + second == first;
    } else {
      var last := |second| - 1;
      SizeOfConcat(first, second[..last]);
      assert (first + second)[..|first + second| - 1] == first + second[..last];
    }
  }

  lemma {:induction false} FittingFits(entries: seq<Entry>, budget: int)
    requires budget >= 0
    ensures Size(Fitting(entries, budget)) <= budget
    decreases |entries|
  {
    if entries != [] && Size(entries) > budget {
      FittingFits(entries[..|entries| - 1], budget);
    }
  }

  lemma EntriesFitTheBudget(items: seq<Entry>, chunks: seq<Entry>, budget: nat)
    ensures Size(Entries(items, chunks, budget)) <= budget
  {
    hide Size, Fitting;
    var first := Fitting(items, budget);
    FittingFits(items, budget);
    FittingFits(chunks, budget - Size(first));
    SizeOfConcat(first, Fitting(chunks, budget - Size(first)));
  }

  /** The two loops that fill a snapshot. */
  method FillSnapshot(items: seq<Entry>, chunks: seq<Entry>, budget: nat) returns (entries: seq<Entry>)
    ensures entries == Entries(items, chunks, budget)
  {
    var k := 0;
    entries := [];
    var total := 0;
    while k < |items| && total + |items[k].content| <= budget
      invariant 0 <= k <= |items|
      invariant entries == items[..k] && total == Size(entries) <= budget
    {
      entries := entries + [items[k]];
      assert items[..k + 1][..k] == items[..k];
      total := total + |items[k].content|;
      k := k + 1;
    }
    StoppedAtTheLongest(items, budget, k);
    ghost var first := entries;
    ghost var left := budget - Size(first);
    k := 0;
    while k < |chunks| && total + |chunks[k].content| <= budget
      invariant 0 <= k <= |chunks|
      invariant entries == first + chunks[..k] && total == Size(first) + Size(chunks[..k]) <= budget
    {
      entries := entries + [chunks[k]];
      assert chunks[..k + 1][..k] == chunks[..k];
      total := total + |chunks[k].content|;
      k := k + 1;
    }
    StoppedAtTheLongest(chunks, left, k);
  }

  lemma StoppedAtTheLongest(entries: seq<Entry>, budget: int, k: nat)
    requires k <= |entries| && budget >= 0 && Size(entries[..k]) <= budget
    requires k < |entries| ==> Size(entries[..k]) + |entries[k].content| > budget
    ensures Fitting(entries, budget) == entries[..k]
  {
    FittingIsLongest(entries, budget, k);
    if k < |entries| {
      FittingIsLongest(entries, budget, k + 1);
      assert entries[..k + 1][..k] == entries[..k];
    }
  }

  // ----- templates

  datatype Template = Template(question: string, answer: string)

  /** The questions present in exactly this scope. */
  function Existing(items: seq<Option<Item>>, agent: Option<nat>): set<string> {
    set i | 0 <= i < |items| && items[i].Some? && items[i].value.agent == agent :: items[i].value.question
  }

  function FromTemplate(t: Template, agent: Option<nat>): Item {
    Item(agent, t.question, t.answer, true)
  }

  function Added(items: seq<Option<Item>>, agent: Option<nat>, t: Template): seq<Item> {
    if t.question in Existing(items, agent) then [] else [FromTemplate(t, agent)]
  }

  /** The items a template adds. */
  function Missing(items: seq<Option<Item>>, agent: Option<nat>, template: seq<Template>): seq<Item> {
    if template == [] then [] else Added(items, agent, template[0]) + Missing(items, agent, template[1..])
  }

  lemma MissingFrom(items: seq<Option<Item>>, agent: Option<nat>, template: seq<Template>, k: nat)
    requires k < |template|
    ensures Missing(items, agent, template[k..]) == Added(items, agent, template[k]) + Missing(items, agent, template[k + 1..])
  {
    hide Added;
    assert template[k..][1..] == template[k + 1..];
  }

  method CollectMissing(items: seq<Option<Item>>, agent: Option<nat>, template: seq<Template>) returns (added: seq<Item>)
    ensures added == Missing(items, agent, template)
  {
    hide Existing, FromTemplate, Missing;
    var existing := Existing(items, agent);
    added := [];
    assert template[0..] == template;
    assert [] + Missing(items, agent, template) == Missing(items, agent, template);
    for k := 0 to |template|
      invariant added + Missing(items, agent, template[k..]) == Missing(items, agent, template)
    {
      MissingFrom(items, agent, template, k);
      Associates(added, Added(items, agent, template[k]), Missing(items, agent, template[k + 1..]));
      if template[k].question !in existing {
        added := added + [FromTemplate(template[k], agent)];
      } else {
        assert added + [] == added;
      }
    }
    NothingToAdd(items, agent);
    assert template[|template|..] == [] && added + [] == added;
  }

  lemma NothingToAdd(items: seq<Option<Item>>, agent: Option<nat>)
    ensures Missing(items, agent, []) == []
  {
  }

  lemma {:induction false} MissingIsAdded(items: seq<Option<Item>>, agent: Option<nat>, template: seq<Template>, t: Template)
    requires t in template && t.question !in Existing(items, agent)
    ensures FromTemplate(t, agent) in Missing(items, agent, template)
    decreases |template|
  {
    if t != template[0] {
      MissingIsAdded(items, agent, template[1..], t);
    }
  }

  lemma {:induction false} NothingMissing(items: seq<Option<Item>>, agent: Option<nat>, template: seq<Template>)
    requires forall t :: t in template ==> t.question in Existing(items, agent)
    ensures Missing(items, agent, template) == []
    decreases |template|
  {
    if template != [] {
      NothingMissing(items, agent, template[1..]);
    }
  }

  /** Applied again in the same scope, a template adds nothing. */
  lemma TemplatesAreIdempotent(c: Content, agent: Option<nat>, template: seq<Template>)
    ensures var once := Apply(c, AddItems(Missing(c.items, agent, template)));
            Missing(once.items, agent, template) == []
  {
    hide Missing;
    var added := Missing(c.items, agent, template);
    var once := Apply(c, AddItems(added));
    forall t | t in template
      ensures t.question in Existing(once.items, agent)
    {
      if t.question in Existing(c.items, agent) {
        var i :| 0 <= i < |c.items| && c.items[i].Some? && c.items[i].value.agent == agent && c.items[i].value.question == t.question;
        assert once.items[i] == c.items[i];
      } else {
        MissingIsAdded(c.items, agent, template, t);
        var k :| 0 <= k < |added| && added[k] == FromTemplate(t, agent);
        assert once.items[|c.items| + k] == Some(added[k]);
      }
    }
    NothingMissing(once.items, agent, template);
  }

  // ----- the services as they update the tables

  class KnowledgeBase {
    var items: seq<Option<Item>>
    var documents: seq<Option<Document>>
    var version: nat

    ghost function Tables(): Content
      reads this
    {
      Content(items, documents)
    }

    constructor ()
      ensures Tables() == Content([], []) && version == 1
    {
      items, documents, version := [], [], 1;
    }

    method BumpVersion()
      modifies this`version
      ensures version == old(version) + 1
    {
      version := version + 1;
    }

    method CreateItem(item: Item) returns (i: nat)
      modifies this
      ensures Tables() == Apply(old(Tables()), AddItems([item])) && version == old(version) + 1
      ensures i < |items| && items[i] == Some(item) && i == |old(items)|
    {
      i := |items|;
      items := items + [Some(item)];
      BumpVersion();
    }

    method UpdateItem(i: nat, to: Item) returns (found: bool)
      modifies this
      ensures found <==> i < |old(items)| && old(items)[i].Some?
      ensures items == if found then old(items)[i := Some(to)] else old(items)
      ensures Tables() == Apply(old(Tables()), EditItem(i, to)) && version == old(version) + if found then 1 else 0
    {
      if i >= |items| || items[i].None? {
        return false;
      }
      items := items[i := Some(to)];
      BumpVersion();
      return true;
    }

    method DeleteItem(i: nat) returns (found: bool)
      modifies this
      ensures found <==> i < |old(items)| && old(items)[i].Some?
      ensures items == if found then old(items)[i := None] else old(items)
      ensures Tables() == Apply(old(Tables()), RemoveItem(i)) && version == old(version) + if found then 1 else 0
    {
      if i >= |items| || items[i].None? {
        assert i < |items| ==> items == items[i := None];
        return false;
      }
      items := items[i := None];
      BumpVersion();
      return true;
    }

    /** Afterwards every question of the template is present in the scope, and the version moved only if one was missing. */
    method ApplyTemplate(agent: Option<nat>, template: seq<Template>) returns (created: nat, skipped: int)
      modifies this
      ensures created == |Missing(old(items), agent, template)| && created + skipped == |template|
      ensures Tables() == Apply(old(Tables()), AddItems(Missing(old(items), agent, template)))
      ensures version == old(version) + if created > 0 then 1 else 0
      ensures Missing(items, agent, template) == []
    {
      hide Existing, Missing;
      var added := CollectMissing(items, agent, template);
      TemplatesAreIdempotent(Tables(), agent, template);
      created, skipped := |added|, |template| - |added|;
      items := items + Rows(added);
      if created > 0 {
        BumpVersion();
      }
    }

    method DeleteDocument(i: nat) returns (found: bool)
      modifies this
      ensures found <==> i < |old(documents)| && old(documents)[i].Some?
      ensures documents == if found then old(documents)[i := None] else old(documents)
      ensures Tables() == Apply(old(Tables()), RemoveDocument(i)) && version == old(version) + if found then 1 else 0
    {
      if i >= |documents| || documents[i].None? {
        assert i < |documents| ==> documents == documents[i := None];
        return false;
      }
      documents := documents[i := None];
      BumpVersion();
      return true;
    }

    /** `chunks`: what extraction and chunking gave, None when they failed and the document is marked so. */
    method ProcessDocument(i: nat, chunks: Option<seq<string>>) returns (found: bool)
      modifies this
      ensures found <==> i < |old(documents)| && old(documents)[i].Some?
      ensures found ==>
                documents == old(documents)[i := Some(if chunks.Some? then old(documents)[i].value.(status := Completed, chunks := chunks.value)
                                                      else old(documents)[i].value.(status := Failed))]
      ensures Tables() == Apply(old(Tables()), if chunks.Some? then Complete(i, chunks.value) else SetStatus(i, Failed))
      ensures version == old(version) + if found && chunks.Some? then 1 else 0
    {
      if i >= |documents| || documents[i].None? {
        return false;
      }
      documents := documents[i := Some(documents[i].value.(status := Processing))];
      if chunks.None? {
        documents := documents[i := Some(documents[i].value.(status := Failed))];
        return true;
      }
      documents := documents[i := Some(documents[i].value.(chunks := chunks.value))];
      documents := documents[i := Some(documents[i].value.(status := Completed))];
      BumpVersion();
      return true;
    }
  }
}
