/** The streaming extractor of a page's text, links and title, against the tree it reads. */
module HtmlExtractor {
  import opened Wrappers
  import opened Text

  type Attributes = seq<(string, Option<string>)>

  datatype Event = Start(tag: string, attributes: Attributes) | End(tag: string) | Data(data: string)

  /** `crashed`: a handler raised an exception, and no later event is handled. */
  datatype Parser = Parser(
    ignoredDepth: nat, inTitle: bool, titleParts: seq<string>, textParts: seq<string>, links: seq<string>, crashed: bool)

  const FRESH := Parser(0, false, [], [], [], false)

  function LowerChar(c: char): char {
    if 'A' <= c <= 'Z' then (c as int - 'A' as int + 'a' as int) as char else c
  }

  function Lower(s: string): string {
    seq(|s|, i requires 0 <= i < |s| => LowerChar(s[i]))
  }

  predicate IsIgnored(tag: string) {
    Lower(tag) in ["script", "style", "svg", "noscript", "template"]
  }

  predicate IsTitle(tag: string) {
    Lower(tag) == "title"
  }

  /** The value of an attribute, the last one if it is repeated; the inner None is an attribute without a value. */
  function Attribute(attributes: Attributes, key: string): Option<Option<string>> {
    if attributes == [] then None
    else
      var (k, v) := attributes[|attributes| - 1];
      if k == key then Some(v) else Attribute(attributes[..|attributes| - 1], key)
  }

  /** The part a non-empty attribute contributes. */
  function Filled(value: Option<Option<string>>): seq<string> {
    if value.Some? && value.value.Some? && value.value.value != "" then [value.value.value] else []
  }

  function LinkOf(tag: string, attributes: Attributes): seq<string> {
    if Lower(tag) == "a" then Filled(Attribute(attributes, "href")) else []
  }

  /** A `name` without a value: lower-casing it raises. */
  predicate IsBareMeta(tag: string, attributes: Attributes) {
    Lower(tag) == "meta" && Attribute(attributes, "name") == Some(None)
  }

  function DescriptionOf(tag: string, attributes: Attributes): seq<string> {
    var name := Attribute(attributes, "name");
    if Lower(tag) == "meta" && name.Some? && name.value.Some? && Lower(name.value.value) == "description"
    then Filled(Attribute(attributes, "content")) else []
  }

  function TextOf(data: string): seq<string> {
    if Strip(data) == "" then [] else [Strip(data)]
  }

  function Step(p: Parser, e: Event): Parser {
    if p.crashed then p
    else
      match e
      case Start(tag, attributes) =>
        if IsIgnored(tag) then p.(ignoredDepth := p.ignoredDepth + 1)
        else if p.ignoredDepth > 0 then p
        else if IsTitle(tag) then p.(inTitle := true)
        else if IsBareMeta(tag, attributes) then p.(crashed := true)
        else p.(links := p.links + LinkOf(tag, attributes), textParts := p.textParts + DescriptionOf(tag, attributes))
      case End(tag) =>
        if IsIgnored(tag) && p.ignoredDepth > 0 then p.(ignoredDepth := p.ignoredDepth - 1)
        else if p.ignoredDepth == 0 && IsTitle(tag) then p.(inTitle := false)
        else p
      case Data(data) =>
        if p.ignoredDepth > 0 then p
        else p.(textParts := p.textParts + TextOf(data), titleParts := p.titleParts + if p.inTitle then TextOf(data) else [])
  }

  function Feed(p: Parser, events: seq<Event>): Parser
    decreases events
  {
    if events == [] then p else Feed(Step(p, events[0]), events[1..])
  }

  lemma {:induction false} FeedConcat(p: Parser, first: seq<Event>, second: seq<Event>)
    ensures Feed(p, first + second) == Feed(Feed(p, first), second)
    decreases first
  {
    hide Step;
    if first == [] {
      assert first + second == second;
    } else {
      FeedConcat(Step(p, first[0]), first[1..], second);
      assert (first + second)[1..] == first[1..] + second;
    }
  }

  // ----- the tree

  /** `Void` is a start tag without an end tag, such as `meta` or `br`. */
  datatype Node =
    | Text(data: string)
    | Element(tag: string, attributes: Attributes, children: seq<Node>)
    | Void(tag: string, attributes: Attributes)

  /** Only tags that neither hide text nor hold the title go without an end tag. */
  predicate WellNested(nodes: seq<Node>) {
    nodes == []
    || (&& WellNested(nodes[1..])
        && match nodes[0]
           case Text(_) => true
           case Element(_, _, children) => WellNested(children)
           case Void(tag, _) => !IsIgnored(tag) && !IsTitle(tag))
  }

  function Events(nodes: seq<Node>): seq<Event>
    decreases nodes
  {
    if nodes == [] then [] else NodeEvents(nodes[0]) + Events(nodes[1..])
  }

  function NodeEvents(node: Node): seq<Event>
    decreases node
  {
    match node
    case Text(data) => [Data(data)]
    case Element(tag, attributes, children) => [Start(tag, attributes)] + Events(children) + [End(tag)]
    case Void(tag, attributes) => [Start(tag, attributes)]
  }

  // ----- what a reader of the tree sees

  /** Visible text and descriptions, links and the text inside titles, in order; and whether a title or a bare `meta` is visible. */
  datatype View = View(texts: seq<string>, links: seq<string>, titles: seq<string>, hasTitle: bool, hasBareMeta: bool) {
    function Then(other: View): View {
      View(texts + other.texts, links + other.links, titles + other.titles, hasTitle || other.hasTitle, hasBareMeta || other.hasBareMeta)
    }
  }

  const NOTHING := View([], [], [], false, false)

  function TagView(tag: string, attributes: Attributes): View {
    View(DescriptionOf(tag, attributes), LinkOf(tag, attributes), [], IsTitle(tag), IsBareMeta(tag, attributes))
  }

  function See(nodes: seq<Node>, inside: bool): View
    decreases nodes
  {
    if nodes == [] then NOTHING else SeeNode(nodes[0], inside).Then(See(nodes[1..], inside))
  }

  function SeeNode(node: Node, inside: bool): View
    decreases node
  {
    match node
    case Text(data) => View(TextOf(data), [], if inside then TextOf(data) else [], false, false)
    case Element(tag, attributes, children) =>
      if IsIgnored(tag) then NOTHING else TagView(tag, attributes).Then(See(children, inside || IsTitle(tag)))
    case Void(tag, attributes) => TagView(tag, attributes)
  }

  /** A visible title element occurs in the node. */
  predicate HoldsTitle(node: Node) {
    SeeNode(node, false).hasTitle
  }

  /**
    Visible text stands inside a title element after a title nested in it has ended. `inside`: within a title
    element; `live`: no title has ended since the innermost one began.
   */
  predicate IsInterrupted(nodes: seq<Node>, inside: bool, live: bool)
    decreases nodes
  {
    nodes != []
    && (IsInterruptedIn(nodes[0], inside, live) || IsInterrupted(nodes[1..], inside, live && !HoldsTitle(nodes[0])))
  }

  predicate IsInterruptedIn(node: Node, inside: bool, live: bool)
    decreases node
  {
    match node
    case Text(data) => inside && !live && Strip(data) != ""
    case Element(tag, _, children) => !IsIgnored(tag) && IsInterrupted(children, inside || IsTitle(tag), live || IsTitle(tag))
    case Void(_, _) => false
  }

  /** The title parts the parser collects, whose flag is cleared by every end of a title. */
  function Collected(nodes: seq<Node>, live: bool): seq<string>
    decreases nodes
  {
    if nodes == [] then []
    else CollectedIn(nodes[0], live) + Collected(nodes[1..], live && !HoldsTitle(nodes[0]))
  }

  function CollectedIn(node: Node, live: bool): seq<string>
    decreases node
  {
    match node
    case Text(data) => if live then TextOf(data) else []
    case Element(tag, _, children) => if IsIgnored(tag) then [] else Collected(children, live || IsTitle(tag))
    case Void(_, _) => []
  }

  // ----- proofs

  lemma FeedOne(p: Parser, e: Event)
    ensures Feed(p, [e]) == Step(p, e)
  {
    assert Feed(p, [e]) == Feed(Step(p, e), [e][1..]);
  }

  lemma FeedElement(p: Parser, tag: string, attributes: Attributes, inner: seq<Event>)
    ensures Feed(p, [Start(tag, attributes)] + inner + [End(tag)])
            == Step(Feed(Step(p, Start(tag, attributes)), inner), End(tag))
  {
    hide Step;
    FeedConcat(p, [Start(tag, attributes)] + inner, [End(tag)]);
    FeedConcat(p, [Start(tag, attributes)], inner);
    FeedOne(p, Start(tag, attributes));
    FeedOne(Feed(Step(p, Start(tag, attributes)), inner), End(tag));
  }

  /** Inside an ignored element nothing is collected and the depth comes back. */
  lemma {:induction false} HiddenChangesNothing(p: Parser, nodes: seq<Node>)
    requires WellNested(nodes) && p.ignoredDepth > 0 && !p.crashed
    ensures Feed(p, Events(nodes)) == p
    decreases nodes
  {
    hide TextOf, IsIgnored, IsTitle, IsBareMeta, LinkOf, DescriptionOf;
    if nodes != [] {
      var n := nodes[0];
      assert Feed(p, NodeEvents(n)) == p by {
        match n
        case Text(data) => FeedOne(p, Data(data));
        case Void(tag, attributes) => FeedOne(p, Start(tag, attributes));
        case Element(tag, attributes, children) =>
          FeedElement(p, tag, attributes, Events(children));
          HiddenChangesNothing(Step(p, Start(tag, attributes)), children);
      }
      HiddenChangesNothing(p, nodes[1..]);
      FeedConcat(p, NodeEvents(n), Events(nodes[1..]));
    }
  }

  /** The state after visible nodes of a given view. */
  function After(p: Parser, view: View, parts: seq<string>): (r: Parser)
    ensures r.ignoredDepth == p.ignoredDepth && r.crashed == p.crashed && r.inTitle == (p.inTitle && !view.hasTitle)
  {
    p.(textParts := p.textParts + view.texts, links := p.links + view.links,
       titleParts := p.titleParts + parts, inTitle := p.inTitle && !view.hasTitle)
  }

  lemma AfterBoth(p: Parser, v: View, parts: seq<string>, w: View, more: seq<string>)
    ensures After(After(p, v, parts), w, more) == After(p, v.Then(w), parts + more)
  {
    Associates(p.textParts, v.texts, w.texts);
    Associates(p.links, v.links, w.links);
    Associates(p.titleParts, parts, more);
  }

  lemma {:induction false} VisibleIsCollected(p: Parser, nodes: seq<Node>)
    requires WellNested(nodes) && p.ignoredDepth == 0 && !p.crashed
    ensures var view, r := See(nodes, false), Feed(p, Events(nodes));
            if view.hasBareMeta then r.crashed else r == After(p, view, Collected(nodes, p.inTitle))
    decreases nodes, 1
  {
    hide SeeNode, CollectedIn, Step, Feed, After;
    if nodes == [] {
      FeedNothing(p);
      AfterNothing(p);
    } else {
      var n, rest := nodes[0], nodes[1..];
      NodeIsCollected(p, n);
      FeedConcat(p, NodeEvents(n), Events(rest));
      var mid := Feed(p, NodeEvents(n));
      if mid.crashed {
        CrashedStays(mid, Events(rest));
      } else {
        VisibleIsCollected(mid, rest);
        AfterBoth(p, SeeNode(n, false), CollectedIn(n, p.inTitle), See(rest, false), Collected(rest, mid.inTitle));
      }
    }
  }

  lemma AfterNothing(p: Parser)
    ensures After(p, NOTHING, []) == p
  {
  }

  lemma FeedNothing(p: Parser)
    ensures Feed(p, []) == p
  {
  }

  lemma {:induction false} NodeIsCollected(p: Parser, n: Node)
    requires WellNested([n]) && p.ignoredDepth == 0 && !p.crashed
    ensures var view, r := SeeNode(n, false), Feed(p, NodeEvents(n));
            if view.hasBareMeta then r.crashed else r == After(p, view, CollectedIn(n, p.inTitle))
    decreases n, 0
  {
    hide TextOf, IsIgnored, IsTitle, IsBareMeta, LinkOf, DescriptionOf, Feed, See, Collected;
    match n
    case Text(data) => FeedOne(p, Data(data));
    case Void(tag, attributes) => FeedOne(p, Start(tag, attributes));
    case Element(tag, attributes, children) =>
      FeedElement(p, tag, attributes, Events(children));
      var inner := Step(p, Start(tag, attributes));
      if IsIgnored(tag) {
        HiddenChangesNothing(inner, children);
      } else if inner.crashed {
        CrashedStays(inner, Events(children));
      } else {
        VisibleIsCollected(inner, children);
        InsideOnlyMovesTitles(children, IsTitle(tag));
        TitleTagIsPlain(tag, attributes);
        var done := Feed(inner, Events(children));
        var view := See(children, IsTitle(tag));
        if !view.hasBareMeta {
          assert done == After(inner, view.(titles := []), Collected(children, inner.inTitle));
          assert Step(done, End(tag)) == After(p, TagView(tag, attributes).Then(view), Collected(children, inner.inTitle));
        }
      }
  }

  lemma TitleTagIsPlain(tag: string, attributes: Attributes)
    ensures IsTitle(tag) ==> LinkOf(tag, attributes) == [] && DescriptionOf(tag, attributes) == [] && !IsBareMeta(tag, attributes)
  {
  }

  lemma {:induction false} InsideOnlyMovesTitles(nodes: seq<Node>, inside: bool)
    ensures See(nodes, inside).(titles := []) == See(nodes, false).(titles := [])
    decreases nodes
  {
    hide TextOf, IsIgnored, IsTitle, IsBareMeta, LinkOf, DescriptionOf;
    if nodes != [] {
      match nodes[0] {
        case Element(tag, _, children) =>
          InsideOnlyMovesTitles(children, inside || IsTitle(tag));
          InsideOnlyMovesTitles(children, IsTitle(tag));
        case _ =>
      }
      InsideOnlyMovesTitles(nodes[1..], inside);
    }
  }

  lemma {:induction false} CrashedStays(p: Parser, events: seq<Event>)
    requires p.crashed
    ensures Feed(p, events) == p
    decreases events
  {
    if events != [] {
      CrashedStays(p, events[1..]);
    }
  }

  /** The collected title is the title's text without what follows an interruption. */
  lemma {:induction false} InterruptionsLoseText(nodes: seq<Node>, inside: bool, live: bool)
    requires live ==> inside
    ensures var got, titles := Collected(nodes, live), See(nodes, inside).titles;
            && |got| <= |titles| && (IsInterrupted(nodes, inside, live) <==> |got| < |titles|)
            && (!IsInterrupted(nodes, inside, live) ==> got == titles)
    decreases nodes, 1
  {
    hide SeeNode, CollectedIn, IsInterruptedIn, HoldsTitle;
    if nodes != [] {
      InterruptionsLoseTextIn(nodes[0], inside, live);
      InterruptionsLoseText(nodes[1..], inside, live && !HoldsTitle(nodes[0]));
    }
  }

  lemma {:induction false} InterruptionsLoseTextIn(node: Node, inside: bool, live: bool)
    requires live ==> inside
    ensures var got, titles := CollectedIn(node, live), SeeNode(node, inside).titles;
            && |got| <= |titles| && (IsInterruptedIn(node, inside, live) <==> |got| < |titles|)
            && (!IsInterruptedIn(node, inside, live) ==> got == titles)
    decreases node, 0
  {
    hide Strip, IsIgnored, IsTitle, IsBareMeta, LinkOf, DescriptionOf, See, Collected, IsInterrupted;
    match node
    case Element(tag, _, children) => InterruptionsLoseText(children, inside || IsTitle(tag), live || IsTitle(tag));
    case _ =>
  }

  /**
    Fed with the events of a well-nested page, the parser fails exactly when a visible `meta` has a bare name. Otherwise it
    holds the page's text and links in order and is back at depth 0; the title is the text inside title elements
    exactly when no such text follows the end of a nested title.
   */
  lemma ParserReadsTheTree(nodes: seq<Node>)
    requires WellNested(nodes)
    ensures var r, view := Feed(FRESH, Events(nodes)), See(nodes, false);
            && (r.crashed <==> view.hasBareMeta)
            && (!r.crashed ==>
                  && r.textParts == view.texts && r.links == view.links && r.ignoredDepth == 0 && !r.inTitle
                  && (r.titleParts == view.titles <==> !IsInterrupted(nodes, false, false)))
  {
    hide Feed, See, IsInterrupted, Collected;
    VisibleIsCollected(FRESH, nodes);
    InterruptionsLoseText(nodes, false, false);
  }

  /** No title element is visible inside another. */
  predicate TitlesAreFlat(nodes: seq<Node>, inside: bool)
    decreases nodes
  {
    nodes == [] || (TitlesAreFlatIn(nodes[0], inside) && TitlesAreFlat(nodes[1..], inside))
  }

  predicate TitlesAreFlatIn(node: Node, inside: bool)
    decreases node
  {
    node.Element? && !IsIgnored(node.tag) ==>
      !(inside && IsTitle(node.tag)) && TitlesAreFlat(node.children, inside || IsTitle(node.tag))
  }

  lemma {:induction false} FlatTitlesHoldNone(nodes: seq<Node>)
    requires WellNested(nodes) && TitlesAreFlat(nodes, true)
    ensures !See(nodes, false).hasTitle
    decreases nodes
  {
    hide TextOf, IsIgnored, IsTitle, IsBareMeta, LinkOf, DescriptionOf;
    if nodes != [] {
      match nodes[0] {
        case Element(tag, _, children) =>
          if !IsIgnored(tag) {
            FlatTitlesHoldNone(children);
          }
        case _ =>
      }
      FlatTitlesHoldNone(nodes[1..]);
    }
  }

  /** Pages without nested titles lose nothing. */
  lemma {:induction false} FlatTitlesAreNotInterrupted(nodes: seq<Node>, inside: bool)
    requires WellNested(nodes) && TitlesAreFlat(nodes, inside)
    ensures !IsInterrupted(nodes, inside, inside)
    decreases nodes
  {
    hide Strip, IsIgnored, IsTitle, See, SeeNode;
    if nodes != [] {
      match nodes[0] {
        case Element(tag, _, children) =>
          if !IsIgnored(tag) {
            FlatTitlesAreNotInterrupted(children, inside || IsTitle(tag));
          }
        case _ =>
      }
      if inside {
        FlatNodeHoldsNone(nodes[0]);
      }
      FlatTitlesAreNotInterrupted(nodes[1..], inside);
    }
  }

  lemma FlatNodeHoldsNone(node: Node)
    requires WellNested([node]) && TitlesAreFlatIn(node, true)
    ensures !HoldsTitle(node)
  {
    hide TextOf, IsIgnored, IsTitle, IsBareMeta, LinkOf, DescriptionOf;
    if node.Element? && !IsIgnored(node.tag) {
      FlatTitlesHoldNone(node.children);
      InsideOnlyMovesTitles(node.children, IsTitle(node.tag));
    }
  }

  /** A title nested in a title: the text after it is missing from the collected title. */
  lemma NestedTitleLosesText(nested: seq<Node>, c: string)
    requires WellNested(nested) && !See(nested, false).hasBareMeta && Strip(c) != ""
    ensures var page := [Element("title", [], [Element("title", [], nested), Text(c)])];
            WellNested(page) && Feed(FRESH, Events(page)).titleParts != See(page, false).titles
  {
    hide IsIgnored, IsTitle, Feed, LinkOf, DescriptionOf, IsBareMeta, Strip, Collected, Events, CollectedIn, TextOf;
    TitleTag();
    TitleTagIsPlain("title", []);
    var inner, after := Element("title", [], nested), Text(c);
    var outer := Element("title", [], [inner, after]);
    assert [inner, after][1..] == [after];
    assert IsInterrupted([after], true, false) && HoldsTitle(inner);
    assert IsInterrupted([inner, after], true, true);
    assert IsInterruptedIn(outer, false, false);
    assert IsInterrupted([outer], false, false);
    assert WellNested([after]) && WellNested([inner, after]);
    PlainTitle(nested);
    PlainTail(inner, after);
    PlainTitle([inner, after]);
    ParserReadsTheTree([outer]);
  }

  /** A title element raises nothing if its children raise nothing. */
  lemma PlainTitle(nodes: seq<Node>)
    requires !See(nodes, false).hasBareMeta
    ensures var title := Element("title", [], nodes); !SeeNode(title, false).hasBareMeta && !See([title], false).hasBareMeta
  {
    hide IsIgnored, IsTitle, IsBareMeta, LinkOf, DescriptionOf, TextOf;
    TitleTag();
    TitleTagIsPlain("title", []);
    InsideOnlyMovesTitles(nodes, true);
    var title := Element("title", [], nodes);
    assert [title][1..] == [];
  }

  lemma PlainTail(n: Node, t: Node)
    requires !SeeNode(n, false).hasBareMeta && t.Text?
    ensures !See([n, t], false).hasBareMeta
  {
    hide SeeNode;
    PlainText(t);
    assert [n, t][1..] == [t] && [t][1..] == [];
    assert !See([t], false).hasBareMeta by {
      assert See([t][1..], false) == NOTHING;
    }
  }

  lemma PlainText(t: Node)
    requires t.Text?
    ensures !SeeNode(t, false).hasBareMeta
  {
  }

  lemma TitleTag()
    ensures IsTitle("title") && !IsIgnored("title")
  {
    assert Lower("title") == "title";
  }

  // ----- the parser as it updates its fields

  class WebsiteParser {
    var ignoredDepth: nat
    var inTitle: bool
    var titleParts: seq<string>
    var textParts: seq<string>
    var links: seq<string>
    var crashed: bool

    ghost function State(): Parser
      reads this
    {
      Parser(ignoredDepth, inTitle, titleParts, textParts, links, crashed)
    }

    constructor ()
      ensures State() == FRESH
    {
      ignoredDepth, inTitle, titleParts, textParts, links, crashed := 0, false, [], [], [], false;
    }

    method HandleStartTag(tag: string, attributes: Attributes)
      requires !crashed
      modifies this
      ensures State() == Step(old(State()), Start(tag, attributes))
    {
      hide Attribute;
      if IsIgnored(tag) {
        ignoredDepth := ignoredDepth + 1;
        return;
      }
      if ignoredDepth > 0 {
        return;
      }
      if Lower(tag) == "title" {
        inTitle := true;
        return;
      }
      var href := Attribute(attributes, "href");
      if Lower(tag) == "a" && href.Some? && href.value.Some? && href.value.value != "" {
        links := links + [href.value.value];
      } else if Lower(tag) == "meta" {
        var name := Attribute(attributes, "name");
        if name == Some(None) {
          crashed := true;
        } else if name.Some? && Lower(name.value.value) == "description" {
          var content := Attribute(attributes, "content");
          if content.Some? && content.value.Some? && content.value.value != "" {
            textParts := textParts + [content.value.value];
          }
        }
      }
    }

    method HandleEndTag(tag: string)
      requires !crashed
      modifies this
      ensures State() == Step(old(State()), End(tag))
    {
      if IsIgnored(tag) && ignoredDepth > 0 {
        ignoredDepth := ignoredDepth - 1;
        return;
      }
      if ignoredDepth == 0 && IsTitle(tag) {
        inTitle := false;
      }
    }

    method HandleData(data: string)
      requires !crashed
      modifies this
      ensures State() == Step(old(State()), Data(data))
    {
      if ignoredDepth > 0 {
        return;
      }
      var value := Strip(data);
      if value == "" {
        return;
      }
      textParts := textParts + [value];
      if inTitle {
        titleParts := titleParts + [value];
      }
    }

    /** The events of a page, in order, until a handler raises. */
    method ReadEvents(events: seq<Event>)
      modifies this
      ensures State() == Feed(old(State()), events)
    {
      hide Step;
      assert events[0..] == events;
      var k := 0;
      while k < |events| && !crashed
        invariant 0 <= k <= |events|
        invariant Feed(State(), events[k..]) == Feed(old(State()), events)
      {
        assert events[k..][1..] == events[k + 1..];
        match events[k] {
          case Start(tag, attributes) => HandleStartTag(tag, attributes);
          case End(tag) => HandleEndTag(tag);
          case Data(data) => HandleData(data);
        }
        k := k + 1;
      }
      if crashed {
        CrashedStays(State(), events[k..]);
      }
    }

    /** A fresh parser driven over a well-nested page ends with what a reader of the tree sees. */
    method ReadPage(nodes: seq<Node>)
      requires State() == FRESH && WellNested(nodes)
      modifies this
      ensures crashed <==> See(nodes, false).hasBareMeta
      ensures !crashed ==> textParts == See(nodes, false).texts && links == See(nodes, false).links
      ensures !crashed ==> ignoredDepth == 0 && !inTitle
      ensures !crashed ==> (titleParts == See(nodes, false).titles <==> !IsInterrupted(nodes, false, false))
    {
      hide Feed, See, IsInterrupted;
      ReadEvents(Events(nodes));
      ParserReadsTheTree(nodes);
    }
  }
}
