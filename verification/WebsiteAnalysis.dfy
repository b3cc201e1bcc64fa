/** Which pages of a website are read, and how much of them is sent to be analysed. */
module WebsiteAnalysis {
  import opened Wrappers
  import opened Text
  import opened Words
  import opened HtmlExtractor

  datatype Page = Page(url: string, title: string, content: string)

  // ----- one page

  /** Every run of whitespace becomes one blank; `after` says that a blank was just written. */
  function Collapsed(s: string, after: bool): string {
    if s == "" then ""
    else if !IsSpace(s[0]) then [s[0]] + Collapsed(s[1..], false)
    else if after then Collapsed(s[1..], true)
    else " " + Collapsed(s[1..], true)
  }

  function CleanText(parts: seq<string>): string {
    Strip(Collapsed(Join(parts), false))
  }

  /** `_parse_page`; None when a handler raises. */
  function ParsePage(url: string, nodes: seq<Node>): Option<Page> {
    var p := Feed(FRESH, Events(nodes));
    if p.crashed then None else Some(Page(url, Take(CleanText(p.titleParts), 500), CleanText(p.textParts)))
  }

  /** Cleaning neither loses nor adds visible text. */
  lemma CleanTextKeepsText(parts: seq<string>)
    ensures Squash(CleanText(parts)) == Squash(Concat(parts))
  {
    hide IsSpace, Squash, Collapsed, Join;
    CollapsingKeepsText(Join(parts), false);
    JoiningKeepsText(parts);
    SquashStrip(Collapsed(Join(parts), false));
  }

  lemma {:induction false} CollapsingKeepsText(s: string, after: bool)
    ensures Squash(Collapsed(s, after)) == Squash(s)
    decreases s
  {
    if s != "" {
      CollapsingKeepsText(s[1..], IsSpace(s[0]));
      BlankIsSquashed();
      SquashConcat(" ", Collapsed(s[1..], true));
      SquashConcat([s[0]], Collapsed(s[1..], false));
      hide IsSpace;
    }
  }

  lemma BlankIsSquashed()
    ensures IsSpace(' ') && Squash(" ") == ""
  {
    assert " "[1..] == "";
  }

  lemma {:induction false} JoiningKeepsText(parts: seq<string>)
    ensures Squash(Join(parts)) == Squash(Concat(parts))
    decreases parts
  {
    hide IsSpace, Squash;
    if |parts| == 1 {
      assert parts[1..] == [] && Concat(parts) == parts[0] + "";
      assert parts[0] + "" == parts[0];
    } else if |parts| > 1 {
      JoiningKeepsText(parts[1..]);
      BlankIsSquashed();
      SquashConcat(parts[0], " ");
      SquashConcat(parts[0] + " ", Join(parts[1..]));
      SquashConcat(parts[0], Concat(parts[1..]));
      assert Squash(parts[0]) + "" == Squash(parts[0]);
    }
  }

  lemma {:induction false} CollapsingKeepsWords(s: string, after: bool, current: string)
    requires after ==> current == ""
    ensures WordsFrom(Collapsed(s, after), current) == WordsFrom(s, current)
    ensures var r := Collapsed(s, after);
            && (forall i :: 0 <= i < |r| && IsSpace(r[i]) ==> r[i] == ' ' && (i + 1 < |r| ==> !IsSpace(r[i + 1])))
            && (after && r != "" ==> !IsSpace(r[0]))
    decreases s
  {
    if s != "" {
      var space := IsSpace(s[0]);
      var rest := Collapsed(s[1..], space);
      CollapsingKeepsWords(s[1..], space, if space then "" else current + [s[0]]);
      BlankIsSpace();
      hide IsSpace;
      if !space {
        assert ([s[0]] + rest)[1..] == rest;
      } else if !after {
        assert (" " + rest)[0] == ' ' && (" " + rest)[1..] == rest;
      }
    }
  }

  /** Cleaning gives the words of the parts, in order, with one blank between neighbours. */
  lemma CleanTextIsItsWords(parts: seq<string>)
    ensures CleanText(parts) == Join(AllWords(parts))
  {
    hide IsSpace, Collapsed, WordsFrom, Join;
    var collapsed := Collapsed(Join(parts), false);
    var r := CleanText(parts);
    WordsOfJoin(parts);
    CollapsingKeepsWords(Join(parts), false, "");
    StripKeepsWords(collapsed);
    StrippedIsSingleSpaced(collapsed);
    SingleSpacedIsItsWords(r, "");
    assert "" + r == r;
  }

  lemma StrippedIsSingleSpaced(s: string)
    requires forall i :: 0 <= i < |s| && IsSpace(s[i]) ==> s[i] == ' ' && (i + 1 < |s| ==> !IsSpace(s[i + 1]))
    ensures IsSingleSpaced(Strip(s))
  {
    hide IsSpace;
    var t, n := Strip(s), Lead(s, 0);
    assert forall i :: 0 <= i < |t| ==> t[i] == s[n + i];
  }

  /**
    A well-nested page is read exactly when no visible `meta` has a bare `name`. Its content is the words of the tree's text, and its
    title the first 500 characters of the words inside its title elements, unless text follows a nested title.
   */
  lemma ParsedPageHoldsTheText(url: string, nodes: seq<Node>)
    requires WellNested(nodes)
    ensures var view := See(nodes, false);
            && (ParsePage(url, nodes).None? <==> view.hasBareMeta)
            && (ParsePage(url, nodes).Some? ==>
                  var page := ParsePage(url, nodes).value;
                  && page.url == url && page.content == Join(AllWords(view.texts))
                  && Squash(page.content) == Squash(Concat(view.texts))
                  && (!IsInterrupted(nodes, false, false) ==>
                        var title := Join(AllWords(view.titles));
                        page.title == if |title| <= 500 then title else title[..500]))
  {
    hide Feed, Events, See, CleanText, Squash, Join, AllWords, IsInterrupted;
    ParserReadsTheTree(nodes);
    var view := See(nodes, false);
    CleanTextKeepsText(view.texts);
    CleanTextIsItsWords(view.texts);
    CleanTextIsItsWords(view.titles);
  }

  // ----- the crawl

  /** What fetching one candidate link gave, after redirects. */
  datatype Fetch = Unreachable | Fetched(url: string, nodes: seq<Node>)

  predicate Knows(pages: seq<Page>, url: string) {
    exists i :: 0 <= i < |pages| && pages[i].url == url
  }

  /** The page a fetch adds: none when it failed, is known, or has no content; an exception while parsing is not caught. */
  function Added(pages: seq<Page>, f: Fetch): Option<seq<Page>> {
    if f.Unreachable? || Knows(pages, f.url) then Some([])
    else
      var page := ParsePage(f.url, f.nodes);
      if page.None? then None else if page.value.content == "" then Some([]) else Some([page.value])
  }

  /** The candidate loop, from the pages read so far. */
  function Crawled(pages: seq<Page>, fetches: seq<Fetch>, limit: int): Option<seq<Page>>
    decreases fetches
  {
    if fetches == [] || |pages| >= limit then Some(pages)
    else
      var added := Added(pages, fetches[0]);
      if added.None? then None else Crawled(pages + added.value, fetches[1..], limit)
  }

  predicate UrlsAreDistinct(pages: seq<Page>) {
    forall i, j :: 0 <= i < j < |pages| ==> pages[i].url != pages[j].url
  }

  predicate HasContent(f: Fetch) {
    f.Fetched? && ParsePage(f.url, f.nodes).Some? && ParsePage(f.url, f.nodes).value.content != ""
  }

  predicate ComesFrom(page: Page, fetches: seq<Fetch>) {
    exists k :: 0 <= k < |fetches| && fetches[k].Fetched? && ParsePage(fetches[k].url, fetches[k].nodes) == Some(page)
  }

  /**
    No page is read twice, every page added has content and comes from a fetch, the limit is kept, and a crawl that ends
    below the limit has every page with content.
   */
  lemma {:induction false} CrawlIsSoundAndComplete(pages: seq<Page>, fetches: seq<Fetch>, limit: int)
    requires UrlsAreDistinct(pages) && Crawled(pages, fetches, limit).Some?
    ensures var r := Crawled(pages, fetches, limit).value;
            && pages <= r && UrlsAreDistinct(r)
            && (|r| > |pages| ==> |r| <= limit)
            && (forall i :: |pages| <= i < |r| ==> r[i].content != "" && ComesFrom(r[i], fetches))
            && (|r| < limit ==> forall k :: 0 <= k < |fetches| && HasContent(fetches[k]) ==> Knows(r, fetches[k].url))
    decreases fetches
  {
    hide ParsePage, ComesFrom;
    if fetches != [] && |pages| < limit {
      var f, rest := fetches[0], fetches[1..];
      var next := pages + Added(pages, f).value;
      NowKnown(pages, f);
      CrawlIsSoundAndComplete(next, rest, limit);
      var r := Crawled(pages, fetches, limit).value;
      assert forall k :: 0 < k < |fetches| ==> fetches[k] == rest[k - 1];
      forall i | |pages| <= i < |r|
        ensures r[i].content != "" && ComesFrom(r[i], fetches)
      {
        if i >= |next| {
          ComesFromTheRest(r[i], fetches);
        } else {
          assert r[i] == next[i];
          ComesFromTheFirst(next[i], fetches);
        }
      }
      if |r| < limit && HasContent(f) {
        var i :| 0 <= i < |next| && next[i].url == f.url;
        assert r[i] == next[i];
      }
    }
  }

  lemma ComesFromTheRest(page: Page, fetches: seq<Fetch>)
    requires fetches != [] && ComesFrom(page, fetches[1..])
    ensures ComesFrom(page, fetches)
  {
    hide ParsePage;
    var rest := fetches[1..];
    var k :| 0 <= k < |rest| && rest[k].Fetched? && ParsePage(rest[k].url, rest[k].nodes) == Some(page);
    assert fetches[k + 1] == rest[k];
  }

  lemma ComesFromTheFirst(page: Page, fetches: seq<Fetch>)
    requires fetches != [] && fetches[0].Fetched? && ParsePage(fetches[0].url, fetches[0].nodes) == Some(page)
    ensures ComesFrom(page, fetches)
  {
  }

  /** A page that was fetched and has content is known afterwards. */
  lemma NowKnown(pages: seq<Page>, f: Fetch)
    requires Added(pages, f).Some?
    ensures HasContent(f) ==> Knows(pages + Added(pages, f).value, f.url)
    ensures forall p :: p in Added(pages, f).value ==> f.Fetched? && p.url == f.url && !Knows(pages, f.url)
  {
    var all := pages + Added(pages, f).value;
    if HasContent(f) && Knows(pages, f.url) {
      var i :| 0 <= i < |pages| && pages[i].url == f.url;
      assert all[i].url == f.url;
    } else if HasContent(f) {
      assert all[|pages|].url == f.url;
    }
  }

  /** The crawl, still below its limit, meets a new page at `k` whose parsing raises. */
  predicate RaisesAt(pages: seq<Page>, fetches: seq<Fetch>, limit: int, k: int) {
    && 0 <= k < |fetches| && fetches[k].Fetched? && ParsePage(fetches[k].url, fetches[k].nodes).None?
    && var before := Crawled(pages, fetches[..k], limit);
       before.Some? && |before.value| < limit && !Knows(before.value, fetches[k].url)
  }

  /** The whole crawl is abandoned exactly when that happens. */
  lemma {:induction false} CrawlFailsExactlyWhenAPageRaises(pages: seq<Page>, fetches: seq<Fetch>, limit: int)
    ensures Crawled(pages, fetches, limit).None? <==> exists k :: RaisesAt(pages, fetches, limit, k)
    decreases fetches
  {
    hide ParsePage, Knows;
    if fetches != [] {
      var rest := fetches[1..];
      assert fetches[..0] == [];
      if |pages| < limit && Added(pages, fetches[0]).Some? {
        var next := pages + Added(pages, fetches[0]).value;
        CrawlFailsExactlyWhenAPageRaises(next, rest, limit);
        forall k | 0 < k < |fetches|
          ensures RaisesAt(pages, fetches, limit, k) <==> RaisesAt(next, rest, limit, k - 1)
        {
          assert fetches[..k][0] == fetches[0] && fetches[..k][1..] == rest[..k - 1];
        }
        assert !RaisesAt(pages, fetches, limit, 0);
        if k :| RaisesAt(next, rest, limit, k) {
          assert RaisesAt(pages, fetches, limit, k + 1);
        }
      } else if |pages| < limit {
        assert RaisesAt(pages, fetches, limit, 0);
      } else {
        forall k
          ensures !RaisesAt(pages, fetches, limit, k)
        {
        }
      }
    }
  }

  datatype CrawlError = NoReadableContent | ParsingRaised

  method Crawl(url: string, nodes: seq<Node>, fetches: seq<Fetch>, maxPages: int) returns (r: Result<seq<Page>, CrawlError>)
    ensures var limit := if maxPages < 1 then 1 else maxPages;
            var first := ParsePage(url, nodes);
            var pages := if first.None? then None else Crawled([first.value], fetches, limit);
            && (r == Err(ParsingRaised) <==> pages.None?)
            && (pages.Some? ==> |pages.value| <= limit && UrlsAreDistinct(pages.value))
            && (r.Ok? <==> pages.Some? && exists i :: 0 <= i < |pages.value| && pages.value[i].content != "")
            && (r.Ok? ==> r.value == pages.value)
  {
    hide UrlsAreDistinct, Knows, ParsePage;
    var limit := if maxPages < 1 then 1 else maxPages;
    var first := ParsePage(url, nodes);
    if first.None? {
      return Err(ParsingRaised);
    }
    ghost var all := Crawled([first.value], fetches, limit);
    OnePageIsDistinct(first.value);
    if all.Some? {
      CrawlIsSoundAndComplete([first.value], fetches, limit);
    }
    var pages := [first.value];
    assert fetches[0..] == fetches;
    var k := 0;
    while k < |fetches| && |pages| < limit
      invariant 0 <= k <= |fetches| && |pages| > 0
      invariant Crawled(pages, fetches[k..], limit) == all
    {
      assert fetches[k..][1..] == fetches[k + 1..];
      var added := Added(pages, fetches[k]);
      if added.None? {
        return Err(ParsingRaised);
      }
      pages := pages + added.value;
      k := k + 1;
    }
    var readable := false;
    for i := 0 to |pages|
      invariant readable <==> exists j :: 0 <= j < i && pages[j].content != ""
    {
      if pages[i].content != "" {
        readable := true;
      }
    }
    r := if readable then Ok(pages) else Err(NoReadableContent);
  }

  lemma OnePageIsDistinct(page: Page)
    ensures UrlsAreDistinct([page])
  {
  }

  // ----- the input budget of the analysis

  function Contents(pages: seq<Page>): string {
    if pages == [] then "" else pages[0].content + Contents(pages[1..])
  }

  function Take(s: string, n: nat): (r: string)
    ensures r <= s && |r| == if |s| <= n then |s| else n
  {
    if |s| <= n then s else s[..n]
  }

  predicate IsCutOf(part: Page, whole: Page) {
    part == whole.(content := part.content) && part.content <= whole.content && part.content != ""
  }

  /** `part` takes some pages of `whole`, in order, each with a non-empty prefix of its content. */
  predicate IsSelection(part: seq<Page>, whole: seq<Page>)
    decreases whole
  {
    if whole == [] then part == []
    else (part != [] && IsCutOf(part[0], whole[0]) && IsSelection(part[1..], whole[1..])) || IsSelection(part, whole[1..])
  }

  function Limited(pages: seq<Page>, remaining: nat): seq<Page>
    decreases pages
  {
    if pages == [] || remaining == 0 then []
    else
      var content := Take(pages[0].content, remaining);
      if content == "" then Limited(pages[1..], remaining)
      else [pages[0].(content := content)] + Limited(pages[1..], remaining - |content|)
  }

  lemma TakeConcat(s: string, t: string, n: nat)
    ensures Take(s + t, n) == Take(s, n) + Take(t, n - |Take(s, n)|)
  {
  }

  /** The pages sent hold exactly the first `remaining` characters of all pages, page by page. */
  lemma BudgetIsAPrefix(pages: seq<Page>, remaining: nat)
    ensures Contents(Limited(pages, remaining)) == Take(Contents(pages), remaining)
    ensures IsSelection(Limited(pages, remaining), pages)
  {
    LimitedIsAPrefix(pages, remaining);
    LimitedIsASelection(pages, remaining);
  }

  /** What the first page contributes. */
  lemma LimitedBegins(pages: seq<Page>, remaining: nat)
    requires pages != [] && remaining > 0
    ensures var content := Take(pages[0].content, remaining);
            Contents(Limited(pages, remaining)) == content + Contents(Limited(pages[1..], remaining - |content|))
  {
    hide Take;
    var content := Take(pages[0].content, remaining);
    var rest := Limited(pages[1..], remaining - |content|);
    if content != "" {
      assert ([pages[0].(content := content)] + rest)[1..] == rest;
    } else {
      assert content + Contents(rest) == Contents(rest);
    }
  }

  lemma NothingIsLimited(pages: seq<Page>, remaining: nat)
    requires pages == [] || remaining == 0
    ensures Contents(Limited(pages, remaining)) == Take(Contents(pages), remaining)
  {
  }

  lemma {:induction false} LimitedIsAPrefix(pages: seq<Page>, remaining: nat)
    ensures Contents(Limited(pages, remaining)) == Take(Contents(pages), remaining)
    decreases pages
  {
    hide Take, Limited;
    if pages != [] && remaining > 0 {
      LimitedBegins(pages, remaining);
      LimitedIsAPrefix(pages[1..], remaining - |Take(pages[0].content, remaining)|);
      TakeConcat(pages[0].content, Contents(pages[1..]), remaining);
    } else {
      NothingIsLimited(pages, remaining);
    }
  }

  lemma {:induction false} LimitedIsASelection(pages: seq<Page>, remaining: nat)
    ensures IsSelection(Limited(pages, remaining), pages)
    decreases pages
  {
    hide Take;
    if pages != [] {
      var content := Take(pages[0].content, remaining);
      var rest := Limited(pages[1..], remaining - |content|);
      LimitedIsASelection(pages[1..], remaining - |content|);
      if remaining == 0 {
        LimitedIsASelection(pages[1..], 0);
      } else if content != "" {
        assert ([pages[0].(content := content)] + rest)[1..] == rest;
      }
    }
  }

  lemma LimitedFrom(pages: seq<Page>, k: nat, remaining: nat)
    requires k < |pages| && remaining > 0
    ensures var content := Take(pages[k].content, remaining);
            var rest := Limited(pages[k + 1..], remaining - |content|);
            Limited(pages[k..], remaining) == if content == "" then rest else [pages[k].(content := content)] + rest
  {
    hide Take;
    assert pages[k..][1..] == pages[k + 1..];
  }

  method LimitPages(pages: seq<Page>, maxChars: int) returns (limited: seq<Page>)
    ensures var budget := if maxChars < 1 then 1 else maxChars;
            Contents(limited) == Take(Contents(pages), budget) && IsSelection(limited, pages)
  {
    hide Take, Contents, IsSelection, Limited;
    var budget: nat := if maxChars < 1 then 1 else maxChars;
    var remaining: nat := budget;
    limited := [];
    assert pages[0..] == pages;
    var k := 0;
    while k < |pages| && remaining > 0
      invariant 0 <= k <= |pages|
      invariant limited + Limited(pages[k..], remaining) == Limited(pages, budget)
    {
      var page := pages[k];
      var content := Take(page.content, remaining);
      ghost var rest := Limited(pages[k + 1..], remaining - |content|);
      LimitedFrom(pages, k, remaining);
      if content != "" {
        var cut := page.(content := content);
        Associates(limited, [cut], rest);
        limited := limited + [cut];
        remaining := remaining - |content|;
      }
      k := k + 1;
    }
    NothingLeft(pages[k..], remaining);
    assert limited == Limited(pages, budget);
    BudgetIsAPrefix(pages, budget);
  }

  lemma NothingLeft(pages: seq<Page>, remaining: nat)
    requires pages == [] || remaining == 0
    ensures Limited(pages, remaining) == []
  {
  }
}
