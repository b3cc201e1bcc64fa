/** Which tags hide text, hold the title, link or describe: case and repeated attributes included. */
module PageTags {
  import opened Wrappers
  import opened Text
  import opened Words
  import opened HtmlExtractor

  /** The tag or name is this lower-case word, in any mixture of cases. */
  predicate Spells(s: string, word: string) {
    |s| == |word| && forall i :: 0 <= i < |s| ==> s[i] == word[i] || ('A' <= s[i] <= 'Z' && s[i] as int + 32 == word[i] as int)
  }

  predicate IsLowerCase(word: string) {
    forall i :: 0 <= i < |word| ==> 'a' <= word[i] <= 'z'
  }

  lemma LowerSpells(s: string, word: string)
    requires IsLowerCase(word)
    ensures Lower(s) == word <==> Spells(s, word)
  {
    if |s| == |word| {
      forall i | 0 <= i < |s|
        ensures Lower(s)[i] == word[i] <==> s[i] == word[i] || ('A' <= s[i] <= 'Z' && s[i] as int + 32 == word[i] as int)
      {
      }
    } else {
      assert |Lower(s)| == |s|;
    }
  }

  /** Of the attributes with this name the last one has this value; None is an attribute without a value. */
  predicate HasValue(attributes: Attributes, name: string, value: Option<string>) {
    exists i :: 0 <= i < |attributes| && attributes[i] == (name, value) && forall j :: i < j < |attributes| ==> attributes[j].0 != name
  }

  lemma {:induction false} AttributeIsTheLast(attributes: Attributes, name: string, value: Option<string>)
    ensures Attribute(attributes, name) == Some(value) <==> HasValue(attributes, name, value)
    decreases |attributes|
  {
    if attributes != [] {
      var n := |attributes| - 1;
      var front := attributes[..n];
      AttributeIsTheLast(front, name, value);
      if attributes[n].0 != name {
        if HasValue(front, name, value) {
          var i :| 0 <= i < |front| && front[i] == (name, value) && forall j :: i < j < |front| ==> front[j].0 != name;
          assert attributes[i] == (name, value) && forall j :: i < j < |attributes| ==> attributes[j].0 != name;
        }
        if HasValue(attributes, name, value) {
          var i :| 0 <= i < |attributes| && attributes[i] == (name, value) && forall j :: i < j < |attributes| ==> attributes[j].0 != name;
          assert front[i] == (name, value) && forall j :: i < j < |front| ==> front[j].0 != name;
        }
      } else if HasValue(attributes, name, value) {
        var i :| 0 <= i < |attributes| && attributes[i] == (name, value) && forall j :: i < j < |attributes| ==> attributes[j].0 != name;
        assert i == n;
      }
    }
  }

  /** A script, style, svg, noscript or template element is skipped, and a title element holds the title. */
  lemma TagsAreKnownExactly(tag: string)
    ensures IsIgnored(tag) <==>
              Spells(tag, "script") || Spells(tag, "style") || Spells(tag, "svg") || Spells(tag, "noscript") || Spells(tag, "template")
    ensures IsTitle(tag) <==> Spells(tag, "title")
  {
    hide Spells, Lower;
    LowerSpells(tag, "script");
    LowerSpells(tag, "style");
    LowerSpells(tag, "svg");
    LowerSpells(tag, "noscript");
    LowerSpells(tag, "template");
    LowerSpells(tag, "title");
  }

  /** A link is collected exactly from an `a` with a non-empty `href`. */
  lemma LinksAreReadExactly(tag: string, attributes: Attributes, link: string)
    ensures |LinkOf(tag, attributes)| <= 1
    ensures link in LinkOf(tag, attributes) <==> link != "" && Spells(tag, "a") && HasValue(attributes, "href", Some(link))
  {
    hide Spells, Lower, Attribute, HasValue;
    LowerSpells(tag, "a");
    AttributeIsTheLast(attributes, "href", Some(link));
  }

  /** A description is read exactly from a `meta` named description with a non-empty `content`. */
  lemma DescriptionsAreReadExactly(tag: string, attributes: Attributes, text: string)
    ensures |DescriptionOf(tag, attributes)| <= 1
    ensures text in DescriptionOf(tag, attributes)
            <==> && text != "" && Spells(tag, "meta") && HasValue(attributes, "content", Some(text))
                 && exists name :: HasValue(attributes, "name", Some(name)) && Spells(name, "description")
  {
    hide Spells, Lower, Attribute, HasValue;
    LowerSpells(tag, "meta");
    AttributeIsTheLast(attributes, "content", Some(text));
    forall name
      ensures Attribute(attributes, "name") == Some(Some(name)) <==> HasValue(attributes, "name", Some(name))
      ensures Lower(name) == "description" <==> Spells(name, "description")
    {
      AttributeIsTheLast(attributes, "name", Some(name));
      LowerSpells(name, "description");
    }
    var found := Attribute(attributes, "name");
    if found.Some? && found.value.Some? {
      assert HasValue(attributes, "name", Some(found.value.value)) by {
        AttributeIsTheLast(attributes, "name", Some(found.value.value));
      }
    }
  }

  /** The handler raises exactly on a `meta` whose last `name` has no value. */
  lemma BareMetasAreKnownExactly(tag: string, attributes: Attributes)
    ensures IsBareMeta(tag, attributes) <==> Spells(tag, "meta") && HasValue(attributes, "name", None)
  {
    hide Spells, Lower, Attribute, HasValue;
    LowerSpells(tag, "meta");
    AttributeIsTheLast(attributes, "name", None);
  }

  /** The words of a piece of text are kept, and blank text leaves nothing. */
  lemma TextIsReadExactly(data: string)
    ensures AllWords(TextOf(data)) == WordsOf(data)
    ensures TextOf(data) == [] <==> Blank(data)
  {
    hide IsSpace, WordsFrom, Squash;
    StripKeepsWords(data);
    SquashStrip(data);
    SquashBlank(data);
    SquashBlank("");
    if Strip(data) == "" {
      NoWords();
    } else {
      assert [Strip(data)][1..] == [] && WordsOf(data) + [] == WordsOf(data);
      SquashBlank(Strip(data));
      VisibleAtTheFront(data);
    }
  }

  lemma VisibleAtTheFront(data: string)
    requires Strip(data) != ""
    ensures !Blank(Strip(data))
  {
    hide IsSpace;
    assert Trimmed(Strip(data));
  }
}
