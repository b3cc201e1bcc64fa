/** The words of a text, and the clean-up of website text that keeps them apart by one blank each. */
module Words {
  import opened Text
  import opened Wrappers

  /** The runs of visible characters of `current + s`, where `current` is the run being read. */
  function WordsFrom(s: string, current: string): seq<string> {
    if s == "" then if current == "" then [] else [current]
    else if !IsSpace(s[0]) then WordsFrom(s[1..], current + [s[0]])
    else if current == "" then WordsFrom(s[1..], "")
    else [current] + WordsFrom(s[1..], "")
  }

  /** `s.split()`. */
  function WordsOf(s: string): seq<string> {
    WordsFrom(s, "")
  }

  function AllWords(parts: seq<string>): seq<string> {
    if parts == [] then [] else WordsOf(parts[0]) + AllWords(parts[1..])
  }

  /** `" ".join(parts)`. */
  function Join(parts: seq<string>): string {
    if parts == [] then "" else if |parts| == 1 then parts[0] else parts[0] + " " + Join(parts[1..])
  }

  /** No whitespace but single blanks between visible characters. */
  predicate IsSingleSpaced(s: string) {
    && (s != "" ==> !IsSpace(s[0]))
    && forall i :: 0 <= i < |s| && IsSpace(s[i]) ==> s[i] == ' ' && i + 1 < |s| && !IsSpace(s[i + 1])
  }

  lemma {:induction false} WordsAcrossABlank(a: string, b: string, current: string)
    ensures WordsFrom(a + " " + b, current) == WordsFrom(a, current) + WordsOf(b)
    decreases |a|
  {
    if a == "" {
      BlankIsSpace();
      var s := a + " " + b;
      assert s[0] == ' ' && s[1..] == b;
      assert [] + WordsOf(b) == WordsOf(b);
    } else {
      hide IsSpace;
      var s := a + " " + b;
      assert s[0] == a[0] && s[1..] == a[1..] + " " + b;
      var next := if IsSpace(a[0]) then "" else current + [a[0]];
      WordsAcrossABlank(a[1..], b, next);
      Associates([current], WordsFrom(a[1..], ""), WordsOf(b));
    }
  }

  lemma BlankIsSpace()
    ensures IsSpace(' ')
  {
  }

  lemma {:induction false} WordsOfJoin(parts: seq<string>)
    ensures WordsOf(Join(parts)) == AllWords(parts)
    decreases |parts|
  {
    hide IsSpace, WordsFrom;
    if parts == [] {
      NoWords();
    } else if |parts| == 1 {
      assert parts[1..] == [] && WordsOf(parts[0]) + [] == WordsOf(parts[0]);
    } else {
      WordsOfJoin(parts[1..]);
      WordsAcrossABlank(parts[0], Join(parts[1..]), "");
    }
  }

  lemma NoWords()
    ensures WordsOf("") == []
  {
  }

  /** A single-spaced text is its words, joined. */
  lemma {:induction false} SingleSpacedIsItsWords(s: string, current: string)
    requires s != "" && IsSpace(s[0]) ==> current != ""
    requires forall i :: 0 <= i < |s| && IsSpace(s[i]) ==> s[i] == ' ' && i + 1 < |s| && !IsSpace(s[i + 1])
    ensures Join(WordsFrom(s, current)) == current + s
    ensures current + s != "" ==> WordsFrom(s, current) != []
    decreases |s|
  {
    hide IsSpace;
    if s == "" {
      assert current + s == current;
    } else {
      var rest := s[1..];
      assert forall i :: 0 <= i < |rest| ==> rest[i] == s[i + 1];
      if IsSpace(s[0]) {
        SingleSpacedIsItsWords(rest, "");
        var words := WordsFrom(rest, "");
        assert "" + rest == rest && ([current] + words)[1..] == words;
        assert current + " " + rest == current + s;
      } else {
        SingleSpacedIsItsWords(rest, current + [s[0]]);
        assert (current + [s[0]]) + rest == current + s;
      }
    }
  }

  lemma {:induction false} WordsIgnoreTrailingSpace(s: string, n: nat, current: string)
    requires n <= |s| && forall i :: n <= i < |s| ==> IsSpace(s[i])
    ensures WordsFrom(s[..n], current) == WordsFrom(s, current)
    decreases |s|
  {
    hide IsSpace;
    if s != "" {
      if n == 0 {
        WordsIgnoreTrailingSpace(s[1..], 0, "");
        assert s[1..][..0] == s[..0];
      } else {
        WordsIgnoreTrailingSpace(s[1..], n - 1, if IsSpace(s[0]) then "" else current + [s[0]]);
        assert s[..n][1..] == s[1..][..n - 1];
      }
    }
  }

  lemma {:induction false} WordsIgnoreLeadingSpace(s: string, n: nat)
    requires n <= |s| && forall i :: 0 <= i < n ==> IsSpace(s[i])
    ensures WordsOf(s[n..]) == WordsOf(s)
    decreases n
  {
    hide IsSpace;
    if n > 0 {
      WordsIgnoreLeadingSpace(s[1..], n - 1);
      assert s[1..][n - 1..] == s[n..];
    } else {
      assert s[0..] == s;
    }
  }

  lemma StripKeepsWords(s: string)
    ensures WordsOf(Strip(s)) == WordsOf(s)
  {
    hide IsSpace, WordsFrom;
    WordsIgnoreLeadingSpace(s, Lead(s, 0));
    var t := LStrip(s);
    WordsIgnoreTrailingSpace(t, Trail(t, |t|), "");
  }
}
