/** The whitespace clean-up applied to every extracted document before it is chunked. */
module DocumentText {
  import opened Text
  import opened Wrappers

  datatype ExtractError = NoExtractableText

  predicate IsBlank(c: char) {
    c == ' ' || c == '\t'
  }

  /** Runs of blanks become one space; `after` says that a blank has just been written. */
  function CollapseBlanks(s: string, after: bool): string {
    if s == "" then ""
    else if !IsBlank(s[0]) then [s[0]] + CollapseBlanks(s[1..], false)
    else if after then CollapseBlanks(s[1..], true)
    else [' '] + CollapseBlanks(s[1..], true)
  }

  /** Runs of three or more newlines become two; `run` counts the newlines just read. */
  function CollapseNewlines(s: string, run: nat): string {
    if s == "" then ""
    else if s[0] != '\n' then [s[0]] + CollapseNewlines(s[1..], 0)
    else if run >= 2 then CollapseNewlines(s[1..], run + 1)
    else ['\n'] + CollapseNewlines(s[1..], run + 1)
  }

  function Clean(text: string): Result<string, ExtractError> {
    var cleaned := Strip(CollapseNewlines(CollapseBlanks(text, false), 0));
    if cleaned == "" then Err(NoExtractableText) else Ok(cleaned)
  }

  /** What a cleaned text looks like: no tab, no two blanks in a row, no three newlines in a row. */
  predicate Tidy(s: string) {
    && (forall i :: 0 <= i < |s| ==> s[i] != '\t')
    && (forall i :: 0 < i < |s| ==> !(s[i - 1] == ' ' && s[i] == ' '))
    && (forall i :: 1 < i < |s| ==> !(s[i - 2] == '\n' && s[i - 1] == '\n' && s[i] == '\n'))
  }

  /** `s` may follow a blank (`after`) and `run` newlines without breaking tidiness. */
  ghost predicate TidyAfter(s: string, after: bool, run: nat) {
    && Tidy(s)
    && (after && s != "" ==> s[0] != ' ')
    && (run >= 1 && |s| >= 2 ==> !(s[0] == '\n' && s[1] == '\n'))
    && (run >= 2 && s != "" ==> s[0] != '\n')
  }

  lemma {:induction false} BlanksCollapse(s: string, after: bool)
    ensures var r := CollapseBlanks(s, after);
            && (forall i :: 0 <= i < |r| ==> r[i] != '\t')
            && (forall i :: 0 < i < |r| ==> !(r[i - 1] == ' ' && r[i] == ' '))
            && (after && r != "" ==> r[0] != ' ')
    ensures Squash(CollapseBlanks(s, after)) == Squash(s)
  {
    if s != "" {
      assert IsSpace(' ') && IsSpace('\t');
      hide IsSpace;
      BlanksCollapse(s[1..], IsBlank(s[0]));
      var r := CollapseBlanks(s[1..], IsBlank(s[0]));
      assert forall c: char :: ([c] + r)[1..] == r;
    }
  }

  lemma {:induction false} NewlinesCollapse(s: string, after: bool, run: nat)
    requires forall i :: 0 <= i < |s| ==> s[i] != '\t'
    requires forall i :: 0 < i < |s| ==> !(s[i - 1] == ' ' && s[i] == ' ')
    requires after && s != "" ==> s[0] != ' '
    ensures TidyAfter(CollapseNewlines(s, run), after && run == 0, run)
  {
    if s != "" {
      var next := if s[0] == '\n' then run + 1 else 0;
      NewlinesCollapse(s[1..], s[0] == ' ', next);
      var r := CollapseNewlines(s[1..], next);
      assert ([s[0]] + r)[1..] == r;
    }
  }

  lemma {:induction false} CollapsingKeepsText(s: string, run: nat)
    ensures Squash(CollapseNewlines(s, run)) == Squash(s)
  {
    hide IsSpace;
    GapsAreSpace();
    if s != "" {
      var next := if s[0] == '\n' then run + 1 else 0;
      CollapsingKeepsText(s[1..], next);
      var r := CollapseNewlines(s[1..], next);
      assert ([s[0]] + r)[1..] == r;
    }
  }

  lemma {:induction false} TidyIsFixed(s: string, after: bool, run: nat)
    requires TidyAfter(s, after, run)
    ensures CollapseBlanks(s, after) == s && CollapseNewlines(s, run) == s
  {
    if s != "" {
      TidyIsFixed(s[1..], s[0] == ' ', if s[0] == '\n' then run + 1 else 0);
    }
  }

  /** The clean-up deletes whitespace only, fails exactly on blank documents, and leaves a tidy, trimmed text. */
  lemma CleanKeepsText(text: string)
    ensures Clean(text).Err? <==> Blank(text)
    ensures Clean(text).Ok? ==>
              var t := Clean(text).value;
              Squash(t) == Squash(text) && Trimmed(t) && Tidy(t)
  {
    hide IsSpace, CollapseBlanks, CollapseNewlines, Trimmed;
    var once := CollapseBlanks(text, false);
    var twice := CollapseNewlines(once, 0);
    BlanksCollapse(text, false);
    NewlinesCollapse(once, false, 0);
    CollapsingKeepsText(once, 0);
    SquashStrip(twice);
    SquashBlank(text);
    SquashBlank(Strip(twice));
    StripIsTidy(twice);
  }

  lemma StripIsTidy(s: string)
    requires Tidy(s)
    ensures Tidy(Strip(s))
  {
    hide IsSpace;
    var t, n := Strip(s), Lead(s, 0);
    assert forall i :: 0 <= i < |t| ==> t[i] == s[n + i];
  }

  /** A tidy, trimmed text is left alone; in particular cleaning twice is cleaning once. */
  lemma CleanFixesExactlyTheTidy(text: string)
    ensures Clean(text) == Ok(text) <==> text != "" && Trimmed(text) && Tidy(text)
    ensures Clean(text).Ok? ==> Clean(Clean(text).value) == Clean(text)
  {
    hide IsSpace, Squash;
    CleanKeepsText(text);
    if Trimmed(text) && Tidy(text) {
      TidyIsFixed(text, false, 0);
      StripTrimmed(text);
    }
    if Clean(text).Ok? {
      var t := Clean(text).value;
      TidyIsFixed(t, false, 0);
      StripTrimmed(t);
    }
  }
}
