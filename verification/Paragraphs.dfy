/** Splitting a document into paragraphs, and the whitespace clean-up that runs before it. */
module Paragraphs {
  import opened Text
  import opened Wrappers

  /** `t[i..j]` is one match of the pattern newline, any whitespace, newline. */
  predicate IsBreak(t: string, i: int, j: int) {
    && 0 <= i && i + 2 <= j <= |t|
    && t[i] == '\n' && t[j - 1] == '\n'
    && forall k :: i < k < j - 1 ==> IsSpace(t[k])
  }

  function RunEnd(t: string, from: nat): (e: nat)
    requires from <= |t|
    ensures from <= e <= |t|
    ensures forall k :: from <= k < e ==> IsSpace(t[k])
    ensures e < |t| ==> !IsSpace(t[e])
    decreases |t| - from
  {
    if from < |t| && IsSpace(t[from]) then RunEnd(t, from + 1) else from
  }

  function LastNewline(t: string, lo: nat, hi: nat): (r: Option<nat>)
    requires lo <= hi <= |t|
    ensures r.None? ==> forall k :: lo <= k < hi ==> t[k] != '\n'
    ensures r.Some? ==> lo <= r.value < hi && t[r.value] == '\n'
    ensures r.Some? ==> forall k :: r.value < k < hi ==> t[k] != '\n'
  {
    if lo == hi then None
    else if t[hi - 1] == '\n' then Some(hi - 1)
    else LastNewline(t, lo, hi - 1)
  }

  /** The leftmost match at or after `from`, taken as long as possible: what a regular-expression scan finds next. */
  function NextBreak(t: string, from: nat): (r: Option<(nat, nat)>)
    requires from <= |t|
    ensures r.None? ==> forall i, j :: from <= i ==> !IsBreak(t, i, j)
    ensures r.Some? ==>
      && from <= r.value.0 && IsBreak(t, r.value.0, r.value.1)
      && (forall i, j :: from <= i < r.value.0 ==> !IsBreak(t, i, j))
      && (forall j :: IsBreak(t, r.value.0, j) ==> j <= r.value.1)
    decreases |t| - from
  {
    if from == |t| then None
    else
      var last := if t[from] == '\n' then LastNewline(t, from + 1, RunEnd(t, from + 1)) else None;
      BreaksEndInTheRun(t, from);
      if last.Some? then Some((from, last.value + 1)) else NextBreak(t, from + 1)
  }

  lemma BreaksEndInTheRun(t: string, from: nat)
    requires from < |t|
    ensures forall j :: IsBreak(t, from, j) ==> j <= RunEnd(t, from + 1)
  {
    hide IsSpace;
    GapsAreSpace();
    forall j | IsBreak(t, from, j)
      ensures j <= RunEnd(t, from + 1)
    {
      assert forall k :: from < k < j ==> IsSpace(t[k]);
    }
  }

  /** `re.split` on the paragraph break. */
  function Pieces(t: string, from: nat): seq<string>
    requires from <= |t|
    decreases |t| - from
  {
    var next := NextBreak(t, from);
    if next.None? then [t[from..]]
    else [t[from..next.value.0]] + Pieces(t, next.value.1)
  }

  function NonEmptyStripped(pieces: seq<string>): (r: seq<string>)
    ensures forall p :: p in r ==> p != "" && Trimmed(p)
  {
    if pieces == [] then []
    else
      var head := Strip(pieces[0]);
      (if head != "" then [head] else []) + NonEmptyStripped(pieces[1..])
  }

  /** The paragraphs of a text: its pieces, stripped, the empty ones dropped. */
  function Split(t: string): (r: seq<string>)
    ensures forall p :: p in r ==> p != "" && Trimmed(p)
  {
    NonEmptyStripped(Pieces(t, 0))
  }

  lemma BreakOfSlice(t: string, lo: nat, hi: nat, i: int, j: int)
    requires lo <= hi <= |t| && IsBreak(t[lo..hi], i, j)
    ensures IsBreak(t, lo + i, lo + j)
  {
    hide IsSpace;
    forall k | lo + i < k < lo + j - 1
      ensures IsSpace(t[k])
    {
      assert t[k] == t[lo..hi][k - lo];
    }
  }

  lemma {:induction false} PiecesHoldNoBreak(t: string, from: nat, p: string)
    requires from <= |t| && p in Pieces(t, from)
    ensures forall i, j :: !IsBreak(p, i, j)
    decreases |t| - from
  {
    hide IsSpace;
    var next := NextBreak(t, from);
    var stop := if next.None? then |t| else next.value.0;
    if p == t[from..stop] {
      forall i, j | IsBreak(p, i, j)
        ensures false
      {
        BreakOfSlice(t, from, stop, i, j);
      }
    } else {
      PiecesHoldNoBreak(t, next.value.1, p);
    }
  }

  lemma {:induction false} PiecesKeepText(t: string, from: nat)
    requires from <= |t|
    ensures Squash(Concat(Pieces(t, from))) == Squash(t[from..])
    decreases |t| - from
  {
    hide IsSpace;
    var next := NextBreak(t, from);
    if next.None? {
      var last := t[from..];
      assert Concat([last]) == last + Concat([last][1..]);
      assert last + "" == last;
    } else {
      var (i, j) := next.value;
      PiecesKeepText(t, j);
      SquashConcat(t[from..i], Concat(Pieces(t, j)));
      CuttingTheBreakKeepsText(t, from, i, j);
    }
  }

  lemma CuttingTheBreakKeepsText(t: string, from: nat, i: nat, j: nat)
    requires from <= i && IsBreak(t, i, j)
    ensures Squash(t[from..]) == Squash(t[from..i]) + Squash(t[j..])
  {
    hide IsSpace;
    GapsAreSpace();
    var gap := t[i..j];
    assert Blank(gap);
    SquashBlank(gap);
    SquashConcat(gap, t[j..]);
    assert t[i..] == gap + t[j..];
    SquashConcat(t[from..i], t[i..]);
    assert t[from..] == t[from..i] + t[i..];
  }

  lemma {:induction false} StrippingKeepsText(pieces: seq<string>)
    ensures Squash(Concat(NonEmptyStripped(pieces))) == Squash(Concat(pieces))
  {
    hide IsSpace;
    if pieces != [] {
      var head := Strip(pieces[0]);
      var rest := NonEmptyStripped(pieces[1..]);
      StrippingKeepsText(pieces[1..]);
      SquashStrip(pieces[0]);
      SquashConcat(pieces[0], Concat(pieces[1..]));
      SquashConcat(head, Concat(rest));
      if head != "" {
        assert ([head] + rest)[1..] == rest;
      } else {
        assert [] + rest == rest;
      }
    }
  }

  lemma SplitKeepsText(t: string)
    ensures Squash(Concat(Split(t))) == Squash(t)
  {
    hide IsSpace;
    PiecesKeepText(t, 0);
    StrippingKeepsText(Pieces(t, 0));
    assert t[0..] == t;
  }
}
