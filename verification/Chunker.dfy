/** Splitting the text of a knowledge document into overlapping chunks. */
module Chunker {
  import opened Text
  import opened Wrappers
  import Paragraphs

  datatype Config = Config(size: int, overlap: int) {
    /** The configurations the code accepts. */
    predicate Accepted() {
      size >= 200 && 0 <= overlap < size
    }

    /** The accepted configurations under which every text is chunked in finitely many rounds. */
    predicate Sound() {
      Accepted() && overlap + 2 < size
    }
  }

  datatype ChunkError = InvalidConfiguration

  /** The variables of the two nested loops; `todo` holds the paragraphs the outer loop has not reached. */
  datatype Work = Work(todo: seq<string>, remaining: string, current: string, chunks: seq<string>) {
    predicate Done() {
      todo == [] && remaining == ""
    }
  }

  const GAP := "\n\n"

  function Capacity(cfg: Config, current: string): int {
    cfg.size - |current| - (if current == "" then 0 else 2)
  }

  /** The overlap a finished chunk hands to its successor. */
  function Tail(cfg: Config, chunk: string): (r: string)
    requires cfg.Accepted()
    ensures |r| <= cfg.overlap && |r| <= |chunk|
    ensures Trimmed(chunk) ==> Trimmed(r)
  {
    if cfg.overlap == 0 then "" else LStrip(Last(chunk, cfg.overlap))
  }

  function Joined(current: string, piece: string): (r: string)
    ensures Trimmed(r)
  {
    Strip((current + GAP) + piece)
  }

  /** `text.rfind(" ", 0, stop)`. */
  function RFindSpace(text: string, stop: nat): (r: int)
    requires stop <= |text|
    ensures -1 <= r < stop
    ensures r >= 0 ==> text[r] == ' '
    ensures forall k :: r < k < stop ==> text[k] != ' '
  {
    if stop == 0 then -1
    else if text[stop - 1] == ' ' then stop - 1
    else RFindSpace(text, stop - 1)
  }

  /** Where a paragraph is cut: at the last space of the second half of the window, else at its end. */
  function SplitAt(remaining: string, capacity: nat): (k: nat)
    requires 0 < capacity <= |remaining|
    ensures 0 < k <= capacity
    ensures k < capacity ==> remaining[k] == ' ' && 80 <= k && capacity / 2 <= k
    ensures forall i :: k < i < capacity ==> remaining[i] != ' '
    ensures k == capacity ==> forall i :: 80 <= i < capacity && capacity / 2 <= i ==> remaining[i] != ' '
  {
    var found := RFindSpace(remaining, capacity);
    var least := if 80 < capacity / 2 then capacity / 2 else 80;
    if found < least then capacity else found
  }

  /** One turn of the inner loop, or the outer loop's move to the next paragraph. */
  function Step(cfg: Config, w: Work): Work
    requires cfg.Accepted()
  {
    if w.remaining == "" then
      if w.todo == [] then w else w.(todo := w.todo[1..], remaining := w.todo[0])
    else
      var capacity := Capacity(cfg, w.current);
      if capacity <= 0 then
        w.(chunks := w.chunks + [Strip(w.current)], current := Tail(cfg, w.current))
      else if |w.remaining| <= capacity then
        w.(current := Joined(w.current, w.remaining), remaining := "")
      else
        var k := SplitAt(w.remaining, capacity);
        var chunk := Joined(w.current, w.remaining[..k]);
        w.(chunks := w.chunks + [chunk], current := Tail(cfg, chunk), remaining := LStrip(w.remaining[k..]))
  }

  function Start(text: string): Work {
    Work(Paragraphs.Split(text), "", "", [])
  }

  /** The chunk list returned once both loops have ended. */
  function Output(w: Work): seq<string> {
    if Strip(w.current) != "" then w.chunks + [Strip(w.current)] else w.chunks
  }

  // ----- what a chunk list promises

  /** The text chunk `i` inherited from its predecessor. */
  function Carried(cfg: Config, chunks: seq<string>, i: nat): string
    requires cfg.Accepted() && i <= |chunks|
  {
    if i == 0 then "" else Tail(cfg, chunks[i - 1])
  }

  predicate GoodChunk(cfg: Config, chunks: seq<string>, i: nat)
    requires cfg.Accepted() && i < |chunks|
  {
    && chunks[i] != "" && Trimmed(chunks[i]) && |chunks[i]| <= cfg.size
    && Carried(cfg, chunks, i) < chunks[i]
  }

  predicate WellFormed(cfg: Config, chunks: seq<string>)
    requires cfg.Accepted()
  {
    forall i :: 0 <= i < |chunks| ==> GoodChunk(cfg, chunks, i)
  }

  /** `s` without its first `n` characters. */
  function Drop(s: string, n: nat): string {
    if n <= |s| then s[n..] else ""
  }

  /** What each chunk adds to its predecessor, in order. */
  function Fresh(cfg: Config, chunks: seq<string>): string
    requires cfg.Accepted()
  {
    if chunks == [] then ""
    else
      var n := |chunks| - 1;
      Fresh(cfg, chunks[..n]) + Drop(chunks[n], |Carried(cfg, chunks, n)|)
  }

  // ----- the loop invariant

  ghost predicate Inv(cfg: Config, w: Work) {
    && cfg.Sound()
    && (forall p :: p in w.todo ==> p != "" && Trimmed(p))
    && Trimmed(w.remaining)
    && Trimmed(w.current) && |w.current| <= cfg.size
    && WellFormed(cfg, w.chunks)
    && var carried := Carried(cfg, w.chunks, |w.chunks|);
       && carried <= w.current
       && (carried < w.current || w.remaining != "" || w.chunks == [])
  }

  /** The part of `current` that is not inherited from the last chunk. */
  function NewPart(cfg: Config, w: Work): string
    requires cfg.Accepted()
  {
    Drop(w.current, |Carried(cfg, w.chunks, |w.chunks|)|)
  }

  /** The visible text held by the loop variables, in document order. */
  ghost function Held(cfg: Config, w: Work): string
    requires cfg.Accepted()
  {
    (Squash(Fresh(cfg, w.chunks)) + Squash(NewPart(cfg, w)))
    + (Squash(w.remaining) + Squash(Concat(w.todo)))
  }

  lemma AppendChunk(cfg: Config, chunks: seq<string>, chunk: string)
    requires cfg.Accepted() && WellFormed(cfg, chunks)
    requires chunk != "" && Trimmed(chunk) && |chunk| <= cfg.size
    requires Carried(cfg, chunks, |chunks|) < chunk
    ensures WellFormed(cfg, chunks + [chunk])
  {
    hide IsSpace;
    forall i | 0 <= i < |chunks| + 1
      ensures GoodChunk(cfg, chunks + [chunk], i)
    {
      assert i < |chunks| ==> GoodChunk(cfg, chunks, i);
    }
  }

  lemma FreshOfAppend(cfg: Config, chunks: seq<string>, chunk: string)
    requires cfg.Accepted()
    ensures Fresh(cfg, chunks + [chunk]) == Fresh(cfg, chunks) + Drop(chunk, |Carried(cfg, chunks, |chunks|)|)
  {
    hide IsSpace;
    assert (chunks + [chunk])[..|chunks|] == chunks;
  }

  lemma Regroup(f: string, c: string, p: string, q: string, t: string)
    ensures (f + (c + p)) + (q + t) == (f + c) + ((p + q) + t)
  {
  }

  /** Joining keeps the text in front and stays within the window. */
  lemma JoinFits(current: string, piece: string)
    requires Trimmed(current) && piece != "" && !IsSpace(piece[0])
    ensures current < Joined(current, piece)
    ensures |Joined(current, piece)| <= |current| + (if current == "" then 0 else 2) + |piece|
  {
    hide IsSpace;
    GapsAreSpace();
    StripJoin(current, GAP, piece);
  }

  /** Joining adds only the visible text of the piece. */
  lemma JoinAdds(current: string, piece: string, n: nat)
    requires Trimmed(current) && n <= |current| && piece != "" && !IsSpace(piece[0])
    ensures Squash(Drop(Joined(current, piece), n)) == Squash(Drop(current, n)) + Squash(piece)
  {
    hide IsSpace, Squash, RStrip;
    GapsAreSpace();
    StripJoin(current, GAP, piece);
    var gap, added := if current == "" then "" else GAP, RStrip(piece);
    var rest := Drop(current, n);
    assert Joined(current, piece) == (current + gap) + added;
    DropFront(current, gap, added, n);
    SquashBlank(gap);
    SquashConcat(rest, gap);
    SquashConcat(rest + gap, added);
    SquashRStrip(piece);
    assert Squash(rest) + "" == Squash(rest);
  }

  lemma DropFront(a: string, b: string, c: string, n: nat)
    requires n <= |a|
    ensures Drop((a + b) + c, n) == (Drop(a, n) + b) + c
  {
  }

  lemma FlushKeepsInv(cfg: Config, w: Work)
    requires Inv(cfg, w) && w.remaining != "" && Capacity(cfg, w.current) <= 0
    ensures Inv(cfg, Step(cfg, w)) && Held(cfg, Step(cfg, w)) == Held(cfg, w)
    ensures Capacity(cfg, Step(cfg, w).current) > 0
  {
    hide IsSpace, Trimmed, Tail, Fresh, Squash, Concat, LStrip, Strip;
    StripTrimmed(w.current);
    AppendChunk(cfg, w.chunks, w.current);
    FreshOfAppend(cfg, w.chunks, w.current);
    SquashConcat(Fresh(cfg, w.chunks), NewPart(cfg, w));
    assert NewPart(cfg, Step(cfg, w)) == "";
    SquashBlank("");
    var f, c := Squash(Fresh(cfg, w.chunks)), Squash(NewPart(cfg, w));
    assert (f + c) + "" == f + c;
  }

  lemma FillKeepsInv(cfg: Config, w: Work)
    requires Inv(cfg, w) && w.remaining != "" && 0 < Capacity(cfg, w.current) && |w.remaining| <= Capacity(cfg, w.current)
    ensures Inv(cfg, Step(cfg, w)) && Held(cfg, Step(cfg, w)) == Held(cfg, w)
  {
    hide IsSpace, Tail, Fresh, Squash, Concat, Joined;
    var carried := Carried(cfg, w.chunks, |w.chunks|);
    JoinFits(w.current, w.remaining);
    JoinAdds(w.current, w.remaining, |carried|);
    SquashBlank("");
    Regroup(Squash(Fresh(cfg, w.chunks)), Squash(NewPart(cfg, w)), Squash(w.remaining), "", Squash(Concat(w.todo)));
    assert Squash(w.remaining) + "" == Squash(w.remaining);
  }

  lemma SplitKeepsInv(cfg: Config, w: Work)
    requires Inv(cfg, w) && w.remaining != "" && 0 < Capacity(cfg, w.current) < |w.remaining|
    ensures Inv(cfg, Step(cfg, w))
    ensures 0 < |Step(cfg, w).remaining| < |w.remaining|
  {
    hide IsSpace, Tail, Fresh, Squash, Concat, Joined;
    var k := SplitAt(w.remaining, Capacity(cfg, w.current));
    JoinFits(w.current, w.remaining[..k]);
    AppendChunk(cfg, w.chunks, Joined(w.current, w.remaining[..k]));
    LStripKeepsEnd(w.remaining[k..]);
  }

  lemma SplitKeepsText(cfg: Config, w: Work)
    requires Inv(cfg, w) && w.remaining != "" && 0 < Capacity(cfg, w.current) < |w.remaining|
    ensures Held(cfg, Step(cfg, w)) == Held(cfg, w)
  {
    hide IsSpace, Tail, Squash, Concat, Joined, LStrip, Fresh;
    var n := |Carried(cfg, w.chunks, |w.chunks|)|;
    var k := SplitAt(w.remaining, Capacity(cfg, w.current));
    var piece, rest := w.remaining[..k], w.remaining[k..];
    var chunk := Joined(w.current, piece);
    FreshOfAppend(cfg, w.chunks, chunk);
    JoinAdds(w.current, piece, n);
    SquashConcat(Fresh(cfg, w.chunks), Drop(chunk, n));
    SquashConcat(piece, rest);
    SquashLStrip(rest);
    SquashBlank("");
    var f, c, p := Squash(Fresh(cfg, w.chunks)), Squash(NewPart(cfg, w)), Squash(piece);
    assert piece + rest == w.remaining;
    assert NewPart(cfg, Step(cfg, w)) == "";
    assert (f + (c + p)) + "" == f + (c + p);
    Regroup(f, c, p, Squash(rest), Squash(Concat(w.todo)));
  }

  /** Every turn keeps the invariant and the visible text. */
  lemma StepKeepsInv(cfg: Config, w: Work)
    requires Inv(cfg, w)
    ensures Inv(cfg, Step(cfg, w)) && Held(cfg, Step(cfg, w)) == Held(cfg, w)
  {
    hide IsSpace;
    if w.remaining == "" {
      if w.todo != [] {
        assert Concat(w.todo) == w.todo[0] + Concat(w.todo[1..]);
        SquashConcat(w.todo[0], Concat(w.todo[1..]));
      }
    } else if Capacity(cfg, w.current) <= 0 {
      FlushKeepsInv(cfg, w);
    } else if |w.remaining| <= Capacity(cfg, w.current) {
      FillKeepsInv(cfg, w);
    } else {
      SplitKeepsInv(cfg, w);
      SplitKeepsText(cfg, w);
    }
  }

  // ----- whole runs

  lemma StartKeepsInv(cfg: Config, text: string)
    requires cfg.Sound()
    ensures Inv(cfg, Start(text)) && Held(cfg, Start(text)) == Squash(text)
  {
    hide IsSpace, Squash, Concat, Fresh, Paragraphs.Split;
    Paragraphs.SplitKeepsText(text);
    var w := Start(text);
    NothingHeld(cfg);
    assert Fresh(cfg, w.chunks) == "" && NewPart(cfg, w) == "" && w.remaining == "";
    assert Squash(Concat(w.todo)) == Squash(text);
    assert ("" + "") + ("" + Squash(text)) == Squash(text);
  }

  lemma NothingHeld(cfg: Config)
    requires cfg.Accepted()
    ensures Squash("") == "" && Fresh(cfg, []) == ""
  {
  }

  /** The result of running both loops to their end. */
  function Finish(cfg: Config, w: Work): (chunks: seq<string>)
    requires Inv(cfg, w)
    ensures WellFormed(cfg, chunks)
    decreases |w.todo|, |w.remaining|, if Capacity(cfg, w.current) <= 0 then 1 else 0
  {
    if w.Done() then
      DoneIsWellFormed(cfg, w);
      Output(w)
    else
      StepKeepsInv(cfg, w);
      StepDecreases(cfg, w);
      Finish(cfg, Step(cfg, w))
  }

  lemma StepDecreases(cfg: Config, w: Work)
    requires Inv(cfg, w) && !w.Done()
    ensures var v := Step(cfg, w);
            || |v.todo| < |w.todo|
            || (v.todo == w.todo && |v.remaining| < |w.remaining|)
            || (v.todo == w.todo && v.remaining == w.remaining
                && Capacity(cfg, w.current) <= 0 < Capacity(cfg, v.current))
  {
    hide IsSpace, Fresh, Tail, Joined, Squash;
    if w.remaining != "" {
      if Capacity(cfg, w.current) <= 0 {
        FlushKeepsInv(cfg, w);
      } else if Capacity(cfg, w.current) < |w.remaining| {
        SplitKeepsInv(cfg, w);
      }
    }
  }

  lemma DoneIsWellFormed(cfg: Config, w: Work)
    requires Inv(cfg, w) && w.Done()
    ensures WellFormed(cfg, Output(w))
    ensures Squash(Fresh(cfg, Output(w))) == Held(cfg, w)
  {
    hide IsSpace, Fresh, Squash, Tail, Strip, Held, Trimmed, GoodChunk, Concat, LStrip;
    StripTrimmed(w.current);
    DoneHolds(cfg, w);
    if w.current == "" {
      assert NewPart(cfg, w) == "";
      SquashBlank("");
      assert Squash(Fresh(cfg, w.chunks)) + "" == Squash(Fresh(cfg, w.chunks));
    } else {
      AppendChunk(cfg, w.chunks, w.current);
      FreshOfAppend(cfg, w.chunks, w.current);
      SquashConcat(Fresh(cfg, w.chunks), NewPart(cfg, w));
    }
  }

  lemma DoneHolds(cfg: Config, w: Work)
    requires cfg.Accepted() && w.Done()
    ensures Held(cfg, w) == Squash(Fresh(cfg, w.chunks)) + Squash(NewPart(cfg, w))
  {
    hide IsSpace, Fresh, NewPart;
    var f, c := Squash(Fresh(cfg, w.chunks)), Squash(NewPart(cfg, w));
    assert (f + c) + ("" + "") == f + c;
  }

  lemma {:induction false} FinishKeepsText(cfg: Config, w: Work)
    requires Inv(cfg, w)
    ensures Squash(Fresh(cfg, Finish(cfg, w))) == Held(cfg, w)
    decreases |w.todo|, |w.remaining|, if Capacity(cfg, w.current) <= 0 then 1 else 0
  {
    hide IsSpace, Fresh, Squash, Tail, Strip, Step, Joined;
    if w.Done() {
      DoneIsWellFormed(cfg, w);
    } else {
      StepKeepsInv(cfg, w);
      StepDecreases(cfg, w);
      FinishKeepsText(cfg, Step(cfg, w));
    }
  }

  /** The chunks of a text. */
  function Chunks(cfg: Config, text: string): (chunks: seq<string>)
    requires cfg.Sound()
    ensures WellFormed(cfg, chunks)
  {
    StartKeepsInv(cfg, text);
    Finish(cfg, Start(text))
  }

  /** No text is lost, repeated or reordered: inherited prefixes and whitespace aside, the chunks spell out the input. */
  lemma NoTextLost(cfg: Config, text: string)
    requires cfg.Sound()
    ensures Squash(Fresh(cfg, Chunks(cfg, text))) == Squash(text)
    ensures Chunks(cfg, text) == [] <==> Blank(text)
  {
    hide IsSpace;
    StartKeepsInv(cfg, text);
    FinishKeepsText(cfg, Start(text));
    SquashBlank(text);
    var chunks := Chunks(cfg, text);
    if chunks != [] {
      FreshIsVisible(cfg, chunks);
    }
  }

  /** Every chunk brings new visible text. */
  lemma FreshIsVisible(cfg: Config, chunks: seq<string>)
    requires cfg.Accepted() && WellFormed(cfg, chunks) && chunks != []
    ensures Squash(Drop(chunks[|chunks| - 1], |Carried(cfg, chunks, |chunks| - 1)|)) != ""
    ensures Squash(Fresh(cfg, chunks)) != ""
  {
    hide IsSpace, Squash;
    var n := |chunks| - 1;
    assert GoodChunk(cfg, chunks, n);
    var added := Drop(chunks[n], |Carried(cfg, chunks, n)|);
    assert added[|added| - 1] == chunks[n][|chunks[n]| - 1];
    SquashBlank(added);
    SquashConcat(Fresh(cfg, chunks[..n]), added);
  }

  lemma Turn(cfg: Config, w: Work)
    requires Inv(cfg, w) && !w.Done()
    ensures Inv(cfg, Step(cfg, w)) && Finish(cfg, Step(cfg, w)) == Finish(cfg, w)
    ensures w.remaining != "" && Capacity(cfg, w.current) <= 0 ==> Capacity(cfg, Step(cfg, w).current) > 0
    ensures w.remaining != "" && Capacity(cfg, w.current) > 0 ==> |Step(cfg, w).remaining| < |w.remaining|
  {
    hide IsSpace, Fresh, Tail, Squash, Joined, Strip, LStrip, SplitAt, GoodChunk;
    StepKeepsInv(cfg, w);
    StepDecreases(cfg, w);
  }

  method ChunkText(text: string, size: int, overlap: int) returns (r: Result<seq<string>, ChunkError>)
    requires var cfg := Config(size, overlap); cfg.Accepted() ==> cfg.Sound()
    ensures var cfg := Config(size, overlap);
            && (r.Ok? <==> 200 <= size && 0 <= overlap < size)
            && (r.Ok? ==>
                  && cfg.Accepted() && r.value == Chunks(cfg, text)
                  && WellFormed(cfg, r.value)
                  && Squash(Fresh(cfg, r.value)) == Squash(text))
  {
    hide IsSpace, Fresh, Tail, Squash, Joined, Strip, LStrip, SplitAt, Inv, GoodChunk, Trimmed;
    if size < 200 || overlap < 0 || overlap >= size {
      return Err(InvalidConfiguration);
    }
    var cfg := Config(size, overlap);
    var paragraphs := Paragraphs.Split(text);
    var chunks, current: string := [], "";
    StartKeepsInv(cfg, text);
    for i := 0 to |paragraphs|
      invariant Inv(cfg, Work(paragraphs[i..], "", current, chunks))
      invariant Finish(cfg, Work(paragraphs[i..], "", current, chunks)) == Chunks(cfg, text)
    {
      var remaining := paragraphs[i];
      ghost var todo := paragraphs[i + 1..];
      Turn(cfg, Work(paragraphs[i..], "", current, chunks));
      while remaining != ""
        invariant Inv(cfg, Work(todo, remaining, current, chunks))
        invariant Finish(cfg, Work(todo, remaining, current, chunks)) == Chunks(cfg, text)
        decreases |remaining|, if Capacity(cfg, current) <= 0 then 1 else 0
      {
        Turn(cfg, Work(todo, remaining, current, chunks));
        var capacity := size - |current| - (if current != "" then 2 else 0);
        if capacity <= 0 {
          chunks := chunks + [Strip(current)];
          current := Tail(cfg, current);
        } else if |remaining| <= capacity {
          current := Joined(current, remaining);
          remaining := "";
        } else {
          var splitAt := SplitAt(remaining, capacity);
          current := Joined(current, remaining[..splitAt]);
          chunks := chunks + [current];
          current := Tail(cfg, current);
          remaining := LStrip(remaining[splitAt..]);
        }
      }
    }
    if Strip(current) != "" {
      chunks := chunks + [Strip(current)];
    }
    NoTextLost(cfg, text);
    return Ok(chunks);
  }

  // ----- when the loops end

  function Run(cfg: Config, w: Work, n: nat): Work
    requires cfg.Accepted()
    decreases n
  {
    if n == 0 then w else Run(cfg, Step(cfg, w), n - 1)
  }

  ghost predicate Halts(cfg: Config, text: string)
    requires cfg.Accepted()
  {
    exists n: nat :: Run(cfg, Start(text), n).Done()
  }

  lemma {:induction false} SoundRunsEnd(cfg: Config, w: Work) returns (n: nat)
    requires Inv(cfg, w)
    ensures Run(cfg, w, n).Done()
    decreases |w.todo|, |w.remaining|, if Capacity(cfg, w.current) <= 0 then 1 else 0
  {
    hide IsSpace, Step, Fresh, Carried;
    if w.Done() {
      n := 0;
    } else {
      StepKeepsInv(cfg, w);
      StepDecreases(cfg, w);
      var m := SoundRunsEnd(cfg, Step(cfg, w));
      n := m + 1;
    }
  }

  /** A full buffer whose overlap is as full as itself is flushed for ever. */
  lemma {:induction false} FullOverlapNeverEnds(cfg: Config, w: Work, n: nat)
    requires cfg.Accepted() && w.remaining != "" && Trimmed(w.current)
    requires |w.current| <= cfg.overlap && Capacity(cfg, w.current) <= 0
    ensures !Run(cfg, w, n).Done()
    decreases n
  {
    hide IsSpace, Strip, LStrip, Joined, SplitAt;
    if n > 0 {
      StripTrimmed(w.current);
      assert Tail(cfg, w.current) == w.current;
      FullOverlapNeverEnds(cfg, Step(cfg, w), n - 1);
    }
  }

  function Letters(n: nat): string {
    seq(n, _ => 'a')
  }

  lemma LettersAreOneParagraph(n: nat)
    requires n > 0
    ensures Trimmed(Letters(n)) && Paragraphs.Split(Letters(n)) == [Letters(n)]
  {
    var t := Letters(n);
    assert Trimmed(t);
    hide IsSpace, Strip, Paragraphs.NextBreak, Trimmed;
    assert Paragraphs.NextBreak(t, 0).None?;
    assert t[0..] == t;
    assert Paragraphs.Pieces(t, 0) == [t];
    StripTrimmed(t);
    assert Paragraphs.NonEmptyStripped([t][1..]) == [];
  }

  /** One unbroken word longer than the window never finishes when the overlap leaves no room for a gap and a letter. */
  lemma WideOverlapDiverges(cfg: Config)
    requires cfg.Accepted() && !cfg.Sound()
    ensures !Halts(cfg, Letters(cfg.size + 1))
  {
    hide IsSpace, Strip, LStrip, Joined, SplitAt, Tail, Paragraphs.Split, Trimmed;
    var t := Letters(cfg.size + 1);
    LettersAreOneParagraph(cfg.size + 1);
    LettersAreOneParagraph(cfg.overlap);
    var start := Start(t);
    var first := Step(cfg, start);
    assert first == Work([], t, "", []);
    WideOverlapFills(cfg);
    var w := Step(cfg, first);
    forall n: nat
      ensures !Run(cfg, start, n).Done()
    {
      if n >= 2 {
        assert Run(cfg, start, n) == Run(cfg, first, n - 1) == Run(cfg, w, n - 2);
        FullOverlapNeverEnds(cfg, w, n - 2);
      }
    }
  }

  lemma WideOverlapFills(cfg: Config)
    requires cfg.Accepted() && !cfg.Sound()
    ensures var w := Step(cfg, Work([], Letters(cfg.size + 1), "", []));
            w.remaining != "" && w.current == Letters(cfg.overlap)
  {
    hide IsSpace, Strip, LStrip, RStrip, Trimmed, Joined;
    var t := Letters(cfg.size + 1);
    var piece := t[..cfg.size];
    assert SplitAt(t, cfg.size) == cfg.size;
    assert piece == Letters(cfg.size);
    LettersJoin(cfg.size);
    assert Last(piece, cfg.overlap) == Letters(cfg.overlap);
    LettersAreOneParagraph(cfg.overlap);
    StripTrimmed(Letters(cfg.overlap));
    assert t[cfg.size..] == Letters(1);
    LettersAreOneParagraph(1);
    StripTrimmed(Letters(1));
  }

  lemma LettersJoin(n: nat)
    requires n > 0
    ensures Joined("", Letters(n)) == Letters(n)
  {
    var t := Letters(n);
    assert t[0] == 'a' && !IsSpace('a');
    hide IsSpace, RStrip, Strip;
    GapsAreSpace();
    StripJoin("", GAP, t);
    LettersAreOneParagraph(n);
    StripTrimmed(t);
  }

  /** Chunking ends on every text exactly when the overlap is at least three characters shorter than the window. */
  lemma HaltsExactlyWhenSound(cfg: Config)
    requires cfg.Accepted()
    ensures (forall text :: Halts(cfg, text)) <==> cfg.Sound()
  {
    if cfg.Sound() {
      forall text
        ensures Halts(cfg, text)
      {
        StartKeepsInv(cfg, text);
        var n := SoundRunsEnd(cfg, Start(text));
      }
    } else {
      WideOverlapDiverges(cfg);
    }
  }
}
