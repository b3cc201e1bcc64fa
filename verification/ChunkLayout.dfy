/** Where every chunk begins and ends, said without the loops: the paragraphs it takes and the characters between them. */
module ChunkLayout {
  import opened Text
  import opened Wrappers
  import opened Chunker
  import Paragraphs

  /** `carried` and then the pieces, neighbours two newlines apart. */
  function Laid(carried: string, pieces: seq<string>): string {
    if pieces == [] then carried
    else
      var front, last := Laid(carried, pieces[..|pieces| - 1]), pieces[|pieces| - 1];
      if front == "" then last else front + "\n\n" + last
  }

  /** The last `overlap` characters of a chunk, without leading whitespace. */
  function Carry(overlap: nat, chunk: string): string {
    LStrip(if |chunk| <= overlap then chunk else chunk[|chunk| - overlap..])
  }

  /** A chunk takes `whole` paragraphs and, `Within`, the first `k` characters of the next one. */
  datatype Cut = Between(whole: nat) | Within(whole: nat, k: nat)

  predicate IsCut(paragraphs: seq<string>, cut: Cut) {
    cut.whole <= |paragraphs| && (cut.Within? ==> cut.whole < |paragraphs| && cut.k <= |paragraphs[cut.whole]|)
  }

  function Taken(paragraphs: seq<string>, cut: Cut): seq<string>
    requires IsCut(paragraphs, cut)
  {
    match cut
    case Between(n) => paragraphs[..n]
    case Within(n, k) => paragraphs[..n] + [RStrip(paragraphs[n][..k])]
  }

  function Left(paragraphs: seq<string>, cut: Cut): seq<string>
    requires IsCut(paragraphs, cut)
  {
    match cut
    case Between(n) => paragraphs[n..]
    case Within(n, k) => [LStrip(paragraphs[n][k..])] + paragraphs[n + 1..]
  }

  /** The room a chunk with this text has for a further piece. */
  function Room(size: int, text: string): int {
    if text == "" then size else size - |text| - 2
  }

  /** A cut within a paragraph: at the last space of the second half of the room and past 80 characters, else at its end. */
  predicate CutsWell(paragraph: string, room: int, k: nat) {
    && 0 < k <= room < |paragraph|
    && (k < room ==> paragraph[k] == ' ' && 80 <= k && room / 2 <= k)
    && (forall i :: 80 <= i < room && room / 2 <= i && paragraph[i] == ' ' ==> i <= k < room)
  }

  /**
    A chunk ends between paragraphs only at the end of the text or without room for one more character, and within a
    paragraph only if that paragraph does not fit.
   */
  predicate EndsRightly(size: int, carried: string, paragraphs: seq<string>, cut: Cut)
    requires IsCut(paragraphs, cut)
  {
    match cut
    case Between(n) => 0 < n && (n < |paragraphs| ==> Room(size, Laid(carried, paragraphs[..n])) <= 0)
    case Within(n, k) => CutsWell(paragraphs[n], Room(size, Laid(carried, paragraphs[..n])), k)
  }

  /** The chunks lay out the paragraphs, the first one starting with `carried`. */
  ghost predicate LaysOut(size: int, overlap: nat, carried: string, paragraphs: seq<string>, chunks: seq<string>)
    decreases |chunks|
  {
    if chunks == [] then paragraphs == []
    else exists cut ::
      && IsCut(paragraphs, cut) && EndsRightly(size, carried, paragraphs, cut) && chunks[0] == Laid(carried, Taken(paragraphs, cut))
      && LaysOut(size, overlap, Carry(overlap, chunks[0]), Left(paragraphs, cut), chunks[1..])
  }

  // ----- the loops do this

  lemma TailIsCarried(cfg: Config, chunk: string)
    requires cfg.Accepted()
    ensures Tail(cfg, chunk) == Carry(cfg.overlap, chunk)
  {
    hide IsSpace;
  }

  lemma LaidAppend(carried: string, pieces: seq<string>, piece: string)
    ensures Laid(carried, pieces + [piece])
            == var front := Laid(carried, pieces); if front == "" then piece else front + "\n\n" + piece
  {
    assert (pieces + [piece])[..|pieces + [piece]| - 1] == pieces;
  }

  lemma JoinedLays(carried: string, pieces: seq<string>, current: string, piece: string)
    requires current == Laid(carried, pieces) && Trimmed(current) && piece != "" && !IsSpace(piece[0])
    ensures Joined(current, piece) == Laid(carried, pieces + [RStrip(piece)])
  {
    hide IsSpace, RStrip, Strip;
    GapsAreSpace();
    StripJoin(current, GAP, piece);
    LaidAppend(carried, pieces, RStrip(piece));
  }

  lemma SomethingLaid(carried: string, pieces: seq<string>)
    requires pieces != [] && forall p :: p in pieces ==> p != ""
    ensures Laid(carried, pieces) != ""
  {
    assert pieces[|pieces| - 1] in pieces;
  }

  /** The paragraphs the loops have not finished. */
  function Pending(w: Work): seq<string> {
    (if w.remaining == "" then [] else [w.remaining]) + w.todo
  }

  /** The loop variables in the midst of a chunk that has taken whole paragraphs so far. */
  ghost predicate Taking(cfg: Config, w: Work, taken: seq<string>) {
    && Inv(cfg, w) && w.current == Laid(Carried(cfg, w.chunks, |w.chunks|), taken)
    && (forall p :: p in taken ==> p != "")
  }

  /** One more chunk in front of those that lay out the rest. */
  lemma OneMoreChunk(cfg: Config, carried: string, paragraphs: seq<string>, cut: Cut, chunk: string, rest: seq<string>)
    requires cfg.Accepted() && IsCut(paragraphs, cut) && EndsRightly(cfg.size, carried, paragraphs, cut) && chunk == Laid(carried, Taken(paragraphs, cut))
    requires LaysOut(cfg.size, cfg.overlap, Tail(cfg, chunk), Left(paragraphs, cut), rest)
    ensures LaysOut(cfg.size, cfg.overlap, carried, paragraphs, [chunk] + rest)
  {
    hide IsSpace, EndsRightly, Left, Taken, Laid;
    TailIsCarried(cfg, chunk);
    assert ([chunk] + rest)[1..] == rest;
  }

  lemma FlushedIsWhole(cfg: Config, w: Work, taken: seq<string>)
    requires Taking(cfg, w, taken) && w.remaining != "" && Capacity(cfg, w.current) <= 0
    ensures var cut := Between(|taken|);
            && IsCut(taken + Pending(w), cut) && EndsRightly(cfg.size, Carried(cfg, w.chunks, |w.chunks|), taken + Pending(w), cut)
            && w.current == Laid(Carried(cfg, w.chunks, |w.chunks|), Taken(taken + Pending(w), cut))
            && Left(taken + Pending(w), cut) == Pending(w)
    ensures Taking(cfg, Step(cfg, w), []) && Pending(Step(cfg, w)) == Pending(w)
    ensures Step(cfg, w).chunks == w.chunks + [w.current]
  {
    hide IsSpace, Tail, Strip, LStrip, Fresh, Squash;
    FlushKeepsInv(cfg, w);
    StripTrimmed(w.current);
    assert (taken + Pending(w))[..|taken|] == taken;
    assert taken != [];
  }

  lemma TakingStartsWell(cfg: Config, w: Work)
    requires Inv(cfg, w) && w.remaining != ""
    ensures cfg.Accepted() && Trimmed(w.current) && Trimmed(w.remaining) && !IsSpace(w.remaining[0])
  {
    hide IsSpace;
  }

  lemma FilledIsTaken(cfg: Config, w: Work, taken: seq<string>)
    requires Taking(cfg, w, taken) && w.remaining != "" && 0 < Capacity(cfg, w.current) && |w.remaining| <= Capacity(cfg, w.current)
    ensures Taking(cfg, Step(cfg, w), taken + [w.remaining])
    ensures (taken + [w.remaining]) + Pending(Step(cfg, w)) == taken + Pending(w) && Step(cfg, w).chunks == w.chunks
  {
    hide IsSpace, Trimmed, Tail, Strip, RStrip, LStrip, Fresh, Squash, Joined, Laid, Inv;
    FillKeepsInv(cfg, w);
    TakingStartsWell(cfg, w);
    StripTrimmed(w.remaining);
    JoinedLays(Carried(cfg, w.chunks, |w.chunks|), taken, w.current, w.remaining);
  }

  lemma SplitIsCut(cfg: Config, w: Work, taken: seq<string>)
    requires Taking(cfg, w, taken) && w.remaining != "" && 0 < Capacity(cfg, w.current) < |w.remaining|
    ensures var cut, chunk := Within(|taken|, SplitAt(w.remaining, Capacity(cfg, w.current))),
              Joined(w.current, w.remaining[..SplitAt(w.remaining, Capacity(cfg, w.current))]);
            && IsCut(taken + Pending(w), cut) && EndsRightly(cfg.size, Carried(cfg, w.chunks, |w.chunks|), taken + Pending(w), cut)
            && chunk == Laid(Carried(cfg, w.chunks, |w.chunks|), Taken(taken + Pending(w), cut))
            && Left(taken + Pending(w), cut) == Pending(Step(cfg, w))
            && Step(cfg, w).chunks == w.chunks + [chunk]
    ensures Taking(cfg, Step(cfg, w), [])
  {
    hide IsSpace, Tail, Strip, LStrip, RStrip, Fresh, Squash, Joined, Laid;
    SplitKeepsInv(cfg, w);
    var k := SplitAt(w.remaining, Capacity(cfg, w.current));
    JoinedLays(Carried(cfg, w.chunks, |w.chunks|), taken, w.current, w.remaining[..k]);
    assert (taken + Pending(w))[..|taken|] == taken && (taken + Pending(w))[|taken|] == w.remaining;
    assert (taken + Pending(w))[|taken| + 1..] == w.todo;
    NothingMore(Tail(cfg, Joined(w.current, w.remaining[..k])));
  }

  lemma NothingMore(carried: string)
    ensures Laid(carried, []) == carried
  {
  }

  lemma DoneIsWhole(cfg: Config, w: Work, taken: seq<string>)
    requires Taking(cfg, w, taken) && w.Done()
    ensures w.chunks <= Output(w)
    ensures LaysOut(cfg.size, cfg.overlap, Carried(cfg, w.chunks, |w.chunks|), taken + Pending(w), Output(w)[|w.chunks|..])
  {
    hide IsSpace, Tail, Strip, LStrip, Fresh, Squash, Carry;
    StripTrimmed(w.current);
    assert taken + Pending(w) == taken;
    if w.current == "" {
      if taken != [] {
        SomethingLaid(Carried(cfg, w.chunks, |w.chunks|), taken);
      }
    } else {
      var cut := Between(|taken|);
      assert taken[..|taken|] == taken && Left(taken, cut) == [];
      assert taken != [];
      OneMoreChunk(cfg, Carried(cfg, w.chunks, |w.chunks|), taken, cut, w.current, []);
      assert Output(w)[|w.chunks|..] == [w.current] + [];
    }
  }

  lemma {:induction false} FinishLaysOut(cfg: Config, w: Work, taken: seq<string>)
    requires Taking(cfg, w, taken)
    ensures w.chunks <= Finish(cfg, w)
    ensures LaysOut(cfg.size, cfg.overlap, Carried(cfg, w.chunks, |w.chunks|), taken + Pending(w), Finish(cfg, w)[|w.chunks|..])
    decreases |w.todo|, |w.remaining|, if Capacity(cfg, w.current) <= 0 then 1 else 0
  {
    hide IsSpace, Tail, Strip, LStrip, Fresh, Squash, Joined, Carry, LaysOut, EndsRightly, Left, Taken, Laid, SplitAt, Trimmed, GoodChunk;
    if w.Done() {
      DoneIsWhole(cfg, w, taken);
      FinishAtTheEnd(cfg, w);
    } else {
      var next, carried, out := Step(cfg, w), Carried(cfg, w.chunks, |w.chunks|), Finish(cfg, w);
      Turn(cfg, w);
      StepDecreases(cfg, w);
      if w.remaining == "" {
        FinishLaysOut(cfg, next, taken);
        assert Pending(next) == Pending(w);
      } else if Capacity(cfg, w.current) <= 0 {
        FlushedIsWhole(cfg, w, taken);
        FinishLaysOut(cfg, next, []);
        assert [] + Pending(next) == Pending(next);
        OneMoreChunk(cfg, carried, taken + Pending(w), Between(|taken|), w.current, out[|next.chunks|..]);
        assert out[|w.chunks|..] == [w.current] + out[|next.chunks|..];
      } else if |w.remaining| <= Capacity(cfg, w.current) {
        FilledIsTaken(cfg, w, taken);
        FinishLaysOut(cfg, next, taken + [w.remaining]);
      } else {
        SplitIsCut(cfg, w, taken);
        FinishLaysOut(cfg, next, []);
        assert [] + Pending(next) == Pending(next);
        var k := SplitAt(w.remaining, Capacity(cfg, w.current));
        OneMoreChunk(cfg, carried, taken + Pending(w), Within(|taken|, k), Joined(w.current, w.remaining[..k]), out[|next.chunks|..]);
        assert out[|w.chunks|..] == [Joined(w.current, w.remaining[..k])] + out[|next.chunks|..];
      }
    }
  }

  lemma FinishAtTheEnd(cfg: Config, w: Work)
    requires Inv(cfg, w) && w.Done()
    ensures Finish(cfg, w) == Output(w)
  {
    hide Output, Inv;
  }

  /** The chunks lay out the paragraphs of the text, in order, whole where there is room and cut where there is not. */
  lemma ChunksLayOutTheParagraphs(cfg: Config, text: string)
    requires cfg.Sound()
    ensures LaysOut(cfg.size, cfg.overlap, "", Paragraphs.Split(text), Chunks(cfg, text))
  {
    hide IsSpace, LaysOut, Finish, Paragraphs.Split;
    StartKeepsInv(cfg, text);
    NothingMore("");
    FinishLaysOut(cfg, Start(text), []);
    assert [] + Pending(Start(text)) == Paragraphs.Split(text);
    assert Chunks(cfg, text)[0..] == Chunks(cfg, text);
  }

  lemma {:induction false} LaidOnlyGrows(carried: string, pieces: seq<string>, n: nat)
    requires n < |pieces| && forall p :: p in pieces ==> p != ""
    ensures Room(|Laid(carried, pieces)|, Laid(carried, pieces[..n])) >= |pieces[n]| > 0
    decreases |pieces|
  {
    var shorter := pieces[..|pieces| - 1];
    assert pieces[n] in pieces;
    if n < |shorter| {
      assert forall p :: p in shorter ==> p in pieces;
      LaidOnlyGrows(carried, shorter, n);
      assert shorter[..n] == pieces[..n];
    }
  }

  /** A text whose paragraphs fit into one chunk is one chunk: the paragraphs with an empty line between neighbours. */
  lemma FittingTextIsOneChunk(cfg: Config, text: string)
    requires cfg.Sound() && !Blank(text) && |Laid("", Paragraphs.Split(text))| <= cfg.size
    ensures Chunks(cfg, text) == [Laid("", Paragraphs.Split(text))]
  {
    hide IsSpace, Chunks, Paragraphs.Split, LaysOut, Laid;
    NoTextLost(cfg, text);
    ChunksLayOutTheParagraphs(cfg, text);
    FittingIsOneChunk(cfg.size, cfg.overlap, Paragraphs.Split(text), Chunks(cfg, text));
  }

  lemma FittingIsOneChunk(size: int, overlap: nat, paragraphs: seq<string>, chunks: seq<string>)
    requires LaysOut(size, overlap, "", paragraphs, chunks) && chunks != [] && |Laid("", paragraphs)| <= size
    requires forall p :: p in paragraphs ==> p != ""
    ensures chunks == [Laid("", paragraphs)]
  {
    hide Laid, Carry, EndsRightly;
    var cut :| IsCut(paragraphs, cut) && EndsRightly(size, "", paragraphs, cut) && chunks[0] == Laid("", Taken(paragraphs, cut))
      && LaysOut(size, overlap, Carry(overlap, chunks[0]), Left(paragraphs, cut), chunks[1..]);
    FittingIsNotCut(size, paragraphs, cut);
    assert paragraphs[..|paragraphs|] == paragraphs && Left(paragraphs, cut) == [];
    NothingLeft(size, overlap, Carry(overlap, chunks[0]), chunks[1..]);
  }

  lemma FittingIsNotCut(size: int, paragraphs: seq<string>, cut: Cut)
    requires IsCut(paragraphs, cut) && EndsRightly(size, "", paragraphs, cut) && |Laid("", paragraphs)| <= size
    requires forall p :: p in paragraphs ==> p != ""
    ensures cut == Between(|paragraphs|)
  {
    hide Laid;
    if cut.whole < |paragraphs| {
      LaidOnlyGrows("", paragraphs, cut.whole);
    }
  }

  lemma NothingLeft(size: int, overlap: nat, carried: string, chunks: seq<string>)
    requires LaysOut(size, overlap, carried, [], chunks)
    ensures chunks == []
  {
  }
}
