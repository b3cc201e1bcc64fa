/** Python string operations used by the text-handling code: `str.isspace`, `str.strip`, `str.rfind`. */
module Text {
  import opened Wrappers

  /** `str.isspace` for one character; the regular-expression class `\s` accepts the same set. */
  predicate IsSpace(c: char) {
    var n := c as int;
    || 0x09 <= n <= 0x0d
    || 0x1c <= n <= 0x20
    || n == 0x85 || n == 0xa0 || n == 0x1680 || n == 0x202f || n == 0x205f || n == 0x3000
    || 0x2028 <= n <= 0x2029
    || 0x2000 <= n <= 0x200a
  }

  predicate Blank(s: string) {
    forall i :: 0 <= i < |s| ==> IsSpace(s[i])
  }

  /** No whitespace at either end. */
  predicate Trimmed(s: string) {
    s == "" || (!IsSpace(s[0]) && !IsSpace(s[|s| - 1]))
  }

  /** The first visible position at or after `i`. */
  function Lead(s: string, i: nat): (r: nat)
    requires i <= |s|
    ensures i <= r <= |s|
    ensures forall k :: i <= k < r ==> IsSpace(s[k])
    ensures r < |s| ==> !IsSpace(s[r])
    decreases |s| - i
  {
    if i < |s| && IsSpace(s[i]) then Lead(s, i + 1) else i
  }

  /** The end of the visible text before `n`. */
  function Trail(s: string, n: nat): (r: nat)
    requires n <= |s|
    ensures r <= n
    ensures forall k :: r <= k < n ==> IsSpace(s[k])
    ensures r > 0 ==> !IsSpace(s[r - 1])
  {
    if n > 0 && IsSpace(s[n - 1]) then Trail(s, n - 1) else n
  }

  function LStrip(s: string): string {
    s[Lead(s, 0)..]
  }

  function RStrip(s: string): string {
    s[..Trail(s, |s|)]
  }

  function Strip(s: string): (r: string)
    ensures Trimmed(r)
    ensures |r| <= |s|
  {
    RStrip(LStrip(s))
  }

  /** The text with every whitespace character deleted. */
  function Squash(s: string): string {
    if s == "" then ""
    else if IsSpace(s[0]) then Squash(s[1..])
    else [s[0]] + Squash(s[1..])
  }

  function Concat(parts: seq<string>): string {
    if parts == [] then "" else parts[0] + Concat(parts[1..])
  }

  /** `s[-n:]` for n > 0. */
  function Last(s: string, n: nat): string {
    if |s| <= n then s else s[|s| - n..]
  }

  lemma {:induction false} SquashConcat(a: string, b: string)
    ensures Squash(a + b) == Squash(a) + Squash(b)
  {
    hide IsSpace;
    if a == "" {
      assert a + b == b && "" + Squash(b) == Squash(b);
    } else {
      SquashConcat(a[1..], b);
      assert (a + b)[1..] == a[1..] + b;
      Associates([a[0]], Squash(a[1..]), Squash(b));
    }
  }

  lemma {:induction false} SquashBlank(s: string)
    ensures Squash(s) == "" <==> Blank(s)
  {
    hide IsSpace;
    if s != "" {
      SquashBlank(s[1..]);
      assert Blank(s) <==> IsSpace(s[0]) && Blank(s[1..]) by {
        assert forall i :: 1 <= i < |s| ==> s[i] == s[1..][i - 1];
      }
    }
  }

  lemma SquashLStrip(s: string)
    ensures Squash(LStrip(s)) == Squash(s)
  {
    hide IsSpace;
    var n := Lead(s, 0);
    assert s == s[..n] + s[n..];
    SquashConcat(s[..n], s[n..]);
    SquashBlank(s[..n]);
  }

  lemma SquashRStrip(s: string)
    ensures Squash(RStrip(s)) == Squash(s)
  {
    hide IsSpace;
    var n := Trail(s, |s|);
    assert s == s[..n] + s[n..];
    SquashConcat(s[..n], s[n..]);
    SquashBlank(s[n..]);
  }

  lemma SquashStrip(s: string)
    ensures Squash(Strip(s)) == Squash(s)
  {
    hide IsSpace;
    SquashLStrip(s);
    SquashRStrip(LStrip(s));
  }

  lemma StripTrimmed(s: string)
    requires Trimmed(s)
    ensures LStrip(s) == s && RStrip(s) == s && Strip(s) == s
  {
    hide IsSpace;
  }

  lemma LStripGap(gap: string, piece: string)
    requires Blank(gap)
    requires piece == "" || !IsSpace(piece[0])
    ensures LStrip(gap + piece) == piece
  {
    hide IsSpace;
    var whole := gap + piece;
    var n := Lead(whole, 0);
    assert forall k :: 0 <= k < |gap| ==> whole[k] == gap[k];
    assert piece != "" ==> whole[|gap|] == piece[0];
    assert n == |gap|;
  }

  lemma RStripTail(front: string, piece: string)
    requires piece != "" && !IsSpace(piece[0])
    ensures RStrip(front + piece) == front + RStrip(piece)
    ensures RStrip(piece) != ""
  {
    hide IsSpace;
    var whole := front + piece;
    var n, m := Trail(whole, |whole|), Trail(piece, |piece|);
    assert forall k :: 0 <= k < |piece| ==> whole[|front| + k] == piece[k];
    assert m > 0;
    assert whole[|front| + (m - 1)] == piece[m - 1];
    assert forall k :: |front| <= k < |whole| ==> whole[k] == piece[k - |front|];
    assert n == |front| + m;
  }

  /** A trimmed text followed by a gap and a piece that starts with a visible character keeps its own text in front. */
  lemma StripJoin(head: string, gap: string, piece: string)
    requires Trimmed(head) && Blank(gap)
    requires piece != "" && !IsSpace(piece[0])
    ensures RStrip(piece) != ""
    ensures Strip((head + gap) + piece) == (if head == "" then "" else head + gap) + RStrip(piece)
  {
    hide IsSpace;
    var whole := (head + gap) + piece;
    if head == "" {
      assert whole == gap + piece;
      LStripGap(gap, piece);
      RStripTail("", piece);
    } else {
      assert whole[0] == head[0];
      assert LStrip(whole) == whole;
      RStripTail(head + gap, piece);
    }
  }

  lemma GapsAreSpace()
    ensures IsSpace('\n') && IsSpace(' ')
  {
  }

  lemma LStripKeepsEnd(s: string)
    requires s != "" && !IsSpace(s[|s| - 1])
    ensures LStrip(s) != "" && Trimmed(LStrip(s))
  {
    hide IsSpace;
  }
}
