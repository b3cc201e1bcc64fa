/** Requests that read a token or the failure counter, without a lock, before another request has written it. */
module AuthRaces {
  import opened Wrappers
  import opened Auth

  // ----- session tokens

  /** A rotation looks at the token and the user, and finishes later, in another order than others. */
  datatype Move = Look(worker: nat, token: nat, at: int) | Finish(finisher: nat)

  /** `looks`: the workers whose look allowed the rotation, with the token and the time. */
  datatype Desk = Desk(state: State, looks: map<nat, (nat, int)>)

  function Next(p: Policy, d: Desk, move: Move): Desk {
    match move
    case Look(w, k, at) =>
      if w !in d.looks && Refresh(p, d.state, k, at).error.None? then d.(looks := d.looks[w := (k, at)]) else d
    case Finish(w) =>
      if w in d.looks && d.looks[w].0 < |d.state.tokens| then
        var (k, at) := d.looks[w];
        Desk(Issue(Spend(d.state, k, at), Session(p, d.state.tokens[k].user, at)), d.looks - {w})
      else d
  }

  /** The move completes a rotation of token `k`. */
  predicate Rotates(d: Desk, move: Move, k: nat) {
    move.Finish? && move.finisher in d.looks && d.looks[move.finisher].0 == k && k < |d.state.tokens|
  }

  /** It does so after the token was spent: by a worker that looked before. */
  predicate IsLate(d: Desk, move: Move, k: nat) {
    Rotates(d, move, k) && IsSpent(d.state, k)
  }

  function Rotations(p: Policy, d: Desk, moves: seq<Move>, k: nat): nat
    decreases moves
  {
    if moves == [] then 0
    else (if Rotates(d, moves[0], k) then 1 else 0) + Rotations(p, Next(p, d, moves[0]), moves[1..], k)
  }

  ghost predicate NobodyIsLate(p: Policy, d: Desk, moves: seq<Move>, k: nat)
    decreases moves
  {
    moves == [] || (!IsLate(d, moves[0], k) && NobodyIsLate(p, Next(p, d, moves[0]), moves[1..], k))
  }

  lemma SpentStays(p: Policy, d: Desk, move: Move, k: nat)
    requires IsSpent(d.state, k)
    ensures IsSpent(Next(p, d, move).state, k)
  {
    hide Refresh;
  }

  lemma {:induction false} OnlyLateOnesRemain(p: Policy, d: Desk, moves: seq<Move>, k: nat)
    requires IsSpent(d.state, k)
    ensures Rotations(p, d, moves, k) == 0 <==> NobodyIsLate(p, d, moves, k)
    decreases moves
  {
    hide Next;
    if moves != [] {
      SpentStays(p, d, moves[0], k);
      OnlyLateOnesRemain(p, Next(p, d, moves[0]), moves[1..], k);
    }
  }

  lemma RotatingSpends(p: Policy, d: Desk, move: Move, k: nat)
    requires Rotates(d, move, k)
    ensures IsSpent(Next(p, d, move).state, k)
  {
  }

  lemma OthersDoNotSpend(p: Policy, d: Desk, move: Move, k: nat)
    requires !IsSpent(d.state, k) && !Rotates(d, move, k)
    ensures !IsSpent(Next(p, d, move).state, k)
  {
    hide Refresh;
  }

  /** Under every interleaving a token is rotated at most once exactly when no worker finishes after it was spent. */
  lemma {:induction false} RotatedOnceExactlyWhenNobodyIsLate(p: Policy, d: Desk, moves: seq<Move>, k: nat)
    requires !IsSpent(d.state, k)
    ensures Rotations(p, d, moves, k) <= 1 <==> NobodyIsLate(p, d, moves, k)
    decreases moves
  {
    hide Next, Rotates, IsSpent;
    if moves != [] {
      if Rotates(d, moves[0], k) {
        RotatingSpends(p, d, moves[0], k);
        OnlyLateOnesRemain(p, Next(p, d, moves[0]), moves[1..], k);
      } else {
        OthersDoNotSpend(p, d, moves[0], k);
        RotatedOnceExactlyWhenNobodyIsLate(p, Next(p, d, moves[0]), moves[1..], k);
      }
    }
  }

  /** Two workers that both look before either finishes rotate the token twice. */
  lemma TwoWorkersRotateTwice(p: Policy, s: State, k: nat, at: int)
    requires Refresh(p, s, k, at).error.None?
    ensures var first := Next(p, Next(p, Desk(s, map[]), Look(0, k, at)), Look(1, k, at));
            var second := Next(p, first, Finish(0));
            Rotates(first, Finish(0), k) && IsLate(second, Finish(1), k)
  {
    hide CompanyAdmits;
  }

  /** A worker that nobody disturbs does what the refresh does; one that has looked does not look again. */
  lemma UndisturbedRotationIsTheRefresh(p: Policy, s: State, w: nat, k: nat, at: int)
    ensures Next(p, Next(p, Desk(s, map[]), Look(w, k, at)), Finish(w)) == Desk(Refresh(p, s, k, at).state, map[])
    ensures forall d: Desk, j: nat, t: int :: w in d.looks ==> Next(p, d, Look(w, j, t)) == d
  {
    hide CompanyAdmits;
    var d := Next(p, Desk(s, map[]), Look(w, k, at));
    if Refresh(p, s, k, at).error.None? {
      assert d.looks == map[w := (k, at)] && d.looks - {w} == map[];
    }
  }

  // ----- the failure counter

  /** A wrong password is checked against the user as read, and the counter is written as it was read plus one. */
  datatype Guess = Check(guesser: nat) | Write(writer: nat, at: int)

  /** `read`: the counter each worker has read; `written`: how many wrong passwords have been written. */
  datatype Counter = Counter(user: User, read: map<nat, nat>, written: nat)

  function NextGuess(p: Policy, c: Counter, g: Guess): Counter {
    match g
    case Check(w) => if w in c.read then c else c.(read := c.read[w := c.user.failed])
    case Write(w, at) =>
      if w !in c.read then c
      else
        var count := c.read[w] + 1;
        var until := if count >= p.maxFailed then Some(at + p.lockTime) else c.user.lockedUntil;
        Counter(c.user.(failed := count, lockedUntil := until), c.read - {w}, c.written + 1)
  }

  function PlayGuesses(p: Policy, c: Counter, guesses: seq<Guess>): Counter
    decreases guesses
  {
    if guesses == [] then c else PlayGuesses(p, NextGuess(p, c, guesses[0]), guesses[1..])
  }

  /** The worker writes over a counter that has changed since it read it. */
  predicate Overwrites(c: Counter, g: Guess) {
    g.Write? && g.writer in c.read && c.read[g.writer] != c.user.failed
  }

  ghost predicate NobodyOverwrites(p: Policy, c: Counter, guesses: seq<Guess>)
    decreases guesses
  {
    guesses == [] || (!Overwrites(c, guesses[0]) && NobodyOverwrites(p, NextGuess(p, c, guesses[0]), guesses[1..]))
  }

  /** No counter read or stored is above the true one, and one that is equal to it is the stored one. */
  ghost predicate Sound(c: Counter, start: nat) {
    && c.user.failed <= start + c.written
    && forall w :: w in c.read ==> c.read[w] <= start + c.written && (c.read[w] == start + c.written ==> c.user.failed == c.read[w])
  }

  lemma {:induction false} OnceBehindAlwaysBehind(p: Policy, c: Counter, guesses: seq<Guess>, start: nat)
    requires Sound(c, start) && c.user.failed < start + c.written
    ensures var r := PlayGuesses(p, c, guesses); r.user.failed < start + r.written
    decreases guesses
  {
    if guesses != [] {
      OnceBehindAlwaysBehind(p, NextGuess(p, c, guesses[0]), guesses[1..], start);
    }
  }

  /** Under every interleaving the counter counts all wrong passwords exactly when nobody overwrites. */
  lemma {:induction false} CountsAllExactlyWhenNobodyOverwrites(p: Policy, c: Counter, guesses: seq<Guess>, start: nat)
    requires Sound(c, start) && c.user.failed == start + c.written
    ensures var r := PlayGuesses(p, c, guesses);
            r.user.failed == start + r.written <==> NobodyOverwrites(p, c, guesses)
    decreases guesses
  {
    if guesses != [] {
      var next := NextGuess(p, c, guesses[0]);
      if Overwrites(c, guesses[0]) {
        OnceBehindAlwaysBehind(p, next, guesses[1..], start);
      } else {
        CountsAllExactlyWhenNobodyOverwrites(p, next, guesses[1..], start);
      }
    }
  }

  /** Two wrong passwords checked before either is written count as one. */
  lemma TwoGuessesCountOnce(p: Policy, user: User, at: int)
    ensures var c := Counter(user, map[], 0);
            PlayGuesses(p, c, [Check(0), Check(1), Write(0, at), Write(1, at)]).user.failed == user.failed + 1
  {
    var c := Counter(user, map[], 0);
    var read := NextGuess(p, NextGuess(p, c, Check(0)), Check(1));
    var one := NextGuess(p, read, Write(0, at));
    var two := NextGuess(p, one, Write(1, at));
    assert [Check(0), Check(1), Write(0, at), Write(1, at)][1..] == [Check(1), Write(0, at), Write(1, at)];
    assert [Check(1), Write(0, at), Write(1, at)][1..] == [Write(0, at), Write(1, at)];
    assert [Write(0, at), Write(1, at)][1..] == [Write(1, at)] && [Write(1, at)][1..] == [];
    assert PlayGuesses(p, one, [Write(1, at)]) == PlayGuesses(p, two, []);
    assert PlayGuesses(p, read, [Write(0, at), Write(1, at)]) == two;
  }

  /** A wrong password that nobody disturbs is counted as the login counts it; a worker that has read does not read again. */
  lemma UndisturbedGuessIsTheLogin(p: Policy, s: State, u: nat, password: string, at: int, w: nat, n: nat)
    requires Login(p, s, u, password, at).error == Some(WrongPassword) && u < |s.users|
    ensures var t := Login(p, s, u, password, at).state;
            && u < |t.users|
            && NextGuess(p, NextGuess(p, Counter(s.users[u], map[], n), Check(w)), Write(w, at)) == Counter(t.users[u], map[], n + 1)
    ensures forall c: Counter :: w in c.read ==> NextGuess(p, c, Check(w)) == c
  {
    hide CompanyAdmits;
    var c := NextGuess(p, Counter(s.users[u], map[], n), Check(w));
    assert c.read == map[w := s.users[u].failed] && c.read - {w} == map[];
  }
}
