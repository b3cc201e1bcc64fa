/** The in-memory sliding-window limiter, compared with one that never forgets an accepted request. */
module RateLimit {
  import opened Wrappers

  /** `[t for t in times if t > cutoff]`. */
  function After(times: seq<int>, cutoff: int): (r: seq<int>)
    ensures |r| <= |times|
  {
    if times == [] then []
    else if times[0] > cutoff then [times[0]] + After(times[1..], cutoff)
    else After(times[1..], cutoff)
  }

  /** One request against a key's stored times: the verdict and what is stored afterwards. */
  function Enforce(stored: seq<int>, limit: int, window: int, now: int): (bool, seq<int>) {
    var recent := After(stored, now - window);
    if |recent| >= limit then (false, stored) else (true, recent + [now])
  }

  // ----- one request, said without the list comprehension

  /** The positions of the times later than `cutoff`. */
  function RecentAt(times: seq<int>, cutoff: int): set<nat> {
    set i: nat | i < |times| && times[i] > cutoff
  }

  /** `kept` holds the times later than `cutoff`, all of them, in their order; `at` are their positions. */
  ghost predicate KeepsRecent(times: seq<int>, cutoff: int, kept: seq<int>, at: seq<nat>) {
    && |kept| == |at| == |RecentAt(times, cutoff)|
    && (forall i, j :: 0 <= i < j < |at| ==> at[i] < at[j])
    && (forall i :: 0 <= i < |at| ==> at[i] in RecentAt(times, cutoff) && kept[i] == times[at[i]])
  }

  /** What an accepted request leaves in the store: the times still in the window, and then its own. */
  ghost predicate IsStoredAfter(stored: seq<int>, window: int, now: int, next: seq<int>) {
    next != [] && next[|next| - 1] == now && HoldsRecent(stored, now - window, next[..|next| - 1])
  }

  ghost predicate HoldsRecent(times: seq<int>, cutoff: int, kept: seq<int>) {
    exists at :: KeepsRecent(times, cutoff, kept, at)
  }

  lemma {:induction false} AfterKeepsRecent(times: seq<int>, cutoff: int) returns (at: seq<nat>)
    ensures KeepsRecent(times, cutoff, After(times, cutoff), at)
    decreases |times|
  {
    at := [];
    if times == [] {
      assert RecentAt(times, cutoff) == {};
    } else {
      var n := |times| - 1;
      var front := times[..n];
      at := AfterKeepsRecent(front, cutoff);
      assert times == front + [times[n]];
      AfterConcat(front, [times[n]], cutoff);
      LastIsRecent(front, times[n], cutoff);
      hide After, RecentAt;
      if times[n] > cutoff {
        at := at + [n];
      }
    }
  }

  lemma LastIsRecent(front: seq<int>, last: int, cutoff: int)
    ensures After([last], cutoff) == if last > cutoff then [last] else []
    ensures RecentAt(front + [last], cutoff) == RecentAt(front, cutoff) + if last > cutoff then {|front|} else {}
    ensures |RecentAt(front + [last], cutoff)| == |RecentAt(front, cutoff)| + if last > cutoff then 1 else 0
  {
    assert [last][1..] == [];
    assert |front| !in RecentAt(front, cutoff);
    assert RecentAt(front + [last], cutoff) == RecentAt(front, cutoff) + if last > cutoff then {|front|} else {};
  }

  /**
    A request is accepted exactly when fewer than `limit` stored times lie after `now - window`; it then leaves exactly those,
    in order, and its own time, and a refused one leaves everything.
   */
  lemma AcceptsExactlyWithRoom(stored: seq<int>, limit: int, window: int, now: int)
    ensures var (ok, next) := Enforce(stored, limit, window, now);
            && (ok <==> |RecentAt(stored, now - window)| < limit)
            && (if ok then IsStoredAfter(stored, window, now, next) else next == stored)
  {
    hide RecentAt, After;
    var recent := After(stored, now - window);
    var at := AfterKeepsRecent(stored, now - window);
    assert (recent + [now])[..|recent|] == recent;
  }

  class Limiter {
    /** The stored times of every key seen so far. */
    var memory: map<string, seq<int>>

    ghost function Stored(key: string): seq<int>
      reads this
    {
      if key in memory then memory[key] else []
    }

    constructor ()
      ensures memory == map[]
    {
      memory := map[];
    }

    method EnforceRateLimit(key: string, limit: int, window: int, now: int) returns (accepted: bool)
      modifies this
      ensures accepted == Enforce(old(Stored(key)), limit, window, now).0
      ensures memory == old(memory)[key := Enforce(old(Stored(key)), limit, window, now).1]
      ensures accepted <==> |RecentAt(old(Stored(key)), now - window)| < limit
      ensures if accepted then IsStoredAfter(old(Stored(key)), window, now, memory[key]) else memory[key] == old(Stored(key))
    {
      AcceptsExactlyWithRoom(Stored(key), limit, window, now);
      var stored := if key in memory then memory[key] else [];
      var attempts: seq<int> := [];
      for i := 0 to |stored|
        invariant memory == old(memory)
        invariant attempts == After(stored[..i], now - window)
      {
        AfterConcat(stored[..i], [stored[i]], now - window);
        assert stored[..i + 1] == stored[..i] + [stored[i]];
        if stored[i] > now - window {
          attempts := attempts + [stored[i]];
        }
      }
      assert stored[..|stored|] == stored;
      // Reading a key of the default dictionary creates it, also when the request is then refused.
      memory := memory[key := stored];
      if |attempts| >= limit {
        return false;
      }
      memory := memory[key := attempts + [now]];
      return true;
    }
  }

  /** A run of requests for one key: the verdict on each. */
  function Verdicts(stored: seq<int>, limit: int, window: int, requests: seq<int>): (r: seq<bool>)
    ensures |r| == |requests|
    decreases requests
  {
    if requests == [] then []
    else
      var (ok, next) := Enforce(stored, limit, window, requests[0]);
      [ok] + Verdicts(next, limit, window, requests[1..])
  }

  /** The reference limiter: it keeps every accepted time and counts those of the last `window`. */
  function FullVerdicts(accepted: seq<int>, limit: int, window: int, requests: seq<int>): (r: seq<bool>)
    ensures |r| == |requests|
    decreases requests
  {
    if requests == [] then []
    else
      var ok := |After(accepted, requests[0] - window)| < limit;
      [ok] + FullVerdicts(if ok then accepted + [requests[0]] else accepted, limit, window, requests[1..])
  }

  /** The accepted times of a run, oldest first. */
  function AcceptedTimes(verdicts: seq<bool>, requests: seq<int>): seq<int>
    requires |verdicts| == |requests|
  {
    if requests == [] then []
    else if verdicts[0] then [requests[0]] + AcceptedTimes(verdicts[1..], requests[1..])
    else AcceptedTimes(verdicts[1..], requests[1..])
  }

  ghost predicate Monotone(requests: seq<int>) {
    forall i, j :: 0 <= i <= j < |requests| ==> requests[i] <= requests[j]
  }

  /** How many of `times` lie in (end - window, end]. */
  function InWindow(times: seq<int>, window: int, end: int): (n: nat)
  {
    if times == [] then 0
    else (if end - window < times[0] <= end then 1 else 0) + InWindow(times[1..], window, end)
  }

  lemma {:induction false} AfterConcat(a: seq<int>, b: seq<int>, cutoff: int)
    ensures After(a + b, cutoff) == After(a, cutoff) + After(b, cutoff)
  {
    if a == [] {
      assert a + b == b;
      assert [] + After(b, cutoff) == After(b, cutoff);
    } else {
      AfterConcat(a[1..], b, cutoff);
      assert (a + b)[1..] == a[1..] + b;
      Associates([a[0]], After(a[1..], cutoff), After(b, cutoff));
    }
  }

  lemma {:induction false} AfterAfter(times: seq<int>, early: int, late: int)
    requires early <= late
    ensures After(After(times, early), late) == After(times, late)
  {
    if times != [] {
      AfterAfter(times[1..], early, late);
      var rest := After(times[1..], early);
      assert ([times[0]] + rest)[1..] == rest;
    }
  }

  /** The store agrees with the full history on every cutoff from `cutoff` on. */
  ghost predicate Agrees(stored: seq<int>, history: seq<int>, cutoff: int) {
    forall c :: c >= cutoff ==> After(stored, c) == After(history, c)
  }

  lemma StoreStillAgrees(stored: seq<int>, history: seq<int>, limit: int, window: int, now: int, start: int)
    requires start <= now && Agrees(stored, history, start - window)
    ensures var (ok, next) := Enforce(stored, limit, window, now);
            && ok == (|After(history, now - window)| < limit)
            && Agrees(next, if ok then history + [now] else history, now - window)
  {
    var (ok, next) := Enforce(stored, limit, window, now);
    if ok {
      forall c | c >= now - window
        ensures After(next, c) == After(history + [now], c)
      {
        AfterConcat(After(stored, now - window), [now], c);
        AfterConcat(history, [now], c);
        AfterAfter(stored, now - window, c);
      }
    }
  }

  /** The pruned limiter takes the same decisions as the one that remembers everything. */
  lemma {:induction false} PruningIsInvisible(
      stored: seq<int>, history: seq<int>, limit: int, window: int, requests: seq<int>, start: int)
    requires Monotone(requests) && (requests != [] ==> start <= requests[0])
    requires Agrees(stored, history, start - window)
    ensures Verdicts(stored, limit, window, requests) == FullVerdicts(history, limit, window, requests)
    decreases requests
  {
    if requests != [] {
      var now := requests[0];
      var (ok, next) := Enforce(stored, limit, window, now);
      var later := if ok then history + [now] else history;
      assert Monotone(requests[1..]);
      StoreStillAgrees(stored, history, limit, window, now, start);
      PruningIsInvisible(next, later, limit, window, requests[1..], now);
    }
  }

  lemma PrunedRefinesFull(limit: int, window: int, requests: seq<int>)
    requires Monotone(requests)
    ensures Verdicts([], limit, window, requests) == FullVerdicts([], limit, window, requests)
  {
    PruningIsInvisible([], [], limit, window, requests, if requests == [] then 0 else requests[0]);
  }

  lemma {:induction false} InWindowConcat(a: seq<int>, b: seq<int>, window: int, end: int)
    ensures InWindow(a + b, window, end) == InWindow(a, window, end) + InWindow(b, window, end)
  {
    if a == [] {
      assert a + b == b;
    } else {
      InWindowConcat(a[1..], b, window, end);
      assert (a + b)[1..] == a[1..] + b;
    }
  }

  lemma {:induction false} InWindowIsAfter(times: seq<int>, window: int, now: int, end: int)
    requires forall i :: 0 <= i < |times| ==> times[i] <= now
    requires now <= end
    ensures InWindow(times, window, end) <= |After(times, now - window)|
  {
    if times != [] {
      InWindowIsAfter(times[1..], window, now, end);
    }
  }

  lemma {:induction false} NothingLater(times: seq<int>, window: int, end: int)
    requires forall i :: 0 <= i < |times| ==> times[i] > end
    ensures InWindow(times, window, end) == 0
  {
    if times != [] {
      NothingLater(times[1..], window, end);
    }
  }

  lemma {:induction false} AcceptedAreNoEarlier(verdicts: seq<bool>, requests: seq<int>, start: int)
    requires |verdicts| == |requests|
    requires forall i :: 0 <= i < |requests| ==> requests[i] >= start
    ensures forall i :: 0 <= i < |AcceptedTimes(verdicts, requests)| ==> AcceptedTimes(verdicts, requests)[i] >= start
  {
    if requests != [] {
      AcceptedAreNoEarlier(verdicts[1..], requests[1..], start);
    }
  }

  lemma {:induction false} WindowBoundFrom(accepted: seq<int>, limit: int, window: int, requests: seq<int>, end: int)
    requires Monotone(requests)
    requires forall i :: 0 <= i < |accepted| && requests != [] ==> accepted[i] <= requests[0]
    requires InWindow(accepted, window, end) <= limit
    ensures InWindow(accepted + AcceptedTimes(FullVerdicts(accepted, limit, window, requests), requests), window, end) <= limit
    decreases requests
  {
    var verdicts := FullVerdicts(accepted, limit, window, requests);
    if requests == [] {
      assert accepted + [] == accepted;
    } else {
      var now := requests[0];
      var ok := verdicts[0];
      var later := if ok then accepted + [now] else accepted;
      var rest := AcceptedTimes(verdicts[1..], requests[1..]);
      Associates(accepted, [now], rest);
      if end < now {
        AcceptedAreNoEarlier(verdicts, requests, now);
        NothingLater(AcceptedTimes(verdicts, requests), window, end);
        InWindowConcat(accepted, AcceptedTimes(verdicts, requests), window, end);
      } else {
        InWindowConcat(accepted, [now], window, end);
        InWindowIsAfter(accepted, window, now, end);
        WindowBoundFrom(later, limit, window, requests[1..], end);
      }
    }
  }

  /** No interval of length `window`, wherever it ends, holds more than `limit` accepted requests. */
  lemma WindowBound(limit: int, window: int, requests: seq<int>, end: int)
    requires Monotone(requests)
    ensures InWindow(AcceptedTimes(Verdicts([], limit, window, requests), requests), window, end)
            <= if limit < 0 then 0 else limit
  {
    PrunedRefinesFull(limit, window, requests);
    if limit >= 0 {
      WindowBoundFrom([], limit, window, requests, end);
      var times := AcceptedTimes(Verdicts([], limit, window, requests), requests);
      assert [] + times == times;
    } else {
      NegativeLimitRefuses([], limit, window, requests);
    }
  }

  lemma {:induction false} NegativeLimitRefuses(accepted: seq<int>, limit: int, window: int, requests: seq<int>)
    requires limit < 0
    ensures AcceptedTimes(FullVerdicts(accepted, limit, window, requests), requests) == []
  {
    if requests != [] {
      NegativeLimitRefuses(accepted, limit, window, requests[1..]);
    }
  }

  /** The reference limiter refuses exactly when the requests accepted before, still in the window, are `limit` many. */
  lemma {:induction false} FullRefusesExactly(accepted: seq<int>, limit: int, window: int, requests: seq<int>, k: nat)
    requires Monotone(requests) && k < |requests|
    requires forall i :: 0 <= i < |accepted| ==> accepted[i] <= requests[0]
    ensures var verdicts := FullVerdicts(accepted, limit, window, requests);
            verdicts[k] <==> InWindow(accepted + AcceptedTimes(verdicts[..k], requests[..k]), window, requests[k]) < limit
    decreases k
  {
    var verdicts := FullVerdicts(accepted, limit, window, requests);
    if k == 0 {
      assert accepted + [] == accepted;
      InWindowCountsAfter(accepted, window, requests[0]);
    } else {
      var later := if verdicts[0] then accepted + [requests[0]] else accepted;
      var tail := AcceptedTimes(verdicts[1..k], requests[1..k]);
      assert Monotone(requests[1..]);
      FullRefusesExactly(later, limit, window, requests[1..], k - 1);
      assert verdicts[1..][..k - 1] == verdicts[1..k] == verdicts[..k][1..];
      assert requests[1..][..k - 1] == requests[1..k] == requests[..k][1..];
      Associates(accepted, [requests[0]], tail);
    }
  }

  lemma {:induction false} InWindowCountsAfter(times: seq<int>, window: int, now: int)
    requires forall i :: 0 <= i < |times| ==> times[i] <= now
    ensures InWindow(times, window, now) == |After(times, now - window)|
  {
    if times != [] {
      InWindowCountsAfter(times[1..], window, now);
    }
  }

  /** Over every monotone run, a request is refused exactly when `limit` requests accepted before it lie within the window that ends now. */
  lemma RefusesExactlyWhenFull(limit: int, window: int, requests: seq<int>, k: nat)
    requires Monotone(requests) && k < |requests|
    ensures var verdicts := Verdicts([], limit, window, requests);
            !verdicts[k] <==> InWindow(AcceptedTimes(verdicts[..k], requests[..k]), window, requests[k]) >= limit
  {
    hide Verdicts, FullVerdicts, AcceptedTimes, InWindow;
    PrunedRefinesFull(limit, window, requests);
    FullRefusesExactly([], limit, window, requests, k);
    var verdicts := Verdicts([], limit, window, requests);
    assert [] + AcceptedTimes(verdicts[..k], requests[..k]) == AcceptedTimes(verdicts[..k], requests[..k]);
  }
}
