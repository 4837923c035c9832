/**
 * The sliding-window login limiter: a slice per key, pruned in place on every attempt,
 * against the full history of accepted attempts.
 */
module RateLimiter {

  // ----- the accepted history -----

  /** The attempts strictly after `cutoff`. */
  function Recent(h: seq<int>, cutoff: int): (r: seq<int>)
    ensures |r| <= |h|
  {
    if h == [] then []
    else Recent(h[..|h| - 1], cutoff) + (if h[|h| - 1] > cutoff then [h[|h| - 1]] else [])
  }

  type Log = map<string, seq<int>>

  function At(log: Log, key: string): seq<int> {
    if key in log then log[key] else []
  }

  /** One attempt against the full history: accepted when fewer than `max` lie in the window. */
  function Attempt(log: Log, key: string, now: int, max: nat, window: int): (Log, bool) {
    if |Recent(At(log, key), now - window)| >= max then (log, false)
    else (log[key := At(log, key) + [now]], true)
  }

  /** A history the limiter can produce: in time order, each attempt accepted below the limit. */
  predicate Sane(h: seq<int>, max: nat, window: int) {
    h != [] ==>
      var front, t := h[..|h| - 1], h[|h| - 1];
      && Sane(front, max, window)
      && |Recent(front, t - window)| < max
      && (front != [] ==> front[|front| - 1] <= t)
  }

  /** The attempts in the half-open interval after `lo` up to `hi`. */
  function Between(h: seq<int>, lo: int, hi: int): (r: seq<int>)
  {
    if h == [] then []
    else Between(h[..|h| - 1], lo, hi) + (if lo < h[|h| - 1] <= hi then [h[|h| - 1]] else [])
  }

  lemma {:induction false} RecentAgain(h: seq<int>, c: int, c': int)
    requires c <= c'
    ensures Recent(Recent(h, c), c') == Recent(h, c')
  {
    if h != [] {
      var front, t := h[..|h| - 1], h[|h| - 1];
      RecentAgain(front, c, c');
      if t > c {
        assert (Recent(front, c) + [t])[..|Recent(front, c)|] == Recent(front, c);
      } else {
        assert Recent(front, c) + [] == Recent(front, c);
      }
    }
  }

  lemma RecentAppend(h: seq<int>, t: int, c: int)
    ensures Recent(h + [t], c) == Recent(h, c) + (if t > c then [t] else [])
  {
    assert (h + [t])[..|h|] == h;
  }

  /** Raising the cutoff, or lowering the upper end, only drops attempts. */
  lemma {:induction false} FewerLater(h: seq<int>, c: int, lo: int, hi: int)
    requires c <= lo
    ensures |Between(h, lo, hi)| <= |Recent(h, c)|
  {
    if h != [] { FewerLater(h[..|h| - 1], c, lo, hi); }
  }

  lemma {:induction false} AllUpTo(h: seq<int>, lo: int, hi: int)
    requires forall i :: 0 <= i < |h| ==> h[i] <= hi
    ensures Between(h, lo, hi) == Recent(h, lo)
  {
    if h != [] { AllUpTo(h[..|h| - 1], lo, hi); }
  }

  /** No half-open interval as long as the window holds more than `max` accepted attempts. */
  lemma {:induction false} WindowBound(h: seq<int>, max: nat, window: int, lo: int)
    requires Sane(h, max, window)
    ensures |Between(h, lo, lo + window)| <= max
  {
    if h != [] {
      var front, t := h[..|h| - 1], h[|h| - 1];
      WindowBound(front, max, window, lo);
      if lo < t <= lo + window {
        FewerLater(front, t - window, lo, lo + window);
      }
    }
  }

  /** An accepted attempt keeps the history sane. */
  lemma AcceptKeepsSane(h: seq<int>, now: int, max: nat, window: int)
    requires Sane(h, max, window) && forall i :: 0 <= i < |h| ==> h[i] <= now
    requires |Recent(h, now - window)| < max
    ensures Sane(h + [now], max, window)
  {
    assert (h + [now])[..|h|] == h;
  }

  // ----- runs -----

  ghost predicate SaneLog(log: Log, max: nat, window: int, clock: int) {
    forall k :: k in log ==> Sane(log[k], max, window) && forall i :: 0 <= i < |log[k]| ==> log[k][i] <= clock
  }

  lemma AttemptKeepsSane(log: Log, key: string, now: int, max: nat, window: int, clock: int)
    requires SaneLog(log, max, window, clock) && clock <= now
    ensures SaneLog(Attempt(log, key, now, max, window).0, max, window, now)
  {
    NothingIsSane(max, window);
    hide Recent, Sane;
    if |Recent(At(log, key), now - window)| < max {
      AcceptKeepsSane(At(log, key), now, max, window);
    }
  }

  lemma NothingIsSane(max: nat, window: int)
    ensures Sane([], max, window)
  {
  }

  /** An attempt is refused exactly when the window ending now is full, never over-full. */
  lemma RefusedMeansFull(log: Log, key: string, now: int, max: nat, window: int)
    requires SaneLog(log, max, window, now)
    ensures !Attempt(log, key, now, max, window).1 <==> |Between(At(log, key), now - window, now)| == max
    ensures |Between(At(log, key), now - window, now)| <= max
  {
    var h := At(log, key);
    WindowBound(h, max, window, now - window);
    AllUpTo(h, now - window, now);
  }

  /** Attempts of any keys, in the order the clock saw them. */
  type Attempts = seq<(string, int)>

  predicate InOrder(attempts: Attempts, clock: int)
    decreases |attempts|
  {
    attempts != [] ==> clock <= attempts[0].1 && InOrder(attempts[1..], attempts[0].1)
  }

  function Run(log: Log, attempts: Attempts, max: nat, window: int): Log
    decreases |attempts|
  {
    if attempts == [] then log
    else Run(Attempt(log, attempts[0].0, attempts[0].1, max, window).0, attempts[1..], max, window)
  }

  lemma {:induction false} RunKeepsSane(log: Log, attempts: Attempts, max: nat, window: int, clock: int)
      returns (end: int)
    requires SaneLog(log, max, window, clock) && InOrder(attempts, clock)
    ensures SaneLog(Run(log, attempts, max, window), max, window, end)
    decreases |attempts|
  {
    if attempts == [] {
      end := clock;
    } else {
      var (key, now) := attempts[0];
      AttemptKeepsSane(log, key, now, max, window, clock);
      end := RunKeepsSane(Attempt(log, key, now, max, window).0, attempts[1..], max, window, now);
    }
  }

  /**
   * Sliding-window guarantee: after any run with a non-decreasing clock, no key has more
   * than `max` accepted attempts in any half-open interval of the window's length, open on
   * the left or on the right.
   */
  lemma AtMostMaxPerWindow(attempts: Attempts, max: nat, window: int, start: int, key: string, x: int)
    requires InOrder(attempts, start)
    ensures |Between(At(Run(map[], attempts, max, window), key), x, x + window)| <= max
    ensures |Between(At(Run(map[], attempts, max, window), key), x - 1, x + window - 1)| <= max
  {
    var end := RunKeepsSane(map[], attempts, max, window, start);
    var h := At(Run(map[], attempts, max, window), key);
    assert Sane([], max, window);
    WindowBound(h, max, window, x);
    WindowBound(h, max, window, x - 1);
  }

  // ----- the limiter -----

  /** Every kept slice is the accepted history filtered to the window of its key's last attempt. */
  ghost predicate Faithful(kept: Log, history: Log, seen: map<string, int>, window: int) {
    && (forall k :: k in history ==> k in kept)
    && (forall k :: k in kept <==> k in seen)
    && forall k :: k in kept ==> kept[k] == Recent(At(history, k), seen[k] - window)
  }

  lemma AttemptIsFaithful(kept: Log, history: Log, seen: map<string, int>, max: nat, window: int, key: string, now: int)
    requires Faithful(kept, history, seen, window) && window > 0
    requires key in seen ==> seen[key] <= now
    ensures var pruned := Recent(At(kept, key), now - window);
      var (history', ok) := Attempt(history, key, now, max, window);
      && ok == (|pruned| < max)
      && (if ok then pruned + [now] else pruned) == Recent(At(history', key), now - window)
      && Faithful(kept[key := if ok then pruned + [now] else pruned], history', seen[key := now], window)
  {
    hide Recent;
    var h := At(history, key);
    if key in kept { RecentAgain(h, seen[key] - window, now - window); }
    RecentAppend(h, now, now - window);
  }

  class Limiter {
    const max: nat
    const window: int
    var hits: Log
    ghost var history: Log
    ghost var seen: map<string, int>
    ghost var clock: int

    ghost predicate Valid()
      reads this
    {
      && window > 0
      && Faithful(hits, history, seen, window)
      && forall k :: k in seen ==> seen[k] <= clock
    }

    constructor (max: nat, window: int)
      requires window > 0
      ensures Valid() && history == map[] && this.max == max && this.window == window
    {
      this.max, this.window := max, window;
      hits, history, seen, clock := map[], map[], map[], 0;
    }

    /** In-place compaction: what is too old is overwritten by what is kept. */
    static method Prune(data: array<int>, len: nat, cutoff: int) returns (kept: nat)
      requires len <= data.Length
      modifies data
      ensures kept <= len
      ensures data[..kept] == Recent(old(data[..len]), cutoff)
    {
      kept := 0;
      for i := 0 to len
        invariant kept <= i
        invariant data[..kept] == Recent(old(data[..i]), cutoff)
        invariant data[i..len] == old(data[i..len])
      {
        ghost var before := old(data[..i + 1]);
        assert before[..i] == old(data[..i]) && before[i] == data[i];
        if data[i] > cutoff {
          data[kept] := data[i];
          kept := kept + 1;
        }
      }
    }

    method Allow(key: string, now: int) returns (ok: bool)
      requires Valid() && clock <= now
      modifies this
      ensures Valid() && clock == now
      ensures (history, ok) == Attempt(old(history), key, now, max, window)
      ensures key in hits && hits[key] == Recent(At(history, key), now - window)
    {
      hide Recent, Faithful, Attempt;
      AttemptIsFaithful(hits, history, seen, max, window, key, now);
      var slice := At(hits, key);
      var data := new int[|slice|](i requires 0 <= i < |slice| => slice[i]);
      assert data[..|slice|] == slice;
      var kept := Prune(data, |slice|, now - window);
      ok := kept < max;
      hits := hits[key := if ok then data[..kept] + [now] else data[..kept]];
      history, seen, clock := Attempt(history, key, now, max, window).0, seen[key := now], now;
    }
  }
}
