/**
 The fixed-window rate limiter. Times and window lengths are whole clock ticks
 since the epoch; nothing here assumes that the clock only moves forward.
 */
module RateLimits {
  import opened Prelude

  /** The last window boundary at or before now. */
  function WindowStart(now: int, window: nat): (start: int)
    requires window > 0
    ensures start % window == 0
    ensures start <= now < start + window
  {
    BoundaryIsAligned(now, window);
    now - now % window
  }

  lemma BoundaryIsAligned(now: int, window: nat)
    requires window > 0
    ensures (now - now % window) % window == 0
  {
    var q, r := now / window, now % window;
    assert now - r == q * window + 0;
    DivisionIsUnique(q, 0, window);
  }

  lemma DivisionIsUnique(q: int, r: int, window: nat)
    requires 0 <= r < window
    ensures (q * window + r) % window == r && (q * window + r) / window == q
  {
    var n := q * window + r;
    SameQuotient(q, r, n / window, n % window, window);
  }

  lemma SameQuotient(q: int, r: int, q': int, r': int, window: nat)
    requires 0 <= r < window && 0 <= r' < window
    requires q * window + r == q' * window + r'
    ensures q == q' && r == r'
  {
    assert (q - q') * window == q * window - q' * window;
    if q > q' {
      AtLeastOnce(q - q', window);
      assert false;
    } else if q < q' {
      AtLeastOnce(q' - q, window);
      assert false;
    }
  }

  lemma AtLeastOnce(n: int, window: nat)
    requires n >= 1
    ensures n * window >= window
  {
    assert n * window == (n - 1) * window + window;
  }

  /** One call, counted in the window it fell into. */
  datatype Call = Call(key: string, start: int)

  /** How many of the calls were counted for this key in this window. */
  function Hits(calls: seq<Call>, key: string, start: int): nat {
    if calls == [] then 0
    else Hits(calls[..|calls| - 1], key, start) + (if calls[|calls| - 1] == Call(key, start) then 1 else 0)
  }

  /** The last call is within the limit of its window. */
  predicate LastIsAdmitted(calls: seq<Call>, limit: int)
    requires calls != []
  {
    Hits(calls, calls[|calls| - 1].key, calls[|calls| - 1].start) <= limit
  }

  class RateLimiter {
    var counts: map<(string, int), nat>
    ghost var calls: seq<Call>

    /** The counter rows are the history of all calls, admitted or not. */
    ghost predicate Valid()
      reads this
    {
      forall key, start :: Hits(calls, key, start) == if (key, start) in counts then counts[(key, start)] else 0
    }

    constructor ()
      ensures Valid() && calls == []
    {
      counts, calls := map[], [];
    }

    /** False is HTTP 429; a refused call is counted as well. */
    method CheckRateLimit(key: string, limit: int, window: nat, now: int) returns (admitted: bool)
      requires Valid() && window > 0
      modifies this
      ensures Valid() && calls == old(calls) + [Call(key, WindowStart(now, window))]
      ensures admitted <==> LastIsAdmitted(calls, limit)
    {
      var start := WindowStart(now, window);
      var count := 1 + if (key, start) in counts then counts[(key, start)] else 0;
      counts := counts[(key, start) := count];
      calls := calls + [Call(key, start)];
      assert calls[..|calls| - 1] == old(calls);
      admitted := count <= limit;
    }
  }

  // ----- One limit and window, any keys and any clock

  datatype Arrival = Arrival(key: string, at: int)

  /** The history of calls that arrive like this. */
  function History(trace: seq<Arrival>, window: nat): (calls: seq<Call>)
    requires window > 0
    ensures |calls| == |trace|
  {
    seq(|trace|, i requires 0 <= i < |trace| => Call(trace[i].key, WindowStart(trace[i].at, window)))
  }

  /** CheckRateLimit admits the i-th call. */
  predicate Admitted(trace: seq<Arrival>, limit: int, window: nat, i: nat)
    requires window > 0 && i < |trace|
  {
    LastIsAdmitted(History(trace, window)[..i + 1], limit)
  }

  /** How many of the first n calls are for the key and at a time in [from, to). */
  function CallsBetween(trace: seq<Arrival>, key: string, n: nat, from: int, to: int): nat
    requires n <= |trace|
  {
    if n == 0 then 0
    else
      CallsBetween(trace, key, n - 1, from, to)
      + (if trace[n - 1].key == key && from <= trace[n - 1].at < to then 1 else 0)
  }

  /** How many of those are admitted. */
  function AdmittedBetween(trace: seq<Arrival>, key: string, n: nat, limit: int, window: nat, from: int, to: int): nat
    requires window > 0 && n <= |trace|
  {
    if n == 0 then 0
    else AdmittedBetween(trace, key, n - 1, limit, window, from, to)
         + (if trace[n - 1].key == key && from <= trace[n - 1].at < to && Admitted(trace, limit, window, n - 1)
            then 1 else 0)
  }

  lemma InWindow(now: int, window: nat, start: int)
    requires window > 0 && start % window == 0
    ensures WindowStart(now, window) == start <==> start <= now < start + window
  {
    if start <= now < start + window {
      assert start == (start / window) * window;
      DivisionIsUnique(start / window, now - start, window);
    }
  }

  lemma {:induction false} HitsAreCalls(trace: seq<Arrival>, key: string, n: nat, window: nat, start: int)
    requires window > 0 && start % window == 0 && n <= |trace|
    ensures Hits(History(trace, window)[..n], key, start) == CallsBetween(trace, key, n, start, start + window)
  {
    if n > 0 {
      HitsAreCalls(trace, key, n - 1, window, start);
      assert History(trace, window)[..n][..n - 1] == History(trace, window)[..n - 1];
      InWindow(trace[n - 1].at, window, start);
    }
  }

  /** Each aligned window admits exactly as many of a key's calls as it gets, up to the limit. */
  lemma {:induction false} WindowAdmitsUpToLimit(trace: seq<Arrival>, key: string, n: nat, limit: int, window: nat,
                                                 start: int)
    requires window > 0 && start % window == 0 && n <= |trace|
    ensures AdmittedBetween(trace, key, n, limit, window, start, start + window)
            == Min(CallsBetween(trace, key, n, start, start + window), Max(limit, 0))
  {
    if n > 0 {
      WindowAdmitsUpToLimit(trace, key, n - 1, limit, window, start);
      InWindow(trace[n - 1].at, window, start);
      HitsAreCalls(trace, key, n, window, start);
    }
  }

  /** An interval of one window length lies within two neighbouring windows. */
  lemma {:induction false} IntervalWithinTwoWindows(trace: seq<Arrival>, key: string, n: nat, limit: int, window: nat,
                                                    from: int)
    requires window > 0 && n <= |trace|
    ensures var start := WindowStart(from, window);
            AdmittedBetween(trace, key, n, limit, window, from, from + window)
            <= AdmittedBetween(trace, key, n, limit, window, start, start + window)
               + AdmittedBetween(trace, key, n, limit, window, start + window, start + 2 * window)
  {
    if n > 0 {
      IntervalWithinTwoWindows(trace, key, n - 1, limit, window, from);
    }
  }

  lemma NextBoundary(start: int, window: nat)
    requires window > 0 && start % window == 0
    ensures (start + window) % window == 0
  {
    assert start == (start / window) * window;
    assert start + window == (start / window + 1) * window + 0;
    DivisionIsUnique(start / window + 1, 0, window);
  }

  /** Whatever the clock does, no interval of one window length, aligned or not, admits more than twice the limit. */
  lemma AnyIntervalAdmitsTwiceTheLimit(trace: seq<Arrival>, key: string, limit: int, window: nat, from: int)
    requires window > 0
    ensures AdmittedBetween(trace, key, |trace|, limit, window, from, from + window) <= 2 * Max(limit, 0)
  {
    var start := WindowStart(from, window);
    NextBoundary(start, window);
    IntervalWithinTwoWindows(trace, key, |trace|, limit, window, from);
    WindowAdmitsUpToLimit(trace, key, |trace|, limit, window, start);
    WindowAdmitsUpToLimit(trace, key, |trace|, limit, window, start + window);
    assert start + 2 * window == (start + window) + window;
  }

  /** Calls on both sides of a boundary: limit just before it, limit on it. */
  function Burst(key: string, limit: nat, window: nat): (trace: seq<Arrival>)
    ensures |trace| == 2 * limit
  {
    seq(2 * limit, i requires 0 <= i < 2 * limit => Arrival(key, if i < limit then window - 1 else window))
  }

  lemma {:induction false} BurstIsAdmitted(key: string, limit: nat, window: nat, n: nat)
    requires window > 1 && n <= 2 * limit
    ensures CallsBetween(Burst(key, limit, window), key, n, 0, window) == Min(n, limit)
    ensures CallsBetween(Burst(key, limit, window), key, n, window, 2 * window) == Max(0, n - limit)
    ensures AdmittedBetween(Burst(key, limit, window), key, n, limit, window, window - 1, 2 * window - 1) == n
  {
    if n > 0 {
      BurstIsAdmitted(key, limit, window, n - 1);
      BurstCallAdmitted(key, limit, window, n);
    }
  }

  lemma BurstCallAdmitted(key: string, limit: nat, window: nat, n: nat)
    requires window > 1 && 0 < n <= 2 * limit
    requires CallsBetween(Burst(key, limit, window), key, n - 1, 0, window) == Min(n - 1, limit)
    requires CallsBetween(Burst(key, limit, window), key, n - 1, window, 2 * window) == Max(0, n - 1 - limit)
    ensures Admitted(Burst(key, limit, window), limit, window, n - 1)
  {
    var trace := Burst(key, limit, window);
    var start := if n <= limit then 0 else window;
    assert start % window == 0 by {
      DivisionIsUnique(0, 0, window);
      DivisionIsUnique(1, 0, window);
    }
    InWindow(trace[n - 1].at, window, start);
    HitsAreCalls(trace, key, n, window, start);
  }

  /** The bound is reached, for every limit and every window of more than one tick. */
  lemma TwiceTheLimitIsReached(key: string, limit: nat, window: nat)
    requires window > 1
    ensures AdmittedBetween(Burst(key, limit, window), key, 2 * limit, limit, window, window - 1, window - 1 + window)
            == 2 * limit
  {
    BurstIsAdmitted(key, limit, window, 2 * limit);
  }
}
