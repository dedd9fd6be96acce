/** The sliding-window rate limiter (security.py): its deques against the full history of calls. */
module RateLimiters {
  import opened Wrappers

  datatype Hit = Hit(key: string, time: real)

  // The specification, over the call times of one key

  /** The hits after `threshold`. */
  function Above(hits: seq<real>, threshold: real): seq<real> {
    if hits == [] then []
    else
      var n := |hits| - 1;
      if hits[n] > threshold then Above(hits[..n], threshold) + [hits[n]] else Above(hits[..n], threshold)
  }

  /** The hits admitted out of a sequence of call times: a call is refused when the window already holds `limit`. */
  function Admit(times: seq<real>, limit: int, window: real): seq<real> {
    if times == [] then []
    else
      var n := |times| - 1;
      var earlier := Admit(times[..n], limit, window);
      if |Above(earlier, times[n] - window)| < limit then earlier + [times[n]] else earlier
  }

  predicate Monotone(times: seq<real>) { forall i, j :: 0 <= i < j < |times| ==> times[i] <= times[j] }

  /** The call times of one key. */
  function TimesOf(calls: seq<Hit>, key: string): seq<real> {
    if calls == [] then []
    else
      var n := |calls| - 1;
      if calls[n].key == key then TimesOf(calls[..n], key) + [calls[n].time] else TimesOf(calls[..n], key)
  }

  /** What the deque of a key holds after these calls: the earlier hits of the last call's window, then its own. */
  function Window(times: seq<real>, limit: int, window: real): seq<real> {
    if times == [] then []
    else
      var n := |times| - 1;
      var kept := Above(Admit(times[..n], limit, window), times[n] - window);
      if |kept| < limit then kept + [times[n]] else kept
  }

  // The limiter

  class SlidingWindowRateLimiter {
    const limit: int
    const windowSeconds: real
    var hits: map<string, seq<real>>
    ghost var calls: seq<Hit>

    constructor (limit: int, windowSeconds: real)
      ensures Valid() && calls == [] && this.limit == limit && this.windowSeconds == windowSeconds
    {
      this.limit, this.windowSeconds, hits, calls := limit, windowSeconds, map[], [];
    }

    function Deque(key: string): seq<real>
      reads this
    {
      if key in hits then hits[key] else []
    }

    /** Every deque is the window of its own key's calls: keys do not interact. */
    ghost predicate Valid()
      reads this
    {
      forall key :: Deque(key) == Window(TimesOf(calls, key), limit, windowSeconds)
                    && Monotone(TimesOf(calls, key))
    }

    /** The popleft loop. */
    static method Expire(window: seq<real>, threshold: real) returns (kept: seq<real>)
      requires Monotone(window)
      ensures kept == Above(window, threshold)
    {
      hide Above;
      kept := window;
      while kept != [] && kept[0] <= threshold
        invariant Monotone(kept) && Above(kept, threshold) == Above(window, threshold)
      {
        PopOld(kept, threshold);
        kept := kept[1..];
      }
      AllAbove(kept, threshold);
    }

    /** `now` is the reading of the monotonic clock. */
    method Allow(key: string, now: real) returns (ok: bool)
      requires Valid() && forall i :: 0 <= i < |calls| ==> calls[i].time <= now
      modifies this
      ensures Valid() && calls == old(calls) + [Hit(key, now)]
      ensures var admitted := Admit(TimesOf(old(calls), key), limit, windowSeconds);
              ok <==> |Above(admitted, now - windowSeconds)| < limit
    {
      hide Window, Admit, Above, TimesOf, Monotone;
      ghost var times := TimesOf(calls, key);
      TimesBounded(calls, key, now);
      WindowShrinks(times, limit, windowSeconds, now);
      NextWindow(times, limit, windowSeconds, now);
      var window := Expire(Deque(key), now - windowSeconds);
      ok := |window| < limit;
      if ok {
        window := window + [now];
      }
      hits := hits[key := window];
      calls := calls + [Hit(key, now)];
      forall other
        ensures TimesOf(calls, other) == if other == key then times + [now] else TimesOf(old(calls), other)
      {
        TimesAfter(old(calls), Hit(key, now), other);
      }
    }
  }

  // Lemmas of the refinement

  lemma TimesAfter(calls: seq<Hit>, hit: Hit, key: string)
    ensures TimesOf(calls + [hit], key) ==
            if hit.key == key then TimesOf(calls, key) + [hit.time] else TimesOf(calls, key)
  {
    assert (calls + [hit])[..|calls|] == calls;
  }

  lemma {:induction false} TimesBounded(calls: seq<Hit>, key: string, now: real)
    requires forall i :: 0 <= i < |calls| ==> calls[i].time <= now
    ensures forall i :: 0 <= i < |TimesOf(calls, key)| ==> TimesOf(calls, key)[i] <= now
  {
    if calls != [] { TimesBounded(calls[..|calls| - 1], key, now); }
  }

  lemma AboveAppend(hits: seq<real>, x: real, threshold: real)
    ensures Above(hits + [x], threshold) ==
            if x > threshold then Above(hits, threshold) + [x] else Above(hits, threshold)
  {
    assert (hits + [x])[..|hits|] == hits;
  }

  lemma AboveLast(hits: seq<real>, threshold: real)
    requires hits != []
    ensures var n := |hits| - 1;
            Above(hits, threshold) ==
              if hits[n] > threshold then Above(hits[..n], threshold) + [hits[n]] else Above(hits[..n], threshold)
  {
  }

  /** Dropping by a lower threshold first changes nothing. */
  lemma {:induction false} AboveAbove(hits: seq<real>, low: real, high: real)
    requires low <= high
    ensures Above(Above(hits, low), high) == Above(hits, high)
  {
    if hits == [] {
      assert Above(Above([], low), high) == Above([], high);
    } else {
      hide Above;
      var n := |hits| - 1;
      AboveLast(hits, low);
      AboveLast(hits, high);
      AboveAbove(hits[..n], low, high);
      if hits[n] > low { AboveAppend(Above(hits[..n], low), hits[n], high); }
    }
  }

  lemma MonotoneAppend(hits: seq<real>, x: real)
    requires Monotone(hits) && forall h <- hits :: h <= x
    ensures Monotone(hits + [x])
  {
    var after := hits + [x];
    forall i, j | 0 <= i < j < |after|
      ensures after[i] <= after[j]
    {
      assert hits[i] in hits;
    }
  }

  lemma {:induction false} AboveMonotone(hits: seq<real>, threshold: real)
    requires Monotone(hits)
    ensures Monotone(Above(hits, threshold)) && forall x <- Above(hits, threshold) :: x in hits
  {
    if hits != [] {
      var n := |hits| - 1;
      AboveMonotone(hits[..n], threshold);
      MonotoneAppend(Above(hits[..n], threshold), hits[n]);
    }
  }

  lemma {:induction false} AdmitMonotone(times: seq<real>, limit: int, window: real)
    requires Monotone(times)
    ensures Monotone(Admit(times, limit, window)) && forall x <- Admit(times, limit, window) :: x in times
  {
    if times != [] {
      var n := |times| - 1;
      AdmitMonotone(times[..n], limit, window);
      MonotoneAppend(Admit(times[..n], limit, window), times[n]);
    }
  }

  /** The stored window, cut at a later threshold, is the whole history cut there. */
  lemma WindowShrinks(times: seq<real>, limit: int, window: real, now: real)
    requires Monotone(times) && forall i :: 0 <= i < |times| ==> times[i] <= now
    ensures Monotone(Window(times, limit, window))
    ensures Above(Window(times, limit, window), now - window) == Above(Admit(times, limit, window), now - window)
  {
    if times != [] {
      WindowMonotone(times, limit, window);
      assert times[|times| - 1] <= now;
      hide Above, Admit, Monotone;
      WindowCut(times, limit, window, now - window);
    }
  }

  lemma WindowMonotone(times: seq<real>, limit: int, window: real)
    requires Monotone(times) && times != []
    ensures Monotone(Window(times, limit, window))
  {
    hide Above, Admit;
    var n := |times| - 1;
    var earlier, low := Admit(times[..n], limit, window), times[n] - window;
    AdmitMonotone(times[..n], limit, window);
    AboveMonotone(earlier, low);
    MonotoneAppend(Above(earlier, low), times[n]);
  }

  lemma WindowCut(times: seq<real>, limit: int, window: real, high: real)
    requires times != [] && times[|times| - 1] - window <= high
    ensures Above(Window(times, limit, window), high) == Above(Admit(times, limit, window), high)
  {
    hide Above, Admit;
    var n := |times| - 1;
    var earlier, low := Admit(times[..n], limit, window), times[n] - window;
    AdmitUnfolds(times, limit, window);
    AboveAbove(earlier, low, high);
    AboveAppend(Above(earlier, low), times[n], high);
    AboveAppend(earlier, times[n], high);
  }

  lemma AdmitUnfolds(times: seq<real>, limit: int, window: real)
    requires times != []
    ensures var n := |times| - 1;
            var earlier := Admit(times[..n], limit, window);
            Admit(times, limit, window) ==
              if |Above(earlier, times[n] - window)| < limit then earlier + [times[n]] else earlier
  {
  }

  /** Popping an old hit from the left does not change what lies above the threshold. */
  lemma {:induction false} PopOld(window: seq<real>, threshold: real)
    requires window != [] && window[0] <= threshold
    ensures Above(window[1..], threshold) == Above(window, threshold)
  {
    var n := |window| - 1;
    if n > 0 {
      PopOld(window[..n], threshold);
      assert window[1..][..n - 1] == window[..n][1..];
    }
  }

  lemma {:induction false} AllAbove(window: seq<real>, threshold: real)
    requires Monotone(window) && (window == [] || window[0] > threshold)
    ensures Above(window, threshold) == window
  {
    if window != [] {
      var n := |window| - 1;
      AllAbove(window[..n], threshold);
      assert window == window[..n] + [window[n]];
    }
  }

  /** What one more call does to the window and to the call times. */
  lemma NextWindow(times: seq<real>, limit: int, window: real, now: real)
    requires Monotone(times) && forall i :: 0 <= i < |times| ==> times[i] <= now
    ensures var kept := Above(Admit(times, limit, window), now - window);
            Window(times + [now], limit, window) == if |kept| < limit then kept + [now] else kept
    ensures Monotone(times + [now])
  {
    hide Admit, Above;
    assert (times + [now])[..|times|] == times;
  }

  /**
   * The deque after a call at `now` is exactly the admitted hits with time in (now - window, now]. It fails for one
   * family only: a window that is not positive, after a call that was admitted.
   */
  lemma DequeIsRecent(times: seq<real>, limit: int, window: real)
    requires Monotone(times) && times != []
    ensures var n := |times| - 1;
            var refused := |Above(Admit(times[..n], limit, window), times[n] - window)| >= limit;
            (Window(times, limit, window) == Above(Admit(times, limit, window), times[n] - window)) <==>
            (window > 0.0 || refused)
  {
    var n := |times| - 1;
    AboveAppend(Admit(times[..n], limit, window), times[n], times[n] - window);
  }

  // The bound

  /** The hits in (low, high]. */
  function Within(hits: seq<real>, low: real, high: real): nat {
    if hits == [] then 0
    else
      var n := |hits| - 1;
      Within(hits[..n], low, high) + if low < hits[n] <= high then 1 else 0
  }

  lemma {:induction false} WithinIsAbove(hits: seq<real>, low: real, high: real, threshold: real)
    requires threshold <= low
    ensures Within(hits, low, high) <= |Above(hits, threshold)|
  {
    if hits != [] { WithinIsAbove(hits[..|hits| - 1], low, high, threshold); }
  }

  /** No half-open interval of the window's length ever contains more than `limit` admitted hits. */
  lemma {:induction false} AdmittedRate(times: seq<real>, limit: int, window: real, low: real)
    requires Monotone(times)
    ensures Within(Admit(times, limit, window), low, low + window) <= Max(limit, 0)
  {
    if times != [] {
      var n := |times| - 1;
      var earlier := Admit(times[..n], limit, window);
      AdmittedRate(times[..n], limit, window, low);
      if |Above(earlier, times[n] - window)| < limit {
        assert (earlier + [times[n]])[..|earlier|] == earlier;
        if times[n] <= low + window { WithinIsAbove(earlier, low, low + window, times[n] - window); }
      }
    }
  }

  /** A closed interval may hold one more: a hit leaves the window exactly `window` after its admission. */
  lemma ClosedIntervalExceeds(t: real, window: real)
    requires window > 0.0
    ensures Admit([t, t + window], 1, window) == [t, t + window]
  {
    assert [t, t + window][..1] == [t] && [t][..0] == [];
    assert Admit([t], 1, window) == [t];
    assert Above([t], t) == [];
  }

  // The decision, counted

  /** The admitted hits in the window that ends at `now`. */
  ghost function InWindow(hits: seq<real>, now: real, window: real): set<int> {
    set k | 0 <= k < |hits| && now - window < hits[k]
  }

  lemma {:induction false} AboveCounts(hits: seq<real>, now: real, window: real)
    ensures |Above(hits, now - window)| == |InWindow(hits, now, window)|
  {
    if hits == [] {
      assert InWindow(hits, now, window) == {};
    } else {
      var n := |hits| - 1;
      AboveCounts(hits[..n], now, window);
      assert InWindow(hits, now, window) ==
             InWindow(hits[..n], now, window) + if now - window < hits[n] then {n} else {};
    }
  }

  /** A call is admitted exactly when fewer than `limit` admitted hits of its key lie in the window that it ends. */
  lemma AdmitsExactly(times: seq<real>, now: real, limit: int, window: real)
    ensures var earlier := Admit(times, limit, window);
            Admit(times + [now], limit, window) ==
            if |InWindow(earlier, now, window)| < limit then earlier + [now] else earlier
  {
    hide Above, InWindow, Admit;
    assert (times + [now])[..|times|] == times && times + [now] != [];
    AdmitUnfolds(times + [now], limit, window);
    AboveCounts(Admit(times, limit, window), now, window);
  }
}
