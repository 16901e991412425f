/** Sliding-window limits: how a check against the recent past bounds every window of the whole history. */
module SlidingWindow {
  import opened Common

  /** The times after a cutoff, in order. */
  function Later(times: seq<int>, cutoff: int): seq<int> {
    Filter(times, (t: int) => t > cutoff)
  }

  /** How many of the times lie after lo and not after hi. */
  function CountIn(times: seq<int>, lo: int, hi: int): nat {
    if times == [] then 0
    else CountIn(times[..|times| - 1], lo, hi) + (if lo < times[|times| - 1] <= hi then 1 else 0)
  }

  /** How many of the times lie in the window that ends at `end`, open below and closed above. */
  function InWindow(times: seq<int>, window: int, end: int): nat {
    CountIn(times, end - window, end)
  }

  /** Every window holds at most `bound` of the times. */
  ghost predicate Bounded(times: seq<int>, window: int, bound: int) {
    forall end: int :: InWindow(times, window, end) <= bound
  }

  /** How many of the times are still held against a check made at `at`. */
  function Held(times: seq<int>, window: int, at: int): nat {
    |Later(times, at - window)|
  }

  ghost predicate NoneAfter(times: seq<int>, now: int) {
    forall t | t in times :: t <= now
  }

  lemma {:induction false} LaterAppend(times: seq<int>, t: int, cutoff: int)
    ensures Later(times + [t], cutoff) == Later(times, cutoff) + (if t > cutoff then [t] else [])
  {
    FilterAppend(times, [t], (x: int) => x > cutoff);
    assert Filter([t][1..], (x: int) => x > cutoff) == [];
  }

  /** With nothing in the future, the times after a cutoff are those in the window that ends now, or later. */
  lemma {:induction false} LaterIsCount(times: seq<int>, cutoff: int, hi: int)
    requires NoneAfter(times, hi)
    ensures |Later(times, cutoff)| == CountIn(times, cutoff, hi)
  {
    if times != [] {
      var p, t := times[..|times| - 1], times[|times| - 1];
      assert times == p + [t];
      assert NoneAfter(p, hi) by { assert forall x | x in p :: x in times; }
      assert t in times;
      LaterIsCount(p, cutoff, hi);
      LaterAppend(p, t, cutoff);
    }
  }

  /** Fewer times are after a later cutoff. */
  lemma {:induction false} LaterShrinks(times: seq<int>, cutoff: int, more: int)
    requires cutoff <= more
    ensures |Later(times, more)| <= |Later(times, cutoff)|
  {
    if times != [] { LaterShrinks(times[1..], cutoff, more); }
  }

  /** Cutting twice is cutting once at the later cutoff. */
  lemma {:induction false} LaterTwice(times: seq<int>, cutoff: int, more: int)
    requires cutoff <= more
    ensures Later(Later(times, cutoff), more) == Later(times, more)
  {
    FilterFilter(times, (t: int) => t > cutoff, (t: int) => t > more, (t: int) => t > more);
  }

  /** The guard is exact: recording one more time keeps every window within the bound if and only if
      fewer than the bound lie in the window that ends now. */
  lemma {:induction false} GuardIsExact(times: seq<int>, now: int, window: int, bound: int)
    requires window > 0 && NoneAfter(times, now) && Bounded(times, window, bound)
    ensures Bounded(times + [now], window, bound) <==> Held(times, window, now) < bound
  {
    LaterIsCount(times, now - window, now);

    if Held(times, window, now) < bound {
      forall end: int ensures InWindow(times + [now], window, end) <= bound {
        OneMoreFits(times, now, window, bound, end);
      }
    } else {
      assert InWindow(times + [now], window, now) > bound;
    }
  }

  lemma {:induction false} OneMoreFits(times: seq<int>, now: int, window: int, bound: int, end: int)
    requires NoneAfter(times, now) && Held(times, window, now) < bound && InWindow(times, window, end) <= bound
    ensures InWindow(times + [now], window, end) <= bound
  {
    if end - window < now <= end {
      LaterIsCount(times, end - window, end);
      LaterShrinks(times, now - window, end - window);
    }
  }

  lemma {:induction false} BoundedPrefix(times: seq<int>, t: int, window: int, bound: int)
    requires Bounded(times + [t], window, bound)
    ensures Bounded(times, window, bound)
  {
    forall end: int ensures InWindow(times, window, end) <= bound {
      assert InWindow(times + [t], window, end) <= bound;
      assert (times + [t])[..|times|] == times;
    }
  }

  /** One more time keeps every window within the bound iff the others are within it and fewer are held then. */
  lemma {:induction false} OneMoreHoldsIff(times: seq<int>, at: int, window: int, bound: nat)
    requires NoneAfter(times, at) && window > 0
    ensures Bounded(times + [at], window, bound) <==> Bounded(times, window, bound) && Held(times, window, at) < bound
  {
    if Bounded(times + [at], window, bound) { BoundedPrefix(times, at, window, bound); }
    if Bounded(times, window, bound) { GuardIsExact(times, at, window, bound); }
  }

  // ----- the least wait -----

  function Least(times: seq<int>): (t: int)
    requires times != []
    ensures t in times && forall x | x in times :: t <= x
  {
    if |times| == 1 then times[0]
    else
      var rest := Least(times[1..]);
      assert times == [times[0]] + times[1..];
      if times[0] <= rest then times[0] else rest
  }

  lemma {:induction false} LaterAll(times: seq<int>, cutoff: int)
    requires forall t | t in times :: t > cutoff
    ensures Later(times, cutoff) == times
  {
    FilterAll(times, (t: int) => t > cutoff);
  }

  lemma {:induction false} LaterDropsLeast(times: seq<int>, t: int)
    requires t in times
    ensures |Later(times, t)| < |times|
  {
    if times[0] == t {
      LaterAtMost(times[1..], t);
    } else {
      LaterDropsLeast(times[1..], t);
    }
  }

  lemma {:induction false} LaterAtMost(times: seq<int>, cutoff: int)
    ensures |Later(times, cutoff)| <= |times|
  {
    if times != [] { LaterAtMost(times[1..], cutoff); }
  }

  /** Waiting until the oldest time leaves the window is the least wait that can help; and it lifts the bound
      exactly when fewer than the bound are later than the oldest, as whenever no more than the bound are held. */
  lemma {:induction false} LeastWait(times: seq<int>, now: int, window: int, bound: int)
    requires times != [] && |times| >= bound > 0 && forall t | t in times :: now - window < t
    ensures var free := Least(times) + window;
            && free > now
            && (forall at | now <= at < free :: Held(times, window, at) >= bound)
            && (Held(times, window, free) < bound <==> |Later(times, Least(times))| < bound)
            && (|times| == bound ==> Held(times, window, free) < bound)
  {
    var free := Least(times) + window;
    forall at | now <= at < free ensures Held(times, window, at) >= bound {
      LaterAll(times, at - window);
    }
    assert free - window == Least(times);
    LaterDropsLeast(times, Least(times));
  }
}
