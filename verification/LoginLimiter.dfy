/** The login rate limiter: recent failures per client and overall, evicted lazily. */
module LoginLimiter {
  import opened Common
  import opened SlidingWindow

  const PER_IP_MAX: nat := 5
  const GLOBAL_MAX: nat := 30
  /** Five minutes, in nanoseconds. */
  const WINDOW: int := 300_000_000_000

  datatype Failure = Failure(ip: string, at: int)

  function Times(history: seq<Failure>): seq<int> {
    if history == [] then [] else Times(history[..|history| - 1]) + [history[|history| - 1].at]
  }

  function TimesOf(history: seq<Failure>, ip: string): seq<int> {
    if history == [] then []
    else
      var f := history[|history| - 1];
      TimesOf(history[..|history| - 1], ip) + (if f.ip == ip then [f.at] else [])
  }

  /** The decision, on the whole history of failures. */
  predicate Allowed(history: seq<Failure>, ip: string, now: int) {
    Held(Times(history), WINDOW, now) < GLOBAL_MAX && Held(TimesOf(history, ip), WINDOW, now) < PER_IP_MAX
  }

  lemma TimesAppend(history: seq<Failure>, f: Failure, ip: string)
    ensures Times(history + [f]) == Times(history) + [f.at]
    ensures TimesOf(history + [f], ip) == if f.ip == ip then TimesOf(history, ip) + [f.at] else TimesOf(history, ip)
  {
    assert (history + [f])[..|history|] == history;
  }

  // ----- the limiter -----

  /** What is kept is all that a cutoff no later than a window ago leaves. */
  ghost predicate Recent(kept: seq<int>, all: seq<int>, latest: int) {
    exists cutoff :: cutoff <= latest - WINDOW && kept == Later(all, cutoff)
  }

  lemma {:induction false} RecentCut(kept: seq<int>, all: seq<int>, latest: int, now: int)
    requires Recent(kept, all, latest) && latest <= now
    ensures Later(kept, now - WINDOW) == Later(all, now - WINDOW)
    ensures Recent(kept, all, now) && Recent(Later(kept, now - WINDOW), all, now)
  {
    var cutoff :| cutoff <= latest - WINDOW && kept == Later(all, cutoff);
    LaterTwice(all, cutoff, now - WINDOW);
  }

  lemma {:induction false} RecentAppend(all: seq<int>, now: int)
    ensures Recent(Later(all, now - WINDOW) + [now], all + [now], now)
  {
    LaterAppend(all, now, now - WINDOW);
    assert Later(all + [now], now - WINDOW) == Later(all, now - WINDOW) + [now];
  }

  lemma {:induction false} StillRecent(history: seq<Failure>, f: Failure, ip: string, kept: seq<int>)
    requires Recent(kept, TimesOf(history, ip), f.at)
    requires ip == f.ip ==> kept == Later(TimesOf(history, ip), f.at - WINDOW)
    ensures Recent(if ip == f.ip then kept + [f.at] else kept, TimesOf(history + [f], ip), f.at)
  {
    TimesAppend(history, f, ip);
    if ip == f.ip { RecentAppend(TimesOf(history, ip), f.at); }
  }

  function KeptFor(perIp: map<string, seq<int>>, ip: string): seq<int> {
    if ip in perIp then perIp[ip] else []
  }

  /** What is kept for each client is its recent past; no client is kept with nothing. */
  ghost predicate Tracks(perIp: map<string, seq<int>>, history: seq<Failure>, latest: int) {
    && (forall ip: string :: Recent(KeptFor(perIp, ip), TimesOf(history, ip), latest))
    && (forall ip | ip in perIp :: perIp[ip] != [])
  }

  function Evicted(perIp: map<string, seq<int>>, ip: string, now: int): map<string, seq<int>> {
    var kept := Later(KeptFor(perIp, ip), now - WINDOW);
    if kept == [] then perIp - {ip} else perIp[ip := kept]
  }

  lemma {:induction false} EvictionTracks(perIp: map<string, seq<int>>, history: seq<Failure>, latest: int, ip: string, now: int)
    requires Tracks(perIp, history, latest) && latest <= now
    ensures Tracks(Evicted(perIp, ip, now), history, now)
    ensures KeptFor(Evicted(perIp, ip, now), ip) == Later(KeptFor(perIp, ip), now - WINDOW)
  {
    forall other: string ensures Recent(KeptFor(Evicted(perIp, ip, now), other), TimesOf(history, other), now) {
      RecentCut(KeptFor(perIp, other), TimesOf(history, other), latest, now);
    }
  }

  lemma {:induction false} AppendTracks(perIp: map<string, seq<int>>, history: seq<Failure>, f: Failure)
    requires Tracks(perIp, history, f.at)
    requires KeptFor(perIp, f.ip) == Later(TimesOf(history, f.ip), f.at - WINDOW)
    ensures Tracks(perIp[f.ip := KeptFor(perIp, f.ip) + [f.at]], history + [f], f.at)
  {
    var after := perIp[f.ip := KeptFor(perIp, f.ip) + [f.at]];
    forall other: string ensures Recent(KeptFor(after, other), TimesOf(history + [f], other), f.at) {
      StillRecent(history, f, other, KeptFor(perIp, other));
    }
  }

  /** Drops every time older than the window. */
  method EvictOld(timestamps: seq<int>, now: int) returns (kept: seq<int>)
    ensures kept == Later(timestamps, now - WINDOW)
  {
    var cutoff := now - WINDOW;
    kept := [];
    for i := 0 to |timestamps|
      invariant kept == Later(timestamps[..i], cutoff)
    {
      assert timestamps[..i + 1] == timestamps[..i] + [timestamps[i]];
      LaterAppend(timestamps[..i], timestamps[i], cutoff);
      if timestamps[i] > cutoff {
        kept := kept + [timestamps[i]];
      }
    }
    assert timestamps[..|timestamps|] == timestamps;
  }

  /** How long until the oldest of the times leaves the window. */
  method RetryAfter(timestamps: seq<int>, now: int) returns (wait: int)
    requires timestamps != []
    ensures var remaining := Least(timestamps) + WINDOW - now; wait == if remaining < 0 then 0 else remaining
  {
    var oldest := timestamps[0];
    for i := 1 to |timestamps|
      invariant oldest in timestamps[..i] && forall t | t in timestamps[..i] :: oldest <= t
    {
      assert timestamps[..i + 1] == timestamps[..i] + [timestamps[i]];
      if timestamps[i] < oldest {
        oldest := timestamps[i];
      }
    }
    assert timestamps[..|timestamps|] == timestamps;
    var remaining := oldest + WINDOW - now;
    return if remaining < 0 then 0 else remaining;
  }

  class Limiter {
    var perIp: map<string, seq<int>>
    var global: seq<int>
    /** Every failure recorded, and the latest time the clock has shown. */
    ghost var history: seq<Failure>
    ghost var latest: int

    ghost predicate Valid()
      reads this
    {
      Recent(global, Times(history), latest) && Tracks(perIp, history, latest)
    }

    constructor (ghost now: int)
      ensures Valid() && history == [] && latest == now
    {
      perIp, global, history, latest := map[], [], [], now;
      new;
      assert Later([], now - WINDOW) == [];
    }

    /** Drops what is older than the window, overall and for one client; a client with nothing left is forgotten. */
    method Evict(ip: string, now: int)
      requires Valid() && latest <= now
      modifies this
      ensures Valid() && history == old(history) && latest == now
      ensures global == Later(Times(history), now - WINDOW)
      ensures KeptFor(perIp, ip) == Later(TimesOf(history, ip), now - WINDOW)
    {
      RecentCut(global, Times(history), latest, now);
      RecentCut(KeptFor(perIp, ip), TimesOf(history, ip), latest, now);
      EvictionTracks(perIp, history, latest, ip, now);
      EvictClient(ip, now);
      global := EvictOld(global, now);
      latest := now;
    }

    method EvictClient(ip: string, now: int)
      modifies `perIp
      ensures perIp == Evicted(old(perIp), ip, now)
    {
      var kept := EvictOld(if ip in perIp then perIp[ip] else [], now);
      perIp := perIp[ip := kept];
      if |kept| == 0 {
        perIp := perIp - {ip};
      }
      assert perIp == Evicted(old(perIp), ip, now);
    }

    /** Whether an attempt may proceed now; if not, the least wait after which the bound that blocked may be lifted,
        and surely is when no more than the bound were held. */
    method Allow(ip: string, now: int) returns (allowed: bool, retryAfter: int)
      requires Valid() && latest <= now
      modifies this
      ensures Valid() && history == old(history) && latest == now
      ensures allowed <==> Allowed(history, ip, now)
      ensures allowed ==> retryAfter == 0
      ensures !allowed ==> if Held(Times(history), WINDOW, now) >= GLOBAL_MAX
                           then LeastRetry(Times(history), now, retryAfter, GLOBAL_MAX)
                           else LeastRetry(TimesOf(history, ip), now, retryAfter, PER_IP_MAX)
    {
      Evict(ip, now);
      if |global| >= GLOBAL_MAX {
        WaitIsLeast(Times(history), now, GLOBAL_MAX);
        retryAfter := RetryAfter(global, now);
        return false, retryAfter;
      }
      if ip in perIp && |perIp[ip]| >= PER_IP_MAX {
        WaitIsLeast(TimesOf(history, ip), now, PER_IP_MAX);
        retryAfter := RetryAfter(perIp[ip], now);
        return false, retryAfter;
      }
      return true, 0;
    }

    method RecordFailure(ip: string, now: int)
      requires Valid() && latest <= now
      modifies this
      ensures Valid() && history == old(history) + [Failure(ip, now)] && latest == now
    {
      Evict(ip, now);
      Append(ip, now);
    }

    method Append(ip: string, now: int)
      requires Valid() && latest == now
      requires global == Later(Times(history), now - WINDOW) && KeptFor(perIp, ip) == Later(TimesOf(history, ip), now - WINDOW)
      modifies `perIp, `global, `history
      ensures Valid() && history == old(history) + [Failure(ip, now)]
    {
      RecentAppend(Times(history), now);
      TimesAppend(history, Failure(ip, now), ip);
      AppendTracks(perIp, history, Failure(ip, now));
      perIp := perIp[ip := (if ip in perIp then perIp[ip] else []) + [now]];
      global := global + [now];
      history := history + [Failure(ip, now)];
    }
  }

  /** No shorter wait lifts the bound; this one does whenever no more than the bound are held now. */
  ghost predicate LeastRetry(times: seq<int>, now: int, wait: int, bound: nat) {
    && wait > 0
    && (forall at | now <= at < now + wait :: Held(times, WINDOW, at) >= bound)
    && (Held(times, WINDOW, now) == bound ==> Held(times, WINDOW, now + wait) < bound)
  }

  lemma {:induction false} WaitIsLeast(times: seq<int>, now: int, bound: nat)
    requires bound > 0 && Held(times, WINDOW, now) >= bound
    ensures LeastRetry(times, now, Least(Later(times, now - WINDOW)) + WINDOW - now, bound)
  {
    var kept := Later(times, now - WINDOW);
    forall t | t in kept ensures now - WINDOW < t { FilterMember(times, (x: int) => x > now - WINDOW, t); }
    LeastWait(kept, now, WINDOW, bound);
    var wait := Least(kept) + WINDOW - now;
    forall at | now <= at <= now + wait ensures Held(kept, WINDOW, at) == Held(times, WINDOW, at) {
      LaterTwice(times, now - WINDOW, at - WINDOW);
    }
  }
}
