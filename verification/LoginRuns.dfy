/** What the login limits promise over every run, however many attempts overlap.

An attempt asks, and if it is allowed its password is checked without any lock; only then does it fail, which is
recorded, or end otherwise. Steps of different attempts interleave freely. */
module LoginRuns {
  import opened SlidingWindow
  import opened LoginLimiter

  datatype Event =
    | Ask(ip: string, at: int)
    | Fail(ip: string, at: int)
    | Leave(ip: string)

  /** The failures recorded, and the allowed attempts that have not ended, by client. */
  datatype Desk = Desk(history: seq<Failure>, open: multiset<string>)

  const START := Desk([], multiset{})

  function Step(d: Desk, e: Event): Desk {
    match e
    case Ask(ip, at) => if Allowed(d.history, ip, at) then d.(open := d.open + multiset{ip}) else d
    case Fail(ip, at) => Desk(d.history + [Failure(ip, at)], d.open - multiset{ip})
    case Leave(ip) => d.(open := d.open - multiset{ip})
  }

  function Run(events: seq<Event>): Desk {
    if events == [] then START else Step(Run(events[..|events| - 1]), events[|events| - 1])
  }

  /** Only an allowed attempt fails or leaves, once, and the clock does not go back nor pass `now`. */
  ghost predicate Possible(events: seq<Event>, now: int) {
    events == [] ||
    var p := events[..|events| - 1];
    match events[|events| - 1]
    case Ask(_, at) => at <= now && Possible(p, at)
    case Fail(ip, at) => at <= now && Possible(p, at) && ip in Run(p).open
    case Leave(ip) => Possible(p, now) && ip in Run(p).open
  }

  /** Everyone's limit, or one client's. */
  datatype Scope = Overall | Client(ip: string)

  function Limit(sc: Scope): nat {
    match sc
    case Overall => GLOBAL_MAX
    case Client(_) => PER_IP_MAX
  }

  function TimesIn(history: seq<Failure>, sc: Scope): seq<int> {
    match sc
    case Overall => Times(history)
    case Client(ip) => TimesOf(history, ip)
  }

  function OpenIn(open: multiset<string>, sc: Scope): nat {
    match sc
    case Overall => |open|
    case Client(ip) => open[ip]
  }

  predicate Within(sc: Scope, ip: string) {
    sc.Overall? || sc.ip == ip
  }

  /** Every failure, when it was recorded, found fewer than the limit held. */
  ghost predicate EachFoundRoom(events: seq<Event>, sc: Scope) {
    events == [] ||
    var p, e := events[..|events| - 1], events[|events| - 1];
    EachFoundRoom(p, sc) && (e.Fail? && Within(sc, e.ip) ==> Held(TimesIn(Run(p).history, sc), WINDOW, e.at) < Limit(sc))
  }

  /** At no time were more than m allowed attempts under way. */
  ghost predicate AtMost(events: seq<Event>, sc: Scope, m: nat) {
    OpenIn(Run(events).open, sc) <= m && (events == [] || AtMost(events[..|events| - 1], sc, m))
  }

  lemma FailAppends(history: seq<Failure>, ip: string, at: int, sc: Scope)
    ensures TimesIn(history + [Failure(ip, at)], sc)
         == if Within(sc, ip) then TimesIn(history, sc) + [at] else TimesIn(history, sc)
  {
    TimesAppend(history, Failure(ip, at), if sc.Client? then sc.ip else ip);
  }

  lemma {:induction false} NoFailureAfter(events: seq<Event>, sc: Scope, now: int)
    requires Possible(events, now)
    ensures NoneAfter(TimesIn(Run(events).history, sc), now)
  {
    if events != [] {
      var p := events[..|events| - 1];
      match events[|events| - 1]
      case Ask(_, at) => NoFailureAfter(p, sc, at);
      case Fail(ip, at) =>
        NoFailureAfter(p, sc, at);
        FailAppends(Run(p).history, ip, at, sc);
      case Leave(_) => NoFailureAfter(p, sc, now);
    }
  }

  /** The limit holds in every window if and only if every recorded failure found fewer than the limit held:
      being allowed earlier does not count. */
  lemma {:induction false} LimitHoldsIff(events: seq<Event>, sc: Scope, now: int)
    requires Possible(events, now)
    ensures Bounded(TimesIn(Run(events).history, sc), WINDOW, Limit(sc)) <==> EachFoundRoom(events, sc)
  {
    if events != [] {
      var p := events[..|events| - 1];
      match events[|events| - 1]
      case Ask(_, at) => LimitHoldsIff(p, sc, at);
      case Fail(ip, at) =>
        LimitHoldsIff(p, sc, at);
        NoFailureAfter(p, sc, at);
        FailAppends(Run(p).history, ip, at, sc);
        if Within(sc, ip) { OneMoreHoldsIff(TimesIn(Run(p).history, sc), at, WINDOW, Limit(sc)); }
      case Leave(_) => LimitHoldsIff(p, sc, now);
    }
  }

  // ----- how far overlapping attempts can exceed the limit -----

  lemma {:induction false} HeldLater(times: seq<int>, at: int, now: int)
    requires at <= now
    ensures Held(times, WINDOW, now) <= Held(times, WINDOW, at)
    ensures Held(times + [at], WINDOW, now) <= Held(times, WINDOW, at) + 1
  {
    LaterAppend(times, at, now - WINDOW);
    LaterShrinks(times, at - WINDOW, now - WINDOW);
  }

  lemma OpenAdds(open: multiset<string>, ip: string, sc: Scope)
    ensures OpenIn(open + multiset{ip}, sc) == OpenIn(open, sc) + if Within(sc, ip) then 1 else 0
    ensures ip in open ==> OpenIn(open - multiset{ip}, sc) == OpenIn(open, sc) - if Within(sc, ip) then 1 else 0
  {
  }

  /** What is held and what is still under way together stay below the limit plus the overlap. */
  ghost predicate Headroom(d: Desk, sc: Scope, m: nat, now: int) {
    Held(TimesIn(d.history, sc), WINDOW, now) + OpenIn(d.open, sc) < Limit(sc) + m
  }

  lemma {:induction false} AskLeavesHeadroom(d: Desk, ip: string, at: int, sc: Scope, m: nat)
    requires Headroom(d, sc, m, at) && OpenIn(Step(d, Ask(ip, at)).open, sc) <= m
    ensures Headroom(Step(d, Ask(ip, at)), sc, m, at)
  {
    OpenAdds(d.open, ip, sc);
  }

  lemma {:induction false} FailLeavesHeadroom(d: Desk, ip: string, at: int, sc: Scope, m: nat)
    requires Headroom(d, sc, m, at) && ip in d.open
    ensures Headroom(Step(d, Fail(ip, at)), sc, m, at)
  {
    OpenAdds(d.open, ip, sc);
    FailAppends(d.history, ip, at, sc);
    HeldLater(TimesIn(d.history, sc), at, at);
  }

  lemma {:induction false} HeldAndOpen(events: seq<Event>, sc: Scope, m: nat, now: int)
    requires m >= 1 && Possible(events, now) && AtMost(events, sc, m)
    ensures Headroom(Run(events), sc, m, now)
  {
    if events != [] {
      var p := events[..|events| - 1];
      match events[|events| - 1]
      case Ask(ip, at) =>
        HeldAndOpen(p, sc, m, at);
        AskLeavesHeadroom(Run(p), ip, at, sc, m);
        HeldLater(TimesIn(Run(events).history, sc), at, now);
      case Fail(ip, at) =>
        HeldAndOpen(p, sc, m, at);
        FailLeavesHeadroom(Run(p), ip, at, sc, m);
        HeldLater(TimesIn(Run(events).history, sc), at, now);
      case Leave(ip) =>
        HeldAndOpen(p, sc, m, now);
        OpenAdds(Run(p).open, ip, sc);
    }
  }

  /** With at most m allowed attempts under way at once, every five minutes hold at most m - 1 failures more than
      the limit, for every client and overall. */
  lemma {:induction false} OverlapExceedsByLessThan(events: seq<Event>, sc: Scope, m: nat, now: int)
    requires m >= 1 && Possible(events, now) && AtMost(events, sc, m)
    ensures Bounded(TimesIn(Run(events).history, sc), WINDOW, Limit(sc) + m - 1)
  {
    if events != [] {
      var p := events[..|events| - 1];
      match events[|events| - 1]
      case Ask(_, at) => OverlapExceedsByLessThan(p, sc, m, at);
      case Fail(ip, at) =>
        OverlapExceedsByLessThan(p, sc, m, at);
        HeldAndOpen(p, sc, m, at);
        NoFailureAfter(p, sc, at);
        FailAppends(Run(p).history, ip, at, sc);
        OpenAdds(Run(p).open, ip, sc);
        if Within(sc, ip) { OneMoreHoldsIff(TimesIn(Run(p).history, sc), at, WINDOW, Limit(sc) + m - 1); }
      case Leave(_) => OverlapExceedsByLessThan(p, sc, m, now);
    }
  }

  /** One attempt at a time: every five minutes hold at most thirty failures, and at most five of a client that
      has at most one attempt under way; and no more are ever held, so that the wait a blocked attempt is told
      is the least that lifts the bound. */
  lemma {:induction false} OneAtATimeKeepsTheLimit(events: seq<Event>, sc: Scope, now: int)
    requires Possible(events, now) && AtMost(events, sc, 1)
    ensures Bounded(TimesIn(Run(events).history, sc), WINDOW, Limit(sc))
    ensures Held(TimesIn(Run(events).history, sc), WINDOW, now) <= Limit(sc)
  {
    OverlapExceedsByLessThan(events, sc, 1, now);
    HeldAndOpen(events, sc, 1, now);
  }

  // ----- counted in the events themselves -----

  /** How many failures, everyone's or one client's, the events hold after lo and not after hi. */
  function FailuresIn(events: seq<Event>, sc: Scope, lo: int, hi: int): nat {
    if events == [] then 0
    else
      var e := events[|events| - 1];
      FailuresIn(events[..|events| - 1], sc, lo, hi)
      + if e.Fail? && (sc == Overall || sc == Client(e.ip)) && lo < e.at <= hi then 1 else 0
  }

  lemma FailCounts(history: seq<Failure>, ip: string, at: int, sc: Scope, lo: int, hi: int)
    ensures CountIn(TimesIn(history + [Failure(ip, at)], sc), lo, hi)
         == CountIn(TimesIn(history, sc), lo, hi) + if (sc == Overall || sc == Client(ip)) && lo < at <= hi then 1 else 0
  {
    FailAppends(history, ip, at, sc);
    CountAppend(TimesIn(history, sc), at, lo, hi);
  }

  lemma {:induction false} FailuresAreCounted(events: seq<Event>, sc: Scope, lo: int, hi: int)
    ensures CountIn(TimesIn(Run(events).history, sc), lo, hi) == FailuresIn(events, sc, lo, hi)
  {
    if events == [] {
      assert TimesIn([], sc) == [];
    } else {
      var d, e := Run(events[..|events| - 1]), events[|events| - 1];
      FailuresAreCounted(events[..|events| - 1], sc, lo, hi);
      assert Run(events) == Step(d, e);
      if e.Fail? {
        FailCounts(d.history, e.ip, e.at, sc, lo, hi);
      } else {
        assert Step(d, e).history == d.history;
      }
    }
  }

  lemma CountAppend(times: seq<int>, t: int, lo: int, hi: int)
    ensures CountIn(times + [t], lo, hi) == CountIn(times, lo, hi) + if lo < t <= hi then 1 else 0
  {
    assert (times + [t])[..|times|] == times;
  }

  lemma AskOpens(events: seq<Event>, ip: string, now: int)
    ensures ip in Run(events + [Ask(ip, now)]).open - Run(events).open <==> Allowed(Run(events).history, ip, now)
  {
    assert (events + [Ask(ip, now)])[..|events|] == events;
  }

  lemma {:induction false} HeldAreFailures(events: seq<Event>, sc: Scope, now: int)
    requires Possible(events, now)
    ensures Held(TimesIn(Run(events).history, sc), WINDOW, now) == FailuresIn(events, sc, now - WINDOW, now)
  {
    NoFailureAfter(events, sc, now);
    LaterIsCount(TimesIn(Run(events).history, sc), now - WINDOW, now);
    FailuresAreCounted(events, sc, now - WINDOW, now);
  }

  /** After any run: an attempt is allowed if and only if in the five minutes before it there were fewer than thirty
      failures, and fewer than five of its client. */
  lemma {:induction false} AllowedIff(events: seq<Event>, ip: string, now: int)
    requires Possible(events, now)
    ensures ip in Run(events + [Ask(ip, now)]).open - Run(events).open
            <==> FailuresIn(events, Overall, now - 300_000_000_000, now) < 30
                 && FailuresIn(events, Client(ip), now - 300_000_000_000, now) < 5
  {
    AskOpens(events, ip, now);
    HeldAreFailures(events, Overall, now);
    HeldAreFailures(events, Client(ip), now);
  }

  /** With at most m attempts under way at once, any five minutes see fewer than thirty failures and m more, and
      fewer than five and m more of a client with at most m under way. */
  lemma {:induction false} FewFailures(events: seq<Event>, sc: Scope, m: nat, now: int, end: int)
    requires m >= 1 && Possible(events, now) && AtMost(events, sc, m)
    ensures FailuresIn(events, sc, end - 300_000_000_000, end) < (if sc.Overall? then 30 else 5) + m
  {
    OverlapExceedsByLessThan(events, sc, m, now);
    assert InWindow(TimesIn(Run(events).history, sc), WINDOW, end) <= Limit(sc) + m - 1;
    FailuresAreCounted(events, sc, end - WINDOW, end);
  }

  // ----- a run that exceeds it by that much -----

  /** The client of the k-th attempt: always the same, or always another one. */
  function Who(sc: Scope, k: nat): string {
    match sc
    case Client(ip) => ip
    case Overall => Name(k)
  }

  function Name(k: nat): (name: string)
    ensures |name| == k
  {
    if k == 0 then "" else Name(k - 1) + "x"
  }

  function Failed(sc: Scope, at: int, n: nat): seq<Failure> {
    if n == 0 then [] else Failed(sc, at, n - 1) + [Failure(Who(sc, n - 1), at)]
  }

  function Waiting(sc: Scope, lo: nat, hi: nat): multiset<string>
    decreases hi
  {
    if hi <= lo then multiset{} else Waiting(sc, lo, hi - 1) + multiset{Who(sc, hi - 1)}
  }

  /** A possible run at one instant, with at most m attempts under way, that comes to this. */
  ghost predicate Comes(events: seq<Event>, at: int, sc: Scope, m: nat, history: seq<Failure>, open: multiset<string>) {
    Possible(events, at) && AtMost(events, sc, m) && Run(events).history == history && Run(events).open == open
  }

  lemma {:induction false} Extend(events: seq<Event>, e: Event, at: int, sc: Scope, m: nat, next: Desk) returns (more: seq<Event>)
    requires Possible(events, at) && AtMost(events, sc, m)
    requires !e.Leave? && e.at == at && (e.Fail? ==> e.ip in Run(events).open)
    requires next == Step(Run(events), e) && OpenIn(next.open, sc) <= m
    ensures Comes(more, at, sc, m, next.history, next.open)
  {
    more := events + [e];
    assert more[..|events|] == events;
  }

  lemma {:induction false} FailedTimes(sc: Scope, at: int, n: nat)
    ensures |Times(Failed(sc, at, n))| == n && (forall t | t in Times(Failed(sc, at, n)) :: t == at)
    decreases n
  {
    if n > 0 {
      FailedTimes(sc, at, n - 1);
      TimesAppend(Failed(sc, at, n - 1), Failure(Who(sc, n - 1), at), "");
    }
  }

  lemma {:induction false} FailedTimesOf(sc: Scope, at: int, n: nat, ip: string)
    requires sc == Client(ip) || (sc.Overall? && |ip| >= n)
    ensures |TimesOf(Failed(sc, at, n), ip)| == if sc.Client? then n else 0
    ensures forall t | t in TimesOf(Failed(sc, at, n), ip) :: t == at
    decreases n
  {
    if n > 0 {
      FailedTimesOf(sc, at, n - 1, ip);
      TimesAppend(Failed(sc, at, n - 1), Failure(Who(sc, n - 1), at), ip);
    }
  }

  lemma {:induction false} AllHeld(times: seq<int>, at: int)
    requires forall t | t in times :: t == at
    ensures Held(times, WINDOW, at) == |times| == InWindow(times, WINDOW, at)
  {
    LaterAll(times, at - WINDOW);
    LaterIsCount(times, at - WINDOW, at);
  }

  /** While fewer than the limit have failed, whoever asks next is allowed. */
  lemma {:induction false} NextIsAllowed(sc: Scope, at: int, n: nat, k: nat)
    requires n < Limit(sc) && n <= k
    ensures Allowed(Failed(sc, at, n), Who(sc, k), at)
  {
    FailedTimes(sc, at, n);
    FailedTimesOf(sc, at, n, Who(sc, k));
    AllHeld(Times(Failed(sc, at, n)), at);
    AllHeld(TimesOf(Failed(sc, at, n), Who(sc, k)), at);
  }

  /** n attempts one after the other, all failing. */
  lemma {:induction false} OneByOne(sc: Scope, at: int, n: nat, m: nat) returns (events: seq<Event>)
    requires n < Limit(sc) && m >= 1
    ensures Comes(events, at, sc, m, Failed(sc, at, n), multiset{})
    decreases n
  {
    if n == 0 {
      events := [];
    } else {
      events := OneByOne(sc, at, n - 1, m);
      events := TryOne(events, sc, at, n - 1, m);
    }
  }

  lemma {:induction false} AskOne(
      events: seq<Event>, sc: Scope, at: int, n: nat, k: nat, open: multiset<string>, m: nat) returns (more: seq<Event>)
    requires n < Limit(sc) && n <= k && OpenIn(open, sc) < m
    requires Comes(events, at, sc, m, Failed(sc, at, n), open)
    ensures Comes(more, at, sc, m, Failed(sc, at, n), open + multiset{Who(sc, k)})
  {
    var ip := Who(sc, k);
    NextIsAllowed(sc, at, n, k);
    OpenAdds(open, ip, sc);
    more := Extend(events, Ask(ip, at), at, sc, m, Desk(Run(events).history, open + multiset{ip}));
  }

  lemma {:induction false} TryOne(events: seq<Event>, sc: Scope, at: int, n: nat, m: nat) returns (more: seq<Event>)
    requires n < Limit(sc) && m >= 1 && Comes(events, at, sc, m, Failed(sc, at, n), multiset{})
    ensures Comes(more, at, sc, m, Failed(sc, at, n + 1), multiset{})
  {
    var ip := Who(sc, n);
    more := AskOne(events, sc, at, n, n, multiset{}, m);
    assert Run(more).open == multiset{ip} && Run(more).history == Failed(sc, at, n);
    more := Extend(more, Fail(ip, at), at, sc, m, Desk(Failed(sc, at, n) + [Failure(ip, at)], multiset{}));
  }

  lemma {:induction false} WaitingCounts(sc: Scope, lo: nat, hi: nat)
    requires lo <= hi
    ensures OpenIn(Waiting(sc, lo, hi), sc) == hi - lo
    decreases hi
  {
    if lo < hi { WaitingCounts(sc, lo, hi - 1); }
  }

  /** Then k attempts ask before any of them fails. */
  lemma {:induction false} AllAsk(sc: Scope, at: int, k: nat, m: nat) returns (events: seq<Event>)
    requires k <= m && 1 <= m
    ensures Comes(events, at, sc, m, Failed(sc, at, Limit(sc) - 1), Waiting(sc, Limit(sc) - 1, Limit(sc) - 1 + k))
    decreases k
  {
    var n := Limit(sc) - 1;
    if k == 0 {
      events := OneByOne(sc, at, n, m);
    } else {
      events := AllAsk(sc, at, k - 1, m);
      WaitingCounts(sc, n, n + k - 1);
      events := AskOne(events, sc, at, n, n + k - 1, Waiting(sc, n, n + k - 1), m);
    }
  }

  /** Every failure counted in the scope happened at this instant, and there are n of them. */
  ghost predicate AllAt(times: seq<int>, at: int, n: nat) {
    |times| == n && forall t | t in times :: t == at
  }

  lemma {:induction false} StartAllAt(sc: Scope, at: int, n: nat)
    ensures AllAt(TimesIn(Failed(sc, at, n), sc), at, n)
  {
    FailedTimes(sc, at, n);
    if sc.Client? { FailedTimesOf(sc, at, n, sc.ip); }
  }

  /** A possible run with at most m under way, these of them still, after n failures, all at this instant. */
  ghost predicate Reaches(events: seq<Event>, at: int, sc: Scope, m: nat, open: multiset<string>, n: nat) {
    && Possible(events, at) && AtMost(events, sc, m)
    && Run(events).open == open && AllAt(TimesIn(Run(events).history, sc), at, n)
  }

  lemma {:induction false} FailLast(events: seq<Event>, sc: Scope, at: int, m: nat, ip: string, rest: multiset<string>, n: nat)
      returns (more: seq<Event>)
    requires Reaches(events, at, sc, m, rest + multiset{ip}, n) && Within(sc, ip) && OpenIn(rest, sc) <= m
    ensures Reaches(more, at, sc, m, rest, n + 1)
  {
    assert rest + multiset{ip} - multiset{ip} == rest;
    FailAppends(Run(events).history, ip, at, sc);
    more := Extend(events, Fail(ip, at), at, sc, m, Desk(Run(events).history + [Failure(ip, at)], rest));
  }

  lemma {:induction false} AllUnderWay(sc: Scope, at: int, m: nat) returns (events: seq<Event>)
    requires 1 <= m
    ensures Reaches(events, at, sc, m, Waiting(sc, Limit(sc) - 1, Limit(sc) - 1 + m), Limit(sc) - 1)
  {
    events := AllAsk(sc, at, m, m);
    StartAllAt(sc, at, Limit(sc) - 1);
  }

  lemma {:induction false} OneFails(events: seq<Event>, sc: Scope, at: int, m: nat, n: nat, left: nat, failed: nat)
      returns (more: seq<Event>)
    requires Reaches(events, at, sc, m, Waiting(sc, n, n + left + 1), failed) && left <= m
    ensures Reaches(more, at, sc, m, Waiting(sc, n, n + left), failed + 1)
  {
    WaitingCounts(sc, n, n + left);
    more := FailLast(events, sc, at, m, Who(sc, n + left), Waiting(sc, n, n + left), failed);
  }

  /** Then they fail, the last to ask first, until `left` are under way. */
  lemma {:induction false} AllFail(sc: Scope, at: int, m: nat, n: nat, left: nat) returns (events: seq<Event>)
    requires 1 <= m && left <= m && n == Limit(sc) - 1
    ensures Reaches(events, at, sc, m, Waiting(sc, n, n + left), n + m - left)
    decreases m - left
  {
    if left == m {
      events := AllUnderWay(sc, at, m);
    } else {
      events := AllFail(sc, at, m, n, left + 1);
      events := OneFails(events, sc, at, m, n, left, n + m - left - 1);
    }
  }

  /** And so many are reached, for every overlap: with m attempts of one client, or of m clients, under way
      at once, some run puts exactly m - 1 failures more than the limit into five minutes. */
  lemma {:induction false} OverlapReachesThat(sc: Scope, at: int, m: nat)
    requires m >= 1
    ensures exists events :: Possible(events, at) && AtMost(events, sc, m)
                          && InWindow(TimesIn(Run(events).history, sc), WINDOW, at) == Limit(sc) + m - 1
  {
    var events := AllFail(sc, at, m, Limit(sc) - 1, 0);
    AllHeld(TimesIn(Run(events).history, sc), at);
  }
}
