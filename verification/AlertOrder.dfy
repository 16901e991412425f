/** Arrival, preemption and pausing: what does not depend on input order, and what cannot happen. */
module AlertOrder {
  import opened Common
  import opened Sorting
  import opened AlertModel
  import opened AlertScreen
  import opened AlertSpec

  lemma {:induction false} LexIrreflexive(a: string)
    ensures !LexLess(a, a)
  {
    if a != "" { LexIrreflexive(a[1..]); }
  }

  lemma {:induction false} LexTransitive(a: string, b: string, c: string)
    requires LexLess(a, b) && LexLess(b, c)
    ensures LexLess(a, c)
  {
    if a != "" && a[0] == b[0] && b[0] == c[0] { LexTransitive(a[1..], b[1..], c[1..]); }
  }

  lemma {:induction false} LexTotal(a: string, b: string)
    ensures a == b || LexLess(a, b) || LexLess(b, a)
  {
    if a != "" && b != "" && a[0] == b[0] {
      LexTotal(a[1..], b[1..]);
      assert a == [a[0]] + a[1..] && b == [b[0]] + b[1..];
    }
  }

  /** Each rule contributes at most one candidate. */
  ghost predicate OnePerRule(candidates: multiset<Instance>) {
    forall x, y {:trigger x.ruleId, y.ruleId} | x in candidates && y in candidates && x.ruleId == y.ruleId :: x == y
  }

  lemma {:induction false} HandlingIsStrict(candidates: multiset<Instance>)
    requires OnePerRule(candidates)
    ensures StrictOrder(candidates, HandledBefore)
  {
    forall x | x in candidates ensures !HandledBefore(x, x) { LexIrreflexive(x.ruleId); }
    forall x, y, z | x in candidates && y in candidates && z in candidates && HandledBefore(x, y) && HandledBefore(y, z)
      ensures HandledBefore(x, z)
    {
      if LexLess(x.ruleId, y.ruleId) && LexLess(y.ruleId, z.ruleId) { LexTransitive(x.ruleId, y.ruleId, z.ruleId); }
    }
    forall x, y | x in candidates && y in candidates && x != y ensures HandledBefore(x, y) || HandledBefore(y, x) {
      LexTotal(x.ruleId, y.ruleId);
    }
  }

  /** The state reached does not depend on the order in which the matched candidates were listed. */
  lemma {:induction false} MatchOrderIsIrrelevant(s: Runtime, a: seq<Instance>, b: seq<Instance>, now: int, ids: IdSupply)
    requires multiset(a) == multiset(b) && OnePerRule(multiset(a))
    ensures Matched(s, a, now, ids) == Matched(s, b, now, ids)
  {
    HandlingIsStrict(multiset(a));
    SortIgnoresInputOrder(a, b, HandledBefore);
  }

  // ----- preemption -----

  /** The first candidate in the list that could preempt the current alert. */
  function FirstPreemptor(s: Runtime, list: seq<Instance>): Option<Instance> {
    if list == [] then None
    else if CanPreempt(s, list[0]) then Some(list[0])
    else FirstPreemptor(s, list[1..])
  }

  /** What preemption by c looks like: c is on screen under some id, the old alert can be replayed. */
  ghost predicate PreemptedBy(s: Runtime, after: Runtime, c: Instance) {
    && after.tally.preempted == s.tally.preempted + 1 && after.lastCompleted == s.screen.current
    && exists id :: after.screen.current == Some(WithId(c, id))
  }

  lemma {:induction false} NoFurtherPreemption(s: Runtime, list: seq<Instance>, now: int, ids: IdSupply)
    ensures var r := ArriveAll(s, list, now, ids, false);
            r.screen == s.screen && r.tally.preempted == s.tally.preempted && r.lastCompleted == s.lastCompleted
    decreases |list|
  {
    if list != [] {
      NoFurtherPreemption(Arrive(s, list[0], now, ids, false), list[1..], now, ids);
    }
  }

  lemma {:induction false} SameScreenSamePreemptor(s: Runtime, t: Runtime, list: seq<Instance>)
    requires s.screen == t.screen
    ensures FirstPreemptor(s, list) == FirstPreemptor(t, list)
  {
    if list != [] { SameScreenSamePreemptor(s, t, list[1..]); }
  }

  lemma {:induction false} ArriveAllPreemptsFirst(s: Runtime, list: seq<Instance>, now: int, ids: IdSupply)
    ensures var r, p := ArriveAll(s, list, now, ids, true), FirstPreemptor(s, list);
            && (p.None? ==> r.screen == s.screen && r.tally.preempted == s.tally.preempted)
            && (p.Some? ==> PreemptedBy(s, r, p.value))
    decreases |list|
  {
    if list != [] {
      var next := Arrive(s, list[0], now, ids, true);
      if CanPreempt(s, list[0]) {
        NoFurtherPreemption(next, list[1..], now, ids);
        assert next.screen.current == Some(WithId(list[0], ids(s.idCalls)));
      } else {
        SameScreenSamePreemptor(s, next, list[1..]);
        ArriveAllPreemptsFirst(next, list[1..], now, ids);
      }
    }
  }

  lemma {:induction false} FirstPreemptorIsFirst(s: Runtime, list: seq<Instance>, all: multiset<Instance>, x: Instance)
    requires StrictOrder(all, HandledBefore) && Within(list, all) && Ascending(list, HandledBefore)
    requires x in list && CanPreempt(s, x)
    ensures var p := FirstPreemptor(s, list); p.Some? && p.value in list && CanPreempt(s, p.value) && !HandledBefore(x, p.value)
  {
    if CanPreempt(s, list[0]) {
      HeadIsLeast(list, HandledBefore, x, all);
    } else {
      assert x in list[1..];
      AscendingTail(list, HandledBefore);
      FirstPreemptorIsFirst(s, list[1..], all, x);
    }
  }

  lemma {:induction false} AscendingTail<T>(s: seq<T>, before: (T, T) -> bool)
    requires s != [] && Ascending(s, before)
    ensures Ascending(s[1..], before)
  {
    var n := |s| - 1;
    if n > 1 {
      AscendingTail(s[..n], before);
      assert s[1..][..n - 1] == s[..n][1..];
    }
  }

  lemma {:induction false} HeadIsLeast<T>(s: seq<T>, before: (T, T) -> bool, x: T, all: multiset<T>)
    requires StrictOrder(all, before) && Within(s, all) && Ascending(s, before) && x in s
    ensures !before(x, s[0])
  {
    var n := |s| - 1;
    assert s[0] in all && !before(s[0], s[0]);
    if x == s[n] {
      if n > 0 {
        HeadIsLeast(s[..n], before, s[n - 1], all);
      }
    } else {
      assert x in s[..n];
      HeadIsLeast(s[..n], before, x, all);
    }
  }

  /** A turn preempts iff some candidate could preempt the alert on screen, and then exactly once, by the
      candidate that is first by priority and rule id among those that could. */
  lemma {:induction false} OnePreemptionByTheFirst(s: Runtime, candidates: seq<Instance>, now: int, ids: IdSupply)
    requires s.enabled && OnePerRule(multiset(candidates))
    ensures var r := Matched(s, candidates, now, ids);
            if exists x :: x in candidates && CanPreempt(s, x)
            then exists c :: c in candidates && CanPreempt(s, c) && PreemptedBy(s, r, c)
                             && forall x | x in candidates && CanPreempt(s, x) && x != c :: HandledBefore(c, x)
            else r.screen == s.screen && r.tally.preempted == s.tally.preempted
  {
    var all, list := multiset(candidates), Sort(candidates, HandledBefore);
    HandlingIsStrict(all);
    assert Within(candidates, all);
    SortAscends(candidates, HandledBefore, all);
    forall x | x in list ensures x in all { SameElements(candidates, HandledBefore, x); }
    ArriveAllPreemptsFirst(s, list, now, ids);
    var p := FirstPreemptor(s, list);
    if x :| x in candidates && CanPreempt(s, x) {
      SameElements(candidates, HandledBefore, x);
      FirstPreemptorIsFirst(s, list, all, x);
      var c := p.value;
      SameElements(candidates, HandledBefore, c);
      forall y | y in candidates && CanPreempt(s, y) && y != c ensures HandledBefore(c, y) {
        SameElements(candidates, HandledBefore, y);
        FirstPreemptorIsFirst(s, list, all, y);
        assert c in all && y in all;
      }
      assert c in candidates && CanPreempt(s, c) && PreemptedBy(s, Matched(s, candidates, now, ids), c);
    } else {
      PreemptorCanPreempt(s, list);
      if p.Some? { SameElements(candidates, HandledBefore, p.value); }
    }
  }

  lemma {:induction false} PreemptorCanPreempt(s: Runtime, list: seq<Instance>)
    ensures FirstPreemptor(s, list).Some? ==> FirstPreemptor(s, list).value in list && CanPreempt(s, FirstPreemptor(s, list).value)
  {
    if list != [] { PreemptorCanPreempt(s, list[1..]); }
  }

  // ----- pausing -----

  /** While paused, no operation puts a new alert on screen, nor announces one. */
  lemma {:induction false} PausedShowsNothingNew(s: Runtime, a: Action, ids: IdSupply)
    requires s.screen.paused
    ensures Step(s, a, ids).screen.current.None? || Step(s, a, ids).screen.current == s.screen.current
    ensures Shows(Step(s, a, ids).screen.log) == Shows(s.screen.log)
  {
    match a
    case DoMatched(candidates, now) => PausedArrivals(s, Sort(candidates, HandledBefore), now, ids, true);
    case _ =>
  }

  lemma {:induction false} PausedArrivals(s: Runtime, list: seq<Instance>, now: int, ids: IdSupply, mayPreempt: bool)
    requires s.screen.paused
    ensures ArriveAll(s, list, now, ids, mayPreempt).screen == s.screen
    decreases |list|
  {
    if list != [] {
      PausedArrivals(Arrive(s, list[0], now, ids, mayPreempt), list[1..], now, ids, mayPreempt && !CanPreempt(s, list[0]));
    }
  }
}
