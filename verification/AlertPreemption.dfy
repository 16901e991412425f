/** Which alert may take the screen from another, in the fields of the two: over every arrival, both ways. */
module AlertPreemption {
  import opened Common
  import opened Sorting
  import opened AlertModel
  import opened AlertSpec
  import opened AlertOrder

  /** Strictly more important, both willing, no replay, and nothing synthetic over something live. */
  predicate Overrules(shown: Instance, c: Instance) {
    && c.priority > shown.priority && c.interruptsLower && shown.interruptible
    && !c.replayed && !(c.synthetic && !shown.synthetic)
  }

  /** The alerts an operation brings. */
  function Arriving(s: Runtime, a: Action): seq<Instance> {
    match a
    case DoMatched(candidates, _) => if s.enabled then candidates else []
    case DoTest(inst, _) => [inst]
    case _ => []
  }

  /** Something is shown, the queue is not paused, and one of the arriving alerts overrules what is shown. */
  ghost predicate SomeTakes(s: Runtime, a: Action) {
    s.screen.current.Some? && !s.screen.paused && exists c :: c in Arriving(s, a) && Overrules(s.screen.current.value, c)
  }

  lemma PreemptsIff(s: Runtime, c: Instance)
    ensures CanPreempt(s, c) <==> s.screen.current.Some? && !s.screen.paused && Overrules(s.screen.current.value, c)
  {
  }

  /** Byte-wise order: the first difference decides, or the shorter one comes first. */
  lemma {:induction false} LexLessIff(a: string, b: string)
    ensures LexLess(a, b) <==>
            exists n: nat :: n <= |a| && n < |b| && a[..n] == b[..n] && (n == |a| || a[n] < b[n])
  {
    if a != "" && b != "" && a[0] == b[0] {
      LexLessIff(a[1..], b[1..]);
      if LexLess(a[1..], b[1..]) {
        var n: nat :| n <= |a[1..]| && n < |b[1..]| && a[1..][..n] == b[1..][..n] && (n == |a[1..]| || a[1..][n] < b[1..][n]);
        assert a[..n + 1] == [a[0]] + a[1..][..n] && b[..n + 1] == [b[0]] + b[1..][..n];
        assert n + 1 <= |a| && n + 1 < |b| && a[..n + 1] == b[..n + 1] && (n + 1 == |a| || a[n + 1] < b[n + 1]);
      }
      if n: nat :| n <= |a| && n < |b| && a[..n] == b[..n] && (n == |a| || a[n] < b[n]) {
        assert n > 0;
        assert a[1..][..n - 1] == a[..n][1..] && b[1..][..n - 1] == b[..n][1..];
        assert n - 1 <= |a[1..]| && n - 1 < |b[1..]| && a[1..][..n - 1] == b[1..][..n - 1]
               && (n - 1 == |a[1..]| || a[1..][n - 1] < b[1..][n - 1]);
      }
    } else if LexLess(a, b) {
      assert a[..0] == b[..0];
    } else if a != "" && b != "" {
      forall n: nat | n <= |a| && n < |b| && a[..n] == b[..n] ensures n == 0 { SamePrefix(a, b, n); }
    }
  }

  lemma SamePrefix(a: string, b: string, n: nat)
    requires n <= |a| && n <= |b| && a[..n] == b[..n]
    ensures n > 0 ==> a[0] == b[0]
  {
    if n > 0 { assert a[..n][0] == b[..n][0]; }
  }

  /** What it looks like that c took the screen: c is shown, but for its id, and what was shown can be replayed. */
  ghost predicate TakenBy(s: Runtime, t: Runtime, c: Instance) {
    && t.screen.current.Some? && t.screen.current.value.(id := c.id) == c
    && t.lastCompleted == s.screen.current && t.tally.preempted == s.tally.preempted + 1
  }

  lemma {:induction false} MatchedTakes(s: Runtime, candidates: seq<Instance>, now: int, ids: IdSupply)
      returns (p: Option<Instance>)
    requires s.enabled
    ensures var t := Matched(s, candidates, now, ids);
            && (p.Some? ==> p.value in candidates && CanPreempt(s, p.value) && TakenBy(s, t, p.value))
            && (p.None? ==> t.screen == s.screen && forall c | c in candidates :: !CanPreempt(s, c))
  {
    var list := Sort(candidates, HandledBefore);
    p := FirstPreemptor(s, list);
    ArriveAllPreemptsFirst(s, list, now, ids);
    PreemptorCanPreempt(s, list);
    if p.Some? {
      SameElements(candidates, HandledBefore, p.value);
    } else {
      forall c | c in candidates ensures !CanPreempt(s, c) {
        SameElements(candidates, HandledBefore, c);
        NoneCanPreempt(s, list, c);
      }
    }
  }

  lemma {:induction false} NoneCanPreempt(s: Runtime, list: seq<Instance>, c: Instance)
    requires FirstPreemptor(s, list).None? && c in list
    ensures !CanPreempt(s, c)
  {
    if c != list[0] {
      assert c in list[1..];
      NoneCanPreempt(s, list[1..], c);
    }
  }

  lemma {:induction false} MatchedTakesIff(s: Runtime, candidates: seq<Instance>, now: int, ids: IdSupply, t: Runtime)
      returns (p: Option<Instance>)
    requires t == Matched(s, candidates, now, ids)
    ensures t.screen != s.screen <==> p.Some?
    ensures SomeTakes(s, DoMatched(candidates, now)) <==> p.Some?
    ensures p.Some? ==>
              p.value in candidates && s.enabled && Overrules(s.screen.current.value, p.value) && TakenBy(s, t, p.value)
  {
    p := None;
    if s.enabled {
      p := MatchedTakes(s, candidates, now, ids);
      forall c | c in candidates ensures CanPreempt(s, c)
          <==> s.screen.current.Some? && !s.screen.paused && Overrules(s.screen.current.value, c)
      {
        PreemptsIff(s, c);
      }
      if p.Some? { assert t.screen.current.value.priority == p.value.priority; }
    }
  }

  lemma {:induction false} PreemptTakes(s: Runtime, c: Instance, now: int, ids: IdSupply, t: Runtime)
    requires s.screen.current.Some? && c.priority > s.screen.current.value.priority
    requires t == Preempt(CountArrival(s), c, now, ids)
    ensures TakenBy(s, t, c) && t.screen.current.value.priority == c.priority
  {
    OnlyTheIdDiffers(c, ids(s.idCalls));
    assert t.screen.current == Some(WithId(c, ids(s.idCalls)));
  }

  lemma OnlyTheIdDiffers(c: Instance, id: Option<string>)
    ensures WithId(c, id).(id := c.id) == c && WithId(c, id).priority == c.priority
  {
  }

  lemma {:induction false} TestTakesIff(s: Runtime, inst: Instance, now: int, ids: IdSupply)
    ensures Test(s, inst, now, ids).screen != s.screen <==> SomeTakes(s, DoTest(inst, now))
    ensures SomeTakes(s, DoTest(inst, now)) ==>
              Overrules(s.screen.current.value, inst) && TakenBy(s, Test(s, inst, now, ids), inst)
  {
    var counted := CountArrival(s);
    PreemptsIff(counted, inst);
    assert forall c :: c in Arriving(s, DoTest(inst, now)) <==> c == inst;
    if CanPreempt(counted, inst) {
      PreemptTakes(s, inst, now, ids, Preempt(counted, inst, now, ids));
    } else {
      assert Enqueue(counted, inst, now, ids).screen == s.screen;
    }
  }

  /** Whatever arrives: the screen changes if and only if some arriving alert overrules what is shown; and then what
      is shown next is one of them, with strictly higher priority. */
  lemma {:induction false} ScreenIsTakenIff(s: Runtime, a: Action, ids: IdSupply)
    requires a.DoMatched? || a.DoTest?
    ensures Step(s, a, ids).screen != s.screen <==> SomeTakes(s, a)
    ensures SomeTakes(s, a) ==>
              exists c :: c in Arriving(s, a) && Overrules(s.screen.current.value, c) && TakenBy(s, Step(s, a, ids), c)
  {
    match a
    case DoMatched(candidates, now) =>
      var p := MatchedTakesIff(s, candidates, now, ids, Step(s, a, ids));
      if p.Some? { assert p.value in Arriving(s, a); }
    case DoTest(inst, now) =>
      TestTakesIff(s, inst, now, ids);
      assert inst in Arriving(s, a);
  }

  /** An alert replaced by an arrival allowed it, and was replaced by one of strictly higher priority that asked for it,
      is no replay, and is live if the replaced one was. */
  lemma {:induction false} ReplacedOnlyByHigher(s: Runtime, a: Action, ids: IdSupply)
    requires (a.DoMatched? || a.DoTest?) && Step(s, a, ids).screen.current != s.screen.current
    ensures var next := Step(s, a, ids).screen.current;
            && s.screen.current.Some? && next.Some? && !s.screen.paused
            && var shown, c := s.screen.current.value, next.value;
               && c.priority > shown.priority && shown.interruptible && c.interruptsLower && !c.replayed
               && (c.synthetic ==> shown.synthetic)
  {
    ScreenIsTakenIff(s, a, ids);
  }

  lemma NotBothFirst(all: multiset<Instance>, c: Instance, d: Instance)
    requires StrictOrder(all, HandledBefore) && c in all && d in all
    ensures !(HandledBefore(c, d) && HandledBefore(d, c))
  {
    assert !HandledBefore(c, c);
  }

  lemma {:induction false} FirstWins(s: Runtime, candidates: seq<Instance>, t: Runtime, c: Instance)
    requires OnePerRule(multiset(candidates)) && c in candidates && CanPreempt(s, c)
    requires forall x | x in candidates && x != c && CanPreempt(s, x) :: HandledBefore(c, x)
    requires exists d :: d in candidates && CanPreempt(s, d) && PreemptedBy(s, t, d)
                         && forall x | x in candidates && CanPreempt(s, x) && x != d :: HandledBefore(d, x)
    ensures TakenBy(s, t, c)
  {
    var d :| d in candidates && CanPreempt(s, d) && PreemptedBy(s, t, d)
             && forall x | x in candidates && CanPreempt(s, x) && x != d :: HandledBefore(d, x);
    if d != c {
      HandlingIsStrict(multiset(candidates));
      NotBothFirst(multiset(candidates), c, d);
    }
  }

  /** Among arriving alerts that overrule what is shown, it is the one of highest priority, and of least rule id among
      equals, that takes the screen. */
  lemma {:induction false} TheFirstThatMayTakesIt(s: Runtime, candidates: seq<Instance>, now: int, ids: IdSupply, c: Instance)
    requires s.enabled && !s.screen.paused && s.screen.current.Some? && OnePerRule(multiset(candidates))
    requires c in candidates && Overrules(s.screen.current.value, c)
    requires forall x | x in candidates && x != c && Overrules(s.screen.current.value, x) ::
               c.priority > x.priority || (c.priority == x.priority && LexLess(c.ruleId, x.ruleId))
    ensures TakenBy(s, Step(s, DoMatched(candidates, now), ids), c)
  {
    forall x | x in candidates ensures CanPreempt(s, x) <==> Overrules(s.screen.current.value, x) { PreemptsIff(s, x); }
    OnePreemptionByTheFirst(s, candidates, now, ids);
    FirstWins(s, candidates, Matched(s, candidates, now, ids), c);
  }
}
