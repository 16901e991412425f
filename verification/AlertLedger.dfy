/** Over every run: the public log is a faithful replica of the screen, and the books balance. */
module AlertLedger {
  import opened Common
  import opened Sorting
  import opened AlertModel
  import opened AlertQueueSpec
  import opened AlertScreen
  import opened AlertStock
  import opened AlertSpec

  function Count(left: seq<Departure>, fate: Fate): nat {
    if left == [] then 0
    else Count(left[..|left| - 1], fate) + if left[|left| - 1].fate == fate then 1 else 0
  }

  lemma {:induction false} CountDeparting(left: seq<Departure>, items: seq<Item>, cause: Fate, fate: Fate)
    ensures Count(left + Departing(items, cause), fate) == Count(left, fate) + if cause == fate then |items| else 0
  {
    if items == [] {
      assert left + Departing(items, cause) == left;
    } else {
      var n := |items| - 1;
      CountDeparting(left, items[..n], cause, fate);
      assert left + Departing(items, cause) == left + Departing(items[..n], cause) + [Departure(items[n].ticket, cause)];
    }
  }

  lemma {:induction false} CountAll(left: seq<Departure>)
    ensures Count(left, Evicted) + Count(left, Fate.Expired) + Count(left, Cleared) + Count(left, Fate.Played) == |left|
  {
    if left != [] {
      CountAll(left[..|left| - 1]);
    }
  }

  function Present(current: Option<Instance>): nat {
    if current.Some? then 1 else 0
  }

  /** The counters agree with where the alerts went. `shown` is how many alerts the screen shows now. */
  ghost predicate Balanced(t: Tally, st: Stock, shown: nat) {
    && Conserved(st)
    && t.enqueued == st.next
    && t.expired == Count(st.left, Fate.Expired)
    && t.dropped == t.rejected + Count(st.left, Evicted)
    && Count(st.left, Fate.Played) + t.replayed == t.played + t.skipped + t.hiddenByDisable + shown
    && t.offered == t.enqueued + t.rejected + t.groupedMembers + t.preempted
  }

  ghost predicate Inv(s: Runtime) {
    && Faithful(s.screen) && Balanced(s.tally, s.stock, Present(s.screen.current))
    && (!s.enabled ==> s.screen.current.None?)
  }

  // ----- the books, operation by operation -----

  lemma {:induction false} AdmitBalances(t: Tally, st: Stock, shown: nat, maxItems: int, inst: Instance, now: int)
    requires Balanced(t.(offered := if t.offered == 0 then 0 else t.offered - 1), st, shown) && t.offered > 0
    ensures Balanced(CountOffer(t, Offer(st.items, st.next, maxItems, inst), inst), Admit(st, maxItems, inst, now), shown)
  {
    var o := Offer(st.items, st.next, maxItems, inst);
    AdmitConserves(st, maxItems, inst, now);
    if o.evicted.Some? {
      CountDeparting(st.left, [o.evicted.value], Evicted, Evicted);
      CountDeparting(st.left, [o.evicted.value], Evicted, Fate.Expired);
      CountDeparting(st.left, [o.evicted.value], Evicted, Fate.Played);
    } else {
      assert st.left + [] == st.left;
    }
  }

  /** How the departures of one pop count. */
  lemma {:induction false} TakeCounts(st: Stock, maxAge: int, now: int, fate: Fate)
    ensures var r := PopNext(st.items, maxAge, now);
            Count(Take(st, maxAge, now).left, fate) == Count(st.left, fate)
              + (if fate == Fate.Expired then |r.expired| else 0) + (if fate == Fate.Played && r.item.Some? then 1 else 0)
  {
    var r := PopNext(st.items, maxAge, now);
    var left := st.left + Departing(r.expired, Fate.Expired);
    CountDeparting(st.left, r.expired, Fate.Expired, fate);
    if r.item.Some? {
      CountDeparting(left, [r.item.value], Fate.Played, fate);
    } else {
      assert left + [] == left;
    }
  }

  lemma {:induction false} TakeBalances(t: Tally, st: Stock, maxAge: int, now: int)
    requires Balanced(t, st, 0)
    ensures var r := PopNext(st.items, maxAge, now);
            Balanced(CountTaken(t, r), Take(st, maxAge, now), if r.item.Some? then 1 else 0)
  {
    TakeConserves(st, maxAge, now);
    TakeCounts(st, maxAge, now, Evicted);
    TakeCounts(st, maxAge, now, Fate.Expired);
    TakeCounts(st, maxAge, now, Fate.Played);
  }

  lemma {:induction false} EmptyBalances(t: Tally, st: Stock, shown: nat)
    requires Balanced(t, st, shown)
    ensures Balanced(t, Empty(st), shown)
  {
    EmptyConserves(st);
    CountDeparting(st.left, st.items, Cleared, Evicted);
    CountDeparting(st.left, st.items, Cleared, Fate.Expired);
    CountDeparting(st.left, st.items, Cleared, Fate.Played);
  }

  // ----- the invariant, transition by transition -----

  lemma {:induction false} CompleteKeepsInv(s: Runtime, reason: HideReason)
    requires Faithful(s.screen) && Balanced(s.tally, s.stock, Present(s.screen.current))
    requires reason == Completed || reason == Skipped
    ensures Faithful(Complete(s, reason).screen) && Balanced(Complete(s, reason).tally, s.stock, 0)
    ensures Complete(s, reason).screen.current.None? && Complete(s, reason).stock == s.stock
  {
    HideKeepsFaith(s.screen, reason);
  }

  lemma {:induction false} PromoteKeepsInv(s: Runtime, now: int)
    requires Faithful(s.screen) && Balanced(s.tally, s.stock, 0) && s.screen.current.None?
    ensures var p := Promote(s, now); Faithful(p.screen) && Balanced(p.tally, p.stock, Present(p.screen.current))
  {
    if s.pendingReplay.Some? {
      ShowKeepsFaith(s.screen, s.pendingReplay.value, now);
    } else {
      TakeBalances(s.tally, s.stock, s.maxAge, now);
      var r := PopNext(s.stock.items, s.maxAge, now);
      if r.item.Some? {
        ShowKeepsFaith(s.screen, r.item.value.inst, now);
      }
    }
  }

  lemma {:induction false} FinishKeepsInv(s: Runtime, now: int, answer: AudioState)
    requires Inv(s)
    ensures var done := Finish(s, now, answer);
            && Faithful(done.screen) && Balanced(done.tally, done.stock, Present(done.screen.current))
            && done.enabled == s.enabled
  {
    if s.screen.current.Some? && now >= s.screen.deadline && !Held(s, now, answer) {
      CompleteKeepsInv(AfterHoldCheck(s, now), Completed);
    }
  }

  lemma {:induction false} TickKeepsInv(s: Runtime, now: int, answer: AudioState)
    requires Inv(s)
    ensures Inv(Tick(s, now, answer))
  {
    if s.enabled {
      var done := Finish(s, now, answer);
      FinishKeepsInv(s, now, answer);
      if !done.screen.paused && done.screen.current.None? {
        PromoteKeepsInv(done, now);
      }
    }
  }

  lemma {:induction false} PreemptKeepsInv(s: Runtime, inst: Instance, now: int, ids: IdSupply)
    requires Faithful(s.screen) && s.screen.current.Some? && s.tally.offered > 0
    requires Balanced(s.tally.(offered := s.tally.offered - 1), s.stock, 1)
    ensures var p := Preempt(s, inst, now, ids);
            Faithful(p.screen) && Balanced(p.tally, p.stock, Present(p.screen.current)) && p.screen.current.Some?
  {
    HideKeepsFaith(s.screen, Preempted);
    ShowKeepsFaith(HideOn(s.screen, Preempted), WithId(inst, ids(s.idCalls)), now);
  }

  lemma {:induction false} EnqueueKeepsInv(s: Runtime, inst: Instance, now: int, ids: IdSupply)
    requires s.tally.offered > 0
    requires Balanced(s.tally.(offered := s.tally.offered - 1), s.stock, Present(s.screen.current))
    ensures var e := Enqueue(s, inst, now, ids);
            Balanced(e.tally, e.stock, Present(e.screen.current)) && e.screen == s.screen && e.enabled == s.enabled
  {
    AdmitBalances(s.tally, s.stock, Present(s.screen.current), s.maxItems, WithId(inst, ids(s.idCalls)), now);
  }

  lemma {:induction false} ArriveKeepsInv(s: Runtime, inst: Instance, now: int, ids: IdSupply, mayPreempt: bool)
    requires Inv(s)
    ensures Inv(Arrive(s, inst, now, ids, mayPreempt)) && Arrive(s, inst, now, ids, mayPreempt).enabled == s.enabled
  {
    var counted := CountArrival(s);
    var i := GroupIndex(counted, inst, now);
    assert counted.tally.(offered := counted.tally.offered - 1) == s.tally;
    if mayPreempt && CanPreempt(counted, inst) {
      PreemptKeepsInv(counted, inst, now, ids);
    } else if i.Some? {
      MergeConserves(s.stock, i.value, inst, now);
    } else {
      EnqueueKeepsInv(counted, inst, now, ids);
    }
  }

  lemma {:induction false} ArriveAllKeepsInv(s: Runtime, list: seq<Instance>, now: int, ids: IdSupply, mayPreempt: bool)
    requires Inv(s)
    ensures Inv(ArriveAll(s, list, now, ids, mayPreempt))
    decreases |list|
  {
    if list != [] {
      ArriveKeepsInv(s, list[0], now, ids, mayPreempt);
      ArriveAllKeepsInv(Arrive(s, list[0], now, ids, mayPreempt), list[1..], now, ids, mayPreempt && !CanPreempt(s, list[0]));
    }
  }

  lemma {:induction false} SkipKeepsInv(s: Runtime, now: int)
    requires Inv(s)
    ensures Inv(SkipCurrent(s, now))
  {
    if s.screen.current.Some? {
      CompleteKeepsInv(s, Skipped);
      if !s.screen.paused {
        PromoteKeepsInv(Complete(s, Skipped), now);
      }
    }
  }

  lemma {:induction false} ApplyKeepsInv(s: Runtime, enabled: bool, maxItems: int, maxAge: int)
    requires Inv(s)
    ensures Inv(ApplyProfile(s, enabled, maxItems, maxAge))
  {
    if s.enabled && !enabled {
      EmptyBalances(s.tally, s.stock, Present(s.screen.current));
      HideKeepsFaith(s.screen, ProfileDisabled);
    }
  }

  lemma {:induction false} TestKeepsInv(s: Runtime, inst: Instance, now: int, ids: IdSupply)
    requires Inv(s)
    ensures Inv(Test(s, inst, now, ids))
  {
    var counted := CountArrival(s);
    assert counted.tally.(offered := counted.tally.offered - 1) == s.tally;
    if CanPreempt(counted, inst) {
      PreemptKeepsInv(counted, inst, now, ids);
    } else {
      EnqueueKeepsInv(counted, inst, now, ids);
    }
  }

  lemma {:induction false} MatchedKeepsInv(s: Runtime, candidates: seq<Instance>, now: int, ids: IdSupply)
    requires Inv(s)
    ensures Inv(Matched(s, candidates, now, ids))
  {
    ArriveAllKeepsInv(s, Sort(candidates, HandledBefore), now, ids, true);
  }

  lemma {:induction false} StepKeepsInv(s: Runtime, a: Action, ids: IdSupply)
    requires Inv(s)
    ensures Inv(Step(s, a, ids))
  {
    match a
    case DoTick(now, answer) => TickKeepsInv(s, now, answer);
    case DoMatched(candidates, now) => MatchedKeepsInv(s, candidates, now, ids);
    case DoTest(inst, now) => TestKeepsInv(s, inst, now, ids);
    case DoPause(paused) => PauseKeepsFaith(s.screen, paused);
    case DoSkip(now) => SkipKeepsInv(s, now);
    case DoReplay =>
    case DoClear => EmptyBalances(s.tally, s.stock, Present(s.screen.current));
    case DoApply(enabled, maxItems, maxAge) => ApplyKeepsInv(s, enabled, maxItems, maxAge);
    case DoShut =>
  }

  lemma {:induction false} RunKeepsInv(s: Runtime, actions: seq<Action>, ids: IdSupply)
    requires Inv(s)
    ensures Inv(Run(s, actions, ids))
  {
    if actions != [] {
      RunKeepsInv(s, actions[..|actions| - 1], ids);
      StepKeepsInv(Run(s, actions[..|actions| - 1], ids), actions[|actions| - 1], ids);
    }
  }

  /** Replica, over every run: the log is numbered, shows and hides alternate with matching ids, and until
      shutdown folding the log gives exactly the current alert's public form and the pause flag. */
  lemma {:induction false} LogIsReplica(
      enabled: bool, maxItems: int, maxAge: int, audioLinked: bool, actions: seq<Action>, ids: IdSupply)
    ensures Faithful(Run(Initial(enabled, maxItems, maxAge, audioLinked), actions, ids).screen)
  {
    RunKeepsInv(Initial(enabled, maxItems, maxAge, audioLinked), actions, ids);
  }

  /** Balanced books account for every admitted alert: it is queued, or it left in one of four ways. */
  lemma {:induction false} AdmittedAreAccountedFor(t: Tally, st: Stock, shown: nat)
    requires Balanced(t, st, shown)
    ensures t.enqueued ==
            |st.items| + Count(st.left, Evicted) + t.expired + Count(st.left, Cleared) + Count(st.left, Fate.Played)
  {
    CountAll(st.left);
    assert |multiset(Tickets(st.items)) + multiset(Gone(st.left))| == |multiset(Below(st.next))|;
  }

  /** Ledger, over every run: no alert is lost or counted twice. */
  lemma {:induction false} LedgerBalances(
      enabled: bool, maxItems: int, maxAge: int, audioLinked: bool, actions: seq<Action>, ids: IdSupply)
    ensures var s := Run(Initial(enabled, maxItems, maxAge, audioLinked), actions, ids);
            var t, left := s.tally, s.stock.left;
            && Conserved(s.stock)
            && t.enqueued == |s.stock.items| + Count(left, Evicted) + t.expired + Count(left, Cleared) + Count(left, Fate.Played)
            && t.dropped == t.rejected + Count(left, Evicted)
            && Count(left, Fate.Played) + t.replayed == t.played + t.skipped + t.hiddenByDisable + Present(s.screen.current)
            && t.offered == t.enqueued + t.rejected + t.groupedMembers + t.preempted
  {
    RunKeepsInv(Initial(enabled, maxItems, maxAge, audioLinked), actions, ids);
    var s := Run(Initial(enabled, maxItems, maxAge, audioLinked), actions, ids);
    AdmittedAreAccountedFor(s.tally, s.stock, Present(s.screen.current));
  }

  /** A disabled profile shows nothing, over every run. */
  lemma {:induction false} DisabledShowsNothing(
      enabled: bool, maxItems: int, maxAge: int, audioLinked: bool, actions: seq<Action>, ids: IdSupply)
    ensures var s := Run(Initial(enabled, maxItems, maxAge, audioLinked), actions, ids);
            !s.enabled ==> s.screen.current.None?
  {
    RunKeepsInv(Initial(enabled, maxItems, maxAge, audioLinked), actions, ids);
  }
}
