/** What the operator last asked for is what holds, and what viewers were told of alerts that left agrees with the
counters, over every run. */
module AlertControls {
  import AlertQueueSpec
  import AlertStock
  import opened Common
  import opened Rings
  import opened Sorting
  import opened AlertModel
  import opened AlertScreen
  import opened AlertSpec

  // ----- settings -----

  datatype Settings = Settings(paused: bool, enabled: bool, maxItems: int, maxAge: int)

  /** The pause flag last asked for, and the configuration last applied. */
  function LastAsked(start: Settings, actions: seq<Action>): Settings {
    if actions == [] then start
    else
      var before := LastAsked(start, actions[..|actions| - 1]);
      match actions[|actions| - 1]
      case DoPause(paused) => before.(paused := paused)
      case DoApply(enabled, maxItems, maxAge) => Settings(before.paused, enabled, maxItems, maxAge)
      case _ => before
  }

  function SettingsOf(s: Runtime): Settings {
    Settings(s.screen.paused, s.enabled, s.maxItems, s.maxAge)
  }

  lemma PromoteKeepsSettings(s: Runtime, now: int)
    ensures SettingsOf(Promote(s, now)) == SettingsOf(s)
  {
  }

  lemma TickKeepsSettings(s: Runtime, now: int, answer: AudioState)
    ensures SettingsOf(Tick(s, now, answer)) == SettingsOf(s)
  {
    PromoteKeepsSettings(Finish(s, now, answer), now);
  }

  lemma ArriveKeepsSettings(s: Runtime, inst: Instance, now: int, ids: IdSupply, mayPreempt: bool)
    ensures SettingsOf(Arrive(s, inst, now, ids, mayPreempt)) == SettingsOf(s)
  {
  }

  lemma {:induction false} ArriveAllKeepsSettings(s: Runtime, list: seq<Instance>, now: int, ids: IdSupply, mayPreempt: bool)
    ensures SettingsOf(ArriveAll(s, list, now, ids, mayPreempt)) == SettingsOf(s)
    decreases |list|
  {
    if list != [] {
      ArriveKeepsSettings(s, list[0], now, ids, mayPreempt);
      var next := Arrive(s, list[0], now, ids, mayPreempt);
      ArriveAllKeepsSettings(next, list[1..], now, ids, mayPreempt && !CanPreempt(s, list[0]));
    }
  }

  /** Over every run the queue is paused, the profile enabled and its limits set as was last asked; no alert, poll or
      other command changes that. */
  lemma {:induction false} AsLastAsked(s: Runtime, actions: seq<Action>, ids: IdSupply)
    ensures SettingsOf(Run(s, actions, ids)) == LastAsked(SettingsOf(s), actions)
  {
    if actions != [] {
      var before := Run(s, actions[..|actions| - 1], ids);
      AsLastAsked(s, actions[..|actions| - 1], ids);
      match actions[|actions| - 1]
      case DoTick(now, answer) => TickKeepsSettings(before, now, answer);
      case DoMatched(candidates, now) => ArriveAllKeepsSettings(before, Sort(candidates, HandledBefore), now, ids, true);
      case DoSkip(now) => PromoteKeepsSettings(Complete(before, Skipped), now);
      case _ =>
    }
  }

  // ----- what viewers were told -----

  /** How often viewers were told that an alert left for this reason. */
  function ToldGone(log: Log, reason: HideReason): nat {
    if log == [] then 0
    else
      var last := log[|log| - 1].payload;
      ToldGone(log[..|log| - 1], reason) + if last.Hide? && last.reason == reason then 1 else 0
  }

  /** Until the stream is closed viewers are told of each alert that leaves, with the reason it is counted under. */
  ghost predicate ToldAsCounted(s: Runtime) {
    !s.screen.closed ==>
      && ToldGone(s.screen.log, Completed) == s.tally.played && ToldGone(s.screen.log, Skipped) == s.tally.skipped
      && ToldGone(s.screen.log, Preempted) == s.tally.preempted
      && ToldGone(s.screen.log, ProfileDisabled) == s.tally.hiddenByDisable
  }

  lemma OneMoreTold(log: Log, rev: Revision, reason: HideReason)
    ensures ToldGone(log + [Entry(|log| + 1, rev)], reason)
            == ToldGone(log, reason) + if rev.Hide? && rev.reason == reason then 1 else 0
  {
    assert (log + [Entry(|log| + 1, rev)])[..|log|] == log;
  }

  lemma StartTells(s: Runtime, inst: Instance, now: int)
    requires ToldAsCounted(s)
    ensures ToldAsCounted(Start(s, inst, now))
  {
    forall reason: HideReason ensures ToldGone(Start(s, inst, now).screen.log, reason) == ToldGone(s.screen.log, reason) {
      OneMoreTold(s.screen.log, Show(ToPublic(inst), s.screen.paused), reason);
    }
  }

  lemma CompleteTells(s: Runtime, reason: HideReason)
    requires ToldAsCounted(s) && reason != ProfileDisabled
    ensures ToldAsCounted(Complete(s, reason))
  {
    if s.screen.current.Some? {
      var rev := Hide(s.screen.current.value.id, reason, s.screen.paused);
      OneMoreTold(s.screen.log, rev, Completed);
      OneMoreTold(s.screen.log, rev, Skipped);
      OneMoreTold(s.screen.log, rev, Preempted);
      OneMoreTold(s.screen.log, rev, ProfileDisabled);
    }
  }

  lemma PromoteTells(s: Runtime, now: int)
    requires ToldAsCounted(s)
    ensures ToldAsCounted(Promote(s, now))
  {
    if s.pendingReplay.Some? {
      StartTells(s.(pendingReplay := None, tally := s.tally.(replayed := s.tally.replayed + 1)), s.pendingReplay.value, now);
    } else {
      var r := AlertQueueSpec.PopNext(s.stock.items, s.maxAge, now);
      if r.item.Some? {
        var taken := s.(stock := AlertStock.Take(s.stock, s.maxAge, now), tally := CountTaken(s.tally, r));
        StartTells(taken, r.item.value.inst, now);
      }
    }
  }

  lemma TickTells(s: Runtime, now: int, answer: AudioState)
    requires ToldAsCounted(s)
    ensures ToldAsCounted(Tick(s, now, answer))
  {
    if s.enabled {
      var done := Finish(s, now, answer);
      CompleteTells(AfterHoldCheck(s, now), Completed);
      if !done.screen.paused && done.screen.current.None? { PromoteTells(done, now); }
    }
  }

  lemma SameCountsSameTelling(s: Runtime, t: Runtime)
    requires ToldAsCounted(s) && t.screen == s.screen
    requires t.tally.played == s.tally.played && t.tally.skipped == s.tally.skipped
    requires t.tally.preempted == s.tally.preempted && t.tally.hiddenByDisable == s.tally.hiddenByDisable
    ensures ToldAsCounted(t)
  {
  }

  lemma PreemptTells(s: Runtime, inst: Instance, now: int, ids: IdSupply)
    requires ToldAsCounted(s)
    ensures ToldAsCounted(Preempt(s, inst, now, ids))
  {
    var done := Complete(s, Preempted);
    CompleteTells(s, Preempted);
    SameCountsSameTelling(done, done.(idCalls := s.idCalls + 1));
    StartTells(done.(idCalls := s.idCalls + 1), WithId(inst, ids(s.idCalls)), now);
  }

  lemma EnqueueTells(s: Runtime, inst: Instance, now: int, ids: IdSupply)
    requires ToldAsCounted(s)
    ensures ToldAsCounted(Enqueue(s, inst, now, ids))
  {
    SameCountsSameTelling(s, Enqueue(s, inst, now, ids));
  }

  lemma ArriveTells(s: Runtime, inst: Instance, now: int, ids: IdSupply, mayPreempt: bool)
    requires ToldAsCounted(s)
    ensures ToldAsCounted(Arrive(s, inst, now, ids, mayPreempt))
  {
    var counted := CountArrival(s);
    var i := GroupIndex(counted, inst, now);
    SameCountsSameTelling(s, counted);
    if mayPreempt && CanPreempt(counted, inst) {
      PreemptTells(counted, inst, now, ids);
    } else if i.Some? {
      SameCountsSameTelling(s, Join(counted, i.value, inst, now));
    } else {
      EnqueueTells(counted, inst, now, ids);
    }
  }

  lemma {:induction false} ArriveAllTells(s: Runtime, list: seq<Instance>, now: int, ids: IdSupply, mayPreempt: bool)
    requires ToldAsCounted(s)
    ensures ToldAsCounted(ArriveAll(s, list, now, ids, mayPreempt))
    decreases |list|
  {
    if list != [] {
      ArriveTells(s, list[0], now, ids, mayPreempt);
      ArriveAllTells(Arrive(s, list[0], now, ids, mayPreempt), list[1..], now, ids, mayPreempt && !CanPreempt(s, list[0]));
    }
  }

  lemma ApplyTells(s: Runtime, enabled: bool, maxItems: int, maxAge: int)
    requires ToldAsCounted(s)
    ensures ToldAsCounted(ApplyProfile(s, enabled, maxItems, maxAge))
  {
    if s.screen.current.Some? {
      var rev := Hide(s.screen.current.value.id, ProfileDisabled, s.screen.paused);
      OneMoreTold(s.screen.log, rev, Completed);
      OneMoreTold(s.screen.log, rev, Skipped);
      OneMoreTold(s.screen.log, rev, Preempted);
      OneMoreTold(s.screen.log, rev, ProfileDisabled);
    }
  }

  lemma PauseTells(s: Runtime, paused: bool)
    requires ToldAsCounted(s)
    ensures ToldAsCounted(SetPaused(s, paused))
  {
    forall reason: HideReason ensures ToldGone(SetPaused(s, paused).screen.log, reason) == ToldGone(s.screen.log, reason) {
      OneMoreTold(s.screen.log, PauseChanged(paused), reason);
    }
  }

  /** Over every run: until its stream is closed, viewers were told of exactly the alerts counted as played, skipped,
      preempted or hidden by disabling, each under that reason. */
  lemma {:induction false} ViewersAreToldWhy(
      enabled: bool, maxItems: int, maxAge: int, audioLinked: bool, actions: seq<Action>, ids: IdSupply)
    ensures ToldAsCounted(Run(Initial(enabled, maxItems, maxAge, audioLinked), actions, ids))
  {
    if actions != [] {
      var s := Run(Initial(enabled, maxItems, maxAge, audioLinked), actions[..|actions| - 1], ids);
      ViewersAreToldWhy(enabled, maxItems, maxAge, audioLinked, actions[..|actions| - 1], ids);
      match actions[|actions| - 1]
      case DoTick(now, answer) => TickTells(s, now, answer);
      case DoMatched(candidates, now) => ArriveAllTells(s, Sort(candidates, HandledBefore), now, ids, true);
      case DoTest(inst, now) =>
        SameCountsSameTelling(s, CountArrival(s));
        PreemptTells(CountArrival(s), inst, now, ids);
        EnqueueTells(CountArrival(s), inst, now, ids);
      case DoPause(paused) => PauseTells(s, paused);
      case DoSkip(now) =>
        CompleteTells(s, Skipped);
        if s.screen.current.Some? && !s.screen.paused { PromoteTells(Complete(s, Skipped), now); }
      case DoApply(on, max, age) => ApplyTells(s, on, max, age);
      case _ =>
    }
  }

  /** An alert hidden by disabling is not remembered for a replay, any other that leaves the screen is. */
  lemma {:induction false} DisablingIsNotRemembered(s: Runtime, enabled: bool, maxItems: int, maxAge: int, ids: IdSupply)
    ensures var t := Step(s, DoApply(enabled, maxItems, maxAge), ids);
            && t.lastCompleted == s.lastCompleted
            && (s.enabled && !enabled ==> t.screen.current.None? && t.stock.items == [] && t.pendingReplay.None?)
            && (!(s.enabled && !enabled) ==>
                  t.screen == s.screen && t.stock == s.stock && t.pendingReplay == s.pendingReplay && t.tally == s.tally)
  {
  }

  // ----- a closed stream -----

  /** Nothing more is said on a closed stream. */
  predicate Silent(s: Runtime, t: Runtime) {
    s.screen.closed ==> t.screen.closed && t.screen.log == s.screen.log
  }

  lemma PromoteIsSilent(s: Runtime, now: int)
    ensures Silent(s, Promote(s, now))
  {
  }

  lemma TickIsSilent(s: Runtime, now: int, answer: AudioState)
    ensures Silent(s, Tick(s, now, answer))
  {
    PromoteIsSilent(Finish(s, now, answer), now);
  }

  lemma {:induction false} ArriveAllIsSilent(s: Runtime, list: seq<Instance>, now: int, ids: IdSupply, mayPreempt: bool)
    ensures Silent(s, ArriveAll(s, list, now, ids, mayPreempt))
    decreases |list|
  {
    if list != [] {
      ArriveIsSilent(s, list[0], now, ids, mayPreempt);
      ArriveAllIsSilent(Arrive(s, list[0], now, ids, mayPreempt), list[1..], now, ids, mayPreempt && !CanPreempt(s, list[0]));
    }
  }

  lemma ArriveIsSilent(s: Runtime, inst: Instance, now: int, ids: IdSupply, mayPreempt: bool)
    ensures Silent(s, Arrive(s, inst, now, ids, mayPreempt))
  {
  }

  lemma StepIsSilent(s: Runtime, a: Action, ids: IdSupply)
    ensures Silent(s, Step(s, a, ids))
  {
    match a
    case DoTick(now, answer) => TickIsSilent(s, now, answer);
    case DoMatched(candidates, now) => ArriveAllIsSilent(s, Sort(candidates, HandledBefore), now, ids, true);
    case DoSkip(now) => PromoteIsSilent(Complete(s, Skipped), now);
    case _ =>
  }

  /** From the shutdown on the public log stays as it was, whatever follows. */
  lemma {:induction false} NothingAfterTheEnd(s: Runtime, actions: seq<Action>, ids: IdSupply)
    ensures var t := Run(Step(s, DoShut, ids), actions, ids); t.screen.closed && t.screen.log == s.screen.log
  {
    if actions != [] {
      var before := Run(Step(s, DoShut, ids), actions[..|actions| - 1], ids);
      NothingAfterTheEnd(s, actions[..|actions| - 1], ids);
      StepIsSilent(before, actions[|actions| - 1], ids);
    }
  }
}
