/** How long an alert stays on screen, over every run, from the time it was put there.

Times and durations are the caller's; what is proved in the end says nothing of what the engine stores. */
module AlertDuration {
  import opened Sorting
  import opened AlertModel
  import opened AlertScreen
  import opened AlertSpec
  import Ledger = AlertLedger

  /** How many alerts have left the screen, each for one of four reasons. */
  function Endings(t: Tally): nat {
    t.played + t.skipped + t.preempted + t.hiddenByDisable
  }

  /** The step put an alert on screen: none was there before, or the one that was has left. */
  predicate PutsUp(s: Runtime, t: Runtime) {
    t.screen.current.Some? && (s.screen.current.None? || Endings(t.tally) > Endings(s.tally))
  }

  function TimeOf(a: Action): int {
    match a
    case DoTick(now, _) => now
    case DoMatched(_, now) => now
    case DoTest(_, now) => now
    case DoSkip(now) => now
    case _ => 0
  }

  /** When the alert on screen was put there. */
  function ShownSince(s: Runtime, actions: seq<Action>, ids: IdSupply): int {
    if actions == [] then 0
    else
      var p, a := actions[..|actions| - 1], actions[|actions| - 1];
      if PutsUp(Run(s, p, ids), Run(s, actions, ids)) then TimeOf(a) else ShownSince(s, p, ids)
  }

  /** The alert on screen was put there at `since`. */
  predicate DueBy(s: Runtime, since: int) {
    s.screen.current.Some? ==> s.screen.deadline == since + s.screen.current.value.durationMs * 1_000_000
  }

  /** A step at `now` that leaves the screen alone, clears it, or puts an alert up then. */
  ghost predicate Timed(s: Runtime, t: Runtime, now: int) {
    || (t.screen.current == s.screen.current && t.screen.deadline == s.screen.deadline && Endings(t.tally) == Endings(s.tally))
    || t.screen.current.None?
    || (PutsUp(s, t) && DueBy(t, now))
  }

  lemma {:induction false} PromoteIsTimed(s: Runtime, t: Runtime, now: int)
    requires t.screen.current.None? && (s.screen.current.None? || Endings(t.tally) > Endings(s.tally))
    ensures Timed(s, Promote(t, now), now)
  {
  }

  lemma {:induction false} TickIsTimed(s: Runtime, now: int, answer: AudioState)
    ensures Timed(s, Tick(s, now, answer), now)
  {
    if s.enabled {
      var done := Finish(s, now, answer);
      if !done.screen.paused && done.screen.current.None? { PromoteIsTimed(s, done, now); }
    }
  }

  lemma {:induction false} SkipIsTimed(s: Runtime, now: int)
    ensures Timed(s, SkipCurrent(s, now), now)
  {
    if s.screen.current.Some? && !s.screen.paused { PromoteIsTimed(s, Complete(s, Skipped), now); }
  }

  lemma {:induction false} PreemptIsTimed(s: Runtime, inst: Instance, now: int, ids: IdSupply)
    requires s.screen.current.Some?
    ensures Timed(s, Preempt(CountArrival(s), inst, now, ids), now)
  {
    assert Endings(Complete(CountArrival(s), Preempted).tally) == Endings(s.tally) + 1;
  }

  lemma {:induction false} QuietArrival(s: Runtime, inst: Instance, now: int, ids: IdSupply, mayPreempt: bool)
    requires !(mayPreempt && CanPreempt(s, inst))
    ensures var t := Arrive(s, inst, now, ids, mayPreempt); t.screen == s.screen && Endings(t.tally) == Endings(s.tally)
  {
    var counted := CountArrival(s);
    var i := GroupIndex(counted, inst, now);
    if i.Some? {
      assert Endings(Join(counted, i.value, inst, now).tally) == Endings(s.tally);
    } else {
      assert Endings(Enqueue(counted, inst, now, ids).tally) == Endings(s.tally);
    }
  }

  lemma {:induction false} ArriveIsTimed(s: Runtime, inst: Instance, now: int, ids: IdSupply, mayPreempt: bool)
    ensures Timed(s, Arrive(s, inst, now, ids, mayPreempt), now)
  {
    if mayPreempt && CanPreempt(s, inst) {
      PreemptIsTimed(s, inst, now, ids);
    } else {
      QuietArrival(s, inst, now, ids, mayPreempt);
    }
  }

  lemma {:induction false} ArriveAllIsTimed(s: Runtime, list: seq<Instance>, now: int, ids: IdSupply, mayPreempt: bool)
    ensures Timed(s, ArriveAll(s, list, now, ids, mayPreempt), now)
    ensures !mayPreempt ==>
              ArriveAll(s, list, now, ids, mayPreempt).screen == s.screen
              && Endings(ArriveAll(s, list, now, ids, mayPreempt).tally) == Endings(s.tally)
    decreases |list|
  {
    if list != [] {
      ArriveIsTimed(s, list[0], now, ids, mayPreempt);
      if !(mayPreempt && CanPreempt(s, list[0])) { QuietArrival(s, list[0], now, ids, mayPreempt); }
      ArriveAllIsTimed(Arrive(s, list[0], now, ids, mayPreempt), list[1..], now, ids, mayPreempt && !CanPreempt(s, list[0]));
    }
  }

  lemma {:induction false} TestIsTimed(s: Runtime, inst: Instance, now: int, ids: IdSupply)
    ensures Timed(s, Test(s, inst, now, ids), now)
  {
    if CanPreempt(s, inst) {
      PreemptIsTimed(s, inst, now, ids);
    } else {
      assert Endings(Enqueue(CountArrival(s), inst, now, ids).tally) == Endings(s.tally);
    }
  }

  lemma {:induction false} StepIsTimed(s: Runtime, a: Action, ids: IdSupply)
    ensures Timed(s, Step(s, a, ids), TimeOf(a))
  {
    match a
    case DoTick(now, answer) => TickIsTimed(s, now, answer);
    case DoMatched(candidates, now) => if s.enabled { ArriveAllIsTimed(s, Sort(candidates, HandledBefore), now, ids, true); }
    case DoTest(inst, now) => TestIsTimed(s, inst, now, ids);
    case DoSkip(now) => SkipIsTimed(s, now);
    case _ =>
  }

  lemma {:induction false} RunIsTimed(s: Runtime, actions: seq<Action>, ids: IdSupply)
    requires s.screen.current.None?
    ensures DueBy(Run(s, actions, ids), ShownSince(s, actions, ids))
  {
    if actions != [] {
      var p, a := actions[..|actions| - 1], actions[|actions| - 1];
      RunIsTimed(s, p, ids);
      StepIsTimed(Run(s, p, ids), a, ids);
    }
  }

  /** The linked audio of the alert still runs, and its time on screen is over by less than fifteen seconds. */
  predicate AudioHolds(s: Runtime, over: int, now: int, answer: AudioState) {
    && s.audioLinked && s.screen.current.Some? && s.screen.current.value.audio.Some?
    && now < over + 15_000_000_000 && (answer == Started || answer == Playing)
  }

  /** A poll that ends an alert with audio calls the audio off, and once more if its time was over by fifteen seconds. */
  predicate Cancels(s: Runtime, t: Runtime, over: int, now: int) {
    t.tally.played > s.tally.played && s.audioLinked && s.screen.current.Some? && s.screen.current.value.audio.Some? ==>
      var call := CancelAudio(s.screen.current.value.id);
      s.audio + (if now >= over + 15_000_000_000 then [call, call] else [call]) <= t.audio
  }

  lemma {:induction false} PollCancels(s: Runtime, over: int, now: int, answer: AudioState)
    requires s.enabled && s.screen.current.Some? && s.screen.deadline == over
    ensures Cancels(s, Tick(s, now, answer), over, now)
  {
    var done := Finish(s, now, answer);
    if done.screen.current.None? && !done.screen.paused { PromoteAdds(done, now); }
  }

  lemma PromoteAdds(s: Runtime, now: int)
    ensures s.audio <= Promote(s, now).audio && Promote(s, now).tally.played == s.tally.played
  {
  }

  lemma {:induction false} PollAt(s: Runtime, over: int, now: int, answer: AudioState)
    requires s.enabled && s.screen.current.Some? && s.screen.deadline == over
    ensures var t := Tick(s, now, answer);
            && (now < over || AudioHolds(s, over, now, answer) ==> t == s)
            && (now >= over && !AudioHolds(s, over, now, answer) ==>
                  t.tally.played == s.tally.played + 1 && t.lastCompleted == s.screen.current
                  && (t.screen.current.None? || PutsUp(s, t)))
  {
  }

  /** Over every run, for the alert on screen: no poll before the time it was put up plus its duration changes anything;
      a poll at or after that time ends it, unless its audio holds it, and then changes nothing either. */
  lemma {:induction false} ShownForItsDuration(
      enabled: bool, maxItems: int, maxAge: int, audioLinked: bool, actions: seq<Action>, ids: IdSupply,
      now: int, answer: AudioState)
    requires Run(Initial(enabled, maxItems, maxAge, audioLinked), actions, ids).screen.current.Some?
    ensures var s := Run(Initial(enabled, maxItems, maxAge, audioLinked), actions, ids);
            var over := ShownSince(Initial(enabled, maxItems, maxAge, audioLinked), actions, ids)
                        + s.screen.current.value.durationMs * 1_000_000;
            var t := Step(s, DoTick(now, answer), ids);
            && Cancels(s, t, over, now)
            && (now < over || AudioHolds(s, over, now, answer) ==> t == s)
            && (now >= over && !AudioHolds(s, over, now, answer) ==>
                  t.tally.played == s.tally.played + 1 && t.lastCompleted == s.screen.current
                  && (t.screen.current.None? || PutsUp(s, t)))
  {
    var start := Initial(enabled, maxItems, maxAge, audioLinked);
    var s := Run(start, actions, ids);
    Ledger.DisabledShowsNothing(enabled, maxItems, maxAge, audioLinked, actions, ids);
    RunIsTimed(start, actions, ids);
    PollCancels(s, ShownSince(start, actions, ids) + s.screen.current.value.durationMs * 1_000_000, now, answer);
    PollAt(s, ShownSince(start, actions, ids) + s.screen.current.value.durationMs * 1_000_000, now, answer);
  }
}
